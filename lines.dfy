/** Splitting text at line feeds and joining it back: what `str.split('\n')`
    and `'\n'.join` do, and what a multi-line `^...$` regular expression rule
    sees as its lines. */
module Lines {

  /** `'\n'.join(ls)`. */
  function JoinLines(ls: seq<string>): string
  {
    if ls == [] then "" else if |ls| == 1 then ls[0] else ls[0] + "\n" + JoinLines(ls[1..])
  }

  /** `s.split('\n')`: never empty, no line holds a line feed, and joining the
      lines gives `s` back. */
  function SplitLines(s: string): (ls: seq<string>)
    ensures |ls| >= 1
    ensures forall i :: 0 <= i < |ls| ==> '\n' !in ls[i]
    ensures JoinLines(ls) == s
    decreases |s|
  {
    if s == [] then [""]
    else
      var rest := SplitLines(s[1..]);
      if s[0] == '\n' then
        assert [s[0]] + s[1..] == s;
        [""] + rest
      else
        var ls := [[s[0]] + rest[0]] + rest[1..];
        assert ls[1..] == rest[1..];
        assert s == [s[0]] + s[1..];
        ls
  }

  /** A line-feed free text is a single line. */
  lemma {:induction false} SplitSingle(p: string)
    requires '\n' !in p
    ensures SplitLines(p) == [p]
    decreases |p|
  {
    if p != [] {
      SplitSingle(p[1..]);
      assert [p[0]] + p[1..] == p;
    }
  }

  /** The text before the first line feed is the first line. */
  lemma {:induction false} SplitAfterLine(p: string, r: string)
    requires '\n' !in p
    ensures SplitLines(p + "\n" + r) == [p] + SplitLines(r)
    decreases |p|
  {
    var s := p + "\n" + r;
    if p == [] {
      assert s[1..] == r;
    } else {
      assert s[1..] == p[1..] + "\n" + r;
      SplitAfterLine(p[1..], r);
      assert [p[0]] + p[1..] == p;
    }
  }

  /** Splitting undoes joining lines that hold no line feed. */
  lemma {:induction false} SplitJoin(ls: seq<string>)
    requires |ls| >= 1
    requires forall i :: 0 <= i < |ls| ==> '\n' !in ls[i]
    ensures SplitLines(JoinLines(ls)) == ls
    decreases |ls|
  {
    if |ls| == 1 {
      SplitSingle(ls[0]);
    } else {
      SplitJoin(ls[1..]);
      SplitAfterLine(ls[0], JoinLines(ls[1..]));
      assert [ls[0]] + ls[1..] == ls;
    }
  }

  /** Three lines joined. */
  lemma JoinThree(a: string, b: string, c: string)
    ensures JoinLines([a, b, c]) == a + "\n" + b + "\n" + c
  {
    assert [a, b, c][1..] == [b, c];
    assert [b, c][1..] == [c];
    assert JoinLines([c]) == c;
    assert JoinLines([b, c]) == b + "\n" + c;
  }

  /** The joined text starts with its first line. */
  lemma JoinStartsWithFirst(ls: seq<string>)
    requires |ls| >= 1
    ensures ls[0] <= JoinLines(ls)
  {
  }
}
