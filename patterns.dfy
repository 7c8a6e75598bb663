/** The handful of regular-expression rules the converters use, each written
    out as the scan Python's `re` performs for it: leftmost matches, scanning
    resumes after each replacement, and `.` matches anything but a line feed. */
module Patterns {
  import opened Wrappers
  import opened Text
  import opened Lines

  // ------------------------------------------------- ^marker(.+)$ per line

  /** `re.sub(r'^<marker>(.+)$', r'<tag>\1</tag>', ...)` on one line: a line
      that starts with the marker and has at least one more character becomes
      the tagged rest of the line. */
  function HeadingLine(line: string, marker: string, tag: string): string
  {
    if |line| > |marker| && marker <= line then "<" + tag + ">" + line[|marker|..] + "</" + tag + ">"
    else line
  }

  /** The same rule with `flags=re.MULTILINE`, applied to every line. */
  function HeadingPass(s: string, marker: string, tag: string): (r: string)
    ensures forall c :: c in r && c !in s ==> c in "<" + tag + ">/"
  {
    var ls := SplitLines(s);
    var out := seq(|ls|, i requires 0 <= i < |ls| => HeadingLine(ls[i], marker, tag));
    JoinNewChars(ls, out, "<" + tag + ">/");
    JoinLines(out)
  }

  /** On text given as its lines, the rule rewrites each line. */
  lemma HeadingPassOfLines(ls: seq<string>, marker: string, tag: string)
    requires |ls| >= 1
    requires forall i :: 0 <= i < |ls| ==> '\n' !in ls[i]
    ensures HeadingPass(JoinLines(ls), marker, tag)
         == JoinLines(seq(|ls|, i requires 0 <= i < |ls| => HeadingLine(ls[i], marker, tag)))
  {
    SplitJoin(ls);
  }

  lemma {:induction false} JoinNewChars(ls: seq<string>, out: seq<string>, extra: string)
    requires |ls| == |out|
    requires forall i, c :: 0 <= i < |out| && c in out[i] && c !in ls[i] ==> c in extra
    ensures forall c :: c in JoinLines(out) && c !in JoinLines(ls) ==> c in extra
    decreases |ls|
  {
    if |ls| > 1 {
      JoinNewChars(ls[1..], out[1..], extra);
      assert forall i :: 0 <= i < |out| - 1 ==> out[1..][i] == out[i + 1] && ls[1..][i] == ls[i + 1];
    }
  }

  /** A line that does not start with the marker's first character is left
      alone by the per-line rule: so the heading rules leave any text that
      starts with such a line-feed free prefix starting with it. */
  lemma HeadingPassKeepsPrefix(s: string, p: string, marker: string, tag: string)
    requires p <= s && '\n' !in p && |p| > 0 && |marker| > 0 && p[0] != marker[0]
    ensures p <= HeadingPass(s, marker, tag)
  {
    var ls := SplitLines(s);
    FirstLineStartsWith(s, p);
    assert HeadingLine(ls[0], marker, tag) == ls[0];
  }

  /** A line-feed free prefix of a text is a prefix of its first line. */
  lemma {:induction false} FirstLineStartsWith(s: string, p: string)
    requires p <= s && '\n' !in p
    ensures p <= SplitLines(s)[0]
    decreases |p|
  {
    if p != [] {
      assert s[0] == p[0] != '\n';
      assert p[1..] <= s[1..];
      FirstLineStartsWith(s[1..], p[1..]);
    }
  }

  // ------------------------------------------- open(.+?)close, lazy group

  /** Where a lazy group of `s` whose first character is `s[from - 1]` ends
      when it must be followed by `close`: the least e >= `from` such that
      `s[from - 1..e]` has no line feed and `close` occurs at e. The group is
      never empty. */
  function LazyEnd(s: string, close: string, from: nat): (r: Option<nat>)
    requires from >= 1
    ensures r.Some? ==> from <= r.value && r.value + |close| <= |s|
    decreases |s| - from
  {
    if from > |s| then None
    else if s[from - 1] == '\n' then None
    else if OccursAt(s, close, from) then Some(from)
    else LazyEnd(s, close, from + 1)
  }

  /** The group found is followed by `close`. */
  lemma {:induction false} LazyEndOccurs(s: string, close: string, from: nat)
    requires from >= 1 && LazyEnd(s, close, from).Some?
    ensures OccursAt(s, close, LazyEnd(s, close, from).value)
    decreases |s| - from
  {
    if !OccursAt(s, close, from) {
      LazyEndOccurs(s, close, from + 1);
    }
  }

  /** The group found has no line feed. */
  lemma {:induction false} LazyEndSingleLine(s: string, close: string, from: nat)
    requires from >= 1 && LazyEnd(s, close, from).Some?
    ensures forall j :: from - 1 <= j < LazyEnd(s, close, from).value ==> s[j] != '\n'
    decreases |s| - from
  {
    if LazyEnd(s, close, from).value > from {
      LazyEndSingleLine(s, close, from + 1);
    }
  }

  /** The group found is the shortest: `close` occurs at no earlier end. */
  lemma {:induction false} LazyEndIsLeast(s: string, close: string, from: nat)
    requires from >= 1 && LazyEnd(s, close, from).Some?
    ensures forall j :: from <= j < LazyEnd(s, close, from).value ==> !OccursAt(s, close, j)
    decreases |s| - from
  {
    if LazyEnd(s, close, from).value > from {
      LazyEndIsLeast(s, close, from + 1);
    }
  }

  /** One step of the scan `re.sub` performs: a match at the start of the
      text becomes its replacement, otherwise the first character is kept;
      the second component is the input that remains. */
  function SubLazyStep(s: string, open: string, close: string, before: string, after: string): (r: (string, string))
    requires s != []
    ensures |r.1| < |s|
  {
    if open <= s && LazyEnd(s, close, |open| + 1).Some? then
      var e := LazyEnd(s, close, |open| + 1).value;
      (before + s[|open|..e] + after, s[e + |close|..])
    else ([s[0]], s[1..])
  }

  /** `re.sub(open + '(.+?)' + close, before + r'\1' + after, s)`, for literal
      `open` and `close`. */
  function SubLazy(s: string, open: string, close: string, before: string, after: string): string
    decreases |s|
  {
    if s == [] then []
    else
      var (out, rest) := SubLazyStep(s, open, close, before, after);
      out + SubLazy(rest, open, close, before, after)
  }

  /** A prefix without the first character of `open` passes through unchanged. */
  lemma {:induction false} SubLazySkipsPrefix(a: string, b: string, open: string, close: string, before: string, after: string)
    requires |open| > 0 && open[0] !in a
    ensures SubLazy(a + b, open, close, before, after) == a + SubLazy(b, open, close, before, after)
    decreases |a|
  {
    if a != [] {
      var s := a + b;
      assert s[0] == a[0] != open[0];
      assert s[1..] == a[1..] + b;
      SubLazyStepNoMatch(s, open, close, before, after);
      SubLazyUnfold(s, open, close, before, after, [s[0]], s[1..]);
      SubLazySkipsPrefix(a[1..], b, open, close, before, after);
      assert [a[0]] + a[1..] == a;
    } else {
      assert a + b == b;
    }
  }

  /** The lazy group ends at the first occurrence of `close` when nothing
      in the group can start one. */
  lemma {:induction false} LazyEndAtFirst(s: string, close: string, from: nat, m: nat)
    requires 1 <= from <= m && |close| > 0 && OccursAt(s, close, m)
    requires forall j :: from - 1 <= j < m ==> s[j] != '\n' && s[j] != close[0]
    ensures LazyEnd(s, close, from) == Some(m)
    decreases m - from
  {
    if from < m {
      assert s[from..from + |close|][0] == s[from] != close[0];
      LazyEndAtFirst(s, close, from + 1, m);
    }
  }

  /** One match of the rule: `open w close` becomes `before w after` when `w`
      is a non-empty single-line text without the first character of `close`
      and the text before it cannot start a match. */
  lemma SubLazyMatch(a: string, w: string, b: string, open: string, close: string, before: string, after: string)
    requires |open| > 0 && |close| > 0 && open[0] !in a
    requires |w| >= 1 && '\n' !in w && close[0] !in w
    ensures SubLazy(a + open + w + close + b, open, close, before, after)
         == a + before + w + after + SubLazy(b, open, close, before, after)
  {
    var s := open + w + close + b;
    var t := SubLazy(b, open, close, before, after);
    Regroup4(a, open, w, close, b);
    SubLazySkipsPrefix(a, s, open, close, before, after);
    SubLazyMatchAtStart(w, b, open, close, before, after);
    Regroup4(a, before, w, after, t);
  }

  lemma Regroup4(a: string, b: string, c: string, d: string, e: string)
    ensures a + b + c + d + e == a + (b + c + d + e)
  {
  }

  lemma SubLazyMatchAtStart(w: string, b: string, open: string, close: string, before: string, after: string)
    requires |open| > 0 && |close| > 0
    requires |w| >= 1 && '\n' !in w && close[0] !in w
    ensures SubLazy(open + w + close + b, open, close, before, after)
         == before + w + after + SubLazy(b, open, close, before, after)
  {
    var s := open + w + close + b;
    var e := |open| + |w|;
    assert s[e..e + |close|] == close;
    assert forall j :: |open| <= j < e ==> s[j] == w[j - |open|];
    LazyEndAtFirst(s, close, |open| + 1, e);
    SubLazyAtStart(s, open, close, before, after, e);
    assert s[|open|..e] == w;
    assert s[e + |close|..] == b;
  }

  /** A match at the start of the text is replaced first. */
  lemma SubLazyAtStart(s: string, open: string, close: string, before: string, after: string, e: nat)
    requires |open| > 0 && open <= s && LazyEnd(s, close, |open| + 1) == Some(e)
    ensures e + |close| <= |s|
    ensures SubLazy(s, open, close, before, after)
         == before + s[|open|..e] + after + SubLazy(s[e + |close|..], open, close, before, after)
  {
    var out := before + s[|open|..e] + after;
    var rest := s[e + |close|..];
    SubLazyStepAtMatch(s, open, close, before, after, e);
    SubLazyUnfold(s, open, close, before, after, out, rest);
  }

  lemma SubLazyStepAtMatch(s: string, open: string, close: string, before: string, after: string, e: nat)
    requires |open| > 0 && open <= s && LazyEnd(s, close, |open| + 1) == Some(e)
    ensures e + |close| <= |s|
    ensures SubLazyStep(s, open, close, before, after) == (before + s[|open|..e] + after, s[e + |close|..])
  {
    var r := SubLazyStep(s, open, close, before, after);
    assert r.0 == before + s[|open|..e] + after;
    assert r.1 == s[e + |close|..];
  }

  lemma SubLazyStepNoMatch(s: string, open: string, close: string, before: string, after: string)
    requires |open| > 0 && s != [] && s[0] != open[0]
    ensures SubLazyStep(s, open, close, before, after) == ([s[0]], s[1..])
  {
    var r := SubLazyStep(s, open, close, before, after);
    assert !(open <= s);
    assert r.0 == [s[0]];
    assert r.1 == s[1..];
  }

  lemma SubLazyUnfold(s: string, open: string, close: string, before: string, after: string, out: string, rest: string)
    requires s != [] && SubLazyStep(s, open, close, before, after) == (out, rest)
    ensures SubLazy(s, open, close, before, after) == out + SubLazy(rest, open, close, before, after)
  {
  }

  /** `re.search(open + '(.+?)' + close, s).group(1)`, or None. */
  function SearchLazy(s: string, open: string, close: string): (r: Option<string>)
    ensures r.Some? ==> |r.value| >= 1 && '\n' !in r.value && Contains(s, open + r.value + close)
    decreases |s|
  {
    if s == [] then None
    else if open <= s && LazyEnd(s, close, |open| + 1).Some? then
      var e := LazyEnd(s, close, |open| + 1).value;
      LazyEndSingleLine(s, close, |open| + 1);
      LazyEndOccurs(s, close, |open| + 1);
      assert forall c :: c in s[|open|..e] ==> c != '\n';
      assert s[..e + |close|] == open + s[|open|..e] + close;
      assert OccursAt(s, open + s[|open|..e] + close, 0);
      Some(s[|open|..e])
    else
      var r := SearchLazy(s[1..], open, close);
      ContainsInTail(s, if r.Some? then open + r.value + close else "");
      r
  }

  /** An occurrence after the first character is an occurrence. */
  lemma ContainsInTail(s: string, sub: string)
    requires s != []
    ensures Contains(s[1..], sub) ==> Contains(s, sub)
  {
    if Contains(s[1..], sub) {
      ContainsInConcat([s[0]], s[1..], [], sub);
      assert [s[0]] + s[1..] + [] == s;
    }
  }

  // ------------------------------------------------------ <[^>]+> removed

  /** Index of the first occurrence of `c` in `s`. */
  function IndexOf(s: string, c: char): (r: Option<nat>)
    ensures r.Some? ==> r.value < |s| && s[r.value] == c && c !in s[..r.value]
    ensures r.None? ==> c !in s
  {
    if c !in s then None
    else
      var i :| 0 <= i < |s| && s[i] == c;
      FirstIndex(s, c, i)
  }

  function FirstIndex(s: string, c: char, bound: nat): (r: Option<nat>)
    requires bound < |s| && s[bound] == c
    ensures r.Some? && r.value < |s| && s[r.value] == c && c !in s[..r.value]
    decreases bound
  {
    if c !in s[..bound] then Some(bound)
    else
      var i :| 0 <= i < bound && s[..bound][i] == c;
      FirstIndex(s, c, i)
  }

  /** No tag match remains: each `<` is followed immediately by `>`, or by no
      `>` at all. */
  predicate TagFree(s: string)
  {
    forall i :: 0 <= i < |s| && s[i] == '<' ==> (i + 1 < |s| && s[i + 1] == '>') || '>' !in s[i + 1..]
  }

  /** `re.sub(r'<[^>]+>', '', s)`: a `<`, at least one character other than
      `>`, and the next `>` are removed together. */
  function RemoveTags(s: string): (r: string)
    ensures TagFree(r)
    ensures forall c :: c in r ==> c in s
    ensures s != [] && s[0] != '<' ==> r != [] && r[0] == s[0]
    decreases |s|
  {
    if s == [] then []
    else if s[0] == '<' && IndexOf(s[1..], '>').Some? && IndexOf(s[1..], '>').value >= 1 then
      var j := IndexOf(s[1..], '>').value;
      RemoveTags(s[j + 2..])
    else
      var rest := RemoveTags(s[1..]);
      ConsKeepsTagFree(s[0], rest);
      [s[0]] + rest
  }

  /** Putting a character in front of a tag-free text keeps it tag-free unless
      the character opens a tag. */
  lemma ConsKeepsTagFree(c: char, rest: string)
    requires TagFree(rest)
    requires c == '<' ==> (rest != [] && rest[0] == '>') || '>' !in rest
    ensures TagFree([c] + rest)
  {
    var r := [c] + rest;
    forall i | 0 <= i < |r| && r[i] == '<'
      ensures (i + 1 < |r| && r[i + 1] == '>') || '>' !in r[i + 1..]
    {
      if i > 0 {
        assert r[i] == rest[i - 1];
        assert r[i + 1..] == rest[i..];
      } else {
        assert r[1..] == rest;
      }
    }
  }

  /** A prefix without `<` passes through tag removal unchanged. */
  lemma {:induction false} RemoveTagsSkipsPrefix(a: string, b: string)
    requires '<' !in a
    ensures RemoveTags(a + b) == a + RemoveTags(b)
    decreases |a|
  {
    if a != [] {
      var s := a + b;
      assert s[0] == a[0] != '<';
      assert s[1..] == a[1..] + b;
      RemoveTagsKeepsFirst(s);
      RemoveTagsSkipsPrefix(a[1..], b);
      assert [a[0]] + (a[1..] + RemoveTags(b)) == a + RemoveTags(b);
    } else {
      assert a + b == b;
    }
  }

  lemma RemoveTagsKeepsFirst(s: string)
    requires s != [] && s[0] != '<'
    ensures RemoveTags(s) == [s[0]] + RemoveTags(s[1..])
  {
  }
}
