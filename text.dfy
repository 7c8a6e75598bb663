/** String helpers shared by the pipeline model: substring search, ASCII case
    mapping, Python's str(int), str.replace, str.strip and slicing. Strings are
    sequences of characters; only the ASCII behaviour of the Python methods is
    modelled. */
module Text {

  /** `sub` occurs in `s` starting at index `i`. */
  predicate OccursAt(s: string, sub: string, i: int)
  {
    0 <= i && i + |sub| <= |s| && s[i..i + |sub|] == sub
  }

  /** Python's `sub in s`. */
  predicate Contains(s: string, sub: string)
  {
    exists i | 0 <= i <= |s| - |sub| :: OccursAt(s, sub, i)
  }

  lemma ContainsWitness(s: string, sub: string, i: int)
    requires OccursAt(s, sub, i)
    ensures Contains(s, sub)
  {
  }

  /** A needle holding a character the haystack lacks never occurs in it. */
  lemma NotContainsByChar(s: string, sub: string, c: char)
    requires c in sub && c !in s
    ensures !Contains(s, sub)
  {
    var k :| 0 <= k < |sub| && sub[k] == c;
    forall i | 0 <= i <= |s| - |sub| ensures !OccursAt(s, sub, i) {
      assert s[i + k] in s;
      assert s[i..i + |sub|][k] == s[i + k] != sub[k];
    }
  }

  /** Occurrences survive concatenation on either side. */
  lemma ContainsInConcat(a: string, s: string, b: string, sub: string)
    requires Contains(s, sub)
    ensures Contains(a + s + b, sub)
  {
    var i :| 0 <= i <= |s| - |sub| && OccursAt(s, sub, i);
    assert (a + s + b)[|a| + i..|a| + i + |sub|] == s[i..i + |sub|];
    assert OccursAt(a + s + b, sub, |a| + i);
  }

  /** An occurrence in `b` is an occurrence in `a + b`, shifted by `|a|`. */
  lemma OccursAfter(a: string, b: string, sub: string, k: int)
    requires OccursAt(b, sub, k)
    ensures OccursAt(a + b, sub, |a| + k)
  {
    assert (a + b)[|a| + k..|a| + k + |sub|] == b[k..k + |sub|];
  }

  /** An occurrence in `a` is an occurrence in `a + b` at the same index. */
  lemma OccursBefore(a: string, b: string, sub: string, k: int)
    requires OccursAt(a, sub, k)
    ensures OccursAt(a + b, sub, k)
  {
    assert (a + b)[k..k + |sub|] == a[k..k + |sub|];
  }

  /** Python's `s[:n]` for n >= 0. */
  function Take(s: string, n: nat): (r: string)
    ensures r <= s
    ensures |r| == if n < |s| then n else |s|
  {
    if n < |s| then s[..n] else s
  }

  /** Python's `s.endswith(suffix)`. */
  predicate EndsWith(s: string, suffix: string)
  {
    |suffix| <= |s| && s[|s| - |suffix|..] == suffix
  }

  // ---------------------------------------------------------------- case

  function LowerChar(c: char): char
  {
    if 'A' <= c <= 'Z' then (c as int + 32) as char else c
  }

  function UpperChar(c: char): char
  {
    if 'a' <= c <= 'z' then (c as int - 32) as char else c
  }

  /** Python's `s.lower()` restricted to ASCII letters. */
  function Lower(s: string): (r: string)
    ensures |r| == |s|
    ensures forall i :: 0 <= i < |s| ==> r[i] == LowerChar(s[i])
  {
    seq(|s|, i requires 0 <= i < |s| => LowerChar(s[i]))
  }

  /** Python's `s.upper()` restricted to ASCII letters. */
  function Upper(s: string): (r: string)
    ensures |r| == |s|
    ensures forall i :: 0 <= i < |s| ==> r[i] == UpperChar(s[i])
  {
    seq(|s|, i requires 0 <= i < |s| => UpperChar(s[i]))
  }

  /** Upper-casing keeps every occurrence of an upper-case needle. */
  lemma UpperKeepsUpperNeedle(s: string, sub: string)
    requires Upper(sub) == sub && Contains(s, sub)
    ensures Contains(Upper(s), sub)
  {
    var i :| 0 <= i <= |s| - |sub| && OccursAt(s, sub, i);
    assert Upper(s)[i..i + |sub|] == Upper(sub) by {
      forall k | 0 <= k < |sub| ensures Upper(s)[i..i + |sub|][k] == Upper(sub)[k] {
        assert s[i..i + |sub|][k] == sub[k];
      }
    }
    assert OccursAt(Upper(s), sub, i);
  }

  // ------------------------------------------------------------ integers

  function DigitChar(d: nat): char
    requires d < 10
  {
    ('0' as int + d) as char
  }

  predicate IsDigit(c: char)
  {
    '0' <= c <= '9'
  }

  /** Decimal digits of a natural number, most significant first, as Python's
      `str(n)` prints them. */
  function NatToString(n: nat): (r: string)
    ensures |r| >= 1
    ensures forall i :: 0 <= i < |r| ==> IsDigit(r[i])
    decreases n
  {
    if n < 10 then [DigitChar(n)] else NatToString(n / 10) + [DigitChar(n % 10)]
  }

  /** Python's `str(i)` for an integer. */
  function IntToString(i: int): (r: string)
    ensures |r| >= 1
  {
    if i < 0 then "-" + NatToString(-i) else NatToString(i)
  }

  lemma {:induction false} NatToStringLong(n: nat)
    requires n >= 10
    ensures |NatToString(n)| >= 2
  {
  }

  /** Distinct numbers print differently. */
  lemma {:induction false} NatToStringInjective(a: nat, b: nat)
    ensures NatToString(a) == NatToString(b) ==> a == b
    decreases a
  {
    var sa, sb := NatToString(a), NatToString(b);
    if a == b {
    } else if a < 10 && b < 10 {
      assert sa[0] != sb[0];
    } else if a < 10 {
      NatToStringLong(b);
    } else if b < 10 {
      NatToStringLong(a);
    } else if a % 10 != b % 10 {
      assert sa[|sa| - 1] != sb[|sb| - 1];
    } else {
      NatToStringInjective(a / 10, b / 10);
      assert sa[..|sa| - 1] == NatToString(a / 10);
      assert sb[..|sb| - 1] == NatToString(b / 10);
    }
  }

  lemma IntToStringInjective(a: int, b: int)
    ensures IntToString(a) == IntToString(b) ==> a == b
  {
    var sa, sb := IntToString(a), IntToString(b);
    if a < 0 && b < 0 {
      assert sa[1..] == NatToString(-a) && sb[1..] == NatToString(-b);
      NatToStringInjective(-a, -b);
    } else if a < 0 || b < 0 {
      assert sa[0] != sb[0];
    } else {
      NatToStringInjective(a, b);
    }
  }

  // ------------------------------------------------------------- replace

  /** Python's `s.replace(pat, rep)`: every non-overlapping occurrence of a
      non-empty `pat`, scanned from the left, is replaced by `rep`. */
  function Replace(s: string, pat: string, rep: string): (r: string)
    requires |pat| > 0
    decreases |s|
  {
    if pat <= s then rep + Replace(s[|pat|..], pat, rep)
    else if s == [] then []
    else [s[0]] + Replace(s[1..], pat, rep)
  }

  /** A prefix that cannot start an occurrence passes through unchanged. */
  lemma {:induction false} ReplaceSkipsPrefix(a: string, b: string, pat: string, rep: string)
    requires |pat| > 0 && pat[0] !in a
    ensures Replace(a + b, pat, rep) == a + Replace(b, pat, rep)
    decreases |a|
  {
    if a != [] {
      assert (a + b)[0] == a[0] != pat[0];
      assert (a + b)[1..] == a[1..] + b;
      ReplaceSkipsPrefix(a[1..], b, pat, rep);
      assert [a[0]] + a[1..] == a;
    } else {
      assert a + b == b;
    }
  }

  /** The result never contains `pat` again when `pat` is two copies of one
      character that `rep` does not contain: every pair of that character was
      consumed by the scan. */
  lemma {:induction false} ReplacePairGone(s: string, c: char, rep: string)
    requires c !in rep
    ensures !Contains(Replace(s, [c, c], rep), [c, c])
    decreases |s|
  {
    var pat := [c, c];
    if pat <= s {
      ReplacePairGone(s[2..], c, rep);
      NotContainsByChar(rep, pat, c);
      ConcatAvoidsPair(rep, Replace(s[2..], pat, rep), c);
    } else if s != [] {
      var rest := Replace(s[1..], pat, rep);
      ReplacePairGone(s[1..], c, rep);
      if s[0] == c {
        assert |s| == 1 || s[1] != c;
        ReplaceHead(s[1..], c, rep);
      }
      ConcatAvoidsPair([s[0]], rest, c);
    }
  }

  /** A replacement result starts with `c` only when the input does (the
      replacement text has no `c`). */
  lemma ReplaceHead(s: string, c: char, rep: string)
    requires c !in rep
    requires s == [] || s[0] != c
    ensures Replace(s, [c, c], rep) == [] || Replace(s, [c, c], rep)[0] != c
  {
    if s != [] {
      assert !([c, c] <= s);
      assert Replace(s, [c, c], rep)[0] == s[0];
    }
  }

  /** Joining two pieces that avoid a doubled character cannot create one unless
      the seam does. */
  lemma ConcatAvoidsPair(a: string, b: string, c: char)
    requires !Contains(a, [c, c]) && !Contains(b, [c, c])
    requires a == [] || b == [] || a[|a| - 1] != c || b[0] != c
    ensures !Contains(a + b, [c, c])
  {
    var ab := a + b;
    forall i | 0 <= i <= |ab| - 2 ensures !OccursAt(ab, [c, c], i) {
      if i + 2 <= |a| {
        assert ab[i..i + 2] == a[i..i + 2];
        assert !OccursAt(a, [c, c], i);
      } else if i >= |a| {
        assert ab[i..i + 2] == b[i - |a|..i - |a| + 2];
        assert !OccursAt(b, [c, c], i - |a|);
      } else {
        assert ab[i] == a[|a| - 1] && ab[i + 1] == b[0];
        assert ab[i] != c || ab[i + 1] != c;
        assert ab[i..i + 2] != [c, c] by {
          assert ab[i..i + 2][0] == ab[i] && ab[i..i + 2][1] == ab[i + 1];
        }
      }
    }
  }

  // --------------------------------------------------------------- strip

  /** Python's `str.isspace()` on one character, restricted to ASCII: space,
      tab, line feed, vertical tab, form feed, carriage return and the four
      separator controls 0x1C-0x1F. It is also what `\s` matches in a regular
      expression. */
  predicate IsSpace(c: char)
  {
    var n := c as int;
    n == 32 || (9 <= n <= 13) || (28 <= n <= 31)
  }

  function StripLeft(s: string): (r: string)
    ensures |r| <= |s| && r == s[|s| - |r|..]
    ensures r == [] || !IsSpace(r[0])
    ensures forall i :: 0 <= i < |s| - |r| ==> IsSpace(s[i])
    decreases |s|
  {
    if s != [] && IsSpace(s[0]) then StripLeft(s[1..]) else s
  }

  function StripRight(s: string): (r: string)
    ensures |r| <= |s| && r == s[..|r|]
    ensures r == [] || !IsSpace(r[|r| - 1])
    ensures forall i :: |r| <= i < |s| ==> IsSpace(s[i])
    decreases |s|
  {
    if s != [] && IsSpace(s[|s| - 1]) then StripRight(s[..|s| - 1]) else s
  }

  /** `r` sits at `k` in `s` and everything around it is whitespace. */
  predicate StrippedAt(s: string, r: string, k: int)
  {
    OccursAt(s, r, k)
    && (forall i :: 0 <= i < k ==> IsSpace(s[i]))
    && (forall i :: k + |r| <= i < |s| ==> IsSpace(s[i]))
  }

  /** Python's `s.strip()`: the longest middle part with no leading or trailing
      whitespace; everything removed is whitespace. */
  function Strip(s: string): (r: string)
    ensures r == [] || (!IsSpace(r[0]) && !IsSpace(r[|r| - 1]))
    ensures exists k :: StrippedAt(s, r, k)
  {
    var l := StripLeft(s);
    var r := StripRight(l);
    StripRightOfLeft(s, l, r);
    r
  }

  /** Whitespace cut from the front of `s` and then from the back of what
      is left leaves the middle part, surrounded by whitespace. */
  lemma StripRightOfLeft(s: string, l: string, r: string)
    requires |l| <= |s| && l == s[|s| - |l|..]
    requires forall i :: 0 <= i < |s| - |l| ==> IsSpace(s[i])
    requires |r| <= |l| && r == l[..|r|]
    requires forall i :: |r| <= i < |l| ==> IsSpace(l[i])
    ensures StrippedAt(s, r, |s| - |l|)
  {
    var k := |s| - |l|;
    assert s[k..k + |r|] == r;
    forall i | k + |r| <= i < |s| ensures IsSpace(s[i]) {
      assert s[i] == l[i - k];
    }
  }

  /** Python's left justification `f"{s:<w}"`: pad on the right
      with spaces up to width `w`; longer strings are left as they are. */
  function PadRight(s: string, w: nat): (r: string)
    ensures |r| == if |s| < w then w else |s|
    ensures s <= r
    ensures forall i :: |s| <= i < |r| ==> r[i] == ' '
  {
    if |s| < w then s + seq(w - |s|, _ => ' ') else s
  }
}
