/** The string operations the front end relies on: `toLowerCase`, `trim`,
    `includes`, `startsWith`, `indexOf` and `Array.prototype.join`. */
module Text {

  /** `String.prototype.trim` removes WhiteSpace and LineTerminator code points
      (section 22.1.3.32 of ECMA-262): tab, vertical tab, form feed, space,
      no-break space, the byte order mark, the space separators and the four
      line terminators. */
  predicate IsWhitespace(c: char) {
    var n := c as int;
    || n == 0x09 || n == 0x0A || n == 0x0B || n == 0x0C || n == 0x0D || n == 0x20
    || n == 0xA0 || n == 0x1680 || (0x2000 <= n <= 0x200A) || n == 0x2028 || n == 0x2029
    || n == 0x202F || n == 0x205F || n == 0x3000 || n == 0xFEFF
  }

  /** Every character is whitespace (the empty string included). */
  predicate IsBlank(s: string) {
    forall k :: 0 <= k < |s| ==> IsWhitespace(s[k])
  }

  /** Leading whitespace removed. */
  function TrimStart(s: string): (r: string)
    ensures |r| <= |s| && r == s[|s| - |r|..]
    ensures IsBlank(s[..|s| - |r|])
    ensures r != [] ==> !IsWhitespace(r[0])
    decreases |s|
  {
    if |s| > 0 && IsWhitespace(s[0]) then
      var r := TrimStart(s[1..]);
      assert s[1..][..|s[1..]| - |r|] == s[1..|s| - |r|];
      r
    else s
  }

  /** Trailing whitespace removed. */
  function TrimEnd(s: string): (r: string)
    ensures |r| <= |s| && r == s[..|r|]
    ensures IsBlank(s[|r|..])
    ensures r != [] ==> !IsWhitespace(r[|r| - 1])
    decreases |s|
  {
    if |s| > 0 && IsWhitespace(s[|s| - 1]) then
      var r := TrimEnd(s[..|s| - 1]);
      assert s[..|s| - 1][|r|..] == s[|r|..|s| - 1];
      assert forall k :: |r| <= k < |s| ==> IsWhitespace(s[k]) by {
        forall k | |r| <= k < |s|
          ensures IsWhitespace(s[k])
        {
          if k < |s| - 1 {
            assert s[k] == s[..|s| - 1][|r|..][k - |r|];
          }
        }
      }
      r
    else s
  }

  /** `s.trim()`: `s` with a blank prefix and a blank suffix cut off, leaving a
      slice that starts and ends with a non-whitespace character; it is empty
      exactly when `s` is blank. */
  function Trim(s: string): (r: string)
    ensures exists i, j :: 0 <= i <= j <= |s| && r == s[i..j] && IsBlank(s[..i]) && IsBlank(s[j..])
    ensures r == [] <==> IsBlank(s)
    ensures r != [] ==> !IsWhitespace(r[0]) && !IsWhitespace(r[|r| - 1])
    ensures |r| <= |s|
  {
    var t := TrimStart(s);
    var r := TrimEnd(t);
    TrimSlice(s, t, r);
    r
  }

  /** A blank prefix cut off, then a blank suffix: together they cut a blank prefix
      and a blank suffix off `s`, and nothing is left exactly when `s` is blank. */
  lemma TrimSlice(s: string, t: string, r: string)
    requires |t| <= |s| && t == s[|s| - |t|..] && IsBlank(s[..|s| - |t|])
    requires t != [] ==> !IsWhitespace(t[0])
    requires |r| <= |t| && r == t[..|r|] && IsBlank(t[|r|..])
    ensures var i := |s| - |t|;
            0 <= i <= i + |r| <= |s| && r == s[i..i + |r|] && IsBlank(s[..i]) && IsBlank(s[i + |r|..])
    ensures r == [] <==> IsBlank(s)
  {
    var i := |s| - |t|;
    BlankTail(s, i, |r|);
    if r == [] {
      assert t == t[|r|..];
      assert t == [];
      assert s[..i] == s;
    } else {
      assert t != [] && s[i] == t[0];
    }
  }

  /** A blank tail of the suffix `s[i..]` is a blank tail of `s`. */
  lemma BlankTail(s: string, i: nat, n: nat)
    requires i + n <= |s| && IsBlank(s[i..][n..])
    ensures IsBlank(s[i + n..])
  {
    assert s[i..][n..] == s[i + n..];
  }

  /** ASCII case folding of one character. */
  function LowerChar(c: char): char {
    if 'A' <= c <= 'Z' then (c as int + 32) as char else c
  }

  /** `s.toLowerCase()` restricted to ASCII letters. */
  function Lower(s: string): (r: string)
    ensures |r| == |s|
    ensures forall i :: 0 <= i < |s| ==> r[i] == LowerChar(s[i])
  {
    if s == [] then [] else [LowerChar(s[0])] + Lower(s[1..])
  }

  /** A string without ASCII capitals is its own lower-case form. */
  lemma LowerOfLowercase(s: string)
    requires forall i :: 0 <= i < |s| ==> !('A' <= s[i] <= 'Z')
    ensures Lower(s) == s
  {
  }

  /** `s.startsWith(p)`. */
  predicate StartsWith(s: string, p: string) {
    |p| <= |s| && s[..|p|] == p
  }

  /** `p` occurs in `s` at position `i`. */
  predicate OccursAt(s: string, p: string, i: int) {
    0 <= i && i + |p| <= |s| && s[i..i + |p|] == p
  }

  /** `s.includes(p)`, by scanning the suffixes of `s`. */
  predicate Contains(s: string, p: string)
    decreases |s|
  {
    StartsWith(s, p) || (|s| > 0 && Contains(s[1..], p))
  }

  /** The scan finds `p` exactly when `p` occurs somewhere in `s`. */
  lemma {:induction false} ContainsIff(s: string, p: string)
    ensures Contains(s, p) <==> exists i :: OccursAt(s, p, i)
    decreases |s|
  {
    if exists i :: OccursAt(s, p, i) {
      var i :| OccursAt(s, p, i);
      if i == 0 {
        assert s[..|p|] == s[0..0 + |p|];
      } else {
        assert s[1..][i - 1..i - 1 + |p|] == s[i..i + |p|];
        assert OccursAt(s[1..], p, i - 1);
        ContainsIff(s[1..], p);
      }
    }
    if Contains(s, p) {
      if StartsWith(s, p) {
        assert OccursAt(s, p, 0);
      } else {
        ContainsIff(s[1..], p);
        var i :| OccursAt(s[1..], p, i);
        assert s[1..][i..i + |p|] == s[i + 1..i + 1 + |p|];
        assert OccursAt(s, p, i + 1);
      }
    }
  }

  /** An occurrence at a known position is found by `includes`. */
  lemma ContainsAt(s: string, p: string, i: int)
    requires OccursAt(s, p, i)
    ensures Contains(s, p)
  {
    ContainsIff(s, p);
  }

  /** `s.indexOf(c)`: the first position of `c`, or -1. */
  function IndexOf(s: string, c: char): (r: int)
    ensures -1 <= r < |s|
    ensures r == -1 <==> c !in s
    ensures r >= 0 ==> s[r] == c && c !in s[..r]
  {
    if |s| == 0 then -1
    else if s[0] == c then 0
    else
      var k := IndexOf(s[1..], c);
      assert s == [s[0]] + s[1..];
      if k == -1 then -1
      else
        assert s[..k + 1] == [s[0]] + s[1..][..k];
        k + 1
  }

  /** `xs.join(sep)`. */
  function Join(xs: seq<string>, sep: string): string
    decreases |xs|
  {
    if |xs| == 0 then ""
    else if |xs| == 1 then xs[0]
    else xs[0] + sep + Join(xs[1..], sep)
  }
}
