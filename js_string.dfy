/**
 * The JavaScript string built-ins the core relies on: `trim`, `toLowerCase`
 * (over ASCII only), `includes`, `padStart`, and the decimal rendering of a
 * non-negative integer in a template string.
 */
module JsString {

  /** ECMAScript WhiteSpace and LineTerminator code points: what `trim` strips. */
  predicate IsJsWhiteSpace(c: char) {
    var n := c as int;
    n == 0x09 || n == 0x0A || n == 0x0B || n == 0x0C || n == 0x0D || n == 0x20 || n == 0xA0 ||
    n == 0x1680 || (0x2000 <= n <= 0x200A) || n == 0x2028 || n == 0x2029 || n == 0x202F ||
    n == 0x205F || n == 0x3000 || n == 0xFEFF
  }

  /** Drops leading white space: the first half of `String.prototype.trim`. */
  function TrimStart(s: string): (r: string)
    ensures |r| <= |s| && r == s[|s| - |r|..]
    ensures forall i :: 0 <= i < |s| - |r| ==> IsJsWhiteSpace(s[i])
    ensures r == [] || !IsJsWhiteSpace(r[0])
  {
    if s != [] && IsJsWhiteSpace(s[0]) then TrimStart(s[1..]) else s
  }

  /** Drops trailing white space: the second half of `String.prototype.trim`. */
  function TrimEnd(s: string): (r: string)
    ensures |r| <= |s| && r == s[..|r|]
    ensures forall i :: |r| <= i < |s| ==> IsJsWhiteSpace(s[i])
    ensures r == [] || !IsJsWhiteSpace(r[|r| - 1])
  {
    if s != [] && IsJsWhiteSpace(s[|s| - 1]) then TrimEnd(s[..|s| - 1]) else s
  }

  /** `s.trim()`: empty exactly when every character of `s` is white space. */
  function Trim(s: string): (r: string)
    ensures |r| <= |s|
    ensures r == [] || (!IsJsWhiteSpace(r[0]) && !IsJsWhiteSpace(r[|r| - 1]))
    ensures r == [] <==> forall i :: 0 <= i < |s| ==> IsJsWhiteSpace(s[i])
  {
    TrimEnd(TrimStart(s))
  }

  /** `!s.trim()`: the empty string is the only falsy string. */
  predicate IsBlank(s: string): (b: bool)
    ensures b <==> forall i :: 0 <= i < |s| ==> IsJsWhiteSpace(s[i])
  {
    Trim(s) == []
  }

  /** `toLowerCase` on one character, for the ASCII letters only. */
  function ToLowerChar(c: char): (r: char)
    ensures 'A' <= c <= 'Z' ==> r as int == c as int - 'A' as int + 'a' as int
    ensures !('A' <= r <= 'Z')
    ensures IsJsWhiteSpace(r) == IsJsWhiteSpace(c)
    ensures ('A' <= c <= 'Z') || r == c
  {
    if 'A' <= c <= 'Z' then (c as int - 'A' as int + 'a' as int) as char else c
  }

  /** `a` and `b` are the same character, or the two cases of one ASCII letter. */
  predicate SameCharUpToAsciiCase(a: char, b: char) {
    a == b ||
    ('A' <= a <= 'Z' && b as int == a as int - 'A' as int + 'a' as int) ||
    ('A' <= b <= 'Z' && a as int == b as int - 'A' as int + 'a' as int)
  }

  /** `t` and `u` differ at most in the case of ASCII letters. */
  predicate SameUpToAsciiCase(t: string, u: string) {
    |t| == |u| && forall i :: 0 <= i < |t| ==> SameCharUpToAsciiCase(t[i], u[i])
  }

  /**
   * `s.toLowerCase()`: the one string that differs from `s` only in ASCII
   * letter case and has no upper-case ASCII letter left.
   */
  function ToLower(s: string): (r: string)
    ensures SameUpToAsciiCase(s, r)
    ensures forall i :: 0 <= i < |r| ==> !('A' <= r[i] <= 'Z')
  {
    seq(|s|, i requires 0 <= i < |s| => ToLowerChar(s[i]))
  }

  /** Two strings lower-case to the same string exactly when they differ only in ASCII letter case. */
  lemma ToLowerFoldsCase(t: string, u: string)
    ensures ToLower(t) == ToLower(u) <==> SameUpToAsciiCase(t, u)
  {
    var lt, lu := ToLower(t), ToLower(u);
    if SameUpToAsciiCase(t, u) {
      forall i | 0 <= i < |t| ensures lt[i] == lu[i] {
        assert lt[i] == ToLowerChar(t[i]) && lu[i] == ToLowerChar(u[i]);
      }
    }
    if lt == lu {
      forall i | 0 <= i < |t| ensures SameCharUpToAsciiCase(t[i], u[i]) {
        assert ToLowerChar(t[i]) == lt[i] == lu[i] == ToLowerChar(u[i]);
      }
    }
  }

  /** `search` occurs in `s` starting at index `i`. */
  predicate OccursAt(s: string, search: string, i: int) {
    0 <= i && i + |search| <= |s| && s[i..i + |search|] == search
  }

  /**
   * `s.includes(search)`, scanning the start positions from the left: true
   * exactly when `search` occurs at some position of `s`.
   */
  function Includes(s: string, search: string): (b: bool)
    ensures b <==> exists i :: OccursAt(s, search, i)
    decreases |s|
  {
    if |search| <= |s| && s[..|search|] == search then
      assert OccursAt(s, search, 0);
      true
    else if s == [] then
      assert forall i :: !OccursAt(s, search, i);
      false
    else
      OccursLaterIffOccursInTail(s, search);
      Includes(s[1..], search)
  }

  /** When `search` does not start `s`, it occurs in `s` iff it occurs in `s[1..]`. */
  lemma OccursLaterIffOccursInTail(s: string, search: string)
    requires s != [] && !(|search| <= |s| && s[..|search|] == search)
    ensures (exists i :: OccursAt(s, search, i)) <==> (exists i :: OccursAt(s[1..], search, i))
  {
    forall i | OccursAt(s, search, i)
      ensures i >= 1 && OccursAt(s[1..], search, i - 1)
    {
      assert i != 0;
      assert s[1..][i - 1..i - 1 + |search|] == s[i..i + |search|];
    }
    forall i | OccursAt(s[1..], search, i)
      ensures OccursAt(s, search, i + 1)
    {
      assert s[1..][i..i + |search|] == s[i + 1..i + 1 + |search|];
    }
  }

  /** A string that lacks one of the characters of `search` does not include it. */
  lemma IncludesNeedsEveryChar(s: string, search: string, k: int)
    requires 0 <= k < |search| && search[k] !in s
    ensures !Includes(s, search)
  {
  }

  /** The first `k` characters of `fill` repeated: the filler `padStart` builds. */
  function RepeatFill(fill: string, k: nat): (r: string)
    requires fill != []
    ensures |r| == k
    ensures forall i :: 0 <= i < k && i < |fill| ==> r[i] == fill[i]
    ensures forall i :: |fill| <= i < k ==> r[i] == r[i - |fill|]
    decreases k
  {
    if k <= |fill| then fill[..k] else fill + RepeatFill(fill, k - |fill|)
  }

  function Max(a: int, b: int): int {
    if a < b then b else a
  }

  /**
   * `s.padStart(targetLength, fill)`: unchanged when already long enough or
   * when `fill` is empty; otherwise prefixed with repeated `fill` up to
   * `targetLength` characters.
   */
  function PadStart(s: string, targetLength: nat, fill: string): (r: string)
    ensures |s| <= |r| && r[|r| - |s|..] == s
    ensures targetLength <= |s| || fill == [] ==> r == s
    ensures fill != [] ==> |r| == Max(targetLength, |s|)
    ensures forall i :: 0 <= i < |r| - |s| && i < |fill| ==> r[i] == fill[i]
    ensures forall i :: |fill| <= i < |r| - |s| ==> r[i] == r[i - |fill|]
  {
    if targetLength <= |s| || fill == [] then s
    else RepeatFill(fill, targetLength - |s|) + s
  }

  /** Padding with a one-character fill writes that character in every padded position. */
  lemma {:induction false} PadStartSingle(s: string, targetLength: nat, c: char, i: nat)
    requires i < |PadStart(s, targetLength, [c])| - |s|
    ensures PadStart(s, targetLength, [c])[i] == c
  {
    if i > 0 {
      PadStartSingle(s, targetLength, c, i - 1);
    }
  }

  function DigitChar(d: nat): (c: char)
    requires d < 10
    ensures '0' <= c <= '9' && c as int - '0' as int == d
  {
    (d + '0' as int) as char
  }

  /** The decimal text of a non-negative integer, as `${n}` writes it. */
  function NatToString(n: nat): (r: string)
    ensures |r| >= 1
    ensures forall i :: 0 <= i < |r| ==> '0' <= r[i] <= '9'
    ensures r[0] == '0' ==> r == "0"
  {
    if n < 10 then [DigitChar(n)] else NatToString(n / 10) + [DigitChar(n % 10)]
  }

  /** Reads a string of decimal digits back as a number. */
  function DecimalValue(s: string): nat
    requires forall i :: 0 <= i < |s| ==> '0' <= s[i] <= '9'
  {
    if s == [] then 0
    else DecimalValue(s[..|s| - 1]) * 10 + (s[|s| - 1] as int - '0' as int)
  }

  /** The decimal text of `n` reads back as `n`: distinct counts print distinctly. */
  lemma {:induction false} NatToStringRoundTrip(n: nat)
    ensures DecimalValue(NatToString(n)) == n
  {
    var r := NatToString(n);
    if n >= 10 {
      NatToStringRoundTrip(n / 10);
      assert r[..|r| - 1] == NatToString(n / 10);
    }
  }
}
