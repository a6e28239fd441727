/**
 * The private `String` extension of MonetaryCounterView.swift: index-clamping
 * character access and substrings over a string seen as a sequence of
 * characters, plus `Int(String)` on the one-character texts the labels hold.
 */
module Text {
  import opened Wrappers

  type Digit = d: int | 0 <= d <= 9

  /** Clamps an index into `0..n`, as the range subscript does with each bound. */
  function ClampIndex(i: int, n: nat): (r: nat)
    ensures r <= n
    ensures 0 <= i <= n ==> r == i
    ensures i < 0 ==> r == 0
    ensures n < i ==> r == n
  {
    if i < 0 then 0 else if n < i then n else i
  }

  /**
   * `s[lower ..< upper]`: both bounds are clamped into `0..|s|`. A Swift
   * `Range` cannot have its lower bound above its upper one, hence the
   * precondition; clamping keeps the bounds in that order.
   */
  function Slice(s: string, lower: int, upper: int): (r: string)
    requires lower <= upper
    ensures |r| == ClampIndex(upper, |s|) - ClampIndex(lower, |s|)
    ensures forall k :: 0 <= k < |r| ==> r[k] == s[ClampIndex(lower, |s|) + k]
  {
    s[ClampIndex(lower, |s|)..ClampIndex(upper, |s|)]
  }

  /** `s[i]`: the i-th character as a one-character string, or "" out of range. */
  function CharAt(s: string, i: int): (r: string)
    ensures |r| <= 1
  {
    if 0 <= i < |s| then [s[i]] else ""
  }

  /** The single-index subscript is the range subscript over `i ..< i + 1`, clamping included. */
  lemma CharAtIsSlice(s: string, i: int)
    ensures CharAt(s, i) == Slice(s, i, i + 1)
  {
    var r := Slice(s, i, i + 1);
    if 0 <= i < |s| {
      assert |r| == 1 && r[0] == s[i];
    } else {
      assert |r| == 0;
    }
  }

  /** `substring(fromIndex:)`: drops `min(n, |s|)` leading characters (none for n < 0). */
  function SubstringFrom(s: string, n: int): (r: string)
    ensures |s| - |r| == ClampIndex(n, |s|)
    ensures r == s[|s| - |r|..]
  {
    Slice(s, if n < |s| then n else |s|, |s|)
  }

  /** `substring(toIndex:)`: keeps `min(max(n, 0), |s|)` leading characters. */
  function SubstringTo(s: string, n: int): (r: string)
    ensures |r| == ClampIndex(n, |s|)
    ensures r == s[..|r|]
  {
    Slice(s, 0, if 0 < n then n else 0)
  }

  /** The two substrings at the same index split the string. */
  lemma SubstringsSplit(s: string, n: int)
    ensures SubstringTo(s, n) + SubstringFrom(s, n) == s
  {
    var k := ClampIndex(n, |s|);
    assert SubstringTo(s, n) == s[..k];
    assert SubstringFrom(s, n) == s[k..];
  }

  /** Reading the trimmed string at i reads the original string `n` places further on. */
  lemma {:induction false} TrimmedCharAt(s: string, n: nat, i: int)
    requires 0 <= i
    ensures CharAt(SubstringFrom(s, n), i) == CharAt(s, i + n)
  {
    var t := SubstringFrom(s, n);
    if i < |t| {
      assert t[i] == s[|s| - |t| + i];
    }
  }

  /** One text per character, as `numberString.map { String($0) }` builds them. */
  function Chars(s: string): (ts: seq<string>)
    ensures |ts| == |s|
    ensures forall j :: 0 <= j < |s| ==> ts[j] == [s[j]]
  {
    seq(|s|, j requires 0 <= j < |s| => [s[j]])
  }

  /** `joined()` over a list of texts. */
  function Join(ts: seq<string>): string
  {
    if ts == [] then "" else ts[0] + Join(ts[1..])
  }

  /** Joining the one-character texts of a string gives back the string. */
  lemma {:induction false} JoinChars(s: string)
    ensures Join(Chars(s)) == s
  {
    if s != [] {
      assert Chars(s)[1..] == Chars(s[1..]);
      JoinChars(s[1..]);
      assert s == [s[0]] + s[1..];
    }
  }

  /**
   * `Int(text)` on a label text. Labels hold at most one character, and a
   * single character parses exactly when it is an ASCII decimal digit.
   */
  function ParseDigit(t: string): (r: Option<Digit>)
    ensures r.Some? <==> |t| == 1 && '0' <= t[0] <= '9'
  {
    if |t| == 1 && '0' <= t[0] <= '9' then Some(t[0] as int - '0' as int) else None
  }

  /** `String(String(n).last!)` for a digit n: its one-character decimal text. */
  function DigitText(d: Digit): (t: string)
    ensures |t| == 1 && '0' <= t[0] <= '9'
  {
    [('0' as int + d) as char]
  }

  /** Printing a digit and parsing it back are inverse, in both directions. */
  lemma DigitRoundTrip(d: Digit, t: string)
    ensures ParseDigit(DigitText(d)) == Some(d)
    ensures ParseDigit(t) == Some(d) ==> DigitText(d) == t
  {
  }
}
