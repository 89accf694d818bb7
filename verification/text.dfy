/** String helpers the program takes from the JavaScript runtime:
    `String.prototype.trim` and the decimal rendering of a number. */
module Text {

  /** A WhiteSpace (section 12.2 of ECMA-262) or LineTerminator (section 12.3)
      code point: TAB, VT, FF, SP, NBSP, ZWNBSP, the other Unicode "Zs"
      characters, LF, CR, LS and PS. */
  predicate IsWhiteSpace(c: char) {
    var n := c as int;
    || n == 0x09 || n == 0x0B || n == 0x0C || n == 0x20 || n == 0xA0 || n == 0xFEFF
    || n == 0x1680 || 0x2000 <= n <= 0x200A || n == 0x202F || n == 0x205F || n == 0x3000
    || n == 0x0A || n == 0x0D || n == 0x2028 || n == 0x2029
  }

  predicate AllWhite(s: string) {
    forall i :: 0 <= i < |s| ==> IsWhiteSpace(s[i])
  }

  /** Neither end of `s` is white space. */
  predicate Tight(s: string) {
    s == [] || (!IsWhiteSpace(s[0]) && !IsWhiteSpace(s[|s| - 1]))
  }

  /** `s[i..j]` is what remains of `s` once the white space at both ends is
      stripped: a reference definition of trimming, independent of how it
      is computed. */
  ghost predicate TrimmedAt(s: string, i: int, j: int) {
    && 0 <= i <= j <= |s|
    && (forall k :: 0 <= k < i ==> IsWhiteSpace(s[k]))
    && (forall k :: j <= k < |s| ==> IsWhiteSpace(s[k]))
    && (i < j ==> !IsWhiteSpace(s[i]) && !IsWhiteSpace(s[j - 1]))
  }

  /** The first index at or after `i` that is not white space (or `|s|`). */
  function SkipWhite(s: string, i: nat): (n: nat)
    requires i <= |s|
    ensures i <= n <= |s|
    ensures forall k :: i <= k < n ==> IsWhiteSpace(s[k])
    ensures n < |s| ==> !IsWhiteSpace(s[n])
    decreases |s| - i
  {
    if i < |s| && IsWhiteSpace(s[i]) then SkipWhite(s, i + 1) else i
  }

  /** The smallest `m` in `lo..j` such that `s[m..j]` is all white space. */
  function SkipWhiteBack(s: string, lo: nat, j: nat): (m: nat)
    requires lo <= j <= |s|
    ensures lo <= m <= j
    ensures forall k :: m <= k < j ==> IsWhiteSpace(s[k])
    ensures lo < m ==> !IsWhiteSpace(s[m - 1])
    decreases j
  {
    if lo < j && IsWhiteSpace(s[j - 1]) then SkipWhiteBack(s, lo, j - 1) else j
  }

  /** `String.prototype.trim`. */
  function Trim(s: string): (r: string)
    ensures |r| <= |s|
    ensures Tight(r)
  {
    var i := SkipWhite(s, 0);
    var j := SkipWhiteBack(s, i, |s|);
    assert j > i ==> i < |s|;
    s[i..j]
  }

  /** Where in `s` the trimmed string lies. */
  lemma TrimWitness(s: string) returns (i: int, j: int)
    ensures TrimmedAt(s, i, j) && Trim(s) == s[i..j]
  {
    i := SkipWhite(s, 0);
    j := SkipWhiteBack(s, i, |s|);
  }

  /** The trimmed part of a string is unique. */
  lemma TrimmedAtUnique(s: string, i1: int, j1: int, i2: int, j2: int)
    requires TrimmedAt(s, i1, j1) && TrimmedAt(s, i2, j2)
    ensures i1 < j1 ==> i1 == i2 && j1 == j2
    ensures s[i1..j1] == s[i2..j2]
  {
  }

  /** `Trim` computes exactly the reference trimming. */
  lemma TrimMatchesReference(s: string, i: int, j: int)
    requires TrimmedAt(s, i, j)
    ensures Trim(s) == s[i..j]
  {
    var i', j' := TrimWitness(s);
    TrimmedAtUnique(s, i, j, i', j');
  }

  /** Padding `x` with white space moves its trimmed part but keeps it. */
  lemma PaddedTrimmedAt(a: string, x: string, b: string, i: int, j: int)
    requires AllWhite(a) && AllWhite(b) && TrimmedAt(x, i, j)
    ensures TrimmedAt(a + x + b, |a| + i, |a| + j)
    ensures (a + x + b)[|a| + i..|a| + j] == x[i..j]
  {
    var s := a + x + b;
    forall k | 0 <= k < |a| + i ensures IsWhiteSpace(s[k]) {
      if k < |a| { assert s[k] == a[k]; } else { assert s[k] == x[k - |a|]; }
    }
    forall k | |a| + j <= k < |s| ensures IsWhiteSpace(s[k]) {
      if k < |a| + |x| { assert s[k] == x[k - |a|]; } else { assert s[k] == b[k - |a| - |x|]; }
    }
    if i < j {
      assert s[|a| + i] == x[i];
      assert s[|a| + j - 1] == x[j - 1];
    }
    assert s[|a| + i..|a| + j] == x[i..j] by {
      assert s[|a|..|a| + |x|] == x;
    }
  }

  /** White space added at either end does not change the trimmed string. */
  lemma TrimIgnoresPadding(a: string, x: string, b: string)
    requires AllWhite(a) && AllWhite(b)
    ensures Trim(a + x + b) == Trim(x)
  {
    var i, j := TrimWitness(x);
    PaddedTrimmedAt(a, x, b, i, j);
    TrimMatchesReference(a + x + b, |a| + i, |a| + j);
  }

  /** A string with no white space at its ends is its own trim: interior
      white space is kept. */
  lemma TrimKeepsTight(s: string)
    requires Tight(s)
    ensures Trim(s) == s
  {
    assert s[0..|s|] == s;
    TrimMatchesReference(s, 0, |s|);
  }

  /** Trimming twice is trimming once. */
  lemma TrimIdempotent(s: string)
    ensures Trim(Trim(s)) == Trim(s)
  {
    TrimKeepsTight(Trim(s));
  }

  /** Trimming a tight string followed by white space gives the string back. */
  lemma TrimTrailingPadding(x: string, pad: string)
    requires Tight(x) && AllWhite(pad)
    ensures Trim(x + pad) == x
  {
    TrimIgnoresPadding("", x, pad);
    assert "" + x + pad == x + pad;
    TrimKeepsTight(x);
  }

  function DigitChar(d: nat): (c: char)
    requires d < 10
    ensures '0' <= c <= '9'
  {
    ['0', '1', '2', '3', '4', '5', '6', '7', '8', '9'][d]
  }

  /** Decimal rendering of a natural number, as a template literal prints it. */
  function NatToString(n: nat): (r: string)
    ensures |r| >= 1
    ensures forall i :: 0 <= i < |r| ==> '0' <= r[i] <= '9'
    decreases n
  {
    if n < 10 then [DigitChar(n)] else NatToString(n / 10) + [DigitChar(n % 10)]
  }

  /** Reads a string of decimal digits back as a number. */
  function DigitsValue(s: string): nat
    requires forall i :: 0 <= i < |s| ==> '0' <= s[i] <= '9'
    decreases |s|
  {
    if |s| == 0 then 0
    else 10 * DigitsValue(s[..|s| - 1]) + (s[|s| - 1] as int - '0' as int)
  }

  lemma DigitCharValue(d: nat)
    requires d < 10
    ensures DigitChar(d) as int - '0' as int == d
  {
  }

  /** The decimal rendering loses nothing: reading it back gives `n`. */
  lemma {:induction false} NatToStringRoundTrip(n: nat)
    ensures DigitsValue(NatToString(n)) == n
    decreases n
  {
    var r := NatToString(n);
    if n < 10 {
      DigitCharValue(n);
    } else {
      NatToStringRoundTrip(n / 10);
      DigitCharValue(n % 10);
      assert r[..|r| - 1] == NatToString(n / 10);
    }
  }

  /** Different numbers are rendered differently. */
  lemma NatToStringInjective(m: nat, n: nat)
    requires NatToString(m) == NatToString(n)
    ensures m == n
  {
    NatToStringRoundTrip(m);
    NatToStringRoundTrip(n);
  }
}
