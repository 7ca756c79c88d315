/** The character and string primitives of .NET that the validators rely on. */
module Text {

  import opened Envelopes

  /** Char.IsWhiteSpace, which is also the class `\s` of .NET regular
      expressions: U+0009..U+000D, U+0085 and the Unicode space, line and
      paragraph separators (categories Zs, Zl, Zp). */
  predicate IsWhiteSpace(c: char) {
    || ('\t' <= c <= '\r')
    || c == ' '
    || c == '\U{0085}'
    || c == '\U{00A0}'
    || c == '\U{1680}'
    || ('\U{2000}' <= c <= '\U{200A}')
    || c == '\U{2028}'
    || c == '\U{2029}'
    || c == '\U{202F}'
    || c == '\U{205F}'
    || c == '\U{3000}'
  }

  /** Every character is white space (true of the empty string). */
  predicate IsBlank(s: string) {
    forall k :: 0 <= k < |s| ==> IsWhiteSpace(s[k])
  }

  /** string.IsNullOrWhiteSpace; a null string is `None`. */
  predicate IsNullOrWhiteSpace(s: Option<string>) {
    s.None? || IsBlank(s.value)
  }

  /** string.Length: the number of UTF-16 code units, two for a character
      outside the Basic Multilingual Plane. */
  function Utf16Length(s: string): (n: nat)
    ensures |s| <= n <= 2 * |s|
    ensures (forall k :: 0 <= k < |s| ==> s[k] <= '\U{FFFF}') ==> n == |s|
  {
    if s == [] then 0 else Utf16Length(s[..|s| - 1]) + (if s[|s| - 1] <= '\U{FFFF}' then 1 else 2)
  }

  /** The number of leading white-space characters. */
  function LeadingWhiteSpace(s: string): (n: nat)
    ensures n <= |s|
    ensures forall k :: 0 <= k < n ==> IsWhiteSpace(s[k])
    ensures n < |s| ==> !IsWhiteSpace(s[n])
  {
    if |s| > 0 && IsWhiteSpace(s[0]) then 1 + LeadingWhiteSpace(s[1..]) else 0
  }

  /** The length of `s` once its trailing white space is dropped. */
  function LengthWithoutTrailingWhiteSpace(s: string): (n: nat)
    ensures n <= |s|
    ensures forall k :: n <= k < |s| ==> IsWhiteSpace(s[k])
    ensures n > 0 ==> !IsWhiteSpace(s[n - 1])
  {
    if |s| > 0 && IsWhiteSpace(s[|s| - 1]) then LengthWithoutTrailingWhiteSpace(s[..|s| - 1]) else |s|
  }

  /** string.Trim(): `s` without its leading and trailing white space. */
  function Trim(s: string): string {
    var t := s[LeadingWhiteSpace(s)..];
    t[..LengthWithoutTrailingWhiteSpace(t)]
  }

  /** Trim returns a contiguous piece of `s`, what it cuts off on either side is
      white space, and the piece neither starts nor ends with white space. */
  lemma TrimIsMaximalSlice(s: string)
    ensures var i, j := LeadingWhiteSpace(s), LeadingWhiteSpace(s) + LengthWithoutTrailingWhiteSpace(s[LeadingWhiteSpace(s)..]);
      && i <= j <= |s|
      && Trim(s) == s[i..j]
      && (forall k :: 0 <= k < i ==> IsWhiteSpace(s[k]))
      && (forall k :: j <= k < |s| ==> IsWhiteSpace(s[k]))
      && (Trim(s) != [] ==> !IsWhiteSpace(Trim(s)[0]) && !IsWhiteSpace(Trim(s)[|Trim(s)| - 1]))
  {
    var i := LeadingWhiteSpace(s);
    var t := s[i..];
    var n := LengthWithoutTrailingWhiteSpace(t);
    assert forall k :: i + n <= k < |s| ==> s[k] == t[k - i];
  }

  /** A string is blank exactly when trimming leaves nothing. */
  lemma BlankIffTrimsToEmpty(s: string)
    ensures IsBlank(s) <==> Trim(s) == []
  {
    TrimIsMaximalSlice(s);
    var i := LeadingWhiteSpace(s);
    if Trim(s) == [] {
      var j := i + LengthWithoutTrailingWhiteSpace(s[i..]);
      assert i == j;
    }
  }
}
