// String primitives of the .NET and JavaScript runtimes that the source relies on:
// white-space tests, Trim, ordinal case-insensitive comparison, Split and Join.
module Text {
  import opened Wrappers

  /** `char.IsWhiteSpace` of .NET (the Unicode space separators, line and paragraph
      separators, and the control characters U+0009..U+000D and U+0085). */
  predicate IsWhiteSpace(c: char) {
    c == ' ' || ('\t' <= c <= '\r') || c == '\U{0085}' || c == '\U{00A0}' || c == '\U{1680}'
    || ('\U{2000}' <= c <= '\U{200A}') || c == '\U{2028}' || c == '\U{2029}' || c == '\U{202F}'
    || c == '\U{205F}' || c == '\U{3000}'
  }

  /** The white space removed by JavaScript's `String.prototype.trim`: the .NET set
      without U+0085, plus the byte-order mark U+FEFF. */
  predicate IsJsWhiteSpace(c: char) {
    (IsWhiteSpace(c) && c != '\U{0085}') || c == '\U{FEFF}'
  }

  predicate AllWhiteSpace(s: string, ws: char -> bool) {
    forall i :: 0 <= i < |s| ==> ws(s[i])
  }

  /** Number of leading characters of `s` that satisfy `ws`. */
  function LeadingCount(s: string, ws: char -> bool): (n: nat)
    ensures n <= |s|
    ensures forall i :: 0 <= i < n ==> ws(s[i])
    ensures n < |s| ==> !ws(s[n])
  {
    if s == [] || !ws(s[0]) then 0 else 1 + LeadingCount(s[1..], ws)
  }

  /** Number of trailing characters of `s` that satisfy `ws`. */
  function TrailingCount(s: string, ws: char -> bool): (n: nat)
    ensures n <= |s|
    ensures forall i :: |s| - n <= i < |s| ==> ws(s[i])
    ensures n < |s| ==> !ws(s[|s| - n - 1])
  {
    if s == [] || !ws(s[|s| - 1]) then 0 else 1 + TrailingCount(s[..|s| - 1], ws)
  }

  /** `s.Trim()` for the white-space class `ws`: the longest slice of `s` that neither
      starts nor ends with white space. */
  function TrimWith(s: string, ws: char -> bool): (r: string)
    ensures |r| <= |s|
    ensures r == [] || (!ws(r[0]) && !ws(r[|r| - 1]))
    ensures r == [] <==> AllWhiteSpace(s, ws)
  {
    var lead := LeadingCount(s, ws);
    if lead == |s| then
      []
    else
      var rest := s[lead..];
      var trail := TrailingCount(rest, ws);
      assert !ws(rest[0]);
      var r := rest[..|rest| - trail];
      assert !AllWhiteSpace(s, ws) by { assert !ws(s[lead]); }
      r
  }

  /** .NET `string.Trim()`. */
  function Trim(s: string): string {
    TrimWith(s, IsWhiteSpace)
  }

  /** JavaScript `String.prototype.trim()`. */
  function JsTrim(s: string): string {
    TrimWith(s, IsJsWhiteSpace)
  }

  /** Trimming twice is trimming once. */
  lemma TrimIdempotent(s: string)
    ensures Trim(Trim(s)) == Trim(s)
  {
    var t := Trim(s);
    if t != [] {
      assert LeadingCount(t, IsWhiteSpace) == 0;
      assert TrailingCount(t, IsWhiteSpace) == 0;
      assert t[0..][..|t| - 0] == t;
    }
  }

  /** A string that neither starts nor ends with white space is its own trim. */
  lemma TrimUnchanged(s: string)
    requires s != [] && !IsWhiteSpace(s[0]) && !IsWhiteSpace(s[|s| - 1])
    ensures Trim(s) == s
  {
    assert LeadingCount(s, IsWhiteSpace) == 0;
    assert TrailingCount(s[0..], IsWhiteSpace) == 0;
    assert s[0..][..|s| - 0] == s;
  }

  /** .NET `string.Length`: the number of UTF-16 code units, so a character outside the
      Basic Multilingual Plane (a surrogate pair) counts twice. */
  function Utf16Length(s: string): (n: nat)
    ensures |s| <= n <= 2 * |s|
    ensures n == |s| <==> forall i :: 0 <= i < |s| ==> s[i] < '\U{10000}'
    ensures (forall i :: 0 <= i < |s| ==> s[i] >= '\U{10000}') ==> n == 2 * |s|
  {
    if s == [] then 0 else (if s[0] < '\U{10000}' then 1 else 2) + Utf16Length(s[1..])
  }

  /** `Encoding.UTF8.GetBytes(s).Length`: one byte below U+0080, two below U+0800, three
      below U+10000 and four above. */
  function Utf8Length(s: string): (n: nat)
    ensures |s| <= n <= 4 * |s|
    ensures n == |s| <==> forall i :: 0 <= i < |s| ==> s[i] < '\U{0080}'
  {
    if s == [] then 0
    else
      var c := s[0];
      (if c < '\U{0080}' then 1 else if c < '\U{0800}' then 2 else if c < '\U{10000}' then 3 else 4)
      + Utf8Length(s[1..])
  }

  /** A string never has fewer UTF-8 bytes than UTF-16 code units. */
  lemma {:induction false} Utf8AtLeastUtf16(s: string)
    ensures Utf16Length(s) <= Utf8Length(s)
  {
    if s != [] {
      Utf8AtLeastUtf16(s[1..]);
    }
  }

  /** Worked examples: a slice of pizza, U+1F355, is one character but two UTF-16 units
      and four UTF-8 bytes; "caf\U{00E9}" is four units and five bytes. */
  lemma EncodedLengthExamples()
    ensures |"\U{1F355}"| == 1 && Utf16Length("\U{1F355}") == 2 && Utf8Length("\U{1F355}") == 4
    ensures Utf16Length("caf\U{00E9}") == 4 && Utf8Length("caf\U{00E9}") == 5
  {
    assert "caf\U{00E9}"[1..] == "af\U{00E9}";
    assert "af\U{00E9}"[1..] == "f\U{00E9}";
    assert "f\U{00E9}"[1..] == "\U{00E9}";
  }

  /** `string.IsNullOrEmpty`. */
  predicate IsNullOrEmpty(s: Option<string>) {
    s.None? || s.value == ""
  }

  /** `string.IsNullOrWhiteSpace`. */
  predicate IsNullOrWhiteSpace(s: Option<string>) {
    s.None? || AllWhiteSpace(s.value, IsWhiteSpace)
  }

  /** `s?.Trim()`. */
  function TrimOpt(s: Option<string>): (r: Option<string>)
    ensures r.Some? <==> s.Some?
    ensures IsNullOrEmpty(r) <==> IsNullOrWhiteSpace(s)
  {
    match s
    case None => None
    case Some(v) => Some(Trim(v))
  }

  /** The simple upper-case mapping used by `StringComparison.OrdinalIgnoreCase`,
      restricted to the ASCII and Latin-1 letters. */
  function ToUpper(c: char): char {
    if 'a' <= c <= 'z' || ('\U{00E0}' <= c <= '\U{00FE}' && c != '\U{00F7}') then
      (c as int - 32) as char
    else
      c
  }

  function Upper(s: string): (r: string)
    ensures |r| == |s|
    ensures forall i :: 0 <= i < |s| ==> r[i] == ToUpper(s[i])
  {
    seq(|s|, i requires 0 <= i < |s| => ToUpper(s[i]))
  }

  /** `string.Equals(a, b, StringComparison.OrdinalIgnoreCase)`. */
  predicate EqualsIgnoreCase(a: string, b: string) {
    Upper(a) == Upper(b)
  }

  /** `string.Equals(a, b, StringComparison.OrdinalIgnoreCase)` for a possibly null `a`
      and a string `b`: a null is equal to no string. */
  predicate EqualsIgnoreCaseOpt(a: Option<string>, b: string) {
    a.Some? && EqualsIgnoreCase(a.value, b)
  }

  /** Ordinal case-insensitive equality relates only strings of the same length, and is an
      equivalence. */
  lemma EqualsIgnoreCaseFacts(a: string, b: string, c: string)
    ensures EqualsIgnoreCase(a, a)
    ensures EqualsIgnoreCase(a, b) ==> |a| == |b| && EqualsIgnoreCase(b, a)
    ensures EqualsIgnoreCase(a, b) && EqualsIgnoreCase(b, c) ==> EqualsIgnoreCase(a, c)
  {
    if EqualsIgnoreCase(a, b) {
      assert |Upper(a)| == |Upper(b)|;
    }
  }

  /** Number of occurrences of `c` in `s`. */
  function Count(s: string, c: char): (n: nat)
    ensures n <= |s|
    ensures n == 0 <==> c !in s
  {
    if s == [] then 0 else (if s[0] == c then 1 else 0) + Count(s[1..], c)
  }

  /** JavaScript `s.split(sep)` for a one-character separator. */
  function Split(s: string, sep: char): (parts: seq<string>)
    ensures |parts| == Count(s, sep) + 1
    ensures forall i :: 0 <= i < |parts| ==> sep !in parts[i]
  {
    if s == [] then [""]
    else
      var rest := Split(s[1..], sep);
      if s[0] == sep then [""] + rest else [[s[0]] + rest[0]] + rest[1..]
  }

  /** JavaScript `parts.join(sep)`. */
  function Join(parts: seq<string>, sep: string): string {
    if parts == [] then ""
    else if |parts| == 1 then parts[0]
    else Join(parts[..|parts| - 1], sep) + sep + parts[|parts| - 1]
  }
}
