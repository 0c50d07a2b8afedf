// `normalizeToken`: whatever the login answer held as its token, made into one compact
// token string. `JSON.parse` is a parameter.
module TokenNormalization {
  import opened Wrappers
  import opened Text

  /** A JavaScript value as `normalizeToken` distinguishes it; any other value is
      represented by its `String(...)` text. */
  datatype Raw = Null | Undefined | Str(s: string) | Arr(elems: seq<Raw>) | Other(text: string)

  /** `String(raw)`: an array is its elements joined by ',', with null and undefined
      elements written as nothing. */
  function JsString(raw: Raw): string
    decreases raw
  {
    match raw
    case Null => "null"
    case Undefined => "undefined"
    case Str(s) => s
    case Other(t) => t
    case Arr(elems) => Join(ElementTexts(elems), ",")
  }

  /** The texts of an array's elements, null and undefined ones written as nothing. */
  function ElementTexts(elems: seq<Raw>): (r: seq<string>)
    decreases elems
    ensures |r| == |elems|
  {
    if elems == [] then []
    else
      var x := elems[|elems| - 1];
      ElementTexts(elems[..|elems| - 1]) + [if x.Null? || x.Undefined? then "" else JsString(x)]
  }

  /** An array of exactly three strings. */
  predicate IsTriple(elems: seq<Raw>) {
    |elems| == 3 && forall i :: 0 <= i < 3 ==> elems[i].Str?
  }

  /** The triple joined with '.'. */
  function JoinTriple(elems: seq<Raw>): string
    requires IsTriple(elems)
  {
    Join([elems[0].s, elems[1].s, elems[2].s], ".")
  }

  /** `raw.trim().startsWith('[')`. */
  predicate LooksLikeArray(s: string) {
    var t := JsTrim(s);
    |t| > 0 && t[0] == '['
  }

  /** `normalizeToken`: null stays null; a string of three dot-separated parts is kept; a
      string holding a JSON array of three strings, or such an array itself, is joined with
      '.'; anything else becomes its string form. */
  function NormalizeToken(raw: Raw, parseJson: string -> Option<Raw>): (r: Option<string>)
    ensures r.None? <==> raw.Null? || raw.Undefined?
  {
    if raw.Null? || raw.Undefined? then None
    else if raw.Str? && '.' in raw.s && |Split(raw.s, '.')| == 3 then Some(raw.s)
    else if raw.Str? && LooksLikeArray(raw.s) && parseJson(raw.s).Some? && parseJson(raw.s).value.Arr?
            && IsTriple(parseJson(raw.s).value.elems) then
      Some(JoinTriple(parseJson(raw.s).value.elems))
    else if raw.Arr? && IsTriple(raw.elems) then Some(JoinTriple(raw.elems))
    else Some(JsString(raw))
  }

  /** Three parts joined with '.' written out. */
  lemma JoinThree(a: string, b: string, c: string)
    ensures Join([a, b, c], ".") == a + "." + b + "." + c
  {
    assert [a, b, c][..2] == [a, b];
    assert [a, b][..1] == [a];
    assert Join([a], ".") == a;
    assert Join([a, b], ".") == a + "." + b;
  }

  /** Splitting at the first separator of a string whose head has none. */
  lemma {:induction false} SplitAfterHead(x: string, y: string, sep: char)
    requires sep !in x
    ensures Split(x + [sep] + y, sep) == [x] + Split(y, sep)
  {
    if x == [] {
      assert ([] + [sep] + y)[1..] == y;
    } else {
      var whole := x + [sep] + y;
      assert whole[0] == x[0] && x[0] != sep;
      assert whole[1..] == x[1..] + [sep] + y;
      SplitAfterHead(x[1..], y, sep);
      var rest := Split(whole[1..], sep);
      assert rest[0] == x[1..] && rest[1..] == Split(y, sep);
      assert Split(whole, sep) == [[x[0]] + rest[0]] + rest[1..];
      assert [x[0]] + x[1..] == x;
    }
  }

  /** A string without the separator is one part. */
  lemma SplitWhole(x: string, sep: char)
    requires sep !in x
    ensures Split(x, sep) == [x]
  {
    assert Count(x, sep) == 0;
    var parts := Split(x, sep);
    assert |parts| == 1;
    JoinOfSplit(x, sep);
  }

  /** Splitting a string with no separator gives back the string. */
  lemma {:induction false} JoinOfSplit(x: string, sep: char)
    requires sep !in x
    ensures Split(x, sep)[0] == x
  {
    if x != [] {
      JoinOfSplit(x[1..], sep);
      assert [x[0]] + x[1..] == x;
    }
  }

  /** A token joined from three dot-free parts splits back into those parts. */
  lemma JoinedTripleSplits(a: string, b: string, c: string)
    requires '.' !in a && '.' !in b && '.' !in c
    ensures Split(Join([a, b, c], "."), '.') == [a, b, c]
  {
    JoinThree(a, b, c);
    assert a + "." + b + "." + c == a + ['.'] + (b + ['.'] + c);
    SplitAfterHead(a, b + ['.'] + c, '.');
    SplitAfterHead(b, c, '.');
    SplitWhole(c, '.');
  }

  /** A string is never altered unless it holds a JSON array of three strings. */
  lemma StringsPassThrough(s: string, parseJson: string -> Option<Raw>)
    requires !LooksLikeArray(s)
    ensures NormalizeToken(Str(s), parseJson) == Some(s)
  {
  }

  /** A string that is not already three dot-separated parts, but holds a JSON array of
      three strings, becomes those strings joined with '.'. */
  lemma ParsedTripleJoined(s: string, a: string, b: string, c: string, parseJson: string -> Option<Raw>)
    requires !('.' in s && |Split(s, '.')| == 3)
    requires LooksLikeArray(s) && parseJson(s) == Some(Arr([Str(a), Str(b), Str(c)]))
    ensures NormalizeToken(Str(s), parseJson) == Some(a + "." + b + "." + c)
  {
    TripleText(a, b, c);
  }

  /** Three strings form a triple whose joined text is written out with dots. */
  lemma TripleText(a: string, b: string, c: string)
    ensures IsTriple([Str(a), Str(b), Str(c)])
    ensures JoinTriple([Str(a), Str(b), Str(c)]) == a + "." + b + "." + c
  {
    JoinThree(a, b, c);
  }

  /** Every other non-null value comes back as its `String(...)` text: a string that is
      not three dot-separated parts and does not parse as a JSON array of three strings
      (parsing fails, or gives something else), an array that is not three strings, or
      any other value. */
  lemma OtherValuesStringified(raw: Raw, parseJson: string -> Option<Raw>)
    requires !raw.Null? && !raw.Undefined?
    requires raw.Str? ==> !LooksLikeArray(raw.s) || parseJson(raw.s).None? || !parseJson(raw.s).value.Arr?
                          || !IsTriple(parseJson(raw.s).value.elems)
    requires raw.Arr? ==> !IsTriple(raw.elems)
    ensures NormalizeToken(raw, parseJson) == Some(JsString(raw))
  {
  }

  /** An array of three strings becomes the dotted token. */
  lemma TripleJoined(a: string, b: string, c: string, parseJson: string -> Option<Raw>)
    ensures NormalizeToken(Arr([Str(a), Str(b), Str(c)]), parseJson) == Some(a + "." + b + "." + c)
  {
    JoinThree(a, b, c);
  }

  /** Normalising is idempotent on the tokens it builds: a token joined from three
      dot-free parts is kept as it is. */
  lemma NormalizeIdempotentOnJoined(a: string, b: string, c: string, parseJson: string -> Option<Raw>)
    requires '.' !in a && '.' !in b && '.' !in c
    ensures var t := NormalizeToken(Arr([Str(a), Str(b), Str(c)]), parseJson).value;
      NormalizeToken(Str(t), parseJson) == Some(t)
  {
    TripleJoined(a, b, c, parseJson);
    JoinedTripleSplits(a, b, c);
    JoinThree(a, b, c);
    var t := a + "." + b + "." + c;
    assert t[|a|] == '.';
  }

  /** An illustration only, not a general property (that is `OtherValuesStringified`):
      an array of two strings, which is not a triple, is written out with ','. */
  lemma PairIsWrittenWithComma(a: string, b: string, parseJson: string -> Option<Raw>)
    ensures NormalizeToken(Arr([Str(a), Str(b)]), parseJson) == Some(a + "," + b)
  {
    var elems := [Str(a), Str(b)];
    assert [a, b][..1] == [a];
    assert Join([a], ",") == a;
    assert Join([a, b], ",") == a + "," + b;
    assert elems[..1] == [Str(a)] && [Str(a)][..0] == [];
    assert ElementTexts([Str(a)]) == [a];
    assert ElementTexts(elems) == [a, b];
  }
}
