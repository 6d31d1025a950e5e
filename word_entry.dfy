/** The text a user sends to add a word: `"english - russian"`, split at the
    first dash, each side trimmed. */
module WordEntry {
  import opened Wrappers
  import opened Text

  const Dash: char := '-'

  /** Why `process_new_word` answers "wrong format": the unpacking of
      `text.split('-', 1)` fails (no dash), or a trimmed side is empty. */
  datatype ParseError = NoSeparator | EmptySide

  /** The pair `process_new_word` extracts from a message, before lower-casing. */
  function ParseWordPair(text: string): (r: Result<(string, string), ParseError>)
    ensures r == Err(NoSeparator) <==> Dash !in Strip(text)
    ensures r.Ok? ==> r.value.0 != [] && r.value.1 != [] && IsStripped(r.value.0) && IsStripped(r.value.1)
    ensures r.Ok? ==> Dash !in r.value.0
  {
    match SplitOnce(Strip(text), Dash)
    case None => Err(NoSeparator)
    case Some((before, after)) =>
      var english := Strip(before);
      var russian := Strip(after);
      if english == [] || russian == [] then Err(EmptySide) else Ok((english, russian))
  }

  /** The text is accepted exactly when the stripped text contains a dash and
      neither side of the first dash is blank; the pair is then the two sides,
      trimmed, and any later dash stays in the translation. */
  lemma ParseAcceptsIff(text: string, before: string, after: string)
    requires Strip(text) == before + [Dash] + after && Dash !in before
    ensures ParseWordPair(text).Ok? <==> !AllSpace(before) && !AllSpace(after)
    ensures ParseWordPair(text).Ok? ==> ParseWordPair(text).value == (Strip(before), Strip(after))
    ensures ParseWordPair(text) == Err(EmptySide) <==> AllSpace(before) || AllSpace(after)
  {
    SplitOnceUnique(Strip(text), Dash, before, after);
    assert ParseWordPair(text) ==
      if Strip(before) == [] || Strip(after) == [] then Err(EmptySide) else Ok((Strip(before), Strip(after)));
  }

  /** Writing a pair in the prompted format, with any whitespace around the
      words and the dash, and reading it back gives the pair. */
  lemma FormatRoundTrip(english: string, russian: string, pad1: string, pad2: string, pad3: string, pad4: string)
    requires english != [] && russian != [] && IsStripped(english) && IsStripped(russian)
    requires Dash !in english
    requires AllSpace(pad1) && AllSpace(pad2) && AllSpace(pad3) && AllSpace(pad4)
    ensures ParseWordPair(pad1 + english + pad2 + [Dash] + pad3 + russian + pad4) == Ok((english, russian))
  {
    var before := english + pad2;
    var after := pad3 + russian;
    var text := pad1 + english + pad2 + [Dash] + pad3 + russian + pad4;
    StripFormatted(english, russian, pad1, pad2, pad3, pad4);
    SidesOfFormatted(english, russian, pad2, pad3);
    ParseAcceptsIff(text, before, after);
  }

  lemma StripFormatted(english: string, russian: string, pad1: string, pad2: string, pad3: string, pad4: string)
    requires english != [] && russian != [] && IsStripped(english) && IsStripped(russian)
    requires AllSpace(pad1) && AllSpace(pad4)
    ensures Strip(pad1 + english + pad2 + [Dash] + pad3 + russian + pad4) == (english + pad2) + [Dash] + (pad3 + russian)
  {
    var body := (english + pad2) + [Dash] + (pad3 + russian);
    assert pad1 + english + pad2 + [Dash] + pad3 + russian + pad4 == pad1 + body + pad4;
    assert IsStripped(body) by {
      assert body[0] == english[0];
      assert body[|body| - 1] == russian[|russian| - 1];
    }
    StripPadded(pad1, body, pad4);
  }

  lemma SidesOfFormatted(english: string, russian: string, pad2: string, pad3: string)
    requires english != [] && russian != [] && IsStripped(english) && IsStripped(russian)
    requires Dash !in english
    requires AllSpace(pad2) && AllSpace(pad3)
    ensures Dash !in english + pad2
    ensures !AllSpace(english + pad2) && !AllSpace(pad3 + russian)
    ensures Strip(english + pad2) == english && Strip(pad3 + russian) == russian
  {
    assert Dash !in english + pad2 by {
      forall i | 0 <= i < |pad2| ensures pad2[i] != Dash { assert IsSpace(pad2[i]); }
    }
    assert (english + pad2)[0] == english[0];
    assert (pad3 + russian)[|pad3 + russian| - 1] == russian[|russian| - 1];
    StripPadded([], english, pad2);
    assert [] + english + pad2 == english + pad2;
    StripPadded(pad3, russian, []);
    assert pad3 + russian + [] == pad3 + russian;
  }

  /** A message without a dash is rejected. */
  lemma NoDashRejected(text: string)
    requires Dash !in text
    ensures ParseWordPair(text) == Err(NoSeparator)
  {
  }
}
