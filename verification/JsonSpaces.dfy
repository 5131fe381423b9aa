/** White space around the colon: what the extractor skips, and what it does not. */
module JsonSpaces {
  import opened Foundation
  import opened Json
  import opened JsonMeaning

  /** Nothing but the four characters of section 2 of RFC 8259. */
  ghost predicate Blank(w: bytes) {
    forall i | 0 <= i < |w| :: w[i] in {' ', '\t', '\r', '\n'}
  }

  lemma {:induction false} TrimBlank(w: bytes, rest: bytes)
    requires Blank(w)
    ensures Trim(w + rest) == Trim(rest)
  {
    if w == [] {
      assert w + rest == rest;
    } else {
      assert (w + rest)[1..] == w[1..] + rest;
      TrimBlank(w[1..], rest);
    }
  }

  /** A byte that is no white space ends the skipping. */
  lemma TrimAt(w: bytes, c: byte, rest: bytes)
    requires Blank(w) && c !in {' ', '\t', '\r', '\n'}
    ensures Trim(w + ([c] + rest)) == [c] + rest
  {
    TrimBlank(w, [c] + rest);
  }

  /** A value behind any white space before and after the colon. */
  lemma SpacedValue(w1: bytes, w2: bytes, v: bytes, rest: bytes)
    requires Blank(w1) && Blank(w2) && WellPaired(v)
    ensures AfterKey(w1 + ([':'] + (w2 + (['"'] + (v + ("\"" + rest)))))) == Some(v)
  {
    var text := v + ("\"" + rest);
    var tail := w2 + (['"'] + text);
    TrimAt(w1, ':', tail);
    assert ([':'] + tail)[1..] == tail;
    TrimAt(w2, '"', text);
    assert (['"'] + text)[1..] == text;
    assert text[..|v|] == v && text[|v|] == '"';
    CloseMeaning(text, |v|);
  }

  /** Any other byte before the colon, or between it and the value, makes the extraction fail. */
  lemma StrayByte(w1: bytes, w2: bytes, c: byte, rest: bytes)
    requires Blank(w1) && Blank(w2) && c !in {' ', '\t', '\r', '\n'}
    ensures c != ':' ==> AfterKey(w1 + ([c] + rest)) == None
    ensures c != '"' ==> AfterKey(w1 + ([':'] + (w2 + ([c] + rest)))) == None
  {
    var tail := w2 + ([c] + rest);
    TrimAt(w1, c, rest);
    TrimAt(w1, ':', tail);
    assert ([':'] + tail)[1..] == tail;
    TrimAt(w2, c, rest);
  }

  lemma KeyFirst(key: bytes, rest: bytes)
    ensures Scan("\"" + (key + ("\"" + rest)), key) == AfterKey(rest)
  {
    var raw := "\"" + (key + ("\"" + rest));
    assert raw[1..1 + |key|] == key && raw[1 + |key|] == '"' && raw[|key| + 2..] == rest;
  }

  /** A member printed with any white space around its colon reads back; with any other byte there it is
      not found. */
  lemma SpacedMember(key: bytes, w1: bytes, w2: bytes, v: bytes, rest: bytes, c: byte)
    requires Blank(w1) && Blank(w2) && WellPaired(v)
    ensures Scan("\"" + (key + ("\"" + (w1 + ([':'] + (w2 + (['"'] + (v + ("\"" + rest)))))))), key) == Some(v)
    ensures c !in {' ', '\t', '\r', '\n', ':'} ==>
              Scan("\"" + (key + ("\"" + (w1 + ([c] + rest)))), key) == None
    ensures c !in {' ', '\t', '\r', '\n', '"'} ==>
              Scan("\"" + (key + ("\"" + (w1 + ([':'] + (w2 + ([c] + rest)))))), key) == None
  {
    SpacedValue(w1, w2, v, rest);
    KeyFirst(key, w1 + ([':'] + (w2 + (['"'] + (v + ("\"" + rest))))));
    KeyFirst(key, w1 + ([c] + rest));
    KeyFirst(key, w1 + ([':'] + (w2 + ([c] + rest))));
    if c !in {' ', '\t', '\r', '\n'} { StrayByte(w1, w2, c, rest); }
  }
}
