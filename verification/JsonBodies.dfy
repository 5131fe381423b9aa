/** What the extractor finds in a printed body under any key: the members, and what a key can be
    mistaken for, namely the header, the punctuation and the text inside an earlier value. */
module JsonBodies {
  import opened Foundation
  import opened Json
  import opened JsonMeaning

  // ---- Values that hold quotes -------------------------------------------------------------

  /** The pieces of a value between its quotes. */
  function Parts(v: bytes): seq<bytes>
    decreases |v|
  {
    var q := NextQuote(v, 0);
    if q == |v| then [v] else [v[..q]] + Parts(v[q + 1..])
  }

  /** A colon with nothing but space around it. */
  predicate IsColon(w: bytes) {
    var t := Trim(w);
    t != [] && t[0] == ':' && Trim(t[1..]) == []
  }

  /** The first piece equal to the key is the last but one, and the last is a bare colon, which makes
      the closing quote look like an opening one. */
  predicate Leaks(v: bytes, key: bytes)
    decreases |v|
  {
    var q := NextQuote(v, 0);
    q < |v| && if v[..q] == key then IsColon(v[q + 1..]) else Leaks(v[q + 1..], key)
  }

  lemma {:induction false} LeaksShows(v: bytes, key: bytes)
    requires Leaks(v, key)
    ensures key in Parts(v)
    decreases |v|
  {
    var q := NextQuote(v, 0);
    if v[..q] != key { LeaksShows(v[q + 1..], key); }
  }

  /** A quote inside a well-paired value is escaped, and what follows it is well paired. */
  lemma {:induction false} QuoteIsEscaped(v: bytes, q: nat)
    requires WellPaired(v) && q < |v| && v[q] == '"' && forall i | 0 <= i < q :: v[i] != '"'
    ensures q > 0 && v[q - 1] == '\\' && WellPaired(v[q + 1..])
    decreases |v|
  {
    if v[0] == '\\' {
      if q > 1 {
        QuoteIsEscaped(v[2..], q - 2);
        assert v[2..][q - 1..] == v[q + 1..];
      }
    } else {
      QuoteIsEscaped(v[1..], q - 1);
      assert v[1..][q..] == v[q + 1..];
    }
  }

  lemma {:induction false} TrimQuote(w: bytes, rest: bytes)
    requires QuoteFree(w)
    ensures Trim(w + ("\"" + rest)) == Trim(w) + ("\"" + rest) && QuoteFree(Trim(w))
  {
    if w == [] {
      assert w + ("\"" + rest) == "\"" + rest;
    } else {
      assert (w + ("\"" + rest))[1..] == w[1..] + ("\"" + rest);
      TrimQuote(w[1..], rest);
    }
  }

  /** The string opened by a quote before `text`. */
  function Opened(text: bytes): Option<bytes> {
    match Close(text)
    case None => None
    case Some(e) => Some(text[..e])
  }

  /** After a key, quote-free text up to a quote makes a value iff it is a bare colon. */
  lemma AfterQuoteFree(w: bytes, rest: bytes)
    requires QuoteFree(w)
    ensures AfterKey(w + ("\"" + rest)) == if IsColon(w) then Opened(rest) else None
  {
    var t := Trim(w);
    var a := t + ("\"" + rest);
    TrimQuote(w, rest);
    if t != [] && t[0] == ':' {
      assert a[1..] == t[1..] + ("\"" + rest);
      TrimQuote(t[1..], rest);
      var b := Trim(t[1..]) + ("\"" + rest);
      if Trim(t[1..]) == [] {
        assert b == "\"" + rest && b[1..] == rest;
      } else {
        assert b[0] == Trim(t[1..])[0];
      }
    }
  }

  lemma {:induction false} TrimChars(w: bytes)
    requires forall c | c in Trim(w) :: IsSpace(c) || c == ':'
    ensures forall c | c in w :: IsSpace(c) || c == ':'
  {
    if w == [] {
    } else if IsSpace(w[0]) {
      TrimChars(w[1..]);
    }
  }

  lemma ColonChars(w: bytes)
    requires IsColon(w)
    ensures forall c | c in w :: IsSpace(c) || c == ':'
  {
    var t := Trim(w);
    TrimChars(t[1..]);
    assert t == [t[0]] + t[1..];
    TrimChars(w);
  }

  lemma BackslashIsNoColon(w: bytes, i: nat)
    requires i < |w| && (w[i] == '\\' || w[i] == '"')
    ensures !IsColon(w)
  {
    assert w[i] in w;
    if IsColon(w) { ColonChars(w); }
  }

  lemma Reassociated(a: bytes, q: bytes, b: bytes, c: bytes)
    ensures (a + (q + b)) + c == a + (q + (b + c))
  {
  }

  lemma QuoteSplits(w: bytes, q: nat)
    requires q < |w| && w[q] == '"'
    ensures w == w[..q] + ("\"" + w[q + 1..])
  {
  }

  /** After the key, a value's next piece makes a value iff it is the last and a bare colon. */
  lemma AfterPart(w: bytes, rest: bytes)
    requires WellPaired(w)
    ensures AfterKey(w + ("\"" + rest)) == if IsColon(w) then Opened(rest) else None
  {
    var q := NextQuote(w, 0);
    if q == |w| {
      AfterQuoteFree(w, rest);
    } else {
      QuoteIsEscaped(w, q);
      BackslashIsNoColon(w, q);
      BackslashIsNoColon(w[..q], q - 1);
      QuoteSplits(w, q);
      Reassociated(w[..q], "\"", w[q + 1..], "\"" + rest);
      AfterQuoteFree(w[..q], w[q + 1..] + ("\"" + rest));
    }
  }

  /** One quote-free piece of text, then a quote, scanned from the quote before it. */
  lemma ScanPiece(p: bytes, rest: bytes, key: bytes)
    requires QuoteFree(p) && QuoteFree(key)
    ensures Scan("\"" + (p + ("\"" + rest)), key) == if p == key then AfterKey(rest) else Scan("\"" + rest, key)
  {
    ScanSegment(p, rest, key);
    assert "\"" + (p + ("\"" + rest)) == "\"" + p + "\"" + rest;
  }

  /** The scan across a whole value. */
  lemma {:induction false} ScanValue(v: bytes, rest: bytes, key: bytes)
    requires WellPaired(v) && QuoteFree(key) && AfterKey(rest) == None
    ensures Scan("\"" + (v + ("\"" + rest)), key) ==
            if key !in Parts(v) then Scan("\"" + rest, key)
            else if Leaks(v, key) then Opened(rest)
            else None
    decreases |v|
  {
    var q := NextQuote(v, 0);
    if q == |v| {
      ScanPiece(v, rest, key);
    } else {
      var p, w := v[..q], v[q + 1..];
      QuoteIsEscaped(v, q);
      QuoteSplits(v, q);
      Reassociated(p, "\"", w, "\"" + rest);
      ScanPiece(p, w + ("\"" + rest), key);
      if p == key {
        AfterPart(w, rest);
      } else {
        ScanValue(w, rest, key);
      }
    }
  }

  // ---- Members -----------------------------------------------------------------------------

  /** What a string opened by the last quote before these members would be. */
  function Next(fields: seq<Field>): Option<bytes> {
    if fields == [] then None else Some(",")
  }

  /** The value of the first member named `key`, unless the key is a piece of an earlier value. */
  function Lookup(fields: seq<Field>, key: bytes): Option<bytes> {
    if fields == [] then None
    else if fields[0].name == key then Some(fields[0].value)
    else if key !in Parts(fields[0].value) then Lookup(fields[1..], key)
    else if Leaks(fields[0].value, key) then Next(fields[1..])
    else None
  }

  /** What a printed body holds under `key`: the header, the type and the punctuation come first. */
  function Held(kind: bytes, fields: seq<Field>, key: bytes): Option<bytes> {
    if key == TYPE then Some(kind)
    else if key == VERSION || key == ONE then None
    else if key == ":" then if IsColon(kind) then Next(fields) else None
    else if key == kind then None
    else if key == "," then if fields != [] && IsColon(fields[0].name) then Some(":") else None
    else Lookup(fields, key)
  }

  /** Names without quotes, and values as the extractor can return them. */
  ghost predicate Readable(fields: seq<Field>) {
    forall f | f in fields :: QuoteFree(f.name) && WellPaired(f.value)
  }

  lemma JoinCons(name: bytes, rest: seq<bytes>)
    requires rest != []
    ensures Join([name] + rest) == name + ("\"" + Join(rest))
  {
    JoinAppend([name], rest);
  }

  /** The scan, one segment further. */
  lemma SegmentStep(name: bytes, rest: seq<bytes>, key: bytes)
    requires QuoteFree(name) && QuoteFree(key) && rest != []
    ensures Scan("\"" + Join([name] + rest), key) ==
            if name == key then AfterKey(Join(rest)) else Scan("\"" + Join(rest), key)
  {
    JoinCons(name, rest);
    ScanPiece(name, Join(rest), key);
  }

  lemma NoColon(name: bytes, rest: seq<bytes>)
    requires name != [] && name[0] !in {':', ' ', '\t', '\r', '\n'} && rest != []
    ensures AfterKey(Join([name] + rest)) == None
  {
    JoinAppend([name], rest);
  }

  lemma NoColonAfterValue(fields: seq<Field>)
    ensures AfterKey(Join(FieldSegments(fields))) == None
  {
    if fields == [] {
      assert Join(["}"]) == "}";
    } else {
      var f, rest := fields[0], FieldSegments(fields[1..]);
      assert FieldSegments(fields) == [","] + ([f.name, ":", f.value] + rest);
      NoColon(",", [f.name, ":", f.value] + rest);
    }
  }

  lemma FirstMember(fields: seq<Field>)
    requires fields != []
    ensures FieldSegments(fields) ==
            [","] + ([fields[0].name] + ([":"] + ([fields[0].value] + FieldSegments(fields[1..]))))
  {
  }

  /** A string of one byte. */
  lemma OpenedByte(c: byte, rest: bytes)
    requires c != '"' && c != '\\'
    ensures Opened([c] + ("\"" + rest)) == Some([c])
  {
    var text := [c] + ("\"" + rest);
    assert text[1..] == "\"" + rest;
    assert Close(text[1..]) == Some(0);
    assert text[..1] == [c];
  }

  lemma OpenedNext(fields: seq<Field>)
    ensures Opened(Join(FieldSegments(fields))) == Next(fields)
  {
    if fields == [] {
      assert Join(["}"]) == "}";
      assert "}"[1..] == [];
    } else {
      var tail := [fields[0].name] + ([":"] + ([fields[0].value] + FieldSegments(fields[1..])));
      FirstMember(fields);
      JoinCons(",", tail);
      OpenedByte(',', Join(tail));
    }
  }

  /** The scan across one member. */
  lemma MemberStep(f: Field, fields: seq<Field>, key: bytes)
    requires QuoteFree(f.name) && WellPaired(f.value) && QuoteFree(key) && key != ":"
    ensures var rest := FieldSegments(fields);
            Scan("\"" + Join([f.name] + ([":"] + ([f.value] + rest))), key) ==
            if f.name == key then Some(f.value)
            else if key !in Parts(f.value) then Scan("\"" + Join(rest), key)
            else if Leaks(f.value, key) then Next(fields)
            else None
  {
    var rest := FieldSegments(fields);
    SegmentStep(f.name, [":"] + ([f.value] + rest), key);
    SegmentStep(":", [f.value] + rest, key);
    assert [":"] + ([f.value] + rest) == [":", f.value] + rest;
    ValueJoin(f.value, rest);
    NoColonAfterValue(fields);
    OpenedNext(fields);
    JoinCons(f.value, rest);
    ScanValue(f.value, Join(rest), key);
  }

  lemma NothingAfter(key: bytes)
    requires QuoteFree(key)
    ensures Scan("\"" + Join(FieldSegments([])), key) == None
  {
    ScanSkipsText("}", [], key);
    assert "}" + [] == "}";
    assert ("\"" + "}")[1..] == "}";
  }

  lemma {:induction false} LookupIsScanned(fields: seq<Field>, key: bytes)
    requires Readable(fields) && QuoteFree(key) && key != ":" && key != ","
    ensures Scan("\"" + Join(FieldSegments(fields)), key) == Lookup(fields, key)
  {
    if fields == [] {
      NothingAfter(key);
    } else {
      var f, rest := fields[0], FieldSegments(fields[1..]);
      FirstMember(fields);
      SegmentStep(",", [f.name] + ([":"] + ([f.value] + rest)), key);
      MemberStep(f, fields[1..], key);
      LookupIsScanned(fields[1..], key);
    }
  }

  /** What follows a name or a type that has been taken for the end of a key. */
  lemma AfterName(name: bytes, rest: seq<bytes>)
    requires QuoteFree(name) && rest != []
    ensures AfterKey(Join([name] + rest)) == if IsColon(name) then Opened(Join(rest)) else None
  {
    JoinCons(name, rest);
    AfterQuoteFree(name, Join(rest));
  }

  lemma OpenedColon(rest: seq<bytes>)
    requires rest != []
    ensures Opened(Join([":"] + rest)) == Some(":")
  {
    JoinCons(":", rest);
    OpenedByte(':', Join(rest));
  }

  /** The comma before the first member, taken for a key. */
  lemma CommaIsScanned(fields: seq<Field>)
    requires Readable(fields)
    ensures Scan("\"" + Join(FieldSegments(fields)), ",") ==
            if fields != [] && IsColon(fields[0].name) then Some(":") else None
  {
    if fields == [] {
      NothingAfter(",");
    } else {
      var values := [fields[0].value] + FieldSegments(fields[1..]);
      FirstMember(fields);
      SegmentStep(",", [fields[0].name] + ([":"] + values), ",");
      AfterName(fields[0].name, [":"] + values);
      OpenedColon(values);
    }
  }

  // ---- The header --------------------------------------------------------------------------

  /** From the type's name on. */
  lemma TypeIsScanned(kind: bytes, rest: seq<bytes>, key: bytes)
    requires QuoteFree(kind) && WellPaired(kind) && QuoteFree(key) && rest != []
    ensures Scan("\"" + Join([TYPE] + ([":"] + ([kind] + rest))), key) ==
            if key == TYPE then Some(kind)
            else if key == ":" then if IsColon(kind) then Opened(Join(rest)) else None
            else if key == kind then AfterKey(Join(rest))
            else Scan("\"" + Join(rest), key)
  {
    var s := [":"] + ([kind] + rest);
    SegmentStep(TYPE, s, key);
    SegmentStep(":", [kind] + rest, key);
    SegmentStep(kind, rest, key);
    assert s == [":", kind] + rest;
    ValueJoin(kind, rest);
    AfterName(kind, rest);
    assert TYPE != ":";
  }

  lemma BeforeType(rest: seq<bytes>, key: bytes)
    requires rest != [] && QuoteFree(key)
    ensures Scan(Join(["{"] + ([VERSION] + ([ONE] + ([TYPE] + rest)))), key) ==
            if key == VERSION || key == ONE then None else Scan("\"" + Join([TYPE] + rest), key)
  {
    var s2 := [ONE] + ([TYPE] + rest);
    var s1 := [VERSION] + s2;
    JoinAppend(["{"], s1);
    assert Join(["{"]) + "\"" + Join(s1) == "{" + ("\"" + Join(s1));
    ScanSkipsText("{", "\"" + Join(s1), key);
    SegmentStep(VERSION, s2, key);
    SegmentStep(ONE, [TYPE] + rest, key);
    VersionIsNoString([TYPE] + rest);
    NoColon(TYPE, rest);
  }

  lemma VersionIsNoString(rest: seq<bytes>)
    requires rest != []
    ensures AfterKey(Join([ONE] + rest)) == None
  {
    JoinAppend([ONE], rest);
    var s := ONE + "\"" + Join(rest);
    assert s[0] == ':' && s[1] == '1' && s[1..][0] == '1';
  }

  /** What the extractor finds in a printed body, for every key: exactly what the body holds under
      it. */
  lemma BodyMeaning(kind: bytes, fields: seq<Field>, key: bytes)
    requires QuoteFree(kind) && WellPaired(kind) && Readable(fields) && QuoteFree(key)
    ensures Scan(Body(kind, Members(fields)), key) == Held(kind, fields, key)
  {
    var rest := FieldSegments(fields);
    BodyJoin(kind, fields);
    assert Segments(kind, fields) == HEAD + ([kind] + rest);
    HeadForm([kind] + rest);
    BeforeType([":"] + ([kind] + rest), key);
    TypeIsScanned(kind, rest, key);
    NoColonAfterValue(fields);
    OpenedNext(fields);
    NamesApart();
    if key == "," {
      CommaIsScanned(fields);
    } else if key != ":" {
      LookupIsScanned(fields, key);
    }
  }

  lemma NamesApart()
    ensures VERSION != TYPE && ONE != TYPE && TYPE != ":" && TYPE != "," && VERSION != ":" && ONE != ":"
  {
  }

  // ---- When a member reads back ------------------------------------------------------------

  /** No member before the j-th shows the key, as its name or inside its value. */
  ghost predicate Unshown(fields: seq<Field>, key: bytes, j: nat)
    requires j <= |fields|
  {
    forall k | 0 <= k < j :: fields[k].name != key && key !in Parts(fields[k].value)
  }

  /** The first member that shows the key has it as its name. */
  ghost predicate FirstShown(fields: seq<Field>, key: bytes, j: nat) {
    j < |fields| && fields[j].name == key && Unshown(fields, key, j)
  }

  /** The first member that shows the key does so inside a value that makes its own closing quote an
      opening one. */
  ghost predicate FirstLeaks(fields: seq<Field>, key: bytes, j: nat) {
    j + 1 < |fields| && fields[j].name != key && Leaks(fields[j].value, key) && Unshown(fields, key, j)
  }

  lemma {:induction false} LookupMeaning(fields: seq<Field>, key: bytes, v: bytes)
    ensures Lookup(fields, key) == Some(v) <==>
            || (exists j: nat :: FirstShown(fields, key, j) && fields[j].value == v)
            || (v == "," && exists j: nat :: FirstLeaks(fields, key, j))
  {
    if fields == [] {
    } else {
      var rest := fields[1..];
      LookupMeaning(rest, key, v);
      if Leaks(fields[0].value, key) { LeaksShows(fields[0].value, key); }
      if fields[0].name == key {
        assert FirstShown(fields, key, 0);
      } else if key in Parts(fields[0].value) {
        assert FirstLeaks(fields, key, 0) <==> Leaks(fields[0].value, key) && rest != [];
      } else {
        forall j: nat ensures FirstShown(fields, key, j + 1) == FirstShown(rest, key, j)
                           && FirstLeaks(fields, key, j + 1) == FirstLeaks(rest, key, j) {
          ShownShift(fields, key, j);
        }
        if j: nat :| FirstShown(rest, key, j) && rest[j].value == v { assert FirstShown(fields, key, j + 1); }
        if j: nat :| FirstLeaks(rest, key, j) { assert FirstLeaks(fields, key, j + 1); }
        if j: nat :| FirstShown(fields, key, j) && fields[j].value == v { assert FirstShown(rest, key, j - 1); }
        if j: nat :| FirstLeaks(fields, key, j) { assert FirstLeaks(rest, key, j - 1); }
      }
    }
  }

  lemma ShownShift(fields: seq<Field>, key: bytes, j: nat)
    requires fields != [] && fields[0].name != key && key !in Parts(fields[0].value)
    ensures FirstShown(fields, key, j + 1) == FirstShown(fields[1..], key, j)
    ensures FirstLeaks(fields, key, j + 1) == FirstLeaks(fields[1..], key, j)
  {
    var rest := fields[1..];
    if j < |rest| {
      assert rest[j] == fields[j + 1];
      if Unshown(rest, key, j) {
        assert forall k | 1 <= k < j + 1 :: fields[k] == rest[k - 1];
      }
      if Unshown(fields, key, j + 1) {
        assert forall k | 0 <= k < j :: rest[k] == fields[k + 1];
      }
    }
  }

  /** When a printed member reads back, whatever it is named: the first thing between two quotes that
      equals its name must give its value. */
  lemma FieldReadsBack(kind: bytes, fields: seq<Field>, i: nat)
    requires i < |fields| && QuoteFree(kind) && WellPaired(kind) && Readable(fields)
    ensures var f := fields[i];
            Scan(Body(kind, Members(fields)), f.name) == Some(f.value) <==>
            if f.name == TYPE then kind == f.value
            else if f.name == VERSION || f.name == ONE then false
            else if f.name == ":" then IsColon(kind) && f.value == ","
            else if f.name == kind then false
            else if f.name == "," then IsColon(fields[0].name) && f.value == ":"
            else || (exists j: nat :: FirstShown(fields, f.name, j) && fields[j].value == f.value)
                 || (f.value == "," && exists j: nat :: FirstLeaks(fields, f.name, j))
  {
    BodyMeaning(kind, fields, fields[i].name);
    LookupMeaning(fields, fields[i].name, fields[i].value);
  }
}
