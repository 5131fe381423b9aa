/** What the extractor's scan means: the declarative reading of a successful extraction, and the
    round trip with bodies printed field by field. */
module JsonMeaning {
  import opened Foundation
  import opened Json

  // ---- Declarative reading -----------------------------------------------------------------

  /** Every backslash is paired with the byte after it and no quote is bare. */
  predicate WellPaired(s: bytes) {
    || s == []
    || (s[0] == '\\' && |s| > 1 && WellPaired(s[2..]))
    || (s[0] != '\\' && s[0] != '"' && WellPaired(s[1..]))
  }

  /** The scan's closing quote is the only quote preceded by a well-paired slice. */
  lemma {:induction false} CloseMeaning(s: bytes, e: nat)
    ensures Close(s) == Some(e) <==> e < |s| && s[e] == '"' && WellPaired(s[..e])
    decreases |s|
  {
    if s != [] && s[0] != '"' {
      var skip := if s[0] == '\\' && |s| > 1 then 2 else 1;
      if e >= skip {
        CloseMeaning(s[skip..], e - skip);
        if e < |s| { assert s[skip..][..e - skip] == s[..e][skip..]; }
      }
    }
  }

  /** White space as section 2 of RFC 8259 lists it. */
  ghost predicate Spaces(raw: bytes, from: int, to: int) {
    && 0 <= from <= to <= |raw|
    && forall i | from <= i < to :: raw[i] == ' ' || raw[i] == '\t' || raw[i] == '\r' || raw[i] == '\n'
  }

  /** After `from`: optional space, the colon at `c`, optional space and an opening quote before `start`. */
  ghost predicate Opens(raw: bytes, from: nat, c: nat, start: nat) {
    && Spaces(raw, from, c) && c < |raw| && raw[c] == ':'
    && c + 1 < start <= |raw| && Spaces(raw, c + 1, start - 1) && raw[start - 1] == '"'
  }

  /** `key` first stands between two quotes at `p`; optional space, the colon at `c`, optional space
      and a string whose contents are `raw[start..end]` follow. */
  ghost predicate Found(raw: bytes, key: bytes, p: nat, c: nat, start: nat, end: nat) {
    && KeyAt(raw, key, p) && (forall q: nat | q < p :: !KeyAt(raw, key, q))
    && Opens(raw, p + |key| + 2, c, start)
    && start <= end < |raw| && raw[end] == '"' && WellPaired(raw[start..end])
  }

  lemma {:induction false} TrimStops(raw: bytes, from: nat, to: nat)
    requires Spaces(raw, from, to) && to < |raw| && !IsSpace(raw[to])
    ensures Trim(raw[from..]) == raw[to..]
    decreases |raw| - from
  {
    if from == to {
    } else {
      assert raw[from..][1..] == raw[from + 1..];
      TrimStops(raw, from + 1, to);
    }
  }

  lemma {:induction false} TrimReaches(raw: bytes, from: nat) returns (to: nat)
    requires from <= |raw|
    ensures Spaces(raw, from, to) && Trim(raw[from..]) == raw[to..]
    decreases |raw| - from
  {
    if from < |raw| && IsSpace(raw[from]) {
      assert raw[from..][1..] == raw[from + 1..];
      to := TrimReaches(raw, from + 1);
    } else {
      to := from;
    }
  }

  /** Before its first occurrence the key plays no part. */
  lemma {:induction false} ScanReaches(raw: bytes, key: bytes, from: nat, p: nat)
    requires from <= p <= |raw|
    requires forall q: nat | from <= q < p :: !KeyAt(raw, key, q)
    ensures Scan(raw[from..], key) == Scan(raw[p..], key)
    decreases p - from
  {
    if from == p {
    } else {
      ScanAtQuote(raw, key, from);
      ScanReaches(raw, key, from + 1, p);
    }
  }

  function ValueFrom(raw: bytes, start: nat): Option<bytes>
    requires start <= |raw|
  {
    match Close(raw[start..])
    case None => None
    case Some(e) => Some(raw[start..start + e])
  }

  lemma ValueMeaning(raw: bytes, start: nat, end: nat)
    requires start <= end <= |raw|
    ensures Close(raw[start..]) == Some(end - start) <==> end < |raw| && raw[end] == '"' && WellPaired(raw[start..end])
  {
    CloseMeaning(raw[start..], end - start);
    assert raw[start..][..end - start] == raw[start..end];
  }

  lemma AfterKeyOpens(raw: bytes, from: nat, c: nat, start: nat)
    requires Opens(raw, from, c, start)
    ensures AfterKey(raw[from..]) == ValueFrom(raw, start)
  {
    var q := start - 1;
    TrimStops(raw, from, c);
    assert raw[c..][1..] == raw[c + 1..];
    TrimStops(raw, c + 1, q);
    assert raw[q..][1..] == raw[start..];
    if Close(raw[start..]).Some? {
      var e := Close(raw[start..]).value;
      assert raw[start..][..e] == raw[start..start + e];
    }
  }

  lemma OpensAfterKey(raw: bytes, from: nat) returns (c: nat, start: nat)
    requires from <= |raw| && AfterKey(raw[from..]).Some?
    ensures Opens(raw, from, c, start)
  {
    c := TrimReaches(raw, from);
    assert raw[c..] != [] && raw[c..][0] == ':';
    assert raw[c..][1..] == raw[c + 1..];
    var q := TrimReaches(raw, c + 1);
    assert raw[q..] != [] && raw[q..][0] == '"';
    start := q + 1;
  }

  lemma FoundIsScanned(raw: bytes, key: bytes, p: nat, c: nat, start: nat, end: nat)
    requires Found(raw, key, p, c, start, end)
    ensures Scan(raw, key) == Some(raw[start..end])
  {
    assert raw[0..] == raw;
    ScanReaches(raw, key, 0, p);
    ScanAtQuote(raw, key, p);
    AfterKeyOpens(raw, p + |key| + 2, c, start);
    ValueMeaning(raw, start, end);
  }

  lemma {:induction false} FirstKey(raw: bytes, key: bytes, from: nat) returns (p: nat)
    requires from <= |raw| && Scan(raw[from..], key).Some?
    ensures from <= p && KeyAt(raw, key, p) && forall q: nat | from <= q < p :: !KeyAt(raw, key, q)
    decreases |raw| - from
  {
    if from < |raw| {
      ScanAtQuote(raw, key, from);
    }
    if KeyAt(raw, key, from) {
      p := from;
    } else {
      p := FirstKey(raw, key, from + 1);
    }
  }

  lemma ScannedIsFound(raw: bytes, key: bytes) returns (p: nat, c: nat, start: nat, end: nat)
    requires Scan(raw, key).Some?
    ensures Found(raw, key, p, c, start, end) && Scan(raw, key) == Some(raw[start..end])
  {
    assert raw[0..] == raw;
    p := FirstKey(raw, key, 0);
    ScanReaches(raw, key, 0, p);
    ScanAtQuote(raw, key, p);
    c, start := OpensAfterKey(raw, p + |key| + 2);
    AfterKeyOpens(raw, p + |key| + 2, c, start);
    end := start + Close(raw[start..]).value;
    ValueMeaning(raw, start, end);
  }

  /** Extraction succeeds with value `v` iff the key's first quoted occurrence is followed by a
      terminated string with contents `v`. */
  lemma ScanMeaning(raw: bytes, key: bytes, v: bytes)
    ensures Scan(raw, key) == Some(v)
       <==> exists p: nat, c: nat, start: nat, end: nat :: Found(raw, key, p, c, start, end) && v == raw[start..end]
  {
    if Scan(raw, key) == Some(v) {
      var p, c, start, end := ScannedIsFound(raw, key);
    }
    if p: nat, c: nat, start: nat, end: nat :| Found(raw, key, p, c, start, end) && v == raw[start..end] {
      FoundIsScanned(raw, key, p, c, start, end);
    }
  }

  /** An extracted value can be printed between quotes again as it is. */
  lemma ExtractedIsWellPaired(raw: bytes, key: bytes)
    requires Scan(raw, key).Some?
    ensures WellPaired(Scan(raw, key).value)
  {
    var p, c, start, end := ScannedIsFound(raw, key);
  }

  // ---- Text between quotes -----------------------------------------------------------------

  ghost predicate QuoteFree(s: bytes) {
    '"' !in s
  }

  /** The text whose pieces between successive quotes are `segs`. */
  function Join(segs: seq<bytes>): bytes {
    if segs == [] then []
    else if |segs| == 1 then segs[0]
    else segs[0] + "\"" + Join(segs[1..])
  }

  lemma {:induction false} ScanSkipsText(text: bytes, raw: bytes, key: bytes)
    requires QuoteFree(text)
    ensures Scan(text + raw, key) == Scan(raw, key)
  {
    if text == [] {
      assert text + raw == raw;
    } else {
      assert (text + raw)[1..] == text[1..] + raw;
      ScanSkipsText(text[1..], raw, key);
    }
  }

  lemma SameLength(raw: bytes, name: bytes, key: bytes)
    requires QuoteFree(name) && QuoteFree(key)
    requires |raw| >= |name| + 2 && |raw| >= |key| + 2
    requires raw[1..1 + |name|] == name && raw[1 + |name|] == '"'
    requires raw[1..1 + |key|] == key && raw[1 + |key|] == '"'
    ensures name == key
  {
    assert forall i | 0 <= i < |name| :: raw[1 + i] == name[i];
    assert forall i | 0 <= i < |key| :: raw[1 + i] == key[i];
    assert |name| == |key|;
  }

  /** After an opening quote the scan compares the key with exactly the text up to the next quote. */
  lemma ScanSegment(name: bytes, rest: bytes, key: bytes)
    requires QuoteFree(name) && QuoteFree(key)
    ensures Scan("\"" + name + "\"" + rest, key) ==
            if name == key then AfterKey(rest) else Scan("\"" + rest, key)
  {
    var raw := "\"" + name + "\"" + rest;
    assert raw[1..] == name + "\"" + rest;
    assert raw[1 + |name|] == '"' && raw[1..1 + |name|] == name && raw[|name| + 2..] == rest;
    if KeyAt(raw, key, 0) {
      SameLength(raw, name, key);
    } else {
      assert raw[1..] == name + ("\"" + rest);
      ScanSkipsText(name, "\"" + rest, key);
    }
  }

  /** The extractor works on segments: the first interior one equal to the key decides. */
  lemma {:induction false} ScanSegments(segs: seq<bytes>, key: bytes, j: nat)
    requires 1 <= j <= |segs| - 2 && segs[j] == key
    requires forall i | 0 <= i <= j :: QuoteFree(segs[i])
    requires forall i | 1 <= i < j :: segs[i] != key
    ensures Scan(Join(segs), key) == AfterKey(Join(segs[j + 1..]))
    decreases j
  {
    var name, rest := segs[1], Join(segs[2..]);
    assert segs[1..][1..] == segs[2..];
    assert Join(segs) == segs[0] + ("\"" + name + "\"" + rest);
    ScanSkipsText(segs[0], "\"" + name + "\"" + rest, key);
    ScanSegment(name, rest, key);
    if j > 1 {
      assert segs[1..][j..] == segs[j + 1..];
      ScanSegments(segs[1..], key, j - 1);
      ScanSkipsText(name, "\"" + rest, key);
      assert Join(segs[1..]) == name + ("\"" + rest);
    }
  }

  // ---- Printed bodies ----------------------------------------------------------------------

  datatype Field = Field(name: bytes, value: bytes)

  /** The body that frame_send prints for a message type and optional further members. */
  function Body(kind: bytes, extra: bytes): bytes {
    if extra != [] then "{\"v\":1,\"type\":\"" + kind + "\"," + extra + "}"
    else "{\"v\":1,\"type\":\"" + kind + "\"}"
  }

  function Members(fields: seq<Field>): bytes {
    if fields == [] then []
    else Member(fields[0]) + if |fields| == 1 then [] else "," + Members(fields[1..])
  }

  function FieldSegments(fields: seq<Field>): seq<bytes> {
    if fields == [] then ["}"]
    else [",", fields[0].name, ":", fields[0].value] + FieldSegments(fields[1..])
  }

  function Segments(kind: bytes, fields: seq<Field>): seq<bytes> {
    ["{", "v", ":1,", "type", ":", kind] + FieldSegments(fields)
  }

  lemma {:induction false} JoinAppend(a: seq<bytes>, b: seq<bytes>)
    requires a != [] && b != []
    ensures Join(a + b) == Join(a) + "\"" + Join(b)
  {
    if |a| == 1 {
      assert (a + b)[1..] == b;
    } else {
      assert (a + b)[1..] == a[1..] + b;
      JoinAppend(a[1..], b);
    }
  }

  lemma JoinTwo(a: bytes, b: bytes)
    ensures Join([a, b]) == a + "\"" + b
  {
    assert [a, b][1..] == [b];
  }

  /** One printed member. */
  function Member(f: Field): bytes {
    "\"" + f.name + "\":\"" + f.value + "\""
  }

  lemma FieldJoin(f: Field, rest: seq<bytes>)
    requires rest != []
    ensures Join([",", f.name, ":", f.value] + rest) == "," + Member(f) + Join(rest)
  {
    JoinTwo(",", f.name);
    JoinTwo(":", f.value);
    JoinAppend([",", f.name], [":", f.value]);
    JoinAppend([",", f.name, ":", f.value], rest);
    assert [",", f.name] + [":", f.value] == [",", f.name, ":", f.value];
  }

  lemma {:induction false} FieldsJoin(fields: seq<Field>)
    ensures Join(FieldSegments(fields)) == if fields == [] then "}" else "," + Members(fields) + "}"
  {
    if fields == [] {
    } else {
      var member, rest := Member(fields[0]), fields[1..];
      FieldsJoin(rest);
      FieldJoin(fields[0], FieldSegments(rest));
      if rest == [] {
        assert Members(fields) == member + [] == member;
      } else {
        assert Members(fields) == member + ("," + Members(rest));
        Regrouped(",", member, "," + Members(rest), "}");
      }
    }
  }

  lemma Regrouped(a: bytes, b: bytes, c: bytes, d: bytes)
    ensures a + b + (c + d) == a + (b + c) + d
  {
    assert a + b + (c + d) == a + b + c + d;
    assert a + (b + c) == a + b + c;
  }

  const VERSION: bytes := "v"
  const ONE: bytes := ":1,"
  const HEAD: seq<bytes> := ["{", VERSION, ONE, TYPE, ":"]

  lemma Grouped(a: bytes, b: bytes, c: bytes)
    ensures a + (b + c) == (a + b) + c
  {
  }

  /** One segment moved from the list to the text printed before it. */
  lemma HeadStep(before: bytes, seg: bytes, rest: seq<bytes>)
    requires rest != []
    ensures before + Join([seg] + rest) == (before + (seg + "\"")) + Join(rest)
  {
    JoinAppend([seg], rest);
    Grouped(before, seg + "\"", Join(rest));
  }

  lemma HeadForm(rest: seq<bytes>)
    ensures HEAD + rest == ["{"] + ([VERSION] + ([ONE] + ([TYPE] + ([":"] + rest))))
  {
  }

  lemma VersionJoin(rest: seq<bytes>)
    requires rest != []
    ensures Join(["{"] + ([VERSION] + ([ONE] + rest))) == "{\"v\":1,\"" + Join(rest)
  {
    JoinAppend(["{"], [VERSION] + ([ONE] + rest));
    HeadStep("{\"", VERSION, [ONE] + rest);
    HeadStep("{\"v\"", ONE, rest);
    HeadText();
  }

  lemma TypeJoin(rest: seq<bytes>)
    requires rest != []
    ensures "{\"v\":1,\"" + Join([TYPE] + ([":"] + rest)) == "{\"v\":1,\"type\":\"" + Join(rest)
  {
    HeadStep("{\"v\":1,\"", TYPE, [":"] + rest);
    HeadStep("{\"v\":1,\"type\"", ":", rest);
    HeadText();
  }

  lemma HeadJoin(rest: seq<bytes>)
    requires rest != []
    ensures Join(HEAD + rest) == "{\"v\":1,\"type\":\"" + Join(rest)
  {
    HeadForm(rest);
    VersionJoin([TYPE] + ([":"] + rest));
    TypeJoin(rest);
  }

  lemma HeadText()
    ensures "{\"" + (VERSION + "\"") == "{\"v\""
    ensures "{\"v\"" + (ONE + "\"") == "{\"v\":1,\""
    ensures "{\"v\":1,\"" + (TYPE + "\"") == "{\"v\":1,\"type\""
    ensures "{\"v\":1,\"type\"" + (":" + "\"") == "{\"v\":1,\"type\":\""
  {
  }

  lemma BodyForm(kind: bytes, extra: bytes)
    ensures Body(kind, extra) ==
            "{\"v\":1,\"type\":\"" + (kind + "\"" + if extra == [] then "}" else "," + extra + "}")
  {
    var head: bytes := "{\"v\":1,\"type\":\"";
    assert "\"," == "\"" + "," && "\"}" == "\"" + "}";
    assert head + kind + ("\"" + ",") + extra + "}" == head + (kind + "\"" + ("," + extra + "}"));
    assert head + kind + ("\"" + "}") == head + (kind + "\"" + "}");
  }

  lemma BodyJoin(kind: bytes, fields: seq<Field>)
    ensures Body(kind, Members(fields)) == Join(Segments(kind, fields))
  {
    var rest := FieldSegments(fields);
    BodyForm(kind, Members(fields));
    FieldsJoin(fields);
    JoinAppend([kind], rest);
    assert fields != [] ==> Members(fields) != [];
    assert Segments(kind, fields) == HEAD + ([kind] + rest);
    HeadJoin([kind] + rest);
  }

  // ---- Round trips -------------------------------------------------------------------------

  lemma ValueAfterColon(v: bytes, rest: bytes)
    requires WellPaired(v)
    ensures AfterKey(":\"" + v + "\"" + rest) == Some(v)
  {
    var s := ":\"" + v + "\"" + rest;
    assert s[1..] == "\"" + v + "\"" + rest;
    assert s[1..][1..] == v + "\"" + rest;
    assert (v + "\"" + rest)[..|v|] == v;
    CloseMeaning(v + "\"" + rest, |v|);
  }

  lemma {:induction false} FieldsAt(fields: seq<Field>, i: nat)
    requires i < |fields|
    ensures |FieldSegments(fields)| == 4 * |fields| + 1
    ensures FieldSegments(fields)[4 * i + 1] == fields[i].name
    ensures FieldSegments(fields)[4 * i + 2..] == [":", fields[i].value] + FieldSegments(fields[i + 1..])
  {
    var rest := FieldSegments(fields[1..]);
    var f := fields[0];
    if i == 0 {
      assert ([",", f.name, ":", f.value] + rest)[2..] == [":", f.value] + rest;
      if |fields| > 1 { FieldsAt(fields[1..], 0); }
    } else {
      FieldsAt(fields[1..], i - 1);
      assert FieldSegments(fields)[4 * i + 1] == rest[4 * (i - 1) + 1];
      assert FieldSegments(fields)[4 * i + 2..] == rest[4 * (i - 1) + 2..];
      assert fields[1..][i..] == fields[i + 1..];
    }
  }

  ghost predicate Plain(fields: seq<Field>) {
    forall f | f in fields :: QuoteFree(f.name) && QuoteFree(f.value)
  }

  lemma {:induction false} FieldsPlain(fields: seq<Field>)
    requires Plain(fields)
    ensures forall s | s in FieldSegments(fields) :: QuoteFree(s)
  {
    if fields == [] {
    } else {
      FieldsPlain(fields[1..]);
    }
  }

  /** Where the i-th member stands among the segments. */
  lemma SegmentsAt(kind: bytes, fields: seq<Field>, i: nat)
    requires i < |fields| && QuoteFree(kind) && Plain(fields)
    ensures var segs := Segments(kind, fields);
            && 4 * i + 9 < |segs|
            && segs[4 * i + 7] == fields[i].name
            && segs[4 * i + 8..] == [":", fields[i].value] + FieldSegments(fields[i + 1..])
            && forall j | 0 <= j < |segs| :: QuoteFree(segs[j])
  {
    var segs, tail := Segments(kind, fields), FieldSegments(fields);
    FieldsAt(fields, i);
    FieldsPlain(fields);
    assert segs == HEAD + [kind] + tail;
    assert segs[4 * i + 7] == tail[4 * i + 1];
    assert segs[4 * i + 8..] == tail[4 * i + 2..];
    forall j | 0 <= j < |segs| ensures QuoteFree(segs[j]) {
      if j >= 6 { assert segs[j] == tail[j - 6]; }
    }
  }

  lemma ValueJoin(v: bytes, rest: seq<bytes>)
    requires WellPaired(v) && rest != []
    ensures AfterKey(Join([":", v] + rest)) == Some(v)
  {
    JoinTwo(":", v);
    JoinAppend([":", v], rest);
    assert ":" + "\"" + v + "\"" + Join(rest) == ":\"" + v + "\"" + Join(rest);
    ValueAfterColon(v, Join(rest));
  }

  /** A printed member is read back unless its name has already occurred between two quotes: as an
      earlier name or value, or as one of the punctuation pieces `:`, `,` and `:1,`. */
  lemma FieldRoundTrip(kind: bytes, fields: seq<Field>, i: nat)
    requires i < |fields| && QuoteFree(kind) && Plain(fields) && WellPaired(fields[i].value)
    requires forall j | 1 <= j < 4 * i + 7 && j < |Segments(kind, fields)| ::
               Segments(kind, fields)[j] != fields[i].name
    ensures Scan(Body(kind, Members(fields)), fields[i].name) == Some(fields[i].value)
  {
    var segs := Segments(kind, fields);
    BodyJoin(kind, fields);
    SegmentsAt(kind, fields, i);
    ScanSegments(segs, fields[i].name, 4 * i + 7);
    ValueJoin(fields[i].value, FieldSegments(fields[i + 1..]));
  }

  /** A key that stands nowhere between two quotes is not found. */
  lemma {:induction false} ScanNoSegment(segs: seq<bytes>, key: bytes)
    requires segs != [] && QuoteFree(key) && forall s | s in segs :: QuoteFree(s)
    requires forall i | 1 <= i <= |segs| - 2 :: segs[i] != key
    ensures Scan(Join(segs), key) == None
  {
    if |segs| >= 2 { JoinAppend([segs[0]], segs[1..]); assert [segs[0]] + segs[1..] == segs; }
    if |segs| <= 2 {
      FewQuotes(segs, key);
    } else {
      var name, rest := segs[1], Join(segs[2..]);
      assert segs[1..][1..] == segs[2..];
      assert Join(segs) == segs[0] + ("\"" + name + "\"" + rest);
      ScanSkipsText(segs[0], "\"" + name + "\"" + rest, key);
      ScanSegment(name, rest, key);
      ScanNoSegment(segs[1..], key);
      ScanSkipsText(name, "\"" + rest, key);
      assert Join(segs[1..]) == name + ("\"" + rest);
    }
  }

  lemma FewQuotes(segs: seq<bytes>, key: bytes)
    requires 1 <= |segs| <= 2 && forall s | s in segs :: QuoteFree(s)
    ensures Scan(Join(segs), key) == None
  {
    ScanSkipsText(segs[0], [], key);
    assert segs[0] + [] == segs[0];
    if |segs| == 2 {
      JoinTwo(segs[0], segs[1]);
      assert segs == [segs[0], segs[1]];
      assert Join(segs) == segs[0] + ("\"" + segs[1]);
      ScanSkipsText(segs[0], "\"" + segs[1], key);
      assert ("\"" + segs[1])[1..] == segs[1];
      ScanSkipsText(segs[1], [], key);
      assert segs[1] + [] == segs[1];
    }
  }

  /** A printed body yields a member for `key` only if the key stands between two of its quotes. */
  lemma MissingField(kind: bytes, fields: seq<Field>, key: bytes)
    requires QuoteFree(kind) && QuoteFree(key) && Plain(fields)
    requires forall j | 1 <= j <= |Segments(kind, fields)| - 2 :: Segments(kind, fields)[j] != key
    ensures Scan(Body(kind, Members(fields)), key) == None
  {
    BodyJoin(kind, fields);
    FieldsPlain(fields);
    ScanNoSegment(Segments(kind, fields), key);
  }

  lemma ValuePiece(v: bytes, tail: bytes)
    requires WellPaired(v)
    ensures AfterKey(Join([":", v + "\"" + tail])) == Some(v)
  {
    var rest := v + "\"" + tail;
    JoinTwo(":", rest);
    assert ":" + "\"" + rest == ":\"" + v + "\"" + tail;
    ValueAfterColon(v, tail);
  }

  /** What follows a body's type, unparsed. */
  function Tail(extra: bytes): bytes {
    if extra == [] then "}" else "," + extra + "}"
  }

  lemma BodyPieces(kind: bytes, extra: bytes)
    ensures Body(kind, extra) == Join(HEAD + [kind + "\"" + Tail(extra)])
  {
    BodyForm(kind, extra);
    HeadJoin([kind + "\"" + Tail(extra)]);
  }

  /** The message type is read back whatever follows it. */
  lemma TypeRoundTrip(kind: bytes, extra: bytes)
    requires WellPaired(kind)
    ensures Scan(Body(kind, extra), TYPE) == Some(kind)
  {
    var segs := HEAD + [kind + "\"" + Tail(extra)];
    BodyPieces(kind, extra);
    assert segs[4..] == [":", kind + "\"" + Tail(extra)];
    assert segs[1] == "v" && segs[2] == ":1,";
    ScanSegments(segs, "type", 3);
    ValuePiece(kind, Tail(extra));
  }
}
