/** The hand-written JSON string extractor of compositor_ipc.c: its scanning loops, the scan they
    perform, and what that scan finds. */
module Json {
  import opened Foundation

  const TYPE: bytes := "type"
  const STATE: bytes := "state"
  const LAUNCH_TOKEN: bytes := "launch_token"
  const GAME_ID: bytes := "game_id"

  // ---- The scan ----------------------------------------------------------------------------

  predicate IsSpace(c: byte) {
    c == ' ' || c == '\t' || c == '\r' || c == '\n'
  }

  function Trim(s: bytes): bytes {
    if s != [] && IsSpace(s[0]) then Trim(s[1..]) else s
  }

  /** The offset of the quote that closes a string whose opening quote has just been read; a
      backslash takes the next byte with it. */
  function Close(s: bytes): (r: Option<nat>)
    ensures r.Some? ==> r.value < |s|
  {
    if s == [] then None
    else if s[0] == '"' then Some(0)
    else
      var skip := if s[0] == '\\' && |s| > 1 then 2 else 1;
      match Close(s[skip..])
      case None => None
      case Some(e) => Some(e + skip)
  }

  /** The raw string value after a key's closing quote. */
  function AfterKey(s: bytes): Option<bytes> {
    var a := Trim(s);
    if a == [] || a[0] != ':' then None
    else
      var b := Trim(a[1..]);
      if b == [] || b[0] != '"' then None
      else
        match Close(b[1..])
        case None => None
        case Some(e) => Some(b[1..][..e])
  }

  predicate KeyAt(raw: bytes, key: bytes, p: nat) {
    && p + |key| + 2 <= |raw|
    && raw[p] == '"' && raw[p + |key| + 1] == '"' && raw[p + 1..p + 1 + |key|] == key
  }

  /** The untruncated value of the first occurrence of `key` between two quotes. */
  function Scan(raw: bytes, key: bytes): Option<bytes> {
    if raw == [] then None
    else if KeyAt(raw, key, 0) then AfterKey(raw[|key| + 2..])
    else Scan(raw[1..], key)
  }

  // ---- The loops ---------------------------------------------------------------------------

  /** memchr: the next quote from `p` on, or the end. */
  function NextQuote(raw: bytes, p: nat): (q: nat)
    requires p <= |raw|
    ensures p <= q <= |raw|
    ensures q < |raw| ==> raw[q] == '"'
    ensures forall i | p <= i < q :: raw[i] != '"'
    decreases |raw| - p
  {
    if p == |raw| || raw[p] == '"' then p else NextQuote(raw, p + 1)
  }

  lemma {:induction false} SkipToQuote(raw: bytes, key: bytes, p: nat)
    requires p <= |raw|
    ensures Scan(raw[p..], key) == Scan(raw[NextQuote(raw, p)..], key)
    decreases |raw| - p
  {
    if p < |raw| && raw[p] != '"' {
      assert raw[p..][1..] == raw[p + 1..];
      SkipToQuote(raw, key, p + 1);
    }
  }

  lemma ScanAtQuote(raw: bytes, key: bytes, p: nat)
    requires p < |raw|
    ensures Scan(raw[p..], key) ==
            if KeyAt(raw, key, p) then AfterKey(raw[p + |key| + 2..]) else Scan(raw[p + 1..], key)
  {
    assert raw[p..][1..] == raw[p + 1..];
    if p + |key| + 2 <= |raw| {
      assert raw[p..][1..1 + |key|] == raw[p + 1..p + 1 + |key|];
      assert raw[p..][|key| + 2..] == raw[p + |key| + 2..];
    }
  }

  method SkipSpace(raw: bytes, from: nat) returns (p: nat)
    requires from <= |raw|
    ensures from <= p <= |raw| && raw[p..] == Trim(raw[from..])
  {
    p := from;
    while p < |raw| && IsSpace(raw[p])
      invariant from <= p <= |raw| && Trim(raw[p..]) == Trim(raw[from..])
    {
      assert raw[p..][1..] == raw[p + 1..];
      p := p + 1;
    }
  }

  /** `Close` as an index into the whole buffer. */
  function CloseFrom(raw: bytes, p: nat): Option<nat>
    requires p <= |raw|
  {
    match Close(raw[p..]) case None => None case Some(e) => Some(p + e)
  }

  lemma CloseStep(raw: bytes, p: nat)
    requires p < |raw| && raw[p] != '"'
    ensures CloseFrom(raw, p) == CloseFrom(raw, if raw[p] == '\\' && p + 1 < |raw| then p + 2 else p + 1)
  {
    var q := if raw[p] == '\\' && p + 1 < |raw| then p + 2 else p + 1;
    assert raw[p..][q - p..] == raw[q..];
  }

  /** The value loop: stops on the closing quote or at the end, never past it. */
  method FindClose(raw: bytes, start: nat) returns (p: nat)
    requires start <= |raw|
    ensures start <= p <= |raw|
    ensures CloseFrom(raw, start) == if p < |raw| then Some(p) else None
  {
    p := start;
    while p < |raw| && raw[p] != '"'
      invariant start <= p <= |raw|
      invariant CloseFrom(raw, start) == CloseFrom(raw, p)
    {
      CloseStep(raw, p);
      if raw[p] == '\\' && p + 1 < |raw| { p := p + 1; }
      p := p + 1;
    }
  }

  /** The test after a quote. */
  predicate KeyFollows(raw: bytes, key: bytes, p: nat)
    requires p < |raw| && raw[p] == '"'
    ensures KeyFollows(raw, key, p) == KeyAt(raw, key, p)
  {
    |raw| - p >= |key| + 2 && raw[p + |key| + 1] == '"' && raw[p + 1..p + 1 + |key|] == key
  }

  /** json_get_string: 0 and a NUL-terminated copy cut to the buffer, or -1 and the buffer untouched.
      Every index is proved to be inside `raw` and `out`. */
  method GetString(raw: bytes, key: bytes, out: array<byte>) returns (rc: int)
    modifies out
    ensures rc == 0 || rc == -1
    ensures rc == 0 <==> out.Length > 0 && Scan(raw, key).Some?
    ensures rc == 0 ==>
              var v := Cut(Scan(raw, key).value, out.Length - 1);
              out[..] == v + [NUL] + old(out[|v| + 1..])
    ensures rc == -1 ==> out[..] == old(out[..])
  {
    if out.Length == 0 { return -1; }
    var p := 0;
    while p < |raw|
      invariant p <= |raw| && Scan(raw, key) == Scan(raw[p..], key)
      invariant out[..] == old(out[..])
    {
      SkipToQuote(raw, key, p);
      p := NextQuote(raw, p);
      if p == |raw| { return -1; }
      ScanAtQuote(raw, key, p);
      if KeyFollows(raw, key, p) {
        rc := CopyValue(raw, p + |key| + 2, out);
        return;
      }
      p := p + 1;
    }
    return -1;
  }

  /** What follows a matching key. */
  method CopyValue(raw: bytes, from: nat, out: array<byte>) returns (rc: int)
    requires from <= |raw| && out.Length > 0
    modifies out
    ensures rc == 0 || rc == -1
    ensures rc == 0 <==> AfterKey(raw[from..]).Some?
    ensures rc == 0 ==>
              var v := Cut(AfterKey(raw[from..]).value, out.Length - 1);
              out[..] == v + [NUL] + old(out[|v| + 1..])
    ensures rc == -1 ==> out[..] == old(out[..])
  {
    var p := SkipSpace(raw, from);
    if p >= |raw| || raw[p] != ':' { return -1; }
    assert raw[p..][1..] == raw[p + 1..];
    p := SkipSpace(raw, p + 1);
    if p >= |raw| || raw[p] != '"' { return -1; }
    assert raw[p..][1..] == raw[p + 1..];
    var start := p + 1;
    p := FindClose(raw, start);
    if p >= |raw| { return -1; }
    assert AfterKey(raw[from..]) == Some(raw[start..][..p - start]);
    assert raw[start..][..p - start] == raw[start..p];
    Store(raw, start, p, out);
    return 0;
  }

  /** Copies the slice, cut to the buffer, and terminates it. */
  method Store(raw: bytes, start: nat, end: nat, out: array<byte>)
    requires start <= end <= |raw| && out.Length > 0
    modifies out
    ensures var v := Cut(raw[start..end], out.Length - 1);
            out[..] == v + [NUL] + old(out[|v| + 1..])
  {
    var vlen := end - start;
    if vlen >= out.Length { vlen := out.Length - 1; }
    forall i | 0 <= i < vlen {
      out[i] := raw[start + i];
    }
    out[vlen] := NUL;
    assert Cut(raw[start..end], out.Length - 1) == raw[start..start + vlen];
  }
}
