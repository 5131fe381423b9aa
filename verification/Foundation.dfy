/** Small vocabulary shared by every other module. */
module Foundation {
  datatype Option<+T> = None | Some(value: T)

  /** One C `char` of a buffer. Characters are used so that the protocol's words stay readable. */
  type byte = c: char | c as int < 256

  type bytes = seq<byte>

  const NUL: byte := '\0'

  ghost predicate Distinct<T>(s: seq<T>) {
    forall i, j | 0 <= i < j < |s| :: s[i] != s[j]
  }

  /** What snprintf("%s") keeps of a string when the destination has room for `room` bytes and a NUL. */
  function Cut(s: bytes, room: nat): (r: bytes)
    ensures |r| <= room && r <= s
    ensures |s| <= room ==> r == s
  {
    if |s| <= room then s else s[..room]
  }

  /** A buffer read as a C string: everything before its first NUL. */
  function CString(s: bytes): (r: bytes)
    ensures r <= s && NUL !in r
    ensures r == s <==> NUL !in s
    ensures |r| < |s| ==> s[|r|] == NUL
  {
    if s == [] || s[0] == NUL then [] else [s[0]] + CString(s[1..])
  }
}
