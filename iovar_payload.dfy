/** Payload framing and reply-buffer sizing of the integer iovar wrappers,
    with the firmware's reading of those payloads as the inverse. */
module IovarPayload {
  import opened Bytes
  import opened Wrappers

  /** Fixed reply-buffer size for GET unless the name needs more. */
  const GET_REPLY_FLOOR: nat := 256

  /** GET payload: the name and its terminating NUL. */
  function GetPayload(name: CString): (p: seq<byte>) {
    name + [0]
  }

  /** GET `ret_len`: with name_len = strlen + 1, 256 unless name_len exceeds
      256, then name_len + 4; the size_t result is stored in an int32_t. */
  function GetRetLen(name: CString): (r: i32) {
    var nameLen := |name| + 1;
    SizeToI32(if nameLen > GET_REPLY_FLOOR then nameLen + 4 else GET_REPLY_FLOOR)
  }

  /** SET payload: the name, one NUL, then the value's 4 little-endian bytes. */
  function SetPayload(name: CString, value: u32): (p: seq<byte>) {
    name + [0] + Le32(value)
  }

  /** SET `ret_len`: the payload length, stored in an int32_t. */
  function SetRetLen(name: CString): (r: i32) {
    SizeToI32(|name| + 1 + 4)
  }

  /** Index of the first NUL byte, as strlen finds it. */
  function FindNul(p: seq<byte>): (r: Option<nat>)
    ensures r.Some? ==> r.value < |p| && p[r.value] == 0 && NoNul(p[..r.value])
    ensures r.None? ==> NoNul(p)
  {
    if p == [] then None
    else if p[0] == 0 then Some(0)
    else
      match FindNul(p[1..])
      case None => None
      case Some(i) =>
        assert p[..i + 1] == [p[0]] + p[1..][..i];
        Some(i + 1)
  }

  /** The firmware's reading of a GET payload: the name up to the first NUL. */
  function ParseGetPayload(p: seq<byte>): (r: Option<CString>) {
    match FindNul(p)
    case None => None
    case Some(i) => Some(p[..i])
  }

  /** The firmware's reading of a SET payload: the name up to the first NUL and
      the value in the four bytes after it. */
  function ParseSetPayload(p: seq<byte>): (r: Option<(CString, u32)>) {
    match FindNul(p)
    case None => None
    case Some(i) => if |p| < i + 5 then None else Some((p[..i], FromLe32(p[i + 1..i + 5])))
  }

  /** In a name followed by its NUL, the first NUL is the terminator. */
  lemma {:induction false} FindNulAfterName(name: CString, rest: seq<byte>)
    ensures FindNul(name + [0] + rest) == Some(|name|)
  {
    if name != [] {
      var tail: CString := name[1..];
      assert (name + [0] + rest)[1..] == tail + [0] + rest;
      FindNulAfterName(tail, rest);
    }
  }

  /** GET sizing: 256 while name_len <= 256, name_len + 4 beyond; so the reply
      buffer always holds the name and a 4-byte value (absent int32 overflow,
      which needs a name of about 2 GiB). */
  lemma GetRetLenBounds(name: CString)
    requires |name| + 5 < TWO_31
    ensures |name| + 1 <= GET_REPLY_FLOOR ==> GetRetLen(name) == 256
    ensures |name| + 1 > GET_REPLY_FLOOR ==> GetRetLen(name) == |name| + 5
    ensures GetRetLen(name) >= |GetPayload(name)| && GetRetLen(name) >= 4
  {
  }

  /** SET framing: strlen + 5 bytes, and ret_len equals that length. */
  lemma SetPayloadLayout(name: CString, value: u32)
    requires |name| + 5 < TWO_31
    ensures |SetPayload(name, value)| == |name| + 5
    ensures SetRetLen(name) == |SetPayload(name, value)|
    ensures SetPayload(name, value)[..|name|] == name && SetPayload(name, value)[|name|] == 0
    ensures SetPayload(name, value)[|name| + 1..] == Le32(value)
  {
  }

  lemma SetPayloadValueBytes(name: CString, value: u32)
    ensures SetPayload(name, value)[|name| + 1..|name| + 5] == Le32(value)
  {
    var p := SetPayload(name, value);
    var v := p[|name| + 1..|name| + 5];
    forall k | 0 <= k < 4
      ensures v[k] == Le32(value)[k]
    {
      assert v[k] == p[|name| + 1 + k];
    }
  }

  /** Unframing a GET payload recovers the name. */
  lemma ParseGetPayloadRoundTrip(name: CString)
    ensures ParseGetPayload(GetPayload(name)) == Some(name)
  {
    FindNulAfterName(name, []);
    assert GetPayload(name) == name + [0] + [];
    assert GetPayload(name)[..|name|] == name;
  }

  /** Splitting a SET payload at its first NUL recovers the name and value. */
  lemma ParseSetPayloadRoundTrip(name: CString, value: u32)
    ensures ParseSetPayload(SetPayload(name, value)) == Some((name, value))
  {
    var p := SetPayload(name, value);
    FindNulAfterName(name, Le32(value));
    assert p[..|name|] == name;
    SetPayloadValueBytes(name, value);
    FromLe32Le32(value);
  }

  /** Conversely, a payload of exactly strlen + 5 bytes that the firmware reads
      as (name, value) is the framing of that pair. */
  lemma ParseSetPayloadComplete(p: seq<byte>, name: CString, value: u32)
    requires ParseSetPayload(p) == Some((name, value)) && |p| == |name| + 5
    ensures SetPayload(name, value) == p
  {
    var i := FindNul(p).value;
    assert i == |name|;
    Le32FromLe32(p[i + 1..i + 5]);
    assert p == p[..i] + [p[i]] + p[i + 1..i + 5];
  }

  /** The calloc'd SET buffer of `set_iovar_int`: name with its NUL, then the
      value. */
  method PackSetPayload(name: CString, value: u32) returns (payload: array<byte>)
    ensures fresh(payload)
    ensures payload[..] == SetPayload(name, value)
  {
    payload := new byte[|name| + 1 + 4];
    CopyInto(payload, 0, name + [0]);
    CopyInto(payload, |name| + 1, Le32(value));
    assert payload[..] == name + [0] + Le32(value);
  }
}
