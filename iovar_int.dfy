/** `get_iovar_int` and `set_iovar_int`: 32-bit integer iovars over one
    vendor-command exchange. */
module IovarInt {
  import opened Bytes
  import opened Wrappers
  import opened Errno
  import opened VendorCodec
  import opened IovarPayload
  import opened Response
  import opened Session

  /** Return code, the value stored through `*value` (only on success) and the
      request sent. */
  datatype IntGet = IntGet(ret: Completion, value: Option<u32>, sent: Option<NlRequest>)

  /** Return code and the request sent. */
  datatype IntSet = IntSet(ret: Completion, sent: Option<NlRequest>)

  /** `get_iovar_int`: a non-zero exchange result is passed through; on 0 the
      reply must hold at least 4 bytes, read as a little-endian uint32_t. */
  function GetIntOutcome(ifindex: u32, name: CString, t: Transport): (g: IntGet) {
    var x := VendorCmdOutcome(ifindex, BRCMF_C_GET_VAR, 0, GetPayload(name), GetRetLen(name), t);
    ReturnsFinalError(ifindex, BRCMF_C_GET_VAR, 0, GetPayload(name), GetRetLen(name), t);
    if x.ret.Blocked? then IntGet(Blocked, None, x.sent)
    else if x.ret.code != 0 then IntGet(x.ret, None, x.sent)
    else if x.resp.data.Some? && x.resp.len >= 4 then
      IntGet(Returned(0), Some(FromLe32(x.resp.data.value[..4])), x.sent)
    else IntGet(Returned(-ENODATA), None, x.sent)
  }

  /** `set_iovar_int`; `payloadAlloc` is whether its calloc succeeds. */
  function SetIntOutcome(ifindex: u32, name: CString, value: u32, payloadAlloc: bool, t: Transport): (r: IntSet) {
    if !payloadAlloc then IntSet(Returned(-ENOMEM), None)
    else
      var x := VendorCmdOutcome(ifindex, BRCMF_C_SET_VAR, 1, SetPayload(name, value), SetRetLen(name), t);
      IntSet(x.ret, x.sent)
  }

  /** A GET returns 0 exactly when the exchange returned 0 and at least 4 bytes
      came back, and the value is then their little-endian reading; a non-zero
      exchange code comes back unchanged; otherwise -ENODATA. */
  lemma GetIntResult(ifindex: u32, name: CString, t: Transport)
    ensures var x := VendorCmdOutcome(ifindex, BRCMF_C_GET_VAR, 0, GetPayload(name), GetRetLen(name), t);
      var g := GetIntOutcome(ifindex, name, t);
      && (g.value.Some? <==> g.ret == Returned(0))
      && (g.ret == Returned(0) <==>
            x.ret == Returned(0) && x.resp.data.Some? && |x.resp.data.value| >= 4)
      && (g.value.Some? ==> Le32(g.value.value) == x.resp.data.value[..4])
      && (x.ret.Returned? && x.ret.code != 0 ==> g.ret == x.ret)
      && (x.ret == Returned(0) && (x.resp.data.None? || |x.resp.data.value| < 4) ==>
            g.ret == Returned(-ENODATA))
      && (x.ret.Blocked? <==> g.ret.Blocked?)
      && g.sent == x.sent
  {
    var x := VendorCmdOutcome(ifindex, BRCMF_C_GET_VAR, 0, GetPayload(name), GetRetLen(name), t);
    ReturnsFinalError(ifindex, BRCMF_C_GET_VAR, 0, GetPayload(name), GetRetLen(name), t);
    if x.ret == Returned(0) && x.resp.data.Some? && |x.resp.data.value| >= 4 {
      Le32FromLe32(x.resp.data.value[..4]);
    }
  }

  /** A sent GET is command 262 with the get flag clear, ret_len from the GET
      sizing rule, and the payload the firmware reads back as the name. */
  lemma GetRequest(ifindex: u32, name: CString, t: Transport)
    ensures var g := GetIntOutcome(ifindex, name, t);
      && (g.sent.Some? <==> SetupOk(t))
      && (g.sent.Some? ==>
            && g.sent.value.vendorId == BROADCOM_OUI && g.sent.value.subcmd == BRCMF_VNDR_CMDS_DCMD
            && DecodeBlob(g.sent.value.vendorData)
               == Some((DcmdHdr(262, GetRetLen(name), 20, 0, 0), GetPayload(name)))
            && ParseGetPayload(GetPayload(name)) == Some(name))
  {
    RequestShape(ifindex, BRCMF_C_GET_VAR, 0, GetPayload(name), GetRetLen(name), t);
    ParseGetPayloadRoundTrip(name);
  }

  /** A sent SET is command 263 with the set flag, ret_len equal to the payload
      length, and a payload the firmware splits back into name and value. */
  lemma SetRequest(ifindex: u32, name: CString, value: u32, payloadAlloc: bool, t: Transport)
    requires |name| + 5 < TWO_31
    ensures var s := SetIntOutcome(ifindex, name, value, payloadAlloc, t);
      && (s.sent.Some? <==> payloadAlloc && SetupOk(t))
      && (s.sent.Some? ==>
            && s.sent.value.vendorId == BROADCOM_OUI && s.sent.value.subcmd == BRCMF_VNDR_CMDS_DCMD
            && |s.sent.value.vendorData| == 20 + |name| + 5
            && DecodeBlob(s.sent.value.vendorData)
               == Some((DcmdHdr(263, |name| + 5, 20, 1, 0), SetPayload(name, value)))
            && ParseSetPayload(SetPayload(name, value)) == Some((name, value)))
  {
    if payloadAlloc {
      RequestShape(ifindex, BRCMF_C_SET_VAR, 1, SetPayload(name, value), SetRetLen(name), t);
      SetPayloadLayout(name, value);
      ParseSetPayloadRoundTrip(name, value);
    }
  }

  /** SET returns the exchange's code unchanged, and -ENOMEM without sending
      anything when its buffer cannot be allocated. */
  lemma SetIntResult(ifindex: u32, name: CString, value: u32, payloadAlloc: bool, t: Transport)
    ensures var s := SetIntOutcome(ifindex, name, value, payloadAlloc, t);
      var x := VendorCmdOutcome(ifindex, BRCMF_C_SET_VAR, 1, SetPayload(name, value), SetRetLen(name), t);
      && (!payloadAlloc ==> s.ret == Returned(-ENOMEM) && s.sent.None?)
      && (payloadAlloc ==> s.ret == x.ret)
      && (s.ret == Returned(0) ==> payloadAlloc && x.sent.Some? && x.resp.error == 0)
  {
    ReturnsFinalError(ifindex, BRCMF_C_SET_VAR, 1, SetPayload(name, value), SetRetLen(name), t);
    if payloadAlloc && !SetupOk(t) {
      SetupFailure(ifindex, BRCMF_C_SET_VAR, 1, SetPayload(name, value), SetRetLen(name), t);
    }
  }

  method GetIovarInt(ifindex: u32, name: CString, t: Transport)
    returns (ret: Completion, value: Option<u32>, sent: Option<NlRequest>)
    ensures IntGet(ret, value, sent) == GetIntOutcome(ifindex, name, t)
  {
    var resp := new IovarResponse();
    ReturnsFinalError(ifindex, BRCMF_C_GET_VAR, 0, GetPayload(name), GetRetLen(name), t);
    ret, sent := SendVendorCmd(ifindex, BRCMF_C_GET_VAR, 0, GetPayload(name), GetRetLen(name), t, resp);
    value := None;
    if ret.Blocked? || ret.code != 0 {
      return;
    }
    if resp.data.Some? && resp.len >= 4 {
      value := Some(FromLe32(resp.data.value[..4]));
      return;
    }
    ret := Returned(-ENODATA);
  }

  method SetIovarInt(ifindex: u32, name: CString, value: u32, payloadAlloc: bool, t: Transport)
    returns (ret: Completion, sent: Option<NlRequest>)
    ensures IntSet(ret, sent) == SetIntOutcome(ifindex, name, value, payloadAlloc, t)
  {
    if !payloadAlloc {
      return Returned(-ENOMEM), None;
    }
    var payload := PackSetPayload(name, value);
    var resp := new IovarResponse();
    ret, sent := SendVendorCmd(ifindex, BRCMF_C_SET_VAR, 1, payload[..], SetRetLen(name), t, resp);
  }

  // Scenarios

  /** "btc_mode" as bytes. */
  const BTC_MODE: CString := [98, 116, 99, 95, 109, 111, 100, 101]

  /** A transport on which every setup step succeeds. */
  function Working(replies: seq<seq<Event>>): Transport {
    Transport(true, 0, 20, true, true, true, 64, replies)
  }

  /** Reading btc_mode when the driver answers 01 00 00 00 and then acks
      yields 1. */
  lemma ScenarioGetBtcMode(ifindex: u32)
    ensures GetIntOutcome(ifindex, BTC_MODE,
              Working([[ValidMsg(Some([Attr(BRCMF_NLATTR_DATA, [1, 0, 0, 0])]), true), AckMsg]]))
            == IntGet(Returned(0), Some(1),
                      Some(VendorRequest(ifindex, VendorBlob(262, 0, GetPayload(BTC_MODE), 256))))
  {
    var attrs := [Attr(BRCMF_NLATTR_DATA, [1, 0, 0, 0])];
    var batch := [ValidMsg(Some(attrs), true), AckMsg];
    var got := RespState(Some([1, 0, 0, 0]), 4, -EINPROGRESS);
    assert FirstData(attrs) == Some([1, 0, 0, 0]);
    assert RecvBatch(Initial, batch) == RecvBatch(got, batch[1..]) == got.(error := 0);
    assert Wait(Initial, [batch]) == Wait(got.(error := 0), []);
    assert [1, 0, 0, 0][..4] == [1, 0, 0, 0];
  }

  /** Writing 4 to btc_mode sends "btc_mode\0" followed by 04 00 00 00, with
      ret_len 13. */
  lemma ScenarioSetBtcMode()
    ensures SetPayload(BTC_MODE, 4) == [98, 116, 99, 95, 109, 111, 100, 101, 0, 4, 0, 0, 0]
    ensures SetRetLen(BTC_MODE) == 13
  {
  }

  /** A reply of fewer than 4 bytes is -ENODATA, not a zero-extended value. */
  lemma ScenarioShortReply(ifindex: u32, name: CString)
    ensures GetIntOutcome(ifindex, name,
              Working([[ValidMsg(Some([Attr(BRCMF_NLATTR_DATA, [1, 0])]), true), AckMsg]])).ret
            == Returned(-ENODATA)
  {
    var attrs := [Attr(BRCMF_NLATTR_DATA, [1, 0])];
    var batch := [ValidMsg(Some(attrs), true), AckMsg];
    var got := RespState(Some([1, 0]), 2, -EINPROGRESS);
    assert FirstData(attrs) == Some([1, 0]);
    assert RecvBatch(Initial, batch) == RecvBatch(got, batch[1..]) == got.(error := 0);
    assert Wait(Initial, [batch]) == Wait(got.(error := 0), []);
  }

  /** nl80211 not found: the resolution error comes back and nothing is sent. */
  lemma ScenarioDriverAbsent(ifindex: u32, name: CString, code: int)
    requires code < 0
    ensures GetIntOutcome(ifindex, name, Transport(true, 0, code, true, true, true, 64, []))
            == IntGet(Returned(code), None, None)
  {
  }

  /** The firmware rejects the command with -22: that code comes back unchanged. */
  lemma ScenarioFirmwareRejects(ifindex: u32, name: CString, value: u32)
    ensures SetIntOutcome(ifindex, name, value, true, Working([[ErrorMsg(-22)]])).ret == Returned(-22)
  {
  }

  /** With two data attributes, the first is the one read. */
  lemma ScenarioFirstDataWins(ifindex: u32, name: CString)
    ensures GetIntOutcome(ifindex, name,
              Working([[ValidMsg(Some([Attr(BRCMF_NLATTR_LEN, [4, 0, 0, 0]),
                                       Attr(BRCMF_NLATTR_DATA, [7, 0, 0, 0]),
                                       Attr(BRCMF_NLATTR_DATA, [9, 0, 0, 0])]), true),
                        DoneMsg]])).value
            == Some(7)
  {
    var attrs := [Attr(BRCMF_NLATTR_LEN, [4, 0, 0, 0]), Attr(BRCMF_NLATTR_DATA, [7, 0, 0, 0]),
                  Attr(BRCMF_NLATTR_DATA, [9, 0, 0, 0])];
    var batch := [ValidMsg(Some(attrs), true), DoneMsg];
    var got := RespState(Some([7, 0, 0, 0]), 4, -EINPROGRESS);
    assert FirstData(attrs[1..]) == Some([7, 0, 0, 0]);
    assert RecvBatch(Initial, batch) == RecvBatch(got, batch[1..]) == got.(error := 0);
    assert Wait(Initial, [batch]) == Wait(got.(error := 0), []);
    assert [7, 0, 0, 0][..4] == [7, 0, 0, 0];
  }
}
