/** `send_vendor_cmd`: one NL80211_CMD_VENDOR exchange. The libnl calls are
    replaced by their outcomes, given as a `Transport`; the messages the
    kernel sends back are its `replies`. */
module Session {
  import opened Bytes
  import opened Wrappers
  import opened Errno
  import opened VendorCodec
  import opened Response

  /** Outcomes of the libnl calls, in the order `send_vendor_cmd` makes them. */
  datatype Transport = Transport(
    socketAlloc: bool,            // nl_socket_alloc() returns a socket
    connect: int,                 // genl_connect()
    resolve: int,                 // genl_ctrl_resolve(sk, "nl80211")
    blobAlloc: bool,              // calloc of the vendor data succeeds
    msgAlloc: bool,               // nlmsg_alloc() returns a message
    cbAlloc: bool,                // nl_cb_alloc() returns a callback set
    send: int,                    // nl_send_auto()
    replies: seq<seq<Event>>)     // one batch per nl_recvmsgs() call

  /** What `send_vendor_cmd` returns, or Blocked when the replies ran out
      while the exchange was still in progress. */
  datatype Completion = Returned(code: int) | Blocked

  /** The return value, the request put on the socket (None if nothing was
      sent) and the final response record. */
  datatype Exchange = Exchange(ret: Completion, sent: Option<NlRequest>, resp: RespState)

  /** Every step before the send succeeds. */
  predicate SetupOk(t: Transport) {
    t.socketAlloc && t.connect >= 0 && t.resolve >= 0 && t.blobAlloc && t.msgAlloc && t.cbAlloc
      && t.send >= 0
  }

  /** The exchange `send_vendor_cmd` performs. */
  function VendorCmdOutcome(ifindex: u32, cmd: u32, isSet: int, payload: seq<byte>, retLen: i32,
                            t: Transport): (x: Exchange)
  {
    if !t.socketAlloc then Exchange(Returned(-ENOMEM), None, Initial)
    else if t.connect < 0 then Exchange(Returned(t.connect), None, Initial)
    else if t.resolve < 0 then Exchange(Returned(t.resolve), None, Initial)
    else if !t.blobAlloc then Exchange(Returned(-ENOMEM), None, Initial)
    else if !t.msgAlloc then Exchange(Returned(-ENOMEM), None, Initial)
    else if !t.cbAlloc then Exchange(Returned(-ENOMEM), None, Initial)
    else if t.send < 0 then Exchange(Returned(t.send), None, Initial)
    else
      var request := VendorRequest(ifindex, VendorBlob(cmd, isSet, payload, retLen));
      match Wait(Initial, t.replies)
      case Completed(f) => Exchange(Returned(f.error), Some(request), f)
      case Pending(f) => Exchange(Blocked, Some(request), f)
  }

  /** A failure before the send returns the negative code of the first step
      that failed, in the order the steps run; it sends nothing and leaves the
      record as initialised (data NULL, len 0). */
  lemma SetupFailure(ifindex: u32, cmd: u32, isSet: int, payload: seq<byte>, retLen: i32, t: Transport)
    requires !SetupOk(t)
    ensures var x := VendorCmdOutcome(ifindex, cmd, isSet, payload, retLen, t);
      && x.ret.Returned? && x.ret.code < 0
      && (!t.socketAlloc ==> x.ret.code == -ENOMEM)
      && (t.socketAlloc && t.connect < 0 ==> x.ret.code == t.connect)
      && (t.socketAlloc && t.connect >= 0 && t.resolve < 0 ==> x.ret.code == t.resolve)
      && (t.socketAlloc && t.connect >= 0 && t.resolve >= 0 && !t.blobAlloc ==> x.ret.code == -ENOMEM)
      && ((t.socketAlloc && t.connect >= 0 && t.resolve >= 0 && t.blobAlloc && !t.msgAlloc)
          ==> x.ret.code == -ENOMEM)
      && ((t.socketAlloc && t.connect >= 0 && t.resolve >= 0 && t.blobAlloc && t.msgAlloc && !t.cbAlloc)
          ==> x.ret.code == -ENOMEM)
      && ((t.socketAlloc && t.connect >= 0 && t.resolve >= 0 && t.blobAlloc && t.msgAlloc && t.cbAlloc)
          ==> x.ret.code == t.send)
      && x.sent.None? && x.resp.data.None? && x.resp.len == 0 && x.resp.error == -EINPROGRESS
  {
  }

  /** Once the setup succeeds, the request is sent: Broadcom OUI, subcommand
      DCMD, and a blob the receiver decodes to the header and payload given. */
  lemma RequestShape(ifindex: u32, cmd: u32, isSet: int, payload: seq<byte>, retLen: i32, t: Transport)
    ensures var x := VendorCmdOutcome(ifindex, cmd, isSet, payload, retLen, t);
      && (x.sent.Some? <==> SetupOk(t))
      && (x.sent.Some? ==>
            && x.sent.value.ifindex == ifindex
            && x.sent.value.vendorId == 0x001018
            && x.sent.value.subcmd == 1
            && |x.sent.value.vendorData| == 20 + |payload|
            && DecodeBlob(x.sent.value.vendorData) == Some((MakeHdr(cmd, isSet, retLen), payload)))
  {
    VendorBlobLayout(cmd, isSet, payload, retLen);
  }

  /** After a send, the value returned is the record's final `error`, which is
      no longer -EINPROGRESS; Blocked only while it still is. The record stays
      consistent. */
  lemma ReturnsFinalError(ifindex: u32, cmd: u32, isSet: int, payload: seq<byte>, retLen: i32, t: Transport)
    ensures var x := VendorCmdOutcome(ifindex, cmd, isSet, payload, retLen, t);
      && Consistent(x.resp)
      && (x.sent.Some? && x.ret.Returned? ==> x.ret.code == x.resp.error != -EINPROGRESS)
      && (x.ret.Blocked? ==> x.resp.error == -EINPROGRESS)
  {
    WaitConsistent(Initial, t.replies);
  }

  /** If some reply batch holds a terminal event (and the driver does not
      report -EINPROGRESS itself), a sent request completes. */
  lemma ExchangeCompletes(ifindex: u32, cmd: u32, isSet: int, payload: seq<byte>, retLen: i32,
                          t: Transport, k: nat)
    requires k < |t.replies| && SaneErrors(t.replies[k])
    requires exists i :: 0 <= i < |t.replies[k]| && Terminal(t.replies[k][i])
    ensures VendorCmdOutcome(ifindex, cmd, isSet, payload, retLen, t).ret.Returned?
  {
    WaitCompletes(Initial, t.replies, k);
  }

  /** `send_vendor_cmd`, in the order of its steps; `resp` is the caller's
      record. */
  method SendVendorCmd(ifindex: u32, cmd: u32, isSet: int, payload: seq<byte>, retLen: i32,
                       t: Transport, resp: IovarResponse)
    returns (ret: Completion, sent: Option<NlRequest>)
    modifies resp
    ensures Exchange(ret, sent, resp.State()) == VendorCmdOutcome(ifindex, cmd, isSet, payload, retLen, t)
  {
    resp.data, resp.len, resp.error := None, 0, -EINPROGRESS;
    sent := None;
    if !t.socketAlloc {
      return Returned(-ENOMEM), None;
    }
    if t.connect < 0 {
      return Returned(t.connect), None;
    }
    if t.resolve < 0 {
      return Returned(t.resolve), None;
    }
    if !t.blobAlloc {
      return Returned(-ENOMEM), None;
    }
    var vendorData := BuildVendorData(cmd, isSet, payload, retLen);
    if !t.msgAlloc {
      return Returned(-ENOMEM), None;
    }
    var request := VendorRequest(ifindex, vendorData[..]);
    if !t.cbAlloc {
      return Returned(-ENOMEM), None;
    }
    if t.send < 0 {
      return Returned(t.send), None;
    }
    sent := Some(request);
    var completed := resp.WaitForCompletion(t.replies);
    ret := if completed then Returned(resp.error) else Blocked;
  }
}
