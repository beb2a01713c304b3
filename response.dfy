/** The shared `iovar_response` record, the four netlink callbacks that update
    it, and the `-EINPROGRESS` wait loop of `send_vendor_cmd`. The socket is
    replaced by a finite sequence of receive batches: one batch is what one
    `nl_recvmsgs` call hands to the callbacks, already parsed. */
module Response {
  import opened Bytes
  import opened Wrappers
  import opened Errno

  /** Nested attribute types inside NL80211_ATTR_VENDOR_DATA of a reply. */
  const BRCMF_NLATTR_LEN: nat := 1
  const BRCMF_NLATTR_DATA: nat := 2

  /** A parsed nested attribute: its type and its payload bytes. */
  datatype Attr = Attr(typ: nat, payload: seq<byte>)

  /** A received netlink message, by the callback libnl hands it to. */
  datatype Event =
    | ErrorMsg(code: int)          // NLMSG_ERROR carrying an error: error_handler
    | AckMsg                       // NLMSG_ERROR carrying 0: ack_handler
    | DoneMsg                      // NLMSG_DONE: finish_handler
      /** A valid reply: response_handler. `vendorData` is the nested attribute
          list of NL80211_ATTR_VENDOR_DATA, None when that attribute is absent;
          `allocOk` says whether malloc of the data copy succeeds. */
    | ValidMsg(vendorData: Option<seq<Attr>>, allocOk: bool)

  /** What a callback tells libnl: NL_STOP ends the batch, NL_SKIP goes on. */
  datatype Action = Stop | Skip

  /** The fields of `struct iovar_response`; `data` is None for a NULL pointer. */
  datatype RespState = RespState(data: Option<seq<byte>>, len: nat, error: int)

  /** After memset and `error = -EINPROGRESS`. */
  const Initial: RespState := RespState(None, 0, -EINPROGRESS)

  /** A non-NULL data buffer always holds exactly `len` bytes. */
  predicate Consistent(s: RespState) {
    s.data.Some? ==> |s.data.value| == s.len
  }

  /** `i` is the position of the first data attribute. */
  predicate FirstDataAt(attrs: seq<Attr>, i: int) {
    && 0 <= i < |attrs|
    && attrs[i].typ == BRCMF_NLATTR_DATA
    && forall j :: 0 <= j < i ==> attrs[j].typ != BRCMF_NLATTR_DATA
  }

  /** Payload of the first attribute of type BRCMF_NLATTR_DATA. */
  function FirstData(attrs: seq<Attr>): (r: Option<seq<byte>>) {
    if attrs == [] then None
    else if attrs[0].typ == BRCMF_NLATTR_DATA then Some(attrs[0].payload)
    else FirstData(attrs[1..])
  }

  /** FirstData picks the first data attribute, and finds one whenever one exists. */
  lemma {:induction false} FirstDataIsFirstMatch(attrs: seq<Attr>)
    ensures FirstData(attrs).Some? <==> exists i :: 0 <= i < |attrs| && attrs[i].typ == BRCMF_NLATTR_DATA
    ensures forall i :: FirstDataAt(attrs, i) ==> FirstData(attrs) == Some(attrs[i].payload)
  {
    if attrs != [] && attrs[0].typ != BRCMF_NLATTR_DATA {
      var tail := attrs[1..];
      FirstDataIsFirstMatch(tail);
      if FirstData(attrs).Some? {
        var k :| 0 <= k < |tail| && tail[k].typ == BRCMF_NLATTR_DATA;
        assert attrs[k + 1].typ == BRCMF_NLATTR_DATA;
      }
      forall i | 0 <= i < |attrs| && attrs[i].typ == BRCMF_NLATTR_DATA
        ensures FirstData(attrs).Some?
      {
        assert tail[i - 1].typ == BRCMF_NLATTR_DATA;
      }
      forall i | FirstDataAt(attrs, i)
        ensures FirstData(attrs) == Some(attrs[i].payload)
      {
        assert FirstDataAt(tail, i - 1);
      }
    }
  }

  /** response_handler's update of the record. */
  function AfterValid(s: RespState, vendorData: Option<seq<Attr>>, allocOk: bool): (s': RespState) {
    match vendorData
    case None => s.(error := -ENODATA)
    case Some(attrs) =>
      match FirstData(attrs)
      case None => s
      case Some(d) =>
        if allocOk then s.(data := Some(d), len := |d|)
        else s.(data := None, len := |d|, error := -ENOMEM)
  }

  /** One callback: the new record and what it returns to libnl. */
  function Step(s: RespState, e: Event): (r: (RespState, Action)) {
    match e
    case ErrorMsg(code) => (s.(error := code), Stop)
    case AckMsg => (s.(error := 0), Stop)
    case DoneMsg => (s.(error := 0), Skip)
    case ValidMsg(vd, ok) => (AfterValid(s, vd, ok), Skip)
  }

  /** One `nl_recvmsgs` call: callbacks in order until one returns NL_STOP. */
  function RecvBatch(s: RespState, batch: seq<Event>): (s': RespState)
    decreases |batch|
  {
    if batch == [] then s
    else
      var (s', a) := Step(s, batch[0]);
      if a == Stop then s' else RecvBatch(s', batch[1..])
  }

  /** Outcome of the wait loop over the batches at hand: Completed when the
      loop condition failed, Pending when the batches ran out first (the real
      loop would block on the socket). */
  datatype WaitResult = Completed(final: RespState) | Pending(final: RespState)

  /** `while (resp->error == -EINPROGRESS) nl_recvmsgs(sk, cb);` */
  function Wait(s: RespState, batches: seq<seq<Event>>): (r: WaitResult)
    ensures r.Completed? <==> r.final.error != -EINPROGRESS
    ensures s.error != -EINPROGRESS ==> r == Completed(s)
    decreases |batches|
  {
    if s.error != -EINPROGRESS then Completed(s)
    else if batches == [] then Pending(s)
    else Wait(RecvBatch(s, batches[0]), batches[1..])
  }

  /** An event that ends the wait on its own: it sets `error` to something
      other than -EINPROGRESS. */
  predicate Terminal(e: Event) {
    match e
    case ErrorMsg(code) => code != -EINPROGRESS
    case AckMsg => true
    case DoneMsg => true
    case ValidMsg(vd, ok) => vd.None? || (!ok && FirstData(vd.value).Some?)
  }

  /** The driver never reports -EINPROGRESS itself through the error callback. */
  predicate SaneErrors(batch: seq<Event>) {
    forall i :: 0 <= i < |batch| ==> batch[i] != ErrorMsg(-EINPROGRESS)
  }

  lemma StepTerminal(s: RespState, e: Event)
    ensures Terminal(e) ==> Step(s, e).0.error != -EINPROGRESS
    ensures !Terminal(e) && e != ErrorMsg(-EINPROGRESS) ==> Step(s, e).0.error == s.error
  {
  }

  /** A successful data callback never touches `error`; it stores the first
      data attribute's bytes and length, or nothing when there is none. */
  lemma ValidMsgKeepsError(s: RespState, attrs: seq<Attr>)
    ensures Step(s, ValidMsg(Some(attrs), true)).0.error == s.error
    ensures FirstData(attrs).None? ==> Step(s, ValidMsg(Some(attrs), true)).0 == s
    ensures FirstData(attrs).Some? ==>
              var d := FirstData(attrs).value;
              Step(s, ValidMsg(Some(attrs), true)).0 == RespState(Some(d), |d|, s.error)
  {
  }

  /** Every callback keeps the record consistent. */
  lemma {:induction false} RecvBatchConsistent(s: RespState, batch: seq<Event>)
    requires Consistent(s)
    ensures Consistent(RecvBatch(s, batch))
    decreases |batch|
  {
    if batch != [] {
      var (s', a) := Step(s, batch[0]);
      if a == Skip {
        RecvBatchConsistent(s', batch[1..]);
      }
    }
  }

  lemma {:induction false} WaitConsistent(s: RespState, batches: seq<seq<Event>>)
    requires Consistent(s)
    ensures Consistent(Wait(s, batches).final)
    decreases |batches|
  {
    if s.error == -EINPROGRESS && batches != [] {
      RecvBatchConsistent(s, batches[0]);
      WaitConsistent(RecvBatch(s, batches[0]), batches[1..]);
    }
  }

  /** Once `error` has left -EINPROGRESS, the rest of a batch cannot bring it back. */
  lemma {:induction false} RecvBatchSticky(s: RespState, batch: seq<Event>)
    requires s.error != -EINPROGRESS && SaneErrors(batch)
    ensures RecvBatch(s, batch).error != -EINPROGRESS
    decreases |batch|
  {
    if batch != [] {
      var (s', a) := Step(s, batch[0]);
      StepTerminal(s, batch[0]);
      if a == Skip {
        RecvBatchSticky(s', batch[1..]);
      }
    }
  }

  /** From -EINPROGRESS, one batch ends the wait exactly when it contains a
      terminal event; data callbacks alone never do. */
  lemma {:induction false} RecvBatchEnds(s: RespState, batch: seq<Event>)
    requires s.error == -EINPROGRESS && SaneErrors(batch)
    ensures RecvBatch(s, batch).error != -EINPROGRESS
            <==> exists i :: 0 <= i < |batch| && Terminal(batch[i])
    decreases |batch|
  {
    if batch != [] {
      var (s', a) := Step(s, batch[0]);
      StepTerminal(s, batch[0]);
      var tail := batch[1..];
      if Terminal(batch[0]) {
        if a == Skip {
          RecvBatchSticky(s', tail);
        }
      } else {
        assert a == Skip && s'.error == -EINPROGRESS;
        RecvBatchEnds(s', tail);
        if exists i :: 0 <= i < |batch| && Terminal(batch[i]) {
          var i :| 0 <= i < |batch| && Terminal(batch[i]);
          assert Terminal(tail[i - 1]);
        }
        if exists i :: 0 <= i < |tail| && Terminal(tail[i]) {
          var i :| 0 <= i < |tail| && Terminal(tail[i]);
          assert Terminal(batch[i + 1]);
        }
      }
    }
  }

  /** An error callback carrying -EINPROGRESS cannot be told apart from "still
      waiting": it overwrites the 0 that a finish callback stored earlier in
      the same batch, stops the batch, and the loop goes on waiting. */
  lemma InProgressErrorKeepsWaiting()
    ensures RecvBatch(Initial, [DoneMsg, ErrorMsg(-EINPROGRESS)]).error == -EINPROGRESS
    ensures Wait(Initial, [[DoneMsg, ErrorMsg(-EINPROGRESS)]]).Pending?
  {
    var batch := [DoneMsg, ErrorMsg(-EINPROGRESS)];
    assert RecvBatch(Initial, batch) == RecvBatch(Initial.(error := 0), batch[1..]);
  }

  /** If some batch holds a terminal event, the wait loop completes. */
  lemma {:induction false} WaitCompletes(s: RespState, batches: seq<seq<Event>>, k: nat)
    requires k < |batches| && SaneErrors(batches[k])
    requires exists i :: 0 <= i < |batches[k]| && Terminal(batches[k][i])
    ensures Wait(s, batches).Completed?
    decreases k
  {
    if s.error == -EINPROGRESS {
      var s' := RecvBatch(s, batches[0]);
      if k == 0 {
        RecvBatchEnds(s, batches[0]);
      } else {
        assert batches[1..][k - 1] == batches[k];
        WaitCompletes(s', batches[1..], k - 1);
      }
    }
  }

  /** The shared response record that the callbacks update in place. */
  class IovarResponse {
    var data: Option<seq<byte>>
    var len: nat
    var error: int

    function State(): RespState
      reads this
    {
      RespState(data, len, error)
    }

    /** memset(resp, 0, ...) and resp->error = -EINPROGRESS. */
    constructor ()
      ensures State() == Initial
    {
      data, len, error := None, 0, -EINPROGRESS;
    }

    method ErrorHandler(code: int) returns (a: Action)
      modifies this
      ensures (State(), a) == Step(old(State()), ErrorMsg(code))
    {
      error := code;
      a := Stop;
    }

    method FinishHandler() returns (a: Action)
      modifies this
      ensures (State(), a) == Step(old(State()), DoneMsg)
    {
      error := 0;
      a := Skip;
    }

    method AckHandler() returns (a: Action)
      modifies this
      ensures (State(), a) == Step(old(State()), AckMsg)
    {
      error := 0;
      a := Stop;
    }

    /** Scans the nested attributes and copies the first data attribute. */
    method ResponseHandler(vendorData: Option<seq<Attr>>, allocOk: bool) returns (a: Action)
      modifies this
      ensures (State(), a) == Step(old(State()), ValidMsg(vendorData, allocOk))
    {
      a := Skip;
      if vendorData.None? {
        error := -ENODATA;
        return;
      }
      var attrs := vendorData.value;
      var i := 0;
      while i < |attrs|
        invariant 0 <= i <= |attrs|
        invariant State() == old(State())
        invariant FirstData(attrs) == FirstData(attrs[i..])
      {
        assert attrs[i..][1..] == attrs[i + 1..];
        if attrs[i].typ == BRCMF_NLATTR_DATA {
          len := |attrs[i].payload|;
          if allocOk {
            data := Some(attrs[i].payload);
          } else {
            data := None;
            error := -ENOMEM;
          }
          break;
        }
        i := i + 1;
      }
    }

    /** libnl's dispatch of one message to its callback. */
    method Dispatch(e: Event) returns (a: Action)
      modifies this
      ensures (State(), a) == Step(old(State()), e)
    {
      match e
      case ErrorMsg(code) => a := ErrorHandler(code);
      case AckMsg => a := AckHandler();
      case DoneMsg => a := FinishHandler();
      case ValidMsg(vd, ok) => a := ResponseHandler(vd, ok);
    }

    /** One `nl_recvmsgs` call over a batch of messages. */
    method RecvMsgs(batch: seq<Event>)
      modifies this
      ensures State() == RecvBatch(old(State()), batch)
    {
      var i := 0;
      while i < |batch|
        invariant 0 <= i <= |batch|
        invariant RecvBatch(old(State()), batch) == RecvBatch(State(), batch[i..])
      {
        ghost var before := State();
        assert batch[i..][0] == batch[i] && batch[i..][1..] == batch[i + 1..];
        var a := Dispatch(batch[i]);
        if a == Stop {
          return;
        }
        i := i + 1;
      }
    }

    /** The wait loop; `completed` is false when the batches ran out while
        `error` was still -EINPROGRESS. */
    method WaitForCompletion(batches: seq<seq<Event>>) returns (completed: bool)
      modifies this
      ensures Wait(old(State()), batches) == if completed then Completed(State()) else Pending(State())
    {
      var i := 0;
      while error == -EINPROGRESS && i < |batches|
        invariant 0 <= i <= |batches|
        invariant Wait(old(State()), batches) == Wait(State(), batches[i..])
      {
        assert batches[i..][0] == batches[i] && batches[i..][1..] == batches[i + 1..];
        RecvMsgs(batches[i]);
        i := i + 1;
      }
      completed := error != -EINPROGRESS;
    }
  }
}
