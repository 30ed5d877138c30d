/**
 The operation of a coroutine (src/loperaux.c): one union, a request or a handle of libuv, reused by every
 await of the coroutine, and four flags.

 An `Op` is the operation between two steps.  A step is a call of an await function by the running
 coroutine, the coroutine leaving (it yields elsewhere or ends), an explicit resume, or a callback of
 libuv.  A callback that resumes the coroutine leaves a tail to be run when the coroutine stops again.
 */
module Operations {

  const UV_ASYNC: int := 1

  /** `op->kind`: a request (`busy` unless its type is UV_UNKNOWN_REQ) or a handle. */
  datatype Union = Request(busy: bool) | Handle(htype: int, closing: bool)

  /** The coroutine: running, yielded with `k_endop` or `k_resetopk`, or anywhere else (even dead). */
  datatype Co = Running | AtEnd | AtReset | Elsewhere

  /** What follows `lua_resume` in `lcuU_resumecoreq` or `lcuU_resumecohdl`. */
  datatype Tail = NoTail | AfterRequest | AfterHandle

  /** What a yielded `k_resetopk` will start. */
  datatype Wanted = ARequest | AHandle(htype: int)

  /** What a setup function does: raise an error, return results (having armed the operation or not),
      fail to arm it, or arm it and wait. */
  datatype Setup = Raises | Returns(armed: bool) | ArmFails | Waits

  /** `saved` is whether the registry anchors the coroutine; `cancellable` is `cancel != NULL`; `arms`,
      `closes` and `frees` count the handles initialized, `uv_close` calls, and close callbacks. */
  datatype Op = Op(
    request: bool, thrsaved: bool, pending: bool, cleanup: bool, union: Union,
    saved: bool, co: Co, tail: Tail, wanted: Wanted, cancellable: bool, arms: nat, closes: nat, frees: nat)

  datatype Event =
    | CallRequest(setup: Setup)                                   // lcuT_resetcoreqk
    | CallHandle(kind: int, htype: int, cancel: bool, setup: Setup)  // lcuT_resetcohdlk; libuv's type is `htype`
    | Leave                                                       // the coroutine yields elsewhere or ends
    | Resume(removed: bool)                                       // explicit resume; `removed` is what `cancel` returns
    | RequestDone(setup: Setup)                                   // uv_<request>_cb
    | HandleFired                                                 // uv_<handle>_cb
    | HandleClosed(setup: Setup)                                  // closedhdl

  predicate IsCallback(e: Event) {
    e.RequestDone? || e.HandleFired? || e.HandleClosed?
  }

  // ---------------------------------------------------------------- steps

  function CloseHandle(o: Op): Op
    requires o.union.Handle?
  {
    o.(union := o.union.(closing := true), closes := o.closes + 1)
  }

  /** `cancelop`; canceling a request changes nothing until its callback comes. */
  function CancelOp(o: Op): Op {
    if o.union.Handle? && !o.union.closing then CloseHandle(o) else o
  }

  function StartedOp(o: Op, waits: bool): Op {
    if waits then o.(pending := true, co := AtEnd) else CancelOp(o)
  }

  function ArmRequest(o: Op): Op {
    o.(union := Request(true), thrsaved := true, saved := true)
  }

  function ArmHandle(o: Op, htype: int): Op {
    o.(union := Handle(htype, false), request := false, thrsaved := false, saved := true, arms := o.arms + 1)
  }

  /** A setup on a free union. */
  function Start(o: Op, w: Wanted, setup: Setup): Op {
    var armed := match w case ARequest => ArmRequest(o) case AHandle(h) => ArmHandle(o, h);
    match setup
    case Raises => o
    case Returns(a) => StartedOp(if a then armed else o, false)
    case ArmFails => StartedOp(o, false)
    case Waits => StartedOp(armed, true)
  }

  /** The operation is still in use: it is closed if need be, and the coroutine waits for it to be free. */
  function YieldReset(o: Op, w: Wanted): Op {
    (if o.union.Handle? && !o.cleanup then CancelOp(o) else o).(pending := true, co := AtReset, wanted := w)
  }

  /** The tail of a resume by the loop runs as soon as the coroutine stops. */
  function Stopped(o: Op): Op {
    if o.co == Running then o
    else
      match o.tail
      case NoTail => o
      case AfterRequest =>
        if o.request && o.union == Request(false) then o.(thrsaved := false, saved := false, tail := NoTail)
        else o.(tail := NoTail)
      case AfterHandle =>
        (if !o.pending && !o.cleanup then CancelOp(o) else o).(tail := NoTail)
  }

  predicate SameOp(o: Op, kind: int) {
    !o.cleanup && o.union.Handle? && !o.union.closing && kind != 0 && o.union.htype == kind
  }

  /** `lcuU_resumecoreq`: the coroutine goes on in `k_endop`, or starts what it wanted in `k_resetopk`. */
  function ResumeByLoop(o: Op, setup: Setup): Op {
    var o1 := o.(pending := false, co := Running, tail := AfterRequest);
    if o.co == AtReset then Stopped(Start(o1, o.wanted, setup)) else o1
  }

  predicate Enabled(o: Op, e: Event) {
    match e
    case CallRequest(setup) => o.co == Running
    case CallHandle(kind, htype, cancel, setup) =>
      && o.co == Running && kind != 0
      && (cancel ==> kind == UV_ASYNC)
      && (kind == UV_ASYNC ==> htype == kind)
      && (SameOp(o, kind) ==> setup == Raises || setup == Returns(false) || setup == Waits)
    case Leave => o.co == Running
    case Resume(removed) => o.co != Running
    case RequestDone(setup) => o.union == Request(true)
    case HandleFired => o.union.Handle? && !o.union.closing
    case HandleClosed(setup) => o.union.Handle? && o.union.closing
  }

  function Next(o: Op, e: Event): Op
    requires Enabled(o, e)
  {
    match e
    case CallRequest(setup) =>
      var o1 := o.(cancellable := false);
      if o1.union == Request(false) then Stopped(Start(o1, ARequest, setup))
      else Stopped(YieldReset(o1, ARequest))
    case CallHandle(kind, htype, cancel, setup) =>
      var o1 := o.(cancellable := cancel);
      if o1.union == Request(false) then Stopped(Start(o1, AHandle(htype), setup))
      else if SameOp(o1, kind) then
        (match setup
         case Raises => o1
         case Waits => Stopped(StartedOp(o1, true))
         case _ => StartedOp(o1, false))
      else Stopped(YieldReset(o1, AHandle(htype)))
    case Leave => Stopped(o.(co := Elsewhere))
    case Resume(removed) =>
      var o1 := o.(pending := false, co := Running);
      if o.co == AtEnd then
        if !o.cancellable || removed then CancelOp(o1) else o1.(cleanup := true)
      else o1
    case RequestDone(setup) =>
      if o.pending then ResumeByLoop(Freed(o), setup)
      else Freed(o).(thrsaved := false, cleanup := false, saved := false)
    case HandleFired =>
      if o.union.htype == UV_ASYNC && (!o.pending || o.cleanup) then CancelOp(o.(cleanup := false))
      else o.(pending := false, co := Running, tail := AfterHandle)
    case HandleClosed(setup) =>
      if o.pending then ResumeByLoop(Freed(o), setup)
      else Freed(o).(thrsaved := false, saved := false)
  }

  /** The union after its last callback: a free request, that still anchors the coroutine. */
  function Freed(o: Op): Op {
    match o.union
    case Request(busy) => o.(union := Request(false))
    case Handle(htype, closing) => o.(union := Request(false), request := true, thrsaved := true, frees := o.frees + 1)
  }

  // ---------------------------------------------------------------- states

  /** The rows of the table of operation states in doc/devnotes.md; `Unused` is its "Freed". */
  datatype Row =
    | Unused | AwaitingRequest | CompletedRequest | CanceledRequest | ResetingRequest
    | AwaitingHandle | CompletedHandle | CanceledHandle | ResetingCanceledHandle
    | ClosingHandle | ResetingClosedHandle

  datatype Callback = None | OfRequest | OfHandle | OfClose

  /** What libuv still owes the operation. */
  function Owed(o: Op): Callback {
    match o.union
    case Request(busy) => if busy then OfRequest else None
    case Handle(htype, closing) => if closing then OfClose else OfHandle
  }

  predicate Flags(o: Op, r: bool, s: bool, p: bool, c: bool) {
    o.request == r && o.thrsaved == s && o.pending == p && o.cleanup == c
  }

  /** The flags, the continuation and the callback owed, row by row. */
  predicate InRow(o: Op, row: Row) {
    var stopped := o.co == Running || o.co == Elsewhere;
    match row
    case Unused => Flags(o, true, false, false, false) && stopped && Owed(o) == None
    case AwaitingRequest => Flags(o, true, true, true, false) && o.co == AtEnd && Owed(o) == OfRequest
    case CompletedRequest => Flags(o, true, true, false, false) && stopped && Owed(o) == None
    case CanceledRequest => Flags(o, true, true, false, false) && stopped && Owed(o) == OfRequest
    case ResetingRequest => Flags(o, true, true, true, false) && o.co == AtReset && Owed(o) == OfRequest
    case AwaitingHandle => Flags(o, false, false, true, false) && o.co == AtEnd && Owed(o) == OfHandle
    case CompletedHandle => Flags(o, false, false, false, false) && stopped && Owed(o) == OfHandle
    case CanceledHandle => Flags(o, false, false, false, true) && stopped && Owed(o) == OfHandle
    case ResetingCanceledHandle => Flags(o, false, false, true, true) && o.co == AtReset && Owed(o) == OfHandle
    case ClosingHandle => Flags(o, false, false, false, false) && stopped && Owed(o) == OfClose
    case ResetingClosedHandle => Flags(o, false, false, true, false) && o.co == AtReset && Owed(o) == OfClose
  }

  function RowOf(o: Op): Row {
    match o.union
    case Request(busy) =>
      if !busy then (if o.thrsaved then CompletedRequest else Unused)
      else if !o.pending then CanceledRequest
      else if o.co == AtEnd then AwaitingRequest else ResetingRequest
    case Handle(htype, closing) =>
      if closing then (if o.pending then ResetingClosedHandle else ClosingHandle)
      else if o.cleanup then (if o.pending then ResetingCanceledHandle else CanceledHandle)
      else if o.pending then AwaitingHandle else CompletedHandle
  }

  function One(b: bool): nat {
    if b then 1 else 0
  }

  ghost predicate Inv(o: Op) {
    && InRow(o, RowOf(o))
    // the two "completed" rows exist only while the loop runs the coroutine
    && (o.tail != NoTail ==> o.co == Running)
    && (RowOf(o) == CompletedRequest ==> o.tail == AfterRequest)
    && (RowOf(o) == CompletedHandle ==> o.tail == AfterHandle)
    && (RowOf(o) == Unused ==> o.tail == NoTail)
    && (o.tail == AfterHandle ==> o.union.Handle?)
    // only channel waits have a cancel, and so a clean-up
    && (o.cleanup ==> o.union.Handle? && o.union.htype == UV_ASYNC)
    && (o.co == AtEnd && o.cancellable ==> o.union.Handle? && o.union.htype == UV_ASYNC)
    && (o.co == AtReset && o.cancellable ==> o.wanted == AHandle(UV_ASYNC))
    // anchoring and handle accounts
    && (o.saved <==> o.thrsaved || !o.request)
    && o.arms == o.frees + One(o.union.Handle?)
    && o.closes == o.frees + One(o.union.Handle? && o.union.closing)
  }

  /** What `tothrop` makes for the first await of a coroutine; `cancel` is not initialized. */
  predicate IsNew(o: Op) {
    && Flags(o, true, false, false, false) && o.union == Request(false) && !o.saved
    && o.co == Running && o.tail == NoTail && o.arms == o.closes == o.frees == 0
  }

  /** A free union in the hands of the running coroutine. */
  ghost predicate FreeInv(o: Op) {
    Inv(o) && o.union == Request(false) && o.co == Running
  }

  /** Before the tail: a coroutine that has just stopped, with the tail of the loop still to run. */
  ghost predicate StoppedInv(o: Op) {
    Inv(o.(tail := if o.union.Handle? && !o.union.closing && !o.pending && !o.cleanup then AfterHandle
                   else if o.union == Request(false) && o.thrsaved then AfterRequest
                   else NoTail,
           co := if o.pending then o.co else Running))
    && (o.union.Handle? && !o.union.closing && !o.pending && !o.cleanup ==> o.tail == AfterHandle)
    && (o.union == Request(false) ==> (o.thrsaved <==> o.tail == AfterRequest))
    && (o.tail == AfterHandle ==> o.union.Handle?)
    && o.co != Running && (o.pending <==> o.co != Elsewhere)
  }

  lemma TailKeeps(o: Op)
    requires StoppedInv(o)
    ensures Inv(Stopped(o))
  {
  }

  lemma StartKeeps(o: Op, w: Wanted, setup: Setup)
    requires FreeInv(o)
    requires o.cancellable ==> w == AHandle(UV_ASYNC)
    ensures Inv(Stopped(Start(o, w, setup)))
  {
    var o1 := Start(o, w, setup);
    if setup.Waits? {
      TailKeeps(o1);
    }
  }

  lemma ResetKeeps(o: Op, w: Wanted)
    requires Inv(o) && o.co == Running && o.union != Request(false)
    requires o.cancellable ==> w == AHandle(UV_ASYNC)
    ensures Inv(Stopped(YieldReset(o, w)))
  {
    TailKeeps(YieldReset(o, w));
  }

  lemma CallKeeps(o: Op, e: Event)
    requires Inv(o) && Enabled(o, e) && (e.CallRequest? || e.CallHandle?)
    ensures Inv(Next(o, e))
  {
    var o1 := o.(cancellable := e.CallHandle? && e.cancel);
    assert Inv(o1);
    var w := if e.CallRequest? then ARequest else AHandle(e.htype);
    if o1.union == Request(false) {
      StartKeeps(o1, w, e.setup);
    } else if e.CallHandle? && SameOp(o1, e.kind) {
      if e.setup.Waits? {
        TailKeeps(StartedOp(o1, true));
      }
    } else {
      ResetKeeps(o1, w);
    }
  }

  lemma LoopKeeps(o: Op, setup: Setup)
    requires o.union == Request(false) && o.request && o.thrsaved && o.saved && o.pending && !o.cleanup
    requires o.tail == NoTail && (o.co == AtEnd || o.co == AtReset)
    requires o.arms == o.frees == o.closes
    requires o.cancellable && o.co == AtReset ==> o.wanted == AHandle(UV_ASYNC)
    ensures Inv(ResumeByLoop(o, setup))
  {
    if o.co == AtReset {
      StartKeeps(o.(pending := false, co := Running, tail := AfterRequest), o.wanted, setup);
    }
  }

  lemma RequestDoneKeeps(o: Op, setup: Setup)
    requires Inv(o) && Enabled(o, RequestDone(setup)) && o.tail == NoTail
    ensures Inv(Next(o, RequestDone(setup)))
  {
    if o.pending {
      LoopKeeps(Freed(o), setup);
    }
  }

  lemma HandleFiredKeeps(o: Op)
    requires Inv(o) && Enabled(o, HandleFired) && o.tail == NoTail
    ensures Inv(Next(o, HandleFired))
  {
  }

  lemma HandleClosedKeeps(o: Op, setup: Setup)
    requires Inv(o) && Enabled(o, HandleClosed(setup)) && o.tail == NoTail
    ensures Inv(Next(o, HandleClosed(setup)))
  {
    if o.pending {
      LoopKeeps(Freed(o), setup);
    }
  }

  lemma StepKeeps(o: Op, e: Event)
    requires Inv(o) && Enabled(o, e) && (IsCallback(e) ==> o.tail == NoTail)
    ensures Inv(Next(o, e))
  {
    match e
    case CallRequest(setup) => CallKeeps(o, e);
    case CallHandle(kind, htype, cancel, setup) => CallKeeps(o, e);
    case Leave => TailKeeps(o.(co := Elsewhere));
    case Resume(removed) =>
    case RequestDone(setup) => RequestDoneKeeps(o, setup);
    case HandleFired => HandleFiredKeeps(o);
    case HandleClosed(setup) => HandleClosedKeeps(o, setup);
  }
}
