/**
 All the operations of one scheduler (src/loperaux.c) in every run of its loop and coroutines.
 */
module OperationRuns {
  import opened Operations

  type Id = nat

  datatype Loop = Loop(ops: map<Id, Op>, nasync: int, nactive: int)

  datatype Step = Begin(id: Id, o: Op) | Do(id: Id, e: Event)

  /** The loop is not inside a coroutine it resumed: only then does it run another callback. */
  ghost predicate Idle(s: Loop) {
    forall i :: i in s.ops ==> s.ops[i].tail == NoTail
  }

  ghost predicate CanStep(s: Loop, t: Step) {
    match t
    case Begin(id, o) => id !in s.ops && IsNew(o)
    case Do(id, e) => id in s.ops && Enabled(s.ops[id], e) && (IsCallback(e) ==> Idle(s))
  }

  /** What an operation adds to `nactive` and to `nasync`. */
  function Active(o: Op): int {
    if Owed(o) != None then 1 else 0
  }

  predicate LiveWait(o: Op) {
    o.union.Handle? && o.union.htype == UV_ASYNC && !o.union.closing
  }

  function Async(o: Op): int {
    if LiveWait(o) then 1 else 0
  }

  ghost function After(s: Loop, t: Step): Loop
    requires CanStep(s, t)
  {
    match t
    case Begin(id, o) => s.(ops := s.ops[id := o])
    case Do(id, e) =>
      var o, o' := s.ops[id], Next(s.ops[id], e);
      Loop(s.ops[id := o'], s.nasync + Async(o') - Async(o), s.nactive + Active(o') - Active(o))
  }

  ghost predicate Run(s: Loop, ts: seq<Step>, s': Loop)
    decreases |ts|
  {
    if ts == [] then s == s'
    else CanStep(s, ts[0]) && Run(After(s, ts[0]), ts[1..], s')
  }

  ghost predicate Created(s: Loop) {
    s.ops == map[] && s.nasync == 0 && s.nactive == 0
  }

  ghost predicate Reachable(s: Loop) {
    exists s0, ts :: Created(s0) && Run(s0, ts, s)
  }

  // ---------------------------------------------------------------- counters

  function Outstanding(ops: map<Id, Op>): set<Id> {
    set i | i in ops && Owed(ops[i]) != None
  }

  function LiveWaits(ops: map<Id, Op>): set<Id> {
    set i | i in ops && LiveWait(ops[i])
  }

  ghost predicate LoopInv(s: Loop) {
    && (forall i :: i in s.ops ==> Inv(s.ops[i]))
    && s.nactive == |Outstanding(s.ops)|
    && s.nasync == |LiveWaits(s.ops)|
  }

  lemma SetChange(a: set<Id>, b: set<Id>, i: Id)
    requires forall x :: x != i ==> (x in a <==> x in b)
    ensures |b| == |a| + (if i in b then 1 else 0) - (if i in a then 1 else 0)
  {
    assert a - {i} == b - {i};
    assert |a - {i}| == |a| - (if i in a then 1 else 0);
    assert |b - {i}| == |b| - (if i in b then 1 else 0);
  }

  lemma CountersFollow(ops: map<Id, Op>, id: Id, o: Op)
    ensures |Outstanding(ops[id := o])| == |Outstanding(ops)| + Active(o) - (if id in ops then Active(ops[id]) else 0)
    ensures |LiveWaits(ops[id := o])| == |LiveWaits(ops)| + Async(o) - (if id in ops then Async(ops[id]) else 0)
  {
    SetChange(Outstanding(ops), Outstanding(ops[id := o]), id);
    SetChange(LiveWaits(ops), LiveWaits(ops[id := o]), id);
  }

  lemma NewInv(o: Op)
    requires IsNew(o)
    ensures Inv(o) && Active(o) == 0 && Async(o) == 0
  {
  }

  lemma BeginKeeps(s: Loop, id: Id, o: Op)
    requires LoopInv(s) && id !in s.ops && IsNew(o)
    ensures LoopInv(After(s, Begin(id, o)))
  {
    CountersFollow(s.ops, id, o);
    NewInv(o);
  }

  lemma DoKeeps(s: Loop, id: Id, e: Event)
    requires LoopInv(s) && CanStep(s, Do(id, e))
    ensures LoopInv(After(s, Do(id, e)))
  {
    var o' := Next(s.ops[id], e);
    CountersFollow(s.ops, id, o');
    StepKeeps(s.ops[id], e);
    var s' := After(s, Do(id, e));
    assert s'.ops == s.ops[id := o'];
  }

  lemma StepKeepsLoop(s: Loop, t: Step)
    requires LoopInv(s) && CanStep(s, t)
    ensures LoopInv(After(s, t))
  {
    match t
    case Begin(id, o) => BeginKeeps(s, id, o);
    case Do(id, e) => DoKeeps(s, id, e);
  }

  lemma {:induction false} RunKeeps(s: Loop, ts: seq<Step>, s': Loop)
    requires LoopInv(s) && Run(s, ts, s')
    ensures LoopInv(s')
    decreases |ts|
  {
    if ts == [] {
    } else {
      StepKeepsLoop(s, ts[0]);
      RunKeeps(After(s, ts[0]), ts[1..], s');
    }
  }

  lemma ReachableInv(s: Loop)
    requires Reachable(s)
    ensures LoopInv(s)
  {
    var s0, ts :| Created(s0) && Run(s0, ts, s);
    RunKeeps(s0, ts, s);
  }

  // ---------------------------------------------------------------- theorems

  /** Every operation is always in exactly one row of the table. */
  lemma OneRow(s: Loop, i: Id, row: Row)
    requires Reachable(s) && i in s.ops
    ensures InRow(s.ops[i], row) <==> row == RowOf(s.ops[i])
  {
    ReachableInv(s);
    assert InRow(s.ops[i], RowOf(s.ops[i]));
  }

  /** The two "completed" rows are seen only while the loop runs that very coroutine; between callbacks
      the callback of an open handle finds the operation awaiting it, or to be cleaned up. */
  lemma HandleCallbackIsExpected(s: Loop, i: Id)
    requires Reachable(s) && Idle(s) && i in s.ops && Owed(s.ops[i]) == OfHandle
    ensures RowOf(s.ops[i]) in {AwaitingHandle, CanceledHandle, ResetingCanceledHandle}
    ensures RowOf(s.ops[i]) != AwaitingHandle ==> LiveWait(s.ops[i])
  {
    ReachableInv(s);
  }

  /** A coroutine that waits for its union to be free is resumed by the loop only when it is: by the
      callback of the request or by the close callback of the handle, never by the handle's own. */
  lemma RestartsOnFreeUnion(s: Loop, i: Id, e: Event)
    requires Reachable(s) && CanStep(s, Do(i, e)) && IsCallback(e)
    requires s.ops[i].co == AtReset && Next(s.ops[i], e).co != AtReset
    ensures (e.RequestDone? && RowOf(s.ops[i]) == ResetingRequest)
         || (e.HandleClosed? && RowOf(s.ops[i]) == ResetingClosedHandle)
    ensures Next(s.ops[i], e) == ResumeByLoop(Freed(s.ops[i]), e.setup)
    ensures Freed(s.ops[i]).union == Request(false) && Freed(s.ops[i]).request
  {
    ReachableInv(s);
    assert Inv(s.ops[i]);
    if e.HandleFired? {
      HandleFiredNeverResets(s.ops[i]);
    }
  }

  lemma HandleFiredNeverResets(o: Op)
    requires Inv(o) && Enabled(o, HandleFired) && o.co == AtReset
    ensures Next(o, HandleFired).co == AtReset
  {
  }

  /** `uv_close` is called once for every handle armed: by now for all of them but an open one. */
  lemma ClosedOnce(s: Loop, i: Id)
    requires Reachable(s) && i in s.ops
    ensures s.ops[i].arms - s.ops[i].closes == if s.ops[i].union.Handle? && !s.ops[i].union.closing then 1 else 0
    ensures s.ops[i].closes - s.ops[i].frees == if s.ops[i].union.Handle? && s.ops[i].union.closing then 1 else 0
  {
    ReachableInv(s);
    assert Inv(s.ops[i]);
  }

  /** The counters count: operations libuv owes a callback, and open channel waits among them. */
  lemma CountersCount(s: Loop)
    requires Reachable(s)
    ensures s.nactive == |Outstanding(s.ops)| && s.nasync == |LiveWaits(s.ops)|
    ensures LiveWaits(s.ops) <= Outstanding(s.ops)
    ensures forall i :: i in Outstanding(s.ops) <==> i in s.ops && s.ops[i].union != Request(false)
    ensures forall i :: i in LiveWaits(s.ops) <==> i in s.ops && s.ops[i].union == Handle(UV_ASYNC, false)
  {
    ReachableInv(s);
  }

  /** `lcu_shallsuspend`. */
  predicate ShallSuspend(s: Loop) {
    s.nasync > 0 && s.nasync == s.nactive
  }

  /** The loop suspends its task exactly when something is awaited and all of it is open channel waits. */
  lemma SuspendsIffOnlyChannels(s: Loop)
    requires Reachable(s)
    ensures ShallSuspend(s) <==>
              && (exists i :: i in s.ops && s.ops[i].union != Request(false))
              && (forall i :: i in s.ops && s.ops[i].union != Request(false) ==> s.ops[i].union == Handle(UV_ASYNC, false))
  {
    CountersCount(s);
    var all, live := Outstanding(s.ops), LiveWaits(s.ops);
    if ShallSuspend(s) {
      assert |all - live| == 0;
      var i :| i in live;
      assert i in all;
      forall i | i in s.ops && Owed(s.ops[i]) != None ensures LiveWait(s.ops[i]) {
        assert i in all;
        assert i !in all - live;
      }
    } else if forall i :: i in s.ops && Owed(s.ops[i]) != None ==> LiveWait(s.ops[i]) {
      assert all == live;
      forall i | i in s.ops ensures Owed(s.ops[i]) == None {
        assert i !in all;
      }
    }
  }

  /** A coroutine is anchored in the registry exactly while THRSAVED is set or its union is a handle; in
      particular while libuv owes it a callback.  Between callbacks no freed operation is anchored. */
  lemma Anchored(s: Loop, i: Id)
    requires Reachable(s) && i in s.ops
    ensures s.ops[i].saved <==> s.ops[i].thrsaved || s.ops[i].union.Handle?
    ensures s.ops[i].union != Request(false) ==> s.ops[i].saved
    ensures s.ops[i].union == Request(false) && (s.ops[i].tail == NoTail || s.ops[i].co != Running) ==> !s.ops[i].saved
  {
    ReachableInv(s);
    assert Inv(s.ops[i]);
  }
}
