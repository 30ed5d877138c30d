/**
 What the steps of an operation do, each on its fields before and after, and what becomes of a channel wait
 canceled after its match.
 */
module OperationSteps {
  import opened Operations
  import opened OperationRuns

  // ---------------------------------------------------------------- one operation

  /** An explicit resume ends the wait.  A channel wait that `cancel` could not remove is left open, to be
      cleaned up by its callback; any other open handle is closed at once, and a request is left alone. */
  lemma ResumeMeans(o: Op, removed: bool)
    requires Inv(o) && Enabled(o, Resume(removed))
    ensures var o', late := Next(o, Resume(removed)), o.co == AtEnd && o.cancellable && !removed;
            && o'.co == Running && !o'.pending && o'.tail == o.tail && o'.frees == o.frees && o'.arms == o.arms
            && o'.saved == o.saved && o'.thrsaved == o.thrsaved && o'.request == o.request
            && (late ==> && o.union == Handle(UV_ASYNC, false) && o'.cleanup
                         && o'.union == o.union && o'.closes == o.closes)
            && (!late ==> o'.cleanup == o.cleanup)
            && (!late && o.co == AtEnd && o.union.Handle? ==>
                  && !o.union.closing && !o'.cleanup
                  && o'.union == Handle(o.union.htype, true) && o'.closes == o.closes + 1)
            && (o.co != AtEnd || o.union.Request? ==> o'.union == o.union && o'.closes == o.closes)
  {
  }

  /** An await on a free union starts what was called: it is armed and awaited, or armed and canceled at
      once, or not armed at all. */
  lemma CallOnFreeMeans(o: Op, e: Event)
    requires Inv(o) && Enabled(o, e) && (e.CallRequest? || e.CallHandle?) && o.union == Request(false)
    ensures var o' := Next(o, e);
            && o'.cancellable == (e.CallHandle? && e.cancel) && !o'.cleanup && o'.frees == o.frees
            && (e.setup == Waits ==>
                  && o'.pending && o'.co == AtEnd && o'.tail == NoTail && o'.saved
                  && o'.union == (if e.CallRequest? then Request(true) else Handle(e.htype, false)))
            && (e.setup != Waits ==> !o'.pending && o'.co == Running && o'.tail == o.tail)
            && (e.setup == Returns(true) ==>
                  o'.saved && o'.union == (if e.CallRequest? then Request(true) else Handle(e.htype, true)))
            && (e.setup != Waits && e.setup != Returns(true) ==> o'.union == Request(false) && o'.saved == o.saved)
            && o'.arms == o.arms + (if o'.union.Handle? then 1 else 0)
            && o'.closes == o.closes + (if o'.union.Handle? && o'.union.closing then 1 else 0)
  {
  }

  /** An await of the kind of the open handle goes on with it. */
  lemma CallOnSameMeans(o: Op, e: Event)
    requires Inv(o) && Enabled(o, e) && e.CallHandle? && o.union == Handle(e.kind, false) && !o.cleanup
    ensures var o' := Next(o, e);
            && o'.arms == o.arms && o'.frees == o.frees && !o'.cleanup && o'.cancellable == e.cancel && o'.saved
            && (e.setup == Waits ==>
                  o'.pending && o'.co == AtEnd && o'.union == o.union && o'.closes == o.closes && o'.tail == NoTail)
            && (e.setup == Returns(false) ==>
                  !o'.pending && o'.co == Running && o'.union == Handle(e.kind, true) && o'.closes == o.closes + 1)
            && (e.setup == Raises ==> o' == o.(cancellable := e.cancel))
  {
  }

  /** An await on a union in use for anything else waits for it to be free: an open handle is closed,
      unless it is to be cleaned up by its own callback. */
  lemma CallInUseMeans(o: Op, e: Event)
    requires Inv(o) && Enabled(o, e) && (e.CallRequest? || e.CallHandle?) && o.union != Request(false)
    requires o.cleanup || e.CallRequest? || o.union != Handle(e.kind, false)
    ensures var o', closes := Next(o, e), o.union.Handle? && !o.union.closing && !o.cleanup;
            && o'.pending && o'.co == AtReset && o'.tail == NoTail && o'.saved
            && o'.wanted == (if e.CallRequest? then ARequest else AHandle(e.htype))
            && o'.cancellable == (e.CallHandle? && e.cancel)
            && o'.cleanup == o.cleanup && o'.arms == o.arms && o'.frees == o.frees
            && o'.union == (if closes then Handle(o.union.htype, true) else o.union)
            && o'.closes == (if closes then o.closes + 1 else o.closes)
  {
  }

  /** A coroutine that stops outside an await leaves no open handle behind that is not to be cleaned up, and
      no anchor on a free union. */
  lemma LeaveMeans(o: Op)
    requires Inv(o) && Enabled(o, Leave)
    ensures var o', closes := Next(o, Leave), o.union.Handle? && !o.union.closing && !o.cleanup;
            && o'.co == Elsewhere && !o'.pending && o'.tail == NoTail && o'.cleanup == o.cleanup
            && o'.union == (if closes then Handle(o.union.htype, true) else o.union)
            && o'.closes == (if closes then o.closes + 1 else o.closes)
            && o'.saved == (o.union != Request(false)) && o'.arms == o.arms && o'.frees == o.frees
  {
  }

  /** The callback that frees the union, of a request or of a closed handle, returns the results to a
      coroutine that awaits them, and resumes none that does not wait. */
  lemma FreedMeans(o: Op, e: Event)
    requires Inv(o) && Enabled(o, e) && (e.RequestDone? || e.HandleClosed?) && o.tail == NoTail && o.co != AtReset
    ensures var o' := Next(o, e);
            && o'.union == Request(false) && o'.request && !o'.cleanup && !o'.pending
            && o'.frees == o.frees + (if e.HandleClosed? then 1 else 0) && o'.arms == o.arms && o'.closes == o.closes
            && (o.co == AtEnd ==> o'.co == Running && o'.tail == AfterRequest && o'.saved)
            && (o.co != AtEnd ==> o'.co == o.co && o'.tail == NoTail && !o'.saved)
  {
  }

  /** And it starts what a coroutine waits to start: an await of the kind wanted, on the free union. */
  lemma RestartMeans(o: Op, e: Event)
    requires Inv(o) && Enabled(o, e) && (e.RequestDone? || e.HandleClosed?) && o.tail == NoTail && o.co == AtReset
    ensures var o' := Next(o, e);
            && !o'.cleanup && o'.frees == o.frees + (if e.HandleClosed? then 1 else 0) && o'.cancellable == o.cancellable
            && (e.setup == Waits ==>
                  && o'.pending && o'.co == AtEnd && o'.tail == NoTail && o'.saved
                  && o'.union == (if o.wanted.ARequest? then Request(true) else Handle(o.wanted.htype, false)))
            && (e.setup != Waits ==> !o'.pending && o'.co == Running && o'.tail == AfterRequest)
            && (e.setup == Returns(true) ==>
                  o'.union == (if o.wanted.ARequest? then Request(true) else Handle(o.wanted.htype, true)))
            && (e.setup != Waits && e.setup != Returns(true) ==> o'.union == Request(false))
  {
    assert Next(o, e) == ResumeByLoop(Freed(o), e.setup);
    StartedMeans(Freed(o).(pending := false, co := Running, tail := AfterRequest), o.wanted, e.setup);
  }

  lemma StartedMeans(o: Op, w: Wanted, setup: Setup)
    requires o.union == Request(false) && o.request && o.thrsaved && o.saved && !o.pending && !o.cleanup
    requires o.co == Running && o.tail == AfterRequest
    ensures var o' := Stopped(Start(o, w, setup));
            && !o'.cleanup && o'.frees == o.frees && o'.cancellable == o.cancellable
            && (setup == Waits ==>
                  && o'.pending && o'.co == AtEnd && o'.tail == NoTail && o'.saved
                  && o'.union == (if w.ARequest? then Request(true) else Handle(w.htype, false)))
            && (setup != Waits ==> !o'.pending && o'.co == Running && o'.tail == AfterRequest)
            && (setup == Returns(true) ==> o'.union == (if w.ARequest? then Request(true) else Handle(w.htype, true)))
            && (setup != Waits && setup != Returns(true) ==> o'.union == Request(false))
  {
  }

  /** The callback of an open handle resumes the coroutine that awaits it.  Otherwise it is that of a channel
      wait given up, and closes the handle. */
  lemma FiredMeans(o: Op)
    requires Inv(o) && Enabled(o, HandleFired) && o.tail == NoTail
    ensures var o', awaited := Next(o, HandleFired), o.pending && !o.cleanup;
            && o'.arms == o.arms && o'.frees == o.frees && !o'.cleanup && o'.saved
            && (awaited ==>
                  && o'.co == Running && !o'.pending && o'.tail == AfterHandle
                  && o'.union == o.union && o'.closes == o.closes)
            && (!awaited ==>
                  && o.union == Handle(UV_ASYNC, false) && o'.co == o.co && o'.pending == o.pending && o'.tail == NoTail
                  && o'.union == Handle(UV_ASYNC, true) && o'.closes == o.closes + 1)
  {
  }

  /** Which steps are possible. */
  lemma Possible(o: Op, e: Event)
    requires Inv(o)
    ensures e.CallRequest? || e.Leave? ==> (Enabled(o, e) <==> o.co == Running)
    ensures e.CallHandle? && e.kind != 0 && e.kind == e.htype && (e.cancel ==> e.kind == UV_ASYNC) ==>
              (Enabled(o, e) <==> && o.co == Running
                                  && (o.union == Handle(e.kind, false) && !o.cleanup ==> e.setup in {Raises, Returns(false), Waits}))
    ensures e.Resume? ==> (Enabled(o, e) <==> o.co != Running)
    ensures e.RequestDone? ==> (Enabled(o, e) <==> o.union == Request(true))
    ensures e.HandleFired? ==> (Enabled(o, e) <==> o.union.Handle? && !o.union.closing)
    ensures e.HandleClosed? ==> (Enabled(o, e) <==> o.union.Handle? && o.union.closing)
  {
  }

  // ---------------------------------------------------------------- all operations

  /** Runs go on by every step possible for an operation; callbacks need an idle loop. */
  lemma ReachableOn(s: Loop, t: Step)
    requires Reachable(s) && CanStep(s, t)
    ensures Reachable(After(s, t))
  {
    var s0, ts :| Created(s0) && Run(s0, ts, s);
    RunOn(s0, ts, s, t);
  }

  lemma {:induction false} RunOn(s: Loop, ts: seq<Step>, s': Loop, t: Step)
    requires Run(s, ts, s') && CanStep(s', t)
    ensures Run(s, [], s) && Run(s, ts + [t], After(s', t))
    decreases |ts|
  {
    if ts == [] {
      assert Run(After(s, t), [], After(s, t));
    } else {
      RunOn(After(s, ts[0]), ts[1..], s', t);
      assert (ts + [t])[1..] == ts[1..] + [t];
    }
  }

  lemma StepsOfLoop(s: Loop, id: Id, e: Event, o: Op)
    ensures Created(Loop(map[], 0, 0)) && Reachable(Loop(map[], 0, 0))
    ensures id !in s.ops && IsNew(o) ==> CanStep(s, Begin(id, o)) && After(s, Begin(id, o)).ops == s.ops[id := o]
    ensures id in s.ops && Enabled(s.ops[id], e) ==>
              && (CanStep(s, Do(id, e)) <==>
                    (e.RequestDone? || e.HandleFired? || e.HandleClosed? ==> forall i :: i in s.ops ==> s.ops[i].tail == NoTail))
              && (CanStep(s, Do(id, e)) ==> After(s, Do(id, e)).ops == s.ops[id := Next(s.ops[id], e)])
  {
    assert Run(Loop(map[], 0, 0), [], Loop(map[], 0, 0));
  }

  /** The table by its columns: in every run the flags, the continuation and the union go together so. */
  lemma Table(s: Loop, i: Id)
    requires Reachable(s) && i in s.ops
    ensures var o := s.ops[i];
            && (o.pending <==> o.co == AtEnd || o.co == AtReset)
            && (o.union == Request(false) ==>
                  o.request && !o.pending && !o.cleanup && (o.thrsaved ==> o.co == Running && o.tail == AfterRequest))
            && (o.union == Request(true) ==> o.request && o.thrsaved && !o.cleanup)
            && (o.union.Handle? ==> !o.request && !o.thrsaved)
            && (o.union.Handle? && o.union.closing ==> !o.cleanup && o.co != AtEnd)
            && (o.union.Handle? && !o.union.closing && o.cleanup ==> o.union.htype == UV_ASYNC && o.co != AtEnd)
            && (o.union.Handle? && !o.union.closing && !o.cleanup ==>
                  o.co == AtEnd || (o.co == Running && o.tail == AfterHandle))
  {
    ReachableInv(s);
    assert Inv(s.ops[i]);
  }

  /** A handle to be cleaned up stays open through everything but its own callback. */
  lemma CleanUpStays(o: Op, e: Event)
    requires Inv(o) && Enabled(o, e) && o.union.Handle? && !o.union.closing && o.cleanup && !e.HandleFired?
    ensures Next(o, e).union == o.union && Next(o, e).cleanup && Next(o, e).closes == o.closes
  {
  }

  lemma {:induction false} StaysOpen(s: Loop, ts: seq<Step>, s': Loop, i: Id)
    requires LoopInv(s) && Run(s, ts, s') && Do(i, HandleFired) !in ts
    requires i in s.ops && s.ops[i].union.Handle? && !s.ops[i].union.closing && s.ops[i].cleanup
    ensures i in s'.ops && s'.ops[i].union == s.ops[i].union && s'.ops[i].cleanup && s'.ops[i].closes == s.ops[i].closes
    decreases |ts|
  {
    if ts != [] {
      var t := ts[0];
      assert t in ts;
      if t.Do? && t.id == i {
        CleanUpStays(s.ops[i], t.e);
      }
      StepKeepsLoop(s, t);
      StaysOpen(After(s, t), ts[1..], s', i);
    }
  }

  /** A channel wait canceled after its match keeps its handle open until its own callback, whatever else
      happens; and that callback closes it. */
  lemma LateCancelStaysOpen(s: Loop, ts: seq<Step>, s': Loop, i: Id)
    requires Reachable(s) && i in s.ops && s.ops[i].co == AtEnd && s.ops[i].cancellable
    requires CanStep(s, Do(i, Resume(false))) && Run(After(s, Do(i, Resume(false))), ts, s')
    requires Do(i, HandleFired) !in ts
    ensures i in s'.ops && s'.ops[i].union == Handle(UV_ASYNC, false) && s'.ops[i].closes == s.ops[i].closes
    ensures Enabled(s'.ops[i], HandleFired)
    ensures s'.ops[i].tail == NoTail ==>
              && Next(s'.ops[i], HandleFired).union == Handle(UV_ASYNC, true)
              && Next(s'.ops[i], HandleFired).closes == s.ops[i].closes + 1
  {
    ReachableInv(s);
    var s1 := After(s, Do(i, Resume(false)));
    ResumeMeans(s.ops[i], false);
    StepKeepsLoop(s, Do(i, Resume(false)));
    StaysOpen(s1, ts, s', i);
    RunKeeps(s1, ts, s');
    if s'.ops[i].tail == NoTail {
      FiredMeans(s'.ops[i]);
    }
  }
}
