/**
 The code of src/loperaux.c for coroutine operations, updating the flags, the union and the counters of
 the scheduler in place.

 Its internal assertions are the `assert` statements below; each is proved from the invariant of the
 operation.  Every entry point is proved to take the step it is named after, and to move `nasync` and
 `nactive` by exactly what the step changes in the operations they count.
 */
module OperationCode {
  import opened Operations
  import opened OperationRuns

  class Scheduler {
    var nasync: int
    var nactive: int
  }

  datatype OpStatus = FreeOp | Same | WaitOp

  class Operation {
    const sched: Scheduler
    var request: bool
    var thrsaved: bool
    var pending: bool
    var cleanup: bool
    var union: Union
    var cancellable: bool
    var saved: bool
    var co: Co          // of the coroutine
    var tail: Tail      // of the loop's C stack
    var wanted: Wanted  // on the coroutine's stack
    ghost var arms: nat
    ghost var closes: nat
    ghost var frees: nat

    ghost function View(): Op
      reads this
    {
      Op(request, thrsaved, pending, cleanup, union, saved, co, tail, wanted, cancellable, arms, closes, frees)
    }

    constructor (s: Scheduler)
      ensures IsNew(View()) && sched == s
    {
      sched := s;
      request, thrsaved, pending, cleanup, union := true, false, false, false, Request(false);
      saved, cancellable := false, false;
      co, tail, wanted, arms, closes, frees := Running, NoTail, ARequest, 0, 0, 0;
    }

    /** The counters moved from `nasync0` and `nactive0` as the operation did from `was`. */
    ghost predicate Counted(was: Op, nasync0: int, nactive0: int)
      reads this, sched
    {
      && sched.nasync == nasync0 + Async(View()) - Async(was)
      && sched.nactive == nactive0 + Active(View()) - Active(was)
    }

    // -------------------------------------------------------------- closing

    method CloseHdl()
      requires union.Handle? && !union.closing
      modifies this`union, this`closes, sched
      ensures View() == CloseHandle(old(View()))
      ensures Counted(old(View()), old(sched.nasync), old(sched.nactive))
      ensures sched.nactive - old(sched.nactive) == (if union != Request(false) then 1 else 0) - old(if union != Request(false) then 1 else 0)
      ensures sched.nasync - old(sched.nasync) == (if union == Handle(UV_ASYNC, false) then 1 else 0)
                                                  - old(if union == Handle(UV_ASYNC, false) then 1 else 0)
    {
      if union.htype == UV_ASYNC {
        sched.nasync := sched.nasync - 1;
      }
      union := union.(closing := true);  // uv_close
      closes := closes + 1;
    }

    method Cancel()
      requires !cleanup && (request <==> union.Request?)
      modifies this`union, this`closes, sched
      ensures View() == CancelOp(old(View()))
      ensures Counted(old(View()), old(sched.nasync), old(sched.nactive))
    {
      assert !cleanup;
      if request {
        // uv_cancel: the callback is still to come
      } else if !union.closing {
        CloseHdl();
      }
    }

    // -------------------------------------------------------------- starting

    method ArmCoReq(err: bool)
      requires union == Request(false) && request && (thrsaved ==> saved)
      modifies this`union, this`thrsaved, this`saved, sched
      ensures View() == if err then old(View()) else ArmRequest(old(View()))
      ensures Counted(old(View()), old(sched.nasync), old(sched.nactive))
      ensures sched.nactive - old(sched.nactive) == (if union != Request(false) then 1 else 0) - old(if union != Request(false) then 1 else 0)
      ensures sched.nasync - old(sched.nasync) == (if union == Handle(UV_ASYNC, false) then 1 else 0)
                                                  - old(if union == Handle(UV_ASYNC, false) then 1 else 0)
    {
      assert request;
      if !err {
        union := Request(true);  // by libuv
        if !thrsaved {
          saved := true;
          thrsaved := true;
        }
        sched.nactive := sched.nactive + 1;
      } else {
        union := Request(false);
      }
    }

    method ArmCoHdl(htype: int, err: bool)
      requires union == Request(false) && request && (thrsaved ==> saved)
      modifies this`union, this`request, this`thrsaved, this`saved, this`arms, sched
      ensures View() == if err then old(View()) else ArmHandle(old(View()), htype)
      ensures Counted(old(View()), old(sched.nasync), old(sched.nactive))
      ensures sched.nactive - old(sched.nactive) == (if union != Request(false) then 1 else 0) - old(if union != Request(false) then 1 else 0)
      ensures sched.nasync - old(sched.nasync) == (if union == Handle(UV_ASYNC, false) then 1 else 0)
                                                  - old(if union == Handle(UV_ASYNC, false) then 1 else 0)
    {
      assert request;
      if !err {
        union, arms := Handle(htype, false), arms + 1;  // by libuv
        if !thrsaved {
          saved := true;
        }
        request, thrsaved := false, false;
        if htype == UV_ASYNC {
          sched.nasync := sched.nasync + 1;
        }
        sched.nactive := sched.nactive + 1;
      } else {
        union := Request(false);
      }
    }

    method StartedOpK(waits: bool)
      requires !pending && !cleanup && (request <==> union.Request?)
      modifies this`pending, this`co, this`union, this`closes, sched
      ensures View() == StartedOp(old(View()), waits)
      ensures Counted(old(View()), old(sched.nasync), old(sched.nactive))
    {
      assert !pending && !cleanup;
      if waits {
        pending := true;
        co := AtEnd;  // lua_yieldk
      } else {
        Cancel();
      }
    }

    /** `startcoreqk` and, with a loop, `startcohdlk`: the setup function, and what it decides. */
    method StartK(w: Wanted, setup: Setup)
      requires union == Request(false) && request && !pending && !cleanup && (thrsaved ==> saved)
      modifies this, sched
      ensures View() == Start(old(View()), w, setup)
      ensures Counted(old(View()), old(sched.nasync), old(sched.nactive))
    {
      if setup.Raises? { return; }
      if setup != Returns(false) {
        match w {
          case ARequest => ArmCoReq(setup.ArmFails?);
          case AHandle(htype) => ArmCoHdl(htype, setup.ArmFails?);
        }
      }
      StartedOpK(setup.Waits?);
    }

    method CheckReset(cancel: bool, kind: int) returns (status: OpStatus)
      requires request <==> union.Request?
      modifies this`cancellable, this`union, this`closes, sched
      ensures status.FreeOp? <==> old(union) == Request(false)
      ensures status.Same? <==> SameOp(old(View()), kind)
      ensures View() == var o1 := old(View()).(cancellable := cancel);
                        if status.WaitOp? && o1.union.Handle? && !o1.cleanup then CancelOp(o1) else o1
      ensures Counted(old(View()), old(sched.nasync), old(sched.nactive))
    {
      cancellable := cancel;
      if request {
        if !union.busy { return FreeOp; }
      } else {
        var nocleanup := !cleanup;
        if nocleanup && !union.closing {
          if kind != 0 && union.htype == kind { return Same; }
          if nocleanup {
            CloseHdl();
          }
        }
      }
      return WaitOp;
    }

    method YieldResetK(w: Wanted)
      requires !pending
      modifies this`pending, this`co, this`wanted
      ensures View() == old(View()).(pending := true, co := AtReset, wanted := w)
    {
      assert !pending;
      pending := true;
      co, wanted := AtReset, w;  // lua_yieldk
    }

    // -------------------------------------------------------------- the tails of the loop's resumes

    /** When a coroutine resumed by the loop has stopped, the loop goes on behind `resumethread`. */
    method AfterResume()
      requires request <==> union.Request?
      requires co != Running && tail == AfterHandle ==> union.Handle?
      modifies this, sched
      ensures View() == Stopped(old(View()))
      ensures Counted(old(View()), old(sched.nasync), old(sched.nactive))
    {
      if co != Running {
        match tail {
          case NoTail =>
          case AfterRequest =>
            if request && !union.busy {
              thrsaved := false;
              saved := false;
            }
          case AfterHandle =>
            if !pending && !cleanup {
              Cancel();
            }
        }
        tail := NoTail;
      }
    }

    // -------------------------------------------------------------- entry points

    method ResetCoReqK(setup: Setup)
      requires Inv(View()) && Enabled(View(), CallRequest(setup))
      modifies this, sched
      ensures View() == Next(old(View()), CallRequest(setup))
      ensures Counted(old(View()), old(sched.nasync), old(sched.nactive))
      ensures sched.nactive - old(sched.nactive) == (if union != Request(false) then 1 else 0) - old(if union != Request(false) then 1 else 0)
      ensures sched.nasync - old(sched.nasync) == (if union == Handle(UV_ASYNC, false) then 1 else 0)
                                                  - old(if union == Handle(UV_ASYNC, false) then 1 else 0)
    {
      var status := CheckReset(false, 0);
      match status {
        case FreeOp => StartK(ARequest, setup);
        case WaitOp => YieldResetK(ARequest);
        case Same => assert false;
      }
      AfterResume();
    }

    /** The call itself, up to where its coroutine stops or goes on. */
    method BeginCoHdl(kind: int, htype: int, cancel: bool, setup: Setup)
      requires Inv(View()) && Enabled(View(), CallHandle(kind, htype, cancel, setup))
      modifies this, sched
      ensures View() == var o1 := old(View()).(cancellable := cancel);
                        if o1.union == Request(false) then Start(o1, AHandle(htype), setup)
                        else if !SameOp(o1, kind) then YieldReset(o1, AHandle(htype))
                        else if setup.Raises? then o1
                        else StartedOp(o1, setup.Waits?)
      ensures Counted(old(View()), old(sched.nasync), old(sched.nactive))
    {
      assert kind != 0;
      var status := CheckReset(cancel, kind);
      match status {
        case FreeOp => StartK(AHandle(htype), setup);
        case Same =>
          if !setup.Raises? {
            StartedOpK(setup.Waits?);
          }
        case WaitOp => YieldResetK(AHandle(htype));
      }
    }

    method ResetCoHdlK(kind: int, htype: int, cancel: bool, setup: Setup)
      requires Inv(View()) && Enabled(View(), CallHandle(kind, htype, cancel, setup))
      modifies this, sched
      ensures View() == Next(old(View()), CallHandle(kind, htype, cancel, setup))
      ensures Counted(old(View()), old(sched.nasync), old(sched.nactive))
      ensures sched.nactive - old(sched.nactive) == (if union != Request(false) then 1 else 0) - old(if union != Request(false) then 1 else 0)
      ensures sched.nasync - old(sched.nasync) == (if union == Handle(UV_ASYNC, false) then 1 else 0)
                                                  - old(if union == Handle(UV_ASYNC, false) then 1 else 0)
    {
      BeginCoHdl(kind, htype, cancel, setup);
      AfterResume();
    }

    /** The coroutine stops outside an await, or for good. */
    method LeaveAwait()
      requires Inv(View()) && Enabled(View(), Leave)
      modifies this, sched
      ensures View() == Next(old(View()), Leave)
      ensures Counted(old(View()), old(sched.nasync), old(sched.nactive))
      ensures sched.nactive - old(sched.nactive) == (if union != Request(false) then 1 else 0) - old(if union != Request(false) then 1 else 0)
      ensures sched.nasync - old(sched.nasync) == (if union == Handle(UV_ASYNC, false) then 1 else 0)
                                                  - old(if union == Handle(UV_ASYNC, false) then 1 else 0)
    {
      co := Elsewhere;
      AfterResume();
    }

    /** `k_endop`, resumed by the loop or (`halted`) by somebody else. */
    method K_EndOp(halted: bool, removed: bool)
      requires Inv(View()) && co == AtEnd
      modifies this, sched
      ensures View() == if halted then Next(old(View()), Resume(removed)) else old(View()).(pending := false, co := Running)
      // canceled after the match: left open, to be cleaned up; any other open handle is closed
      ensures halted && cancellable && !removed ==>
                cleanup && union == old(union) && closes == old(closes) && sched.nasync == old(sched.nasync)
      ensures halted && (!cancellable || removed) ==>
                && !cleanup
                && (old(union).Handle? ==> union == Handle(old(union).htype, true) && closes == old(closes) + 1)
                && (old(union).Request? ==> union == old(union) && closes == old(closes))
      ensures !halted ==> !cleanup && union == old(union) && closes == old(closes)
      ensures Counted(old(View()), old(sched.nasync), old(sched.nactive))
    {
      assert pending && !cleanup;
      pending := false;
      co := Running;
      if halted {
        if !cancellable || removed {
          Cancel();
        } else {
          cleanup := true;
        }
      }
    }

    method ExplicitResume(removed: bool)
      requires Inv(View()) && Enabled(View(), Resume(removed))
      modifies this, sched
      ensures View() == Next(old(View()), Resume(removed))
      ensures old(co) == AtEnd && cancellable && !removed ==>
                cleanup && union == old(union) && closes == old(closes) && sched.nasync == old(sched.nasync)
      ensures old(co) == AtEnd && (!cancellable || removed) && old(union).Handle? ==>
                && !cleanup && union == Handle(old(union).htype, true) && closes == old(closes) + 1
                && sched.nasync == old(sched.nasync) - (if old(union).htype == UV_ASYNC then 1 else 0)
      ensures old(co) != AtEnd ==> union == old(union) && cleanup == old(cleanup) && sched.nasync == old(sched.nasync)
      ensures co == Running && !pending && sched.nactive == old(sched.nactive)
      ensures Counted(old(View()), old(sched.nasync), old(sched.nactive))
      ensures sched.nactive - old(sched.nactive) == (if union != Request(false) then 1 else 0) - old(if union != Request(false) then 1 else 0)
      ensures sched.nasync - old(sched.nasync) == (if union == Handle(UV_ASYNC, false) then 1 else 0)
                                                  - old(if union == Handle(UV_ASYNC, false) then 1 else 0)
    {
      if co == AtEnd {
        K_EndOp(true, removed);
      } else {
        pending := false;  // k_resetopk halted; elsewhere it is not set
        co := Running;
      }
    }

    /** `lcuU_resumecoreq`, with `k_endop` or `k_resetopk` going on in the coroutine. */
    method ResumeCoReq(setup: Setup)
      requires union == Request(false) && request && thrsaved && saved && pending && !cleanup
      requires co == AtEnd || co == AtReset
      modifies this, sched
      ensures View() == ResumeByLoop(old(View()), setup)
      ensures Counted(old(View()), old(sched.nasync), old(sched.nactive))
    {
      assert request && thrsaved && pending;
      assert !union.busy;
      tail := AfterRequest;
      var restarts := co == AtReset;
      pending := false;
      co := Running;
      if restarts {
        assert request && union == Request(false);  // of k_resetopk
        StartK(wanted, setup);
        AfterResume();
      }
    }

    /** `uv_<request>_cb`: `lcuU_endcoreq`, then the coroutine if it still waits. */
    method OnRequest(setup: Setup)
      requires Inv(View()) && Enabled(View(), RequestDone(setup)) && tail == NoTail
      modifies this, sched
      ensures View() == Next(old(View()), RequestDone(setup))
      ensures Counted(old(View()), old(sched.nasync), old(sched.nactive))
      ensures sched.nactive - old(sched.nactive) == (if union != Request(false) then 1 else 0) - old(if union != Request(false) then 1 else 0)
      ensures sched.nasync - old(sched.nasync) == (if union == Handle(UV_ASYNC, false) then 1 else 0)
                                                  - old(if union == Handle(UV_ASYNC, false) then 1 else 0)
    {
      sched.nactive := sched.nactive - 1;
      assert request && thrsaved;
      union := Request(false);
      if pending {
        ResumeCoReq(setup);
      } else {
        thrsaved, cleanup := false, false;
        saved := false;
      }
    }

    /** `lcuU_endcohdl`: whether the coroutine still waits for the handle. */
    method EndCoHdl() returns (waits: bool)
      requires union.Handle? && !union.closing && !request
      modifies this`cleanup, this`union, this`closes, sched
      ensures waits <==> old(pending && !cleanup)
      ensures View() == if waits then old(View()) else CancelOp(old(View()).(cleanup := false))
      ensures Counted(old(View()), old(sched.nasync), old(sched.nactive))
    {
      assert !request;
      if pending && !cleanup { return true; }
      cleanup := false;
      Cancel();
      return false;
    }

    /** `lcuU_resumecohdl`. */
    method ResumeCoHdl()
      requires Inv(View()) && RowOf(View()) == AwaitingHandle && tail == NoTail
      modifies this, sched
      ensures View() == old(View()).(pending := false, co := Running, tail := AfterHandle)
      ensures Counted(old(View()), old(sched.nasync), old(sched.nactive))
    {
      assert !request && pending;
      K_EndOp(false, false);
      tail := AfterHandle;
    }

    /** `uv_<handle>_cb`: only that of a channel wait asks whether somebody still waits. */
    method OnHandle()
      requires Inv(View()) && Enabled(View(), HandleFired) && tail == NoTail
      modifies this, sched
      ensures View() == Next(old(View()), HandleFired)
      ensures Counted(old(View()), old(sched.nasync), old(sched.nactive))
      ensures sched.nactive - old(sched.nactive) == (if union != Request(false) then 1 else 0) - old(if union != Request(false) then 1 else 0)
      ensures sched.nasync - old(sched.nasync) == (if union == Handle(UV_ASYNC, false) then 1 else 0)
                                                  - old(if union == Handle(UV_ASYNC, false) then 1 else 0)
    {
      var waits := true;
      if union.htype == UV_ASYNC {
        waits := EndCoHdl();
      }
      if waits {
        ResumeCoHdl();
      }
    }

    /** `closedhdl`. */
    method OnClosed(setup: Setup)
      requires Inv(View()) && Enabled(View(), HandleClosed(setup)) && tail == NoTail
      modifies this, sched
      ensures View() == Next(old(View()), HandleClosed(setup))
      ensures Counted(old(View()), old(sched.nasync), old(sched.nactive))
      ensures sched.nactive - old(sched.nactive) == (if union != Request(false) then 1 else 0) - old(if union != Request(false) then 1 else 0)
      ensures sched.nasync - old(sched.nasync) == (if union == Handle(UV_ASYNC, false) then 1 else 0)
                                                  - old(if union == Handle(UV_ASYNC, false) then 1 else 0)
    {
      assert !request && !thrsaved;
      sched.nactive := sched.nactive - 1;
      request, thrsaved := true, true;
      union, frees := Request(false), frees + 1;
      assert View() == Freed(old(View()));
      if !pending {
        thrsaved := false;
        saved := false;
      } else {
        ResumeCoReq(setup);
      }
    }

    /** `lcu_shallsuspend`. */
    predicate ShallSuspendNow()
      reads sched
      ensures forall s: Loop :: s.nasync == sched.nasync && s.nactive == sched.nactive ==>
                (ShallSuspendNow() <==> ShallSuspend(s))
    {
      sched.nasync > 0 && sched.nasync == sched.nactive
    }
  }
}
