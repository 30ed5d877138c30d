/**
 The code of waiting on a channel, on the stacks themselves: `armsynced`, `cancelsynced`, `returnsynced`,
 `uv_onsynced` and `restorechannel` of src/lchannem.c, and the critical sections on a `ChannelTask` of
 src/lchaux.c.

 A channel keeps a Lua state of its own.  Its stack is empty while the channel is free, holds the
 arguments of the call while the state waits, and what was received once a matcher is done.
 */
module ChannelCode {

  import opened ChannelWaits
  import opened SwapValues

  // ---------------------------------------------------------------- stacks of the callers

  /** What of a call's `narg` arguments is transferred: all but the channel and the endpoint. */
  function Transferable(vals: seq<Value>, narg: nat): seq<Value>
    requires narg <= |vals|
  {
    vals[|vals| - (if narg > 2 then narg - 2 else 0)..]
  }

  /** Both callers pass a stack the exchange can work on: `channel:sync` and `awaitch`, with base 1 and all
      arguments counted, and a worker, with what its task yielded above the base. */
  lemma CallerIsParty(vals: seq<Value>, base: nat, narg: nat)
    requires base <= |vals| && narg <= |vals| && base + narg <= |vals| + 1
    ensures Party(vals, base, Transferable(vals, narg))
    ensures Transferable(vals, narg) == if narg > 2 then vals[|vals| - narg..][2..] else []
  {
  }

  /** `lua_tointeger`; the texts here are messages, not numerals. */
  function ToInteger(v: Value): int {
    if v.Int? then v.i else 0
  }

  /** What `channelsync` asserts of its stack: the top counts the values between it and the channel. */
  predicate Checked(vals: seq<Value>) {
    vals != [] && ToInteger(vals[|vals| - 1]) == |vals| - 2
  }

  /** A call of `channel:sync` or `awaitch` that meets a waiter returns `true` and what the waiter brought;
      the waiter is left with what the caller brought. */
  method CallMatched(caller: LuaStack, waiter: LuaStack, ghost wbase: nat, ghost wvals: seq<Value>,
                     ghost b: seq<Value>, credit: nat, msg: Value)
    requires caller != waiter && caller.vals != []
    requires Party(wvals, wbase, b) && waiter.vals == wvals + [Int(wbase), Int(|b|)]
    modifies caller, waiter
    ensures var a := if |old(caller.vals)| > 2 then old(caller.vals)[2..] else [];
            var fewer := if |a| < |b| then |a| else |b|;
            credit > 2 * fewer ==>
              && caller.vals == [old(caller.vals)[0]] + [Bool(true)] + b
              && waiter.vals == wvals[..wbase] + [Bool(true)] + a + [Int(|a| + 1)]
  {
    ghost var vals := caller.vals;
    ghost var a := if |vals| > 2 then vals[2..] else [];
    var top := caller.Top();
    CallerIsParty(vals, 1, top);
    Swap(caller, 1, if top > 2 then top - 2 else 0, waiter, a, wbase, wvals, b, credit, msg);
    assert vals[..1] == [vals[0]];
    assert caller.vals != [] && Checked(caller.vals);
    caller.SetTop(caller.Top() - 1);
  }

  // ---------------------------------------------------------------- the channel

  /** Why `armsynced` could not arm, if it could not. */
  datatype Trouble = Fine | NoRoom | NoCopy(msg: string) | NoHandle(text: string, code: int)

  /** What `armsynced` leaves above the channel for the caller. */
  function Told(t: Trouble): seq<Value> {
    match t
    case Fine => []
    case NoRoom => [Bool(false), Text("insufficient memory")]
    case NoCopy(m) => [Bool(false), Text(m)]
    case NoHandle(text, code) => [Bool(false), Text(text), Int(-code)]
  }

  /** After a failure to arm, the assertion of `channelsync` does not hold, but by accident for one error
      code: no count was pushed, as `cancelsuspension` does. */
  lemma FailureChecked(channel: Value, t: Trouble)
    requires !t.Fine?
    ensures Checked([channel] + Told(t)) <==> t.NoHandle? && t.code == -2
  {
    var vals := [channel] + Told(t);
    assert vals[|vals| - 1] == Told(t)[|Told(t)| - 1];
  }

  /** What `cancelsuspension` leaves does satisfy it. */
  lemma EmptyChecked(channel: Value)
    ensures Checked([channel] + [Bool(false), Text("empty"), Int(2)])
  {
  }

  /** The stack of a waiting channel: a slot for the first result if there are arguments, base and count. */
  function Armed(args: seq<Value>): seq<Value> {
    (if args == [] then [] else [Nil]) + args + [Int(0), Int(|args|)]
  }

  /** Leaves the channel and what there is to tell the caller. */
  method Explain(caller: LuaStack, t: Trouble)
    requires caller.vals != []
    modifies caller
    ensures caller.vals == [old(caller.vals)[0]] + Told(t)
  {
    caller.SetTop(1);
    match t
    case Fine =>
    case NoRoom =>
      caller.Push(Bool(false));
      caller.Push(Text("insufficient memory"));
    case NoCopy(m) =>
      caller.Push(Bool(false));
      caller.Push(Text(m));
    case NoHandle(text, code) =>
      caller.Push(Bool(false));
      caller.Push(Text(text));
      caller.Push(Int(-code));
  }

  class LuaChannel {
    const L: LuaStack
    var handle: bool  // channel->handle != NULL
    var synced: bool  // LCU_CHANNELSYNCREGKEY is set
    var late: bool    // the coroutine was resumed explicitly after the match
    ghost var place: Place
    ghost var args: seq<Value>  // brought by the wait under way
    ghost var got: seq<Value>   // what it is to return

    ghost predicate Valid()
      reads this, L
    {
      && (handle <==> place != Free) && (synced <==> handle)
      && (late ==> place == InHands || place == Sent)
      && (place == Free ==> L.vals == [])
      && (place == Queued || place == InHands ==> L.vals == Armed(args))
      && (place == Sent ==> L.vals == got + [Int(|got|)])
    }

    /** This channel is channel `c` of the state machine. */
    ghost predicate Shows(s: State, c: Chan)
      reads this
    {
      c in s.chans && s.chans[c].place == place && s.chans[c].handle == handle && s.chans[c].late == late
    }

    constructor ()
      ensures Valid() && place == Free && fresh(L)
    {
      L := new LuaStack();
      handle, synced, late, place, args, got := false, false, false, Free, [], [];
    }

    /** `restorechannel`. */
    method Restore()
      modifies this, L
      ensures L.vals == [] && !synced && !handle && place == Free && !late
    {
      L.SetTop(0);
      synced := false;
      handle := false;
      late := false;
      place := Free;
    }

    /** `armsynced`, for a caller's stack of channel, endpoint and arguments. */
    method ArmSynced(caller: LuaStack, trouble: Trouble, ghost s: State, ghost c: Chan) returns (armed: bool)
      requires Valid() && caller != L && caller.vals != []
      requires Shows(s, c) && Enabled(s, Arm(c))
      requires trouble.NoCopy? ==> |caller.vals| > 2
      modifies this, L, caller
      ensures Valid() && (armed <==> trouble.Fine?)
      ensures armed ==> Shows(Next(s, Arm(c)), c) && place == Queued && handle && synced && !late
      ensures var brought := if |old(caller.vals)| > 2 then old(caller.vals)[2..] else [];
              armed ==>
                && args == brought
                && L.vals == (if brought == [] then [] else [Nil] + brought) + [Int(0), Int(|brought|)]
      ensures !armed ==> Shows(s, c) && place == Free && !handle && !synced && L.vals == []
      ensures !armed ==>
                caller.vals == [old(caller.vals)[0], Bool(false)]
                  + (match trouble
                     case NoRoom => [Text("insufficient memory")]
                     case NoCopy(m) => [Text(m)]
                     case NoHandle(text, code) => [Text(text), Int(-code)]
                     case Fine => [])
    {
      armed := false;
      var top := caller.Top();
      var narg := if top > 2 then top - 2 else 0;
      ghost var brought := Transferable(caller.vals, top);
      if trouble.NoRoom? {
        Explain(caller, trouble);
        return;
      }
      var ok := Bring(caller, narg, trouble);
      if !ok {
        Explain(caller, trouble);
        L.SetTop(0);
        return;
      }
      if trouble.NoHandle? {
        Explain(caller, trouble);
        L.SetTop(0);
        return;
      }
      synced := true;
      L.Push(Int(0));
      L.Push(Int(narg));
      handle := true;
      place, args := Queued, brought;
      assert L.vals == Armed(args);
      armed := true;
    }

    /** Moves the arguments to the channel's stack, above a slot for the first value to be received. */
    method Bring(caller: LuaStack, narg: nat, trouble: Trouble) returns (ok: bool)
      requires caller != L && L.vals == [] && narg < |caller.vals|
      requires trouble.NoCopy? ==> narg > 0
      modifies L, caller
      ensures ok <==> !trouble.NoCopy?
      ensures caller.vals != [] && caller.vals[0] == old(caller.vals)[0]
      ensures var brought := old(caller.vals)[|old(caller.vals)| - narg..];
              ok ==> L.vals == (if brought == [] then [] else [Nil]) + brought
    {
      ok := true;
      if narg > 0 {
        L.SetTop(1);
        assert L.vals == [Nil];
        ok := MoveFrom(L, caller, narg, if trouble.NoCopy? then 0 else 1, if trouble.NoCopy? then Text(trouble.msg) else Nil);
      }
    }

    /** The critical section of `cancelsynced`, and what follows: `waiting` is whether the queue has the state. */
    method CancelSynced(waiting: bool, ghost s: State, ghost c: Chan) returns (removed: bool)
      requires Valid() && Shows(s, c) && Enabled(s, Cancel(c)) && (waiting <==> place == Queued)
      modifies this, L
      ensures Valid() && (removed <==> waiting) && Shows(Next(s, Cancel(c)), c)
      ensures removed ==> place == Free && !handle && !synced && !late && L.vals == []
      ensures !removed ==> late && place == old(place) && handle && synced && L.vals == old(L.vals)
    {
      removed := waiting;
      if removed {
        Restore();
      } else {
        late := true;
      }
    }

    /** `lcuCS_dequeuestateq` by a matcher. */
    ghost method Dequeued(s: State, c: Chan)
      requires Valid() && Shows(s, c) && Enabled(s, Take(c))
      modifies this
      ensures Valid() && Shows(Next(s, Take(c)), c) && args == old(args)
      ensures place == InHands && late == old(late) && handle
    {
      place := InHands;
    }

    /** The matcher's exchange, on behalf of a newcomer bringing `a`, and the wake-up it sends. */
    method Matched(newcomer: LuaStack, base: nat, narg: nat, ghost a: seq<Value>, credit: nat, msg: Value,
                   ghost s: State, ghost c: Chan)
      requires Valid() && Shows(s, c) && Enabled(s, Give(c)) && newcomer != L
      requires Party(newcomer.vals, base, a) && |a| == narg
      modifies this, L, newcomer
      ensures Valid() && Shows(Next(s, Give(c)), c)
      ensures place == Sent && late == old(late) && handle && L.vals == got + [Int(|got|)]
      ensures var fewer := if |a| < |old(args)| then |a| else |old(args)|;
              credit > 2 * fewer ==>
                && got == [Bool(true)] + a
                && newcomer.vals == old(newcomer.vals)[..base] + [Bool(true)] + old(args) + [Int(|old(args)| + 1)]
    {
      ghost var wvals := (if args == [] then [] else [Nil]) + args;
      assert Party(wvals, 0, args) by {
        assert wvals[|wvals| - |args|..] == args;
      }
      assert L.vals == wvals + [Int(0), Int(|args|)];
      Swap(newcomer, base, narg, L, a, 0, wvals, args, credit, msg);
      assert wvals[..0] == [];
      got := L.vals[..|L.vals| - 1];
      assert L.vals == got + [Int(|got|)];
      place := Sent;
    }

    /** `returnsynced`: the values received go to the coroutine that waited. */
    method ReturnSynced(coroutine: LuaStack, ghost s: State, ghost c: Chan)
      requires Valid() && place == Sent && !late && coroutine != L
      requires Shows(s, c) && Enabled(s, Callback(c))
      modifies this, L, coroutine
      ensures Valid() && coroutine.vals == old(coroutine.vals) + old(got)
      ensures Shows(Next(s, Callback(c)), c)
      ensures place == Free && !handle && !synced && L.vals == []
    {
      assert ToInteger(L.vals[L.Top() - 1]) == L.Top() - 1;
      L.SetTop(L.Top() - 1);
      assert L.vals == got && got[0..] == got;
      var moved := MoveFrom(coroutine, L, L.Top(), 1, Nil);
      assert moved;
      Restore();
    }

    /** `uv_onsynced`: the callback of the wake-up. */
    method OnSynced(task: ChannelTask?, coroutine: LuaStack, ghost s: State, ghost c: Chan)
      requires Valid() && coroutine != L && Shows(s, c) && Enabled(s, Callback(c))
      requires (task != null <==> s.task) && (task != null ==> task.Shows(s))
      modifies this, L, coroutine, task
      ensures Valid() && Shows(Next(s, Callback(c)), c)
      ensures task != null ==> task.Shows(Next(s, Callback(c)))
      ensures task != null ==> task.wakes == old(task.wakes) - 1 && task.L == old(task.L)
      ensures place == Free && !handle && !synced && !late && L.vals == []
      ensures coroutine.vals == if old(late) then old(coroutine.vals) else old(coroutine.vals) + old(got)
    {
      if task != null {
        task.wakes := task.wakes - 1;
      }
      if late {
        Restore();
      } else {
        ReturnSynced(coroutine, s, c);
      }
    }
  }

  /** Shared by the owner, its worker and all matchers, and changed only under its mutex. */
  class ChannelTask {
    var wakes: int
    var L: bool  // L != NULL

    ghost predicate Shows(s: State)
      reads this
    {
      s.wakes == wakes && s.parked == L
    }

    constructor ()
      ensures wakes == 0 && !L
    {
      wakes, L := 0, false;
    }

    /** The critical section of `getsuspendedtask`; returns whether the matcher now has a task to resume. */
    method GetSuspendedTask(ghost s: State) returns (suspended: bool)
      requires Shows(s) && Enabled(s, Count)
      modifies this
      ensures Shows(Next(s, Count))
      ensures suspended <==> Next(s, Count).unparks == s.unparks + 1
      ensures suspended == old(L) && !L && wakes == old(wakes) + 1
    {
      suspended := L;
      L := false;
      wakes := wakes + 1;
    }

    /** `lcuCS_suspendedchtask`; returns whether the worker is to leave the task. */
    method SuspendedChTask(ghost s: State) returns (suspended: bool)
      requires Shows(s) && Enabled(s, Decide) && !L
      modifies this
      ensures Shows(Next(s, Decide))
      ensures suspended <==> Next(s, Decide).loop == Parked
      ensures wakes == old(wakes) && suspended == (wakes == 0) && L == suspended
    {
      suspended := false;
      if wakes == 0 {
        L := true;
        suspended := true;
      }
    }
  }
}
