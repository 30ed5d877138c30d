/**
 The exchange of arguments between two matched states: `swapvalues` of src/lchaux.c, done in place
 on the two Lua stacks.

 The newcomer's stack is base values, the channel and endpoint arguments (as many of the two as were
 given), then its transferable arguments.  The waiter's stack is the same, then its base and its
 argument count.  Afterwards each side must hold its base values, `true`, the other side's
 arguments, and the number of values that follow the base.
 */
module SwapValues {

  datatype Value = Nil | Bool(b: bool) | Int(i: int) | Text(s: string) | Other(tag: int)

  /** The part of a Lua stack's interface the exchange uses; indices count from 1, as in Lua. */
  class LuaStack {
    var vals: seq<Value>

    constructor ()
      ensures vals == []
    {
      vals := [];
    }

    function Top(): nat
      reads this
    {
      |vals|
    }

    method Push(v: Value)
      modifies this
      ensures vals == old(vals) + [v]
    {
      vals := vals + [v];
    }

    method SetTop(n: nat)
      modifies this
      ensures vals == Resized(old(vals), n)
    {
      vals := Resized(vals, n);
    }

    /** Moves the top value to position `idx`. */
    method Replace(idx: nat)
      requires 1 <= idx < |vals|
      modifies this
      ensures vals == old(vals)[..|old(vals)| - 1][idx - 1 := old(vals)[|old(vals)| - 1]]
    {
      vals := vals[idx - 1 := vals[|vals| - 1]];
      vals := vals[..|vals| - 1];
    }

    /** Shifts the top value down to position `idx`. */
    method Insert(idx: nat)
      requires 1 <= idx <= |vals|
      modifies this
      ensures vals == old(vals)[..idx - 1] + [old(vals)[|old(vals)| - 1]] + old(vals)[idx - 1..|old(vals)| - 1]
    {
      vals := vals[..idx - 1] + [vals[|vals| - 1]] + vals[idx - 1..|vals| - 1];
    }
  }

  /** `lua_settop`: cut, or pad with nil. */
  function Resized(s: seq<Value>, n: nat): (r: seq<Value>)
    ensures |r| == n
  {
    if n <= |s| then s[..n] else s + seq(n - |s|, _ => Nil)
  }

  /** The stack of a party: what is left of its call, and its arguments. */
  ghost predicate Party(vals: seq<Value>, base: nat, args: seq<Value>) {
    && base + |args| <= |vals|
    && (args != [] ==> base + |args| < |vals|)
    && vals[|vals| - |args|..] == args
  }

  /** What a party must find on its stack after the exchange. */
  function Received(base: seq<Value>, args: seq<Value>): seq<Value> {
    base + [Bool(true)] + args + [Int(|args| + 1)]
  }

  /** What the party whose incoming value could not be copied finds. */
  function Failed(base: seq<Value>, msg: Value): seq<Value> {
    base + [Bool(false), msg] + [Int(2)]
  }

  method PushErrFrom(L: LuaStack, base: nat, failed: LuaStack, bfailed: nat)
    requires L != failed
    requires base <= |L.vals| && bfailed + 1 < |failed.vals|
    modifies L, failed
    ensures failed.vals == Failed(old(failed.vals)[..bfailed], old(failed.vals)[|old(failed.vals)| - 1])
    ensures L.vals == Failed(old(L.vals)[..base], Int(2))
  {
    failed.Replace(bfailed + 1);
    failed.SetTop(bfailed + 1);
    failed.Push(Bool(false));
    failed.Insert(bfailed + 1);
    failed.Push(Int(2));

    L.SetTop(base);
    L.Push(Bool(false));
    L.Push(failed.vals[|failed.vals| - 1]);  // copies the count just pushed, not the message below it
    L.Push(Int(2));
  }

  /** Copies `from[idx]` onto `to`; with no credit left the copy fails and leaves a message instead. */
  method PushFrom(to: LuaStack, from: LuaStack, idx: nat, credit: nat, msg: Value) returns (ok: bool)
    requires 1 <= idx <= |from.vals|
    modifies to
    ensures ok <==> credit > 0
    ensures to.vals == old(to.vals) + [if ok then old(from.vals)[idx - 1] else msg]
  {
    ok := credit > 0;
    to.Push(if ok then from.vals[idx - 1] else msg);
  }

  method MoveFrom(to: LuaStack, from: LuaStack, n: nat, credit: nat, msg: Value) returns (ok: bool)
    requires to != from && n <= |from.vals|
    modifies to, from
    ensures ok <==> credit > 0
    ensures ok ==> to.vals == old(to.vals) + old(from.vals)[|old(from.vals)| - n..]
    ensures ok ==> from.vals == old(from.vals)[..|old(from.vals)| - n]
    ensures !ok ==> to.vals == old(to.vals) + [msg] && from.vals == old(from.vals)
  {
    ok := credit > 0;
    if ok {
      to.vals := to.vals + from.vals[|from.vals| - n..];
      from.vals := from.vals[..|from.vals| - n];
    } else {
      to.Push(msg);
    }
  }

  /** After `i` rounds: base, one slot, the `i` values received, and the rest as it was. */
  ghost predicate Overwritten(now: seq<Value>, was: seq<Value>, base: nat, got: seq<Value>) {
    && |now| == |was|
    && base + 1 + |got| <= |was|
    && now[..base] == was[..base]
    && now[base + 1..base + 1 + |got|] == got
    && (forall k :: base + 1 + |got| <= k < |was| ==> now[k] == was[k])
  }

  /**
   The loop of the exchange, with at least as many arguments on `src` as on `dst`.  In round `i` both
   sides are written at `base+i+1`, at or below the argument of round `i`: an argument not yet read
   is never lost.  Reports the round whose first or second copy failed.
   */
  method CopyLoop(src: LuaStack, bsrc: nat, nsrc: nat, dst: LuaStack, bdst: nat, ndst: nat,
                  ghost a: seq<Value>, ghost b: seq<Value>, credit: nat, msg: Value)
    returns (ok: bool)
    requires src != dst
    requires Party(src.vals, bsrc, a) && |a| == nsrc
    requires Party(dst.vals, bdst, b) && |b| == ndst
    requires 0 < ndst <= nsrc
    modifies src, dst
    ensures ok <==> credit >= 2 * ndst
    ensures ok ==> Overwritten(src.vals, old(src.vals), bsrc, b)
    ensures ok ==> Overwritten(dst.vals, old(dst.vals), bdst, a[..ndst])
    ensures !ok && credit % 2 == 0 ==> src.vals == Failed(old(src.vals)[..bsrc], msg) && dst.vals == Failed(old(dst.vals)[..bdst], Int(2))
    ensures !ok && credit % 2 == 1 ==> dst.vals == Failed(old(dst.vals)[..bdst], msg) && src.vals == Failed(old(src.vals)[..bsrc], Int(2))
  {
    var tsrc := src.Top() - nsrc;
    var tdst := dst.Top() - ndst;
    assert bsrc < tsrc && bdst < tdst;
    ghost var s, d := src.vals, dst.vals;
    var i: nat, left: int := 1, credit;
    while i <= ndst
      invariant 1 <= i <= ndst + 1
      invariant left >= 0 && credit == left + 2 * (i - 1)
      invariant Overwritten(src.vals, s, bsrc, b[..i - 1])
      invariant Overwritten(dst.vals, d, bdst, a[..i - 1])
      decreases ndst - i
    {
      ok := Turn(src, bsrc, tsrc, dst, bdst, tdst, i, left, msg, s, d, a, b);
      if !ok { return; }
      i, left := i + 1, left - 2;
    }
    assert b[..ndst] == b;
    ok := true;
  }

  /** Round `i`, on stacks that were `s` and `d` before the loop. */
  method Turn(src: LuaStack, bsrc: nat, tsrc: nat, dst: LuaStack, bdst: nat, tdst: nat, i: nat, credit: nat, msg: Value,
              ghost s: seq<Value>, ghost d: seq<Value>, ghost a: seq<Value>, ghost b: seq<Value>)
    returns (ok: bool)
    requires src != dst && 1 <= i <= |b| <= |a|
    requires Party(s, bsrc, a) && Party(d, bdst, b) && tsrc == |s| - |a| && tdst == |d| - |b|
    requires Overwritten(src.vals, s, bsrc, b[..i - 1]) && Overwritten(dst.vals, d, bdst, a[..i - 1])
    modifies src, dst
    ensures ok <==> credit >= 2
    ensures ok ==> Overwritten(src.vals, s, bsrc, b[..i]) && Overwritten(dst.vals, d, bdst, a[..i])
    ensures credit == 0 ==> src.vals == Failed(s[..bsrc], msg) && dst.vals == Failed(d[..bdst], Int(2))
    ensures credit == 1 ==> dst.vals == Failed(d[..bdst], msg) && src.vals == Failed(s[..bsrc], Int(2))
  {
    ghost var s1, d1 := src.vals, dst.vals;
    Unread(d1, d, bdst, a[..i - 1], b);
    Unread(s1, s, bsrc, b[..i - 1], a);
    ok := Round(src, bsrc, tsrc, dst, bdst, tdst, i, credit, msg);
    if ok {
      OneMore(src.vals, s1, s, bsrc, b, i - 1);
      OneMore(dst.vals, d1, d, bdst, a, i - 1);
    }
  }

  /** The writes are behind the reads: the next argument is still where it was. */
  lemma Unread(now: seq<Value>, was: seq<Value>, base: nat, got: seq<Value>, args: seq<Value>)
    requires Party(was, base, args) && |got| < |args|
    requires Overwritten(now, was, base, got)
    ensures now[|was| - |args| + |got|] == args[|got|]
  {
    assert was[|was| - |args|..][|got|] == args[|got|];
  }

  /** Round `i`: each side's argument is copied to the other's top, then both move into place. */
  method Round(src: LuaStack, bsrc: nat, tsrc: nat, dst: LuaStack, bdst: nat, tdst: nat,
               i: nat, credit: nat, msg: Value)
    returns (ok: bool)
    requires src != dst
    requires 1 <= i && bsrc < tsrc && bdst < tdst
    requires tsrc + i <= |src.vals| && tdst + i <= |dst.vals|
    modifies src, dst
    ensures ok <==> credit >= 2
    ensures ok ==> src.vals == old(src.vals)[bsrc + i := old(dst.vals)[tdst + i - 1]]
    ensures ok ==> dst.vals == old(dst.vals)[bdst + i := old(src.vals)[tsrc + i - 1]]
    ensures credit == 0 ==> src.vals == Failed(old(src.vals)[..bsrc], msg) && dst.vals == Failed(old(dst.vals)[..bdst], Int(2))
    ensures credit == 1 ==> dst.vals == Failed(old(dst.vals)[..bdst], msg) && src.vals == Failed(old(src.vals)[..bsrc], Int(2))
  {
    ok := PushFrom(src, dst, tdst + i, credit, msg);
    if !ok {
      PushErrFrom(dst, bdst, src, bsrc);
      return;
    }
    ok := PushFrom(dst, src, tsrc + i, credit - 1, msg);
    if !ok {
      PushErrFrom(src, bsrc, dst, bdst);
      return;
    }
    src.Replace(bsrc + i + 1);
    dst.Replace(bdst + i + 1);
  }

  lemma OneMore(now: seq<Value>, before: seq<Value>, was: seq<Value>, base: nat, got: seq<Value>, n: nat)
    requires n < |got| && base + 1 + n < |was|
    requires Overwritten(before, was, base, got[..n])
    requires now == before[base + 1 + n := got[n]]
    ensures Overwritten(now, was, base, got[..n + 1])
  {
    assert now[..base] == before[..base];
    forall k | 0 <= k <= n ensures now[base + 1..base + 2 + n][k] == got[k] {
      assert k < n ==> before[base + 1..base + 1 + n][k] == got[..n][k];
    }
    assert now[base + 1..base + 2 + n] == got[..n + 1];
  }

  /** After the loop: what `dst` lacks is moved in one block, and the results are completed. */
  method Finish(src: LuaStack, bsrc: nat, nsrc: nat, dst: LuaStack, bdst: nat, ndst: nat,
                ghost a: seq<Value>, ghost b: seq<Value>, credit: nat, msg: Value)
    requires src != dst
    requires |a| == nsrc && |b| == ndst <= nsrc
    requires bsrc + nsrc <= |src.vals| && (ndst > 0 ==> bsrc + nsrc < |src.vals|)
    requires bdst + ndst <= |dst.vals| && (ndst > 0 ==> bdst + ndst < |dst.vals|)
    requires ndst > 0 ==> src.vals[bsrc + 1..bsrc + 1 + ndst] == b && dst.vals[bdst + 1..bdst + 1 + ndst] == a[..ndst]
    requires src.vals[|src.vals| - (nsrc - ndst)..] == a[ndst..]
    requires nsrc > 0 ==> bsrc + nsrc < |src.vals|
    modifies src, dst
    ensures credit > 0 ==> src.vals == Received(old(src.vals)[..bsrc], b)
    ensures credit > 0 ==> dst.vals == Received(old(dst.vals)[..bdst], a)
    ensures credit == 0 ==> dst.vals == Failed(old(dst.vals)[..bdst], msg)
    ensures credit == 0 ==> src.vals == Failed(old(src.vals)[..bsrc], Int(2))
  {
    ghost var s, d := src.vals, dst.vals;
    MakeRoom(dst, bdst, a[..ndst], ndst);
    Joined(dst.vals, bdst, a, ndst);
    Shortened(s, bsrc, ndst, nsrc - ndst);
    var ok := MoveFrom(dst, src, nsrc - ndst, credit, msg);
    if !ok {
      assert dst.vals[..bdst] == d[..bdst];
      PushErrFrom(src, bsrc, dst, bdst);
    } else {
      MakeRoom(src, bsrc, b, ndst);
      Complete(src, bsrc, b);
      Complete(dst, bdst, a);
    }
  }

  /** The first `n` values received and the block moved behind them are all of them. */
  lemma Joined(vals: seq<Value>, base: nat, args: seq<Value>, n: nat)
    requires n <= |args| && |vals| == base + 1 + n && vals[base + 1..] == args[..n]
    ensures (vals + args[n..])[..base] == vals[..base] && (vals + args[n..])[base + 1..] == args
  {
    assert (vals + args[n..])[base + 1..] == vals[base + 1..] + args[n..];
    assert args[..n] + args[n..] == args;
  }

  /** Moving a block from the top leaves the values below it. */
  lemma Shortened(vals: seq<Value>, base: nat, n: nat, block: nat)
    requires base + n + block <= |vals| && (n > 0 ==> base + n + block < |vals|)
    ensures var rest := vals[..|vals| - block];
            rest[..base] == vals[..base] && (n > 0 ==> rest[base + 1..base + 1 + n] == vals[base + 1..base + 1 + n])
  {
  }

  /** Cuts the stack behind the values received, leaving one slot in front of them for `true`. */
  method MakeRoom(L: LuaStack, base: nat, ghost args: seq<Value>, nargs: nat)
    requires nargs == |args| && base + nargs <= |L.vals|
    requires args != [] ==> base + nargs < |L.vals| && L.vals[base + 1..base + 1 + nargs] == args
    modifies L
    ensures |L.vals| == base + 1 + nargs
    ensures L.vals[..base] == old(L.vals)[..base] && L.vals[base + 1..] == args
  {
    L.SetTop(base + nargs + 1);
  }

  /** `true` in front of the values received, and behind them how many values follow the base. */
  method Complete(L: LuaStack, base: nat, ghost args: seq<Value>)
    requires |L.vals| == base + 1 + |args| && L.vals[base + 1..] == args
    modifies L
    ensures L.vals == Received(old(L.vals)[..base], args)
  {
    var narg := L.Top() - base - 1;
    L.Push(Bool(true));
    L.Replace(base + 1);
    assert L.vals == old(L.vals)[..base] + [Bool(true)] + args;
    L.Push(Int(narg + 1));
  }

  /** The peer of a failed copy is told what went wrong only if the message is the number 2; it never is. */
  lemma PeerTold(base: seq<Value>, msg: Value)
    ensures Failed(base, Int(2)) == Failed(base, msg) <==> msg == Int(2)
  {
    assert Failed(base, msg)[|base| + 1] == msg;
    assert Failed(base, Int(2))[|base| + 1] == Int(2);
  }

  /** Whether a failure at copy number `credit` leaves the message on the side with more arguments. */
  predicate MessageOnLonger(credit: nat, fewer: nat) {
    credit < 2 * fewer && credit % 2 == 0
  }

  method Exchange(src: LuaStack, bsrc: nat, nsrc: nat, dst: LuaStack, bdst: nat, ndst: nat,
                  ghost a: seq<Value>, ghost b: seq<Value>, credit: nat, msg: Value)
    requires src != dst
    requires Party(src.vals, bsrc, a) && |a| == nsrc
    requires Party(dst.vals, bdst, b) && |b| == ndst
    requires ndst <= nsrc
    modifies src, dst
    ensures credit > 2 * ndst ==>
              src.vals == Received(old(src.vals)[..bsrc], b) && dst.vals == Received(old(dst.vals)[..bdst], a)
    ensures credit <= 2 * ndst ==>
              && src.vals == Failed(old(src.vals)[..bsrc], if MessageOnLonger(credit, ndst) then msg else Int(2))
              && dst.vals == Failed(old(dst.vals)[..bdst], if MessageOnLonger(credit, ndst) then Int(2) else msg)
  {
    ghost var s, d := src.vals, dst.vals;
    if ndst > 0 {
      var ok := CopyLoop(src, bsrc, nsrc, dst, bdst, ndst, a, b, credit, msg);
      if !ok { return; }
      assert src.vals[bsrc + 1..bsrc + 1 + ndst] == b;
      assert |a[..ndst]| == ndst;
      assert dst.vals[bdst + 1..bdst + 1 + ndst] == a[..ndst];
    }
    Leftover(src.vals, s, bsrc, a, ndst);
    Finish(src, bsrc, nsrc, dst, bdst, ndst, a, b, credit - 2 * ndst, msg);
  }

  /** What the loop did not reach is still the tail of the longer argument list. */
  lemma Leftover(now: seq<Value>, was: seq<Value>, base: nat, args: seq<Value>, n: nat)
    requires Party(was, base, args) && n <= |args|
    requires |now| == |was| && forall k :: base + 1 + n <= k < |was| ==> now[k] == was[k]
    ensures now[|now| - (|args| - n)..] == args[n..]
  {
    var top := |was| - (|args| - n);
    forall k | 0 <= k < |args| - n ensures now[top..][k] == args[n..][k] {
      assert was[|was| - |args|..][n + k] == args[n + k];
    }
  }

  /**
   The whole exchange.  `a` and `b` are the arguments of the newcomer and of the waiter (whose stack
   `wvals` is followed by its base and its count); `credit` is how many copies succeed before one fails.
   */
  method Swap(newcomer: LuaStack, base: nat, narg: nat, waiter: LuaStack,
              ghost a: seq<Value>, ghost wbase: nat, ghost wvals: seq<Value>, ghost b: seq<Value>,
              credit: nat, msg: Value)
    requires newcomer != waiter
    requires Party(newcomer.vals, base, a) && |a| == narg
    requires Party(wvals, wbase, b) && waiter.vals == wvals + [Int(wbase), Int(|b|)]
    modifies newcomer, waiter
    ensures var fewer := if |a| < |b| then |a| else |b|;
            credit > 2 * fewer ==>
              && newcomer.vals == old(newcomer.vals)[..base] + [Bool(true)] + b + [Int(|b| + 1)]
              && waiter.vals == wvals[..wbase] + [Bool(true)] + a + [Int(|a| + 1)]
    // the copy that fails is the `credit`-th: to the longer side, to the shorter one, or (at last) the surplus
    ensures var fewer := if |a| < |b| then |a| else |b|;
            credit <= 2 * fewer ==>
              var mine := (credit < 2 * fewer && credit % 2 == 0) == (|a| >= |b|);
              && newcomer.vals == old(newcomer.vals)[..base] + [Bool(false), if mine then msg else Int(2), Int(2)]
              && waiter.vals == wvals[..wbase] + [Bool(false), if mine then Int(2) else msg, Int(2)]
  {
    var src, bsrc, nsrc, dst := newcomer, base, narg, waiter;
    var bdst, ndst := dst.vals[|dst.vals| - 2].i, dst.vals[|dst.vals| - 1].i;
    dst.SetTop(dst.Top() - 2);
    assert dst.vals == wvals;
    if nsrc < ndst {
      src, dst := dst, src;
      nsrc, ndst := ndst, nsrc;
      bsrc, bdst := bdst, bsrc;
      Exchange(src, bsrc, nsrc, dst, bdst, ndst, b, a, credit, msg);
    } else {
      Exchange(src, bsrc, nsrc, dst, bdst, ndst, a, b, credit, msg);
    }
  }
}
