/**
 The rendezvous of a channel: `lcuCS_matchchsync` of src/lchaux.c and the removal of a waiter by
 `cancelsynced` of src/lchannem.c.

 A `ChannelSync` knows neither who waits on which endpoint nor how to search: it keeps one
 `expected` mask and a queue, and looks at the head only.  The reference below keeps every
 waiter's endpoint and searches the whole queue for the oldest compatible one.
 */
module Rendezvous {
  import opened StateQueues

  datatype Endpoint = In | Out | Any

  type StateId = nat

  datatype Waiter = Waiter(id: StateId, endpoint: Endpoint)

  /** `Refused` is a newcomer that found no partner and whose `getstate` returned no state. */
  datatype Outcome = Matched(waiter: StateId) | Waiting | Refused

  // ---------------------------------------------------------------- reference

  /** Opposite endpoints meet, and "any" meets everything. */
  predicate Compatible(a: Endpoint, b: Endpoint) {
    a == Any || b == Any || a != b
  }

  /** Position of the oldest waiter that can meet `e`, or the number of waiters. */
  function Oldest(ws: seq<Waiter>, e: Endpoint): (i: nat)
    ensures i <= |ws|
    ensures i < |ws| ==> Compatible(ws[i].endpoint, e)
    ensures forall j :: 0 <= j < i ==> !Compatible(ws[j].endpoint, e)
  {
    if ws == [] then 0
    else if Compatible(ws[0].endpoint, e) then 0
    else 1 + Oldest(ws[1..], e)
  }

  function Arrive(ws: seq<Waiter>, w: Waiter, stays: bool): (seq<Waiter>, Outcome) {
    var i := Oldest(ws, w.endpoint);
    if i < |ws| then (Cut(ws, i), Matched(ws[i].id))
    else if stays then (ws + [w], Waiting)
    else (ws, Refused)
  }

  function Ids(ws: seq<Waiter>): (ids: seq<StateId>)
    ensures |ids| == |ws|
    ensures forall i :: 0 <= i < |ws| ==> ids[i] == ws[i].id
  {
    seq(|ws|, i requires 0 <= i < |ws| => ws[i].id)
  }

  /** Position of the first `x`, or the length of `s`. */
  function FirstOf(s: seq<StateId>, x: StateId): (k: nat)
    ensures k <= |s|
    ensures k < |s| <==> x in s
    ensures k < |s| ==> s[k] == x
    ensures forall i :: 0 <= i < k ==> s[i] != x
  {
    if s == [] then 0
    else if s[0] == x then 0
    else 1 + FirstOf(s[1..], x)
  }

  function Cut<T>(s: seq<T>, k: nat): seq<T>
    requires k < |s|
  {
    s[..k] + s[k + 1..]
  }

  function Leave(ws: seq<Waiter>, id: StateId): seq<Waiter> {
    var k := FirstOf(Ids(ws), id);
    if k < |ws| then Cut(ws, k) else ws
  }

  // ---------------------------------------------------------------- the code

  /** `LCU_CHSYNCIN`, `LCU_CHSYNCOUT` and their union. */
  function Mask(e: Endpoint): bv8 {
    match e
    case In => 0x01
    case Out => 0x02
    case Any => 0x03
  }

  /** All waiters are on one endpoint, `mask` is what they expect, and "any" waits alone. */
  ghost predicate Uniform(ends: seq<Endpoint>, mask: bv8) {
    ends != [] ==>
      && (forall i :: 0 <= i < |ends| ==> ends[i] == ends[0])
      && (ends[0] == Any ==> |ends| == 1 && mask == Mask(Any))
      && (ends[0] != Any ==> mask == Mask(ends[0]) ^ Mask(Any))
  }

  /** The mask test on the head is the compatibility test on every waiter. */
  lemma MaskTest(ends: seq<Endpoint>, mask: bv8, e: Endpoint)
    requires ends != [] && Uniform(ends, mask)
    ensures mask & Mask(e) != 0 <==> forall i :: 0 <= i < |ends| ==> Compatible(ends[i], e)
    ensures mask & Mask(e) == 0 <==> forall i :: 0 <= i < |ends| ==> !Compatible(ends[i], e)
  {
    assert Compatible(ends[0], e) <==> mask & Mask(e) != 0;
  }

  class ChannelSync {
    var expected: bv8
    var queue: seq<StateId>
    ghost var ends: seq<Endpoint>  // the endpoint each queued state arrived on: not stored by the source

    ghost predicate Valid()
      reads this
    {
      |ends| == |queue| && Uniform(ends, expected)
    }

    ghost function Waiters(): (ws: seq<Waiter>)
      requires Valid()
      reads this
      ensures Ids(ws) == queue
    {
      seq(|queue|, i requires 0 <= i < |queue| && |ends| == |queue| reads this => Waiter(queue[i], ends[i]))
    }

    constructor ()
      ensures Valid() && Waiters() == []
    {
      expected, queue, ends := 0, [], [];
    }

    /** The test of the code on the head of the queue is the search of the reference. */
    lemma HeadDecides(endpoint: Endpoint)
      requires Valid() && queue != []
      ensures Oldest(Waiters(), endpoint) == if expected & Mask(endpoint) != 0 then 0 else |queue|
    {
      MaskTest(ends, expected, endpoint);
      assert forall i :: 0 <= i < |queue| ==> Waiters()[i].endpoint == ends[i];
    }

    method RemoveAt(i: nat) returns (L: StateId)
      requires Valid() && i < |queue|
      modifies this`queue, this`ends
      ensures Valid() && L == old(queue)[i] && Waiters() == Cut(old(Waiters()), i)
      ensures queue == old(queue)[..i] + old(queue)[i + 1..] && ends == old(ends)[..i] + old(ends)[i + 1..]
    {
      ghost var before := Waiters();
      L := queue[i];
      queue, ends := Cut(queue, i), Cut(ends, i);
      assert Waiters() == Cut(before, i);
    }

    method Enqueue(L: StateId, ghost endpoint: Endpoint)
      requires Valid() && Uniform(ends + [endpoint], expected)
      modifies this`queue, this`ends
      ensures Valid() && Waiters() == old(Waiters()) + [Waiter(L, endpoint)]
      ensures queue == old(queue) + [L] && ends == old(ends) + [endpoint]
    {
      ghost var before := Waiters();
      queue, ends := queue + [L], ends + [endpoint];
      assert Waiters() == before + [Waiter(L, endpoint)];
    }

    /** For a queue that does not match. */
    lemma JoinsUniform(endpoint: Endpoint)
      requires Valid() && queue != [] && expected & Mask(endpoint) == 0
      ensures Uniform(ends + [endpoint], expected)
    {
      MaskTest(ends, expected, endpoint);
    }

    /** One critical section of `lcuCS_matchchsync`; `stays` is whether `getstate` yields a state. */
    method MatchChSync(endpoint: Endpoint, L: StateId, stays: bool) returns (outcome: Outcome)
      requires Valid()
      modifies this
      ensures Valid()
      ensures (Waiters(), outcome) == Arrive(old(Waiters()), Waiter(L, endpoint), stays)
      // nobody to meet (as on an empty channel): one waiter more at the end, or refused
      ensures (forall i :: 0 <= i < |old(ends)| ==> old(ends)[i] != Any && endpoint != Any && old(ends)[i] == endpoint) ==>
                && outcome == (if stays then Waiting else Refused)
                && queue == old(queue) + (if stays then [L] else [])
                && ends == old(ends) + (if stays then [endpoint] else [])
      // somebody to meet: the head, and nobody else leaves
      ensures (exists i :: 0 <= i < |old(ends)| && (old(ends)[i] == Any || endpoint == Any || old(ends)[i] != endpoint)) ==>
                && queue != old(queue) && outcome == Matched(old(queue)[0])
                && queue == old(queue)[1..] && ends == old(ends)[1..]
    {
      if queue != [] {
        MaskTest(ends, expected, endpoint);
      }
      if queue == [] {
        expected := if endpoint == Any then Mask(Any) else Mask(endpoint) ^ Mask(Any);
        assert Waiters() == [];
      } else {
        HeadDecides(endpoint);
        if expected & Mask(endpoint) != 0 {
          var m := RemoveAt(0);
          return Matched(m);
        }
        JoinsUniform(endpoint);
      }
      if !stays {
        return Refused;
      }
      Enqueue(L, endpoint);
      outcome := Waiting;
    }

    /** The critical section of `cancelsynced`: the owner withdraws its waiting state. */
    method Cancel(L: StateId) returns (removed: bool)
      requires Valid()
      modifies this
      ensures Valid()
      ensures removed <==> L in old(queue)
      ensures !removed ==> queue == old(queue) && ends == old(ends)
      ensures removed ==>
                exists k :: 0 <= k < |old(queue)| && old(queue)[k] == L && L !in old(queue)[..k]
                  && queue == old(queue)[..k] + old(queue)[k + 1..] && ends == old(ends)[..k] + old(ends)[k + 1..]
      ensures Waiters() == Leave(old(Waiters()), L)
    {
      var i := FirstOf(queue, L);
      removed := i < |queue|;
      if removed {
        var _ := RemoveAt(i);
      }
    }
  }

  // ---------------------------------------------------------------- runs

  datatype Event = Come(who: Waiter, stays: bool) | Withdraw(id: StateId)

  /** The waiters, and a history: who ever waited, who was matched (in order), who withdrew. */
  datatype History = History(waiting: seq<Waiter>, entered: seq<StateId>, matched: seq<StateId>, withdrawn: set<StateId>)

  const Start := History([], [], [], {})

  /** A state comes with an id never used before; only a waiting state withdraws. */
  predicate Enabled(h: History, e: Event) {
    match e
    case Come(who, stays) => who.id !in h.entered
    case Withdraw(id) => id in Ids(h.waiting)
  }

  function Next(h: History, e: Event): History
    requires Enabled(h, e)
  {
    match e
    case Come(who, stays) =>
      var (ws, outcome) := Arrive(h.waiting, who, stays);
      (match outcome
       case Matched(w) => h.(waiting := ws, matched := h.matched + [w])
       case Waiting => h.(waiting := ws, entered := h.entered + [who.id])
       case Refused => h.(waiting := ws))
    case Withdraw(id) =>
      h.(waiting := Leave(h.waiting, id), withdrawn := h.withdrawn + {id})
  }

  ghost predicate Run(h: History, es: seq<Event>, h': History)
    decreases |es|
  {
    if es == [] then h == h'
    else Enabled(h, es[0]) && Run(Next(h, es[0]), es[1..], h')
  }

  /** `s` without the ids in `gone`, order kept. */
  function Kept(s: seq<StateId>, gone: set<StateId>): seq<StateId> {
    if s == [] then []
    else Kept(s[..|s| - 1], gone) + (if s[|s| - 1] in gone then [] else [s[|s| - 1]])
  }

  lemma {:induction false} KeptMember(s: seq<StateId>, gone: set<StateId>, x: StateId)
    ensures x in Kept(s, gone) <==> x in s && x !in gone
  {
    if s == [] {
    } else {
      KeptMember(s[..|s| - 1], gone, x);
    }
  }

  ghost predicate OneSided(ws: seq<Waiter>) {
    forall i, j :: 0 <= i < j < |ws| ==> !Compatible(ws[i].endpoint, ws[j].endpoint)
  }

  ghost predicate Inv(h: History) {
    && OneSided(h.waiting)
    && Distinct(h.entered)
    && (forall x :: x in h.withdrawn ==> x in h.entered)
    && h.matched + Ids(h.waiting) == Kept(h.entered, h.withdrawn)
  }

  lemma {:induction false} KeptDistinct(s: seq<StateId>, gone: set<StateId>)
    requires Distinct(s)
    ensures Distinct(Kept(s, gone))
  {
    if s == [] {
    } else {
      KeptDistinct(s[..|s| - 1], gone);
      KeptMember(s[..|s| - 1], gone, s[|s| - 1]);
    }
  }

  lemma {:induction false} KeptDrops(s: seq<StateId>, gone: set<StateId>, x: StateId)
    requires Distinct(s)
    ensures Kept(s, gone + {x}) == Without(Kept(s, gone), x)
  {
    if s == [] {
    } else {
      var front, last := s[..|s| - 1], s[|s| - 1];
      KeptDrops(front, gone, x);
      KeptMember(front, gone, x);
      if last !in gone {
        WithoutBefore(Kept(front, gone), [last], x);
      } else {
        assert Kept(s, gone) == Kept(front, gone);
      }
    }
  }

  lemma {:induction false} WithoutBefore(a: seq<StateId>, b: seq<StateId>, x: StateId)
    ensures x !in a ==> Without(a + b, x) == a + Without(b, x)
    ensures x in a ==> Without(a + b, x) == Without(a, x) + b
  {
    if a == [] {
      assert a + b == b;
    } else {
      assert (a + b)[1..] == a[1..] + b;
      WithoutBefore(a[1..], b, x);
    }
  }

  /** On a one-sided queue the oldest compatible waiter is the head, or there is none. */
  lemma HeadOrNobody(ws: seq<Waiter>, e: Endpoint)
    requires OneSided(ws)
    ensures Oldest(ws, e) == 0 || Oldest(ws, e) == |ws|
  {
    forall i | 0 <= i < |ws| ensures Compatible(ws[i].endpoint, e) <==> Compatible(ws[0].endpoint, e) {
      assert i == 0 || !Compatible(ws[0].endpoint, ws[i].endpoint);
    }
  }

  lemma CutKeepsOneSided(ws: seq<Waiter>, k: nat)
    requires OneSided(ws) && k < |ws|
    ensures OneSided(Cut(ws, k))
  {
    var r := Cut(ws, k);
    forall i, j | 0 <= i < j < |r| ensures !Compatible(r[i].endpoint, r[j].endpoint) {
      var i', j' := if i < k then i else i + 1, if j < k then j else j + 1;
      assert r[i] == ws[i'] && r[j] == ws[j'];
    }
  }

  lemma ShiftHead(a: seq<StateId>, b: seq<StateId>)
    requires b != []
    ensures (a + [b[0]]) + Cut(b, 0) == a + b
  {
  }

  lemma ComeKeepsOrder(h: History, who: Waiter, stays: bool)
    requires OneSided(h.waiting) && Enabled(h, Come(who, stays))
    requires forall x :: x in h.withdrawn ==> x in h.entered
    requires h.matched + Ids(h.waiting) == Kept(h.entered, h.withdrawn)
    ensures var h' := Next(h, Come(who, stays));
            h'.matched + Ids(h'.waiting) == Kept(h'.entered, h'.withdrawn)
  {
    var h', ws := Next(h, Come(who, stays)), h.waiting;
    HeadOrNobody(ws, who.endpoint);
    if Oldest(ws, who.endpoint) < |ws| {
      assert Ids(Cut(ws, 0)) == Cut(Ids(ws), 0);
      ShiftHead(h.matched, Ids(ws));
    } else if stays {
      assert h'.entered[..|h'.entered| - 1] == h.entered;
      assert Ids(ws + [who]) == Ids(ws) + [who.id];
      assert h.matched + (Ids(ws) + [who.id]) == (h.matched + Ids(ws)) + [who.id];
    }
  }

  lemma ComeKeepsInv(h: History, who: Waiter, stays: bool)
    requires Inv(h) && Enabled(h, Come(who, stays))
    ensures Inv(Next(h, Come(who, stays)))
  {
    ComeKeepsOrder(h, who, stays);
    HeadOrNobody(h.waiting, who.endpoint);
    if Oldest(h.waiting, who.endpoint) < |h.waiting| {
      CutKeepsOneSided(h.waiting, 0);
    }
  }

  lemma CutJoins(a: seq<StateId>, b: seq<StateId>, k: nat)
    requires k < |b|
    ensures (a + b)[|a| + k] == b[k] && Cut(a + b, |a| + k) == a + Cut(b, k)
  {
    assert (a + b)[..|a| + k] == a + b[..k];
    assert (a + b)[|a| + k + 1..] == b[k + 1..];
  }

  lemma CutBehind(a: seq<StateId>, b: seq<StateId>, k: nat)
    requires k < |b| && Distinct(a + b)
    ensures Without(a + b, b[k]) == a + Cut(b, k)
  {
    CutJoins(a, b, k);
    WithoutCuts(a + b, |a| + k);
  }

  /** A withdrawal takes its id out of the remaining order, and out of nothing else. */
  lemma WithdrawKeepsOrder(h: History, id: StateId)
    requires Inv(h) && Enabled(h, Withdraw(id))
    ensures h.matched + Ids(Leave(h.waiting, id)) == Kept(h.entered, h.withdrawn + {id})
  {
    var k := FirstOf(Ids(h.waiting), id);
    KeptDistinct(h.entered, h.withdrawn);
    KeptDrops(h.entered, h.withdrawn, id);
    CutBehind(h.matched, Ids(h.waiting), k);
    assert Ids(Cut(h.waiting, k)) == Cut(Ids(h.waiting), k);
  }

  lemma WithdrawKeepsInv(h: History, id: StateId)
    requires Inv(h) && Enabled(h, Withdraw(id))
    ensures Inv(Next(h, Withdraw(id)))
  {
    var k := FirstOf(Ids(h.waiting), id);
    CutKeepsOneSided(h.waiting, k);
    WithdrawKeepsOrder(h, id);
    assert (h.matched + Ids(h.waiting))[|h.matched| + k] == id;
    KeptMember(h.entered, h.withdrawn, id);
  }

  lemma StepKeepsInv(h: History, e: Event)
    requires Inv(h) && Enabled(h, e)
    ensures Inv(Next(h, e))
  {
    match e
    case Come(who, stays) => ComeKeepsInv(h, who, stays);
    case Withdraw(id) => WithdrawKeepsInv(h, id);
  }

  lemma {:induction false} RunKeepsInv(h: History, es: seq<Event>, h': History)
    requires Inv(h) && Run(h, es, h')
    ensures Inv(h')
    decreases |es|
  {
    if es == [] {
    } else {
      StepKeepsInv(h, es[0]);
      RunKeepsInv(Next(h, es[0]), es[1..], h');
    }
  }

  /** No two parties that could meet are ever left waiting for each other. */
  lemma NoPartnersWait(es: seq<Event>, h: History, i: nat, j: nat)
    requires Run(Start, es, h)
    requires i < j < |h.waiting|
    ensures !Compatible(h.waiting[i].endpoint, h.waiting[j].endpoint)
    ensures h.waiting[i].endpoint == h.waiting[j].endpoint != Any
  {
    RunKeepsInv(Start, es, h);
  }

  /** In every run the matched states, then the waiting ones, are those that ever waited and did not
      withdraw, in the order they came: first come, first served, nobody lost or matched twice. */
  lemma FirstComeFirstServed(es: seq<Event>, h: History)
    requires Run(Start, es, h)
    ensures h.matched + Ids(h.waiting) == Kept(h.entered, h.withdrawn)
    ensures Distinct(h.matched + Ids(h.waiting))
  {
    RunKeepsInv(Start, es, h);
    KeptDistinct(h.entered, h.withdrawn);
  }

  /** The party that comes is paired with the oldest waiter of all, or with nobody. */
  lemma MatchTakesOldest(es: seq<Event>, h: History, who: Waiter, stays: bool)
    requires Run(Start, es, h) && h.waiting != []
    ensures Arrive(h.waiting, who, stays).1 ==
            if Compatible(h.waiting[0].endpoint, who.endpoint) then Matched(h.waiting[0].id)
            else if stays then Waiting else Refused
  {
    RunKeepsInv(Start, es, h);
    HeadOrNobody(h.waiting, who.endpoint);
  }

  /** Which steps are possible: any party may come that was not there before, and any waiter may leave. */
  lemma Possible(h: History, e: Event)
    ensures e.Come? ==> (Enabled(h, e) <==> e.who.id !in h.entered)
    ensures e.Withdraw? ==> (Enabled(h, e) <==> exists i :: 0 <= i < |h.waiting| && h.waiting[i].id == e.id)
  {
    if e.Withdraw? {
      forall i | 0 <= i < |h.waiting| ensures Ids(h.waiting)[i] == h.waiting[i].id {
      }
    }
  }

  /** Runs go on by any possible step. */
  lemma {:induction false} RunOn(h: History, es: seq<Event>, h': History, e: Event)
    requires Run(h, es, h') && Enabled(h', e)
    ensures Run(h, [], h) && Run(h, es + [e], Next(h', e))
    decreases |es|
  {
    if es == [] {
      assert Run(Next(h, e), [], Next(h, e));
    } else {
      RunOn(Next(h, es[0]), es[1..], h', e);
      assert (es + [e])[1..] == es[1..] + [e];
    }
  }

  /** What coming to a channel does in every run: a party that nobody can meet joins the end if it stays,
      and is the one met by the next compatible party as soon as it is the oldest. */
  lemma ComeMeans(es: seq<Event>, h: History, who: Waiter, stays: bool)
    requires Run(Start, es, h) && who.id !in h.entered
    ensures Enabled(h, Come(who, stays))
    ensures var h', met := Next(h, Come(who, stays)),
                h.waiting != [] && (h.waiting[0].endpoint == Any || who.endpoint == Any || h.waiting[0].endpoint != who.endpoint);
            && h'.waiting == (if met then h.waiting[1..] else if stays then h.waiting + [who] else h.waiting)
            && h'.matched == (if met then h.matched + [h.waiting[0].id] else h.matched)
            && h'.entered == (if stays && !met then h.entered + [who.id] else h.entered)
            && h'.withdrawn == h.withdrawn
  {
    RunKeepsInv(Start, es, h);
    HeadOrNobody(h.waiting, who.endpoint);
    var i := Oldest(h.waiting, who.endpoint);
    assert h.waiting != [] ==> (i == 0 <==> Compatible(h.waiting[0].endpoint, who.endpoint));
    if i < |h.waiting| {
      assert Arrive(h.waiting, who, stays) == (Cut(h.waiting, 0), Matched(h.waiting[0].id));
      assert Cut(h.waiting, 0) == h.waiting[1..];
    }
  }

  /** The first to come to an empty channel waits, and is met by the next that is compatible. */
  lemma FirstComerIsMet(es: seq<Event>, h: History, a: Waiter, b: Waiter, stays: bool)
    requires Run(Start, es, h) && h.waiting == []
    requires a.id !in h.entered && b.id !in h.entered && a.id != b.id
    ensures Enabled(h, Come(a, true)) && Next(h, Come(a, true)).waiting == [a]
    ensures var h1 := Next(h, Come(a, true));
            && Enabled(h1, Come(b, stays))
            && var h2 := Next(h1, Come(b, stays));
               if a.endpoint == Any || b.endpoint == Any || a.endpoint != b.endpoint
               then h2.waiting == [] && h2.matched == h.matched + [a.id]
               else h2.matched == h.matched && h2.waiting == (if stays then [a, b] else [a])
  {
    ComeMeans(es, h, a, true);
    RunOn(Start, es, h, Come(a, true));
    ComeMeans(es + [Come(a, true)], Next(h, Come(a, true)), b, stays);
  }

  /** A withdrawal takes out the one waiter and nobody else. */
  lemma WithdrawMeans(es: seq<Event>, h: History, k: nat)
    requires Run(Start, es, h) && k < |h.waiting|
    ensures Enabled(h, Withdraw(h.waiting[k].id))
    ensures var h' := Next(h, Withdraw(h.waiting[k].id));
            && h'.waiting == h.waiting[..k] + h.waiting[k + 1..] && h'.matched == h.matched
            && h'.withdrawn == h.withdrawn + {h.waiting[k].id} && h'.entered == h.entered
  {
    var ids := Ids(h.waiting);
    FirstComeFirstServed(es, h);
    assert ids[k] == h.waiting[k].id;
    var i := FirstOf(ids, ids[k]);
    var all := h.matched + ids;
    assert all[|h.matched| + i] == all[|h.matched| + k];
  }
}
