/** How many copies of an event reach the broker when relay passes do not overlap, and when they do. */
module OutboxCopies {
  import opened Common
  import opened Outbox

  function Copies(log: seq<Delivery>, id: Id): nat {
    if log == [] then 0
    else Copies(log[..|log| - 1], id) + (if log[|log| - 1].id == id then 1 else 0)
  }

  lemma CopiesOneMore(log: seq<Delivery>, d: Delivery, id: Id)
    ensures Copies(log + [d], id) == Copies(log, id) + (if d.id == id then 1 else 0)
  {
    assert (log + [d])[..|log|] == log;
  }

  predicate Distinct(ids: seq<Id>) {
    forall i, j | 0 <= i < j < |ids| :: ids[i] != ids[j]
  }

  lemma {:induction false} DistinctOnce(ids: seq<Id>, id: Id)
    requires Distinct(ids)
    ensures multiset(ids)[id] == if id in ids then 1 else 0
  {
    if ids != [] {
      var last := ids[|ids| - 1];
      assert ids == ids[..|ids| - 1] + [last];
      DistinctOnce(ids[..|ids| - 1], id);
    }
  }

  lemma {:induction false} UnpublishedDistinct(order: seq<Id>, t: Table)
    requires Distinct(order)
    ensures Distinct(Unpublished(order, t))
    ensures forall id | id in Unpublished(order, t) :: id in order && Pending(t, id)
  {
    if order != [] {
      UnpublishedDistinct(order[1..], t);
      forall i | 0 < i < |order| ensures order[i] != order[0] {}
    }
  }

  function Ids(ds: seq<Delivery>): (ids: seq<Id>)
    ensures |ids| == |ds|
  {
    seq(|ds|, i requires 0 <= i < |ds| => ds[i].id)
  }

  lemma {:induction false} DeliveriesIds(t: Table, ids: seq<Id>)
    requires forall id | id in ids :: id in t.rows
    ensures Ids(Deliveries(t, ids)) == ids
  {
    if ids != [] {
      DeliveriesIds(t, ids[1..]);
    }
  }

  // ----- the invariant of runs whose passes do not overlap -----

  ghost predicate Alone(s: State) {
    forall p, q | p in s.passes && q in s.passes :: p == q
  }

  ghost predicate OrderOk(s: State) {
    Distinct(s.table.order) && forall id | id in s.table.order :: id in s.committed
  }

  // A pass works on rows that are still unpublished, each once.
  ghost predicate PassOk(s: State, p: Pass) {
    && Distinct(p.sent + Ids(p.todo))
    && forall id | id in p.sent + Ids(p.todo) :: Pending(s.table, id)
  }

  predicate InSent(s: State, id: Id) {
    exists p | p in s.passes :: id in s.passes[p].sent
  }

  predicate Settled(s: State, id: Id) {
    id in s.committed && !Pending(s.table, id)
  }

  // Every copy is accounted for: a pass that lost it, the pass that holds it, or the mark.
  ghost predicate Accounted(s: State, id: Id) {
    Copies(s.log, id) == s.lost[id] + (if InSent(s, id) then 1 else 0) + (if Settled(s, id) then 1 else 0)
  }

  ghost predicate ExclusiveInv(s: State) {
    && Inv(s) && Alone(s) && OrderOk(s)
    && (forall p | p in s.passes :: PassOk(s, s.passes[p]))
    && (forall id :: Accounted(s, id))
    && (forall id | id !in s.committed :: Copies(s.log, id) == 0)
  }

  lemma FetchedPass(s: State, n: nat)
    requires Inv(s) && OrderOk(s)
    ensures PassOk(s, Pass(Batch(s.table, n), []))
  {
    FetchedIds(s.table, n);
    assert [] + Ids(Batch(s.table, n)) == Fetch(s.table, n);
  }

  lemma FetchedIds(t: Table, n: nat)
    requires Distinct(t.order)
    ensures Ids(Batch(t, n)) == Fetch(t, n) && Distinct(Fetch(t, n))
    ensures forall id | id in Fetch(t, n) :: Pending(t, id)
  {
    UnpublishedDistinct(t.order, t);
    assert forall id | id in Fetch(t, n) :: id in Unpublished(t.order, t);
    DeliveriesIds(t, Fetch(t, n));
  }

  lemma StartKeeps(pol: Policy, s: State, p: Id)
    requires ExclusiveInv(s) && s.passes == map[] && Batch(s.table, pol.batch) != []
    ensures ExclusiveInv(Next(pol, s, StartPass(p)))
  {
    var t := Next(pol, s, StartPass(p));
    NextKeeps(pol, s, StartPass(p));
    FetchedPass(s, pol.batch);
    assert t.passes == map[p := Pass(Batch(s.table, pol.batch), [])];
    assert PassOk(t, t.passes[p]);
    forall id ensures Accounted(t, id) {
      assert Accounted(s, id);
      assert !InSent(s, id) && !InSent(t, id);
    }
  }

  lemma PublishKeepsPass(s: State, p: Id, outcome: Outcome)
    requires p in s.passes && s.passes[p].todo != [] && PassOk(s, s.passes[p])
    ensures var t := AfterPublish(s, p, outcome);
      PassOk(t, t.passes[p])
    ensures s.passes[p].todo[0].id !in s.passes[p].sent && Pending(s.table, s.passes[p].todo[0].id)
  {
    var Pass(todo, sent) := s.passes[p];
    var id, rest := todo[0].id, Ids(todo[1..]);
    var all := sent + Ids(todo);
    assert all == sent + [id] + rest;
    assert all[|sent|] == id && id in all;
    assert forall i | 0 <= i < |sent| :: all[i] == sent[i] && all[i] != all[|sent|];
    PassShrinks(sent, id, rest);
    forall x | x in sent + rest || x in (sent + [id]) + rest ensures Pending(s.table, x) {
      assert x in all;
    }
  }

  lemma PublishAccounts(pol: Policy, s: State, p: Id, outcome: Outcome)
    requires ExclusiveInv(s) && p in s.passes && s.passes[p].todo != []
    ensures ExclusiveInv(AfterPublish(s, p, outcome))
  {
    PublishKeeps(s, p, outcome);
    PublishKeepsPass(s, p, outcome);
    var t := AfterPublish(s, p, outcome);
    forall id ensures Accounted(t, id) && (id !in t.committed ==> Copies(t.log, id) == 0) {
      PublishAccountsFor(s, p, outcome, id);
    }
  }

  lemma PublishAccountsFor(s: State, p: Id, outcome: Outcome, id: Id)
    requires ExclusiveInv(s) && p in s.passes && s.passes[p].todo != []
    ensures var t := AfterPublish(s, p, outcome);
      Accounted(t, id) && (id !in t.committed ==> Copies(t.log, id) == 0)
  {
    PublishKeepsPass(s, p, outcome);
    var t := AfterPublish(s, p, outcome);
    var Pass(todo, sent) := s.passes[p];
    var d := todo[0];
    assert d in todo && d.id in s.committed;
    assert Accounted(s, id);
    CopiesOneMore(s.log, d, id);
    assert InSent(s, id) <==> id in sent;
    assert InSent(t, id) <==> id in t.passes[p].sent;
  }

  lemma PassShrinks(sent: seq<Id>, id: Id, rest: seq<Id>)
    requires Distinct(sent + [id] + rest)
    ensures Distinct(sent + rest) && Distinct((sent + [id]) + rest)
  {
    var all := sent + [id] + rest;
    forall i, j | 0 <= i < j < |sent + rest| ensures (sent + rest)[i] != (sent + rest)[j] {
      var i' := if i < |sent| then i else i + 1;
      var j' := if j < |sent| then j else j + 1;
      assert all[i'] == (sent + rest)[i] && all[j'] == (sent + rest)[j];
    }
  }

  lemma EndAccounts(pol: Policy, s: State, p: Id)
    requires ExclusiveInv(s) && p in s.passes && s.passes[p].todo == []
    ensures ExclusiveInv(Next(pol, s, EndPass(p)))
  {
    EndPassKeeps(pol, s, p);
    var t := Next(pol, s, EndPass(p));
    var sent := s.passes[p].sent;
    assert sent + Ids([]) == sent;
    assert t.passes == map[];
    forall id ensures Accounted(t, id) {
      assert Accounted(s, id);
      assert InSent(s, id) <==> id in sent;
      assert id in sent ==> InLog(s, id) && Pending(s.table, id);
    }
  }

  lemma DieAccounts(pol: Policy, s: State, p: Id)
    requires ExclusiveInv(s) && p in s.passes
    ensures ExclusiveInv(Next(pol, s, DiePass(p)))
  {
    NextKeeps(pol, s, DiePass(p));
    var t := Next(pol, s, DiePass(p));
    var sent := s.passes[p].sent;
    assert PassOk(s, s.passes[p]);
    assert Distinct(sent) by {
      assert sent == (sent + Ids(s.passes[p].todo))[..|sent|];
    }
    assert t.passes == map[];
    forall id ensures Accounted(t, id) {
      assert Accounted(s, id);
      assert InSent(s, id) <==> id in sent;
      DistinctOnce(sent, id);
    }
  }

  lemma CommitAccounts(pol: Policy, s: State, tx: Id, at: nat)
    requires ExclusiveInv(s) && tx in s.staged
    ensures ExclusiveInv(Next(pol, s, CommitTx(tx, at)))
  {
    CommitKeeps(pol, s, tx, at);
    var t := Next(pol, s, CommitTx(tx, at));
    var Staged(id, m) := s.staged[tx];
    assert id !in s.committed;
    assert forall other | Pending(s.table, other) :: Pending(t.table, other);
    forall p | p in t.passes ensures PassOk(t, t.passes[p]) {
      assert PassOk(s, s.passes[p]);
    }
    forall other ensures Accounted(t, other) {
      assert Accounted(s, other);
      assert InSent(s, other) == InSent(t, other);
      assert forall p | p in s.passes :: id in s.passes[p].sent ==> InLog(s, id);
    }
  }

  lemma QuietAccounts(pol: Policy, s: State, e: Event)
    requires ExclusiveInv(s)
    requires e.Tick? || e.AddEvent? || e.RollbackTx? || e.Cleanup?
    ensures ExclusiveInv(Next(pol, s, e))
  {
    NextKeeps(pol, s, e);
    var t := Next(pol, s, e);
    forall id ensures Pending(t.table, id) == Pending(s.table, id) {}
    forall p | p in t.passes ensures PassOk(t, t.passes[p]) {
      assert PassOk(s, s.passes[p]);
    }
    forall id ensures Accounted(t, id) {
      assert Accounted(s, id);
      assert InSent(s, id) == InSent(t, id);
    }
  }

  lemma NextAccounts(pol: Policy, s: State, e: Event)
    requires pol.exclusive && ExclusiveInv(s)
    ensures ExclusiveInv(Next(pol, s, e))
  {
    match e
    case StartPass(p) =>
      if s.passes == map[] && Batch(s.table, pol.batch) != [] { StartKeeps(pol, s, p); }
    case Publish(p, outcome) =>
      if p in s.passes && s.passes[p].todo != [] { PublishAccounts(pol, s, p, outcome); }
    case EndPass(p) => if p in s.passes && s.passes[p].todo == [] { EndAccounts(pol, s, p); }
    case DiePass(p) => if p in s.passes { DieAccounts(pol, s, p); }
    case CommitTx(tx, at) => if tx in s.staged { CommitAccounts(pol, s, tx, at); }
    case _ => QuietAccounts(pol, s, e);
  }

  lemma {:induction false} RunAccounts(pol: Policy, s: State, events: seq<Event>)
    requires pol.exclusive && ExclusiveInv(s)
    ensures ExclusiveInv(Run(pol, s, events))
    decreases |events|
  {
    if events != [] {
      NextAccounts(pol, s, events[0]);
      RunAccounts(pol, Next(pol, s, events[0]), events[1..]);
    }
  }

  // Without overlap: an event whose row is no longer pending was delivered once plus once for every
  // pass that published it and ended without marking it; a pending one has no other copies but those
  // and the one a running pass has just made.
  lemma CopiesAccounted(pol: Policy, events: seq<Event>, id: Id)
    requires pol.exclusive
    ensures var s := Run(pol, EMPTY, events);
      && (Settled(s, id) ==> Copies(s.log, id) == 1 + s.lost[id])
      && Copies(s.log, id) <= 1 + s.lost[id]
      && (id !in s.committed ==> Copies(s.log, id) == 0)
  {
    var s := Run(pol, EMPTY, events);
    forall other ensures Accounted(EMPTY, other) {}
    RunAccounts(pol, EMPTY, events);
    assert Accounted(s, id);
    if InSent(s, id) {
      var p :| p in s.passes && id in s.passes[p].sent;
      assert PassOk(s, s.passes[p]);
      assert id in s.passes[p].sent + Ids(s.passes[p].todo);
    }
  }

  // ----- overlap duplicates -----

  ghost predicate CopiesBounded(pol: Policy) {
    forall events, id :: CopiesBoundedAfter(pol, events, id)
  }

  ghost predicate CopiesBoundedAfter(pol: Policy, events: seq<Event>, id: Id) {
    Copies(Run(pol, EMPTY, events).log, id) <= 1 + Run(pol, EMPTY, events).lost[id]
  }

  lemma RunCons(pol: Policy, s: State, e: Event, rest: seq<Event>)
    ensures Run(pol, s, [e] + rest) == Run(pol, Next(pol, s, e), rest)
  {
    assert ([e] + rest)[1..] == rest;
  }

  lemma RunTwo(pol: Policy, s: State, a: Event, b: Event, rest: seq<Event>)
    ensures Run(pol, s, [a, b] + rest) == Run(pol, Next(pol, Next(pol, s, a), b), rest)
  {
    assert [a, b] + rest == [a] + ([b] + rest);
    RunCons(pol, s, a, [b] + rest);
    RunCons(pol, Next(pol, s, a), b, rest);
  }

  const NOTE := Message("t", "", None)

  const OVERLAP: seq<Event> :=
    [AddEvent(0, 7, NOTE), CommitTx(0, 0)] + ([StartPass(1), StartPass(2)]
      + ([Publish(1, Delivered), Publish(2, Delivered)] + []))

  // Two passes that fetch the same row both deliver it, and neither loses it.
  lemma OverlapDuplicates(pol: Policy)
    requires !pol.exclusive && pol.batch >= 1
    ensures !CopiesBoundedAfter(pol, OVERLAP, 7)
  {
    var rest2 := [Publish(1, Delivered), Publish(2, Delivered)] + [];
    RunTwo(pol, EMPTY, AddEvent(0, 7, NOTE), CommitTx(0, 0), [StartPass(1), StartPass(2)] + rest2);
    var s2 := Next(pol, Next(pol, EMPTY, AddEvent(0, 7, NOTE)), CommitTx(0, 0));
    assert s2.table == NOTED;
    RunTwo(pol, s2, StartPass(1), StartPass(2), rest2);
    NotedBatch(pol.batch);
    var s4 := Next(pol, Next(pol, s2, StartPass(1)), StartPass(2));
    assert s4.passes == map[1 := Pass([COPY], []), 2 := Pass([COPY], [])];
    RunTwo(pol, s4, Publish(1, Delivered), Publish(2, Delivered), []);
    BothDeliver(pol, s4);
  }

  const NOTED := Table(map[7 := Row(NOTE, None, 0)], [7])

  const COPY := Delivery(7, NOTE)

  lemma NotedBatch(n: nat)
    requires n >= 1
    ensures Batch(NOTED, n) == [COPY]
  {
    assert [7][1..] == [];
    assert Unpublished([7], NOTED) == [7];
    assert Deliveries(NOTED, [7]) == [COPY];
  }

  lemma BothDeliver(pol: Policy, s: State)
    requires s.log == [] && s.lost == multiset{}
    requires s.passes == map[1 := Pass([COPY], []), 2 := Pass([COPY], [])]
    ensures var end := Next(pol, Next(pol, s, Publish(1, Delivered)), Publish(2, Delivered));
      Copies(end.log, 7) == 2 && end.lost == multiset{}
  {
    var end := Next(pol, Next(pol, s, Publish(1, Delivered)), Publish(2, Delivered));
    assert end.log == [] + [COPY] + [COPY];
    CopiesOneMore([] + [COPY], COPY, 7);
    CopiesOneMore([], COPY, 7);
  }

  // The bound holds in every run exactly when passes do not overlap (or fetch nothing).
  lemma CopiesBoundedExactly(pol: Policy)
    ensures CopiesBounded(pol) <==> pol.exclusive || pol.batch == 0
  {
    if pol.exclusive {
      forall events, id ensures CopiesBoundedAfter(pol, events, id) {
        CopiesAccounted(pol, events, id);
      }
    } else if pol.batch == 0 {
      forall events, id ensures CopiesBoundedAfter(pol, events, id) {
        IdlePasses(pol, EMPTY, events);
      }
    } else {
      OverlapDuplicates(pol);
    }
  }

  lemma {:induction false} IdlePasses(pol: Policy, s: State, events: seq<Event>)
    requires pol.batch == 0 && s.passes == map[] && s.log == []
    ensures Run(pol, s, events).log == []
    decreases |events|
  {
    if events != [] {
      assert Fetch(s.table, 0) == [];
      IdlePasses(pol, Next(pol, s, events[0]), events[1..]);
    }
  }
}
