/** The relay as an object, how its pass relates to the machine's, and how passes drain the outbox. */
module OutboxRelay {
  import opened Common
  import opened Outbox
  import opened OutboxCopies
  import opened OutboxTable

  type Answers = Id -> Outcome

  // What a pass over `batch` appends to the log, and which rows it saw published.
  function Appended(batch: seq<Delivery>, answers: Answers): seq<Delivery> {
    if batch == [] then []
    else
      var last := batch[|batch| - 1];
      Appended(batch[..|batch| - 1], answers) + (if answers(last.id) != Refused then [last] else [])
  }

  function SentOf(batch: seq<Delivery>, answers: Answers): seq<Id> {
    if batch == [] then []
    else
      var last := batch[|batch| - 1];
      SentOf(batch[..|batch| - 1], answers) + (if answers(last.id) == Delivered then [last.id] else [])
  }

  function LostOf(batch: seq<Delivery>, answers: Answers): multiset<Id> {
    if batch == [] then multiset{}
    else
      var last := batch[|batch| - 1];
      LostOf(batch[..|batch| - 1], answers) + (if answers(last.id) == Ambiguous then multiset{last.id} else multiset{})
  }

  class OutboxRepository {
    var table: Table

    constructor ()
      ensures table == Table(map[], [])
    {
      table := Table(map[], []);
    }

    method AddEvent(id: Id, m: Message, at: nat)
      modifies this
      ensures table == Insert(old(table), at, id, m)
      ensures forall other :: Pending(table, other) <==> other == id || Pending(old(table), other)
      ensures forall other | other in old(table).rows && other != id ::
                other in table.rows && table.rows[other] == old(table).rows[other]
      ensures id !in old(table).order ==>
                exists k: nat :: k <= |Pend(old(table))| && Pend(table) == Pend(old(table))[..k] + [id] + Pend(old(table))[k..]
    {
      if id !in table.order {
        var k := InsertMeans(table, at, id, m);
      }
      table := Insert(table, at, id, m);
    }

    method FetchUnpublished(limit: nat) returns (rows: seq<Delivery>)
      ensures rows == Batch(table, limit)
      ensures OldestPending(table, limit, rows, Take(Places(table, 0), limit))
    {
      FetchMeans(table, limit);
      return Batch(table, limit);
    }

    method MarkPublished(ids: seq<Id>, now: nat)
      modifies this
      ensures table == if ids == [] then old(table) else Mark(old(table), (set id | id in ids), now)
      ensures table.rows.Keys == old(table).rows.Keys && table.order == old(table).order
      ensures forall id | id in table.rows ::
                var row := old(table).rows[id];
                table.rows[id] == if id in ids then row.(published := Some(now), attempts := row.attempts + 1) else row
    {
      if ids == [] {
        return;
      }
      table := Mark(table, (set id | id in ids), now);
    }

    method DeletePublishedBefore(cutoff: int) returns (deleted: nat)
      modifies this
      ensures table == DeleteBefore(old(table), cutoff)
      ensures deleted == |old(table).rows| - |table.rows|
      ensures forall id :: id in table.rows <==>
                id in old(table).rows
                && (old(table).rows[id].published.None? || cutoff <= old(table).rows[id].published.value)
      ensures forall id | id in table.rows :: table.rows[id] == old(table).rows[id]
      ensures table.order == old(table).order
    {
      var before := table.rows.Keys;
      table := DeleteBefore(table, cutoff);
      var after := table.rows.Keys;
      assert after <= before;
      assert |before| == |after| + |before - after|;
      return |before - after|;
    }
  }

  class Broker {
    var log: seq<Delivery>

    constructor ()
      ensures log == []
    {
      log := [];
    }

    method Publish(d: Delivery, outcome: Outcome) returns (raised: bool)
      modifies this
      ensures raised == (outcome != Delivered)
      ensures log == if outcome == Refused then old(log) else old(log) + [d]
    {
      if outcome != Refused {
        log := log + [d];
      }
      return outcome != Delivered;
    }
  }

  // A pass counts as sent exactly the rows of its batch whose publish returned, and appends exactly those
  // that were not refused without effect.
  lemma {:induction false} PassDelivers(batch: seq<Delivery>, answers: Answers)
    ensures forall id :: id in SentOf(batch, answers) <==> exists d :: d in batch && d.id == id && answers(id) == Delivered
    ensures forall d :: d in Appended(batch, answers) <==> d in batch && answers(d.id) != Refused
  {
    if batch != [] {
      var init, last := batch[..|batch| - 1], batch[|batch| - 1];
      PassDelivers(init, answers);
      assert batch == init + [last];
    }
  }

  class OutboxRelay {
    const repository: OutboxRepository
    const broker: Broker
    const batchSize: nat

    constructor (repository: OutboxRepository, broker: Broker, batchSize: nat)
      ensures this.repository == repository && this.broker == broker && this.batchSize == batchSize
    {
      this.repository, this.broker, this.batchSize := repository, broker, batchSize;
    }

    // Phase two: publish row by row, outside any transaction; a row that raises is skipped.
    method PublishBatch(batch: seq<Delivery>, answers: Answers) returns (sent: seq<Id>)
      modifies broker
      ensures sent == SentOf(batch, answers)
      ensures broker.log == old(broker.log) + Appended(batch, answers)
    {
      sent := [];
      for i := 0 to |batch|
        invariant sent == SentOf(batch[..i], answers)
        invariant broker.log == old(broker.log) + Appended(batch[..i], answers)
      {
        assert batch[..i + 1][..i] == batch[..i];
        var raised := broker.Publish(batch[i], answers(batch[i].id));
        if !raised {
          sent := sent + [batch[i].id];
        }
      }
      assert batch[..|batch|] == batch;
    }

    // `markFails`: the marking transaction fails, and the pass with it.
    method RunOnce(answers: Answers, now: nat, markFails: bool) returns (r: Result<nat, ()>)
      modifies repository, broker
      ensures var batch := Batch(old(repository.table), batchSize);
        var sent := SentOf(batch, answers);
        && broker.log == old(broker.log) + Appended(batch, answers)
        && r == (if sent != [] && markFails then Err(()) else Ok(|sent|))
        && repository.table == (if sent == [] || markFails then old(repository.table)
                                else Mark(old(repository.table), (set id | id in sent), now))
    {
      var batch := repository.FetchUnpublished(batchSize);
      if batch == [] {
        return Ok(0);
      }
      var sent := PublishBatch(batch, answers);
      if sent != [] {
        if markFails {
          return Err(());
        }
        repository.MarkPublished(sent, now);
      }
      return Ok(|sent|);
    }
  }

  // ----- a pass left alone -----

  function Publications(p: Id, batch: seq<Delivery>, answers: Answers): seq<Event> {
    if batch == [] then []
    else Publications(p, batch[..|batch| - 1], answers) + [Publish(p, answers(batch[|batch| - 1].id))]
  }

  lemma {:induction false} RunAppend(pol: Policy, s: State, a: seq<Event>, b: seq<Event>)
    ensures Run(pol, s, a + b) == Run(pol, Run(pol, s, a), b)
    decreases |a|
  {
    if a == [] {
      assert a + b == b;
    } else {
      assert (a + b)[1..] == a[1..] + b;
      RunAppend(pol, Next(pol, s, a[0]), a[1..], b);
    }
  }

  lemma RunOne(pol: Policy, s: State, e: Event)
    ensures Run(pol, s, [e]) == Next(pol, s, e)
  {
    assert [e][1..] == [];
  }

  // The state once a lone pass has worked through the first n rows of its batch.
  function Midway(s: State, p: Id, batch: seq<Delivery>, n: nat, answers: Answers): State
    requires n <= |batch|
  {
    s.(log := s.log + Appended(batch[..n], answers), lost := s.lost + LostOf(batch[..n], answers),
       passes := map[p := Pass(batch[n..], SentOf(batch[..n], answers))])
  }

  lemma OneRowMore(batch: seq<Delivery>, n: nat, answers: Answers)
    requires 0 < n <= |batch|
    ensures var d, o := batch[n - 1], answers(batch[n - 1].id);
      && Appended(batch[..n], answers) == Appended(batch[..n - 1], answers) + (if o != Refused then [d] else [])
      && SentOf(batch[..n], answers) == SentOf(batch[..n - 1], answers) + (if o == Delivered then [d.id] else [])
      && LostOf(batch[..n], answers)
         == LostOf(batch[..n - 1], answers) + (if o == Ambiguous then multiset{d.id} else multiset{})
  {
    assert batch[..n][..n - 1] == batch[..n - 1];
  }

  lemma PublishAlone(s: State, p: Id, todo: seq<Delivery>, sent: seq<Id>, o: Outcome)
    requires s.passes == map[p := Pass(todo, sent)] && todo != []
    ensures AfterPublish(s, p, o)
         == s.(log := s.log + (if o != Refused then [todo[0]] else []),
               lost := s.lost + (if o == Ambiguous then multiset{todo[0].id} else multiset{}),
               passes := map[p := Pass(todo[1..], sent + (if o == Delivered then [todo[0].id] else []))])
  {
    var t := AfterPublish(s, p, o);
    assert s.passes[p] == Pass(todo, sent);
    assert t.passes[p] == Pass(todo[1..], sent + (if o == Delivered then [todo[0].id] else []));
  }

  lemma OnePublication(pol: Policy, s: State, p: Id, batch: seq<Delivery>, n: nat, answers: Answers)
    requires 0 < n <= |batch|
    ensures AfterPublish(Midway(s, p, batch, n - 1, answers), p, answers(batch[n - 1].id))
         == Midway(s, p, batch, n, answers)
  {
    var todo, sent := batch[n - 1..], SentOf(batch[..n - 1], answers);
    OneRowMore(batch, n, answers);
    assert todo[0] == batch[n - 1] && todo[1..] == batch[n..];
    var before := Midway(s, p, batch, n - 1, answers);
    assert before.passes == map[p := Pass(todo, sent)];
    PublishAlone(before, p, todo, sent, answers(batch[n - 1].id));
    assert AfterPublish(before, p, answers(batch[n - 1].id)).log == s.log + Appended(batch[..n], answers);
  }

  lemma {:induction false} PublicationsAlone(pol: Policy, s: State, p: Id, batch: seq<Delivery>, n: nat, answers: Answers)
    requires n <= |batch| && s.passes == map[p := Pass(batch, [])]
    ensures Run(pol, s, Publications(p, batch[..n], answers)) == Midway(s, p, batch, n, answers)
    decreases n
  {
    if n == 0 {
      assert batch[..0] == [] && batch[0..] == batch;
      assert Midway(s, p, batch, 0, answers) == s;
    } else {
      var e := Publish(p, answers(batch[n - 1].id));
      assert batch[..n][..n - 1] == batch[..n - 1];
      PublicationsAlone(pol, s, p, batch, n - 1, answers);
      RunAppend(pol, s, Publications(p, batch[..n - 1], answers), [e]);
      RunOne(pol, Midway(s, p, batch, n - 1, answers), e);
      OnePublication(pol, s, p, batch, n, answers);
    }
  }

  function WholePass(p: Id, batch: seq<Delivery>, answers: Answers): seq<Event> {
    [StartPass(p)] + (Publications(p, batch, answers) + [EndPass(p)])
  }

  // The machine's pass, run from start to end, leaves what RunOnce leaves.
  lemma PassAlone(pol: Policy, s: State, p: Id, answers: Answers)
    requires s.passes == map[] && Batch(s.table, pol.batch) != []
    ensures var batch := Batch(s.table, pol.batch);
      Run(pol, s, WholePass(p, batch, answers))
      == s.(log := s.log + Appended(batch, answers), lost := s.lost + LostOf(batch, answers),
            table := Mark(s.table, (set id | id in SentOf(batch, answers)), s.now))
  {
    var batch := Batch(s.table, pol.batch);
    var publications := Publications(p, batch, answers);
    RunCons(pol, s, StartPass(p), publications + [EndPass(p)]);
    var s1 := s.(passes := map[p := Pass(batch, [])]);
    assert Next(pol, s, StartPass(p)).passes == s1.passes;
    RunAppend(pol, s1, publications, [EndPass(p)]);
    assert batch[..|batch|] == batch;
    PublicationsAlone(pol, s1, p, batch, |batch|, answers);
    RunOne(pol, Run(pol, s1, publications), EndPass(p));
    assert Next(pol, Run(pol, s1, publications), EndPass(p)).passes == map[];
  }

  // ----- draining -----

  function Good(ids: seq<Id>, bad: set<Id>): seq<Id> {
    if ids == [] then [] else (if ids[0] in bad then [] else [ids[0]]) + Good(ids[1..], bad)
  }

  function Bad(ids: seq<Id>, bad: set<Id>): seq<Id> {
    if ids == [] then [] else (if ids[0] in bad then [ids[0]] else []) + Bad(ids[1..], bad)
  }

  function Without(ids: seq<Id>, gone: set<Id>): seq<Id> {
    Good(ids, gone)
  }

  lemma {:induction false} OnlyGoodAppend(a: seq<Id>, b: seq<Id>, bad: set<Id>)
    ensures Good(a + b, bad) == Good(a, bad) + Good(b, bad)
  {
    if a == [] {
      assert a + b == b;
    } else {
      assert (a + b)[1..] == a[1..] + b;
      OnlyGoodAppend(a[1..], b, bad);
      var front := if a[0] in bad then [] else [a[0]];
      assert Good(a + b, bad) == front + (Good(a[1..], bad) + Good(b, bad));
    }
  }

  lemma {:induction false} OnlyBadAppend(a: seq<Id>, b: seq<Id>, bad: set<Id>)
    ensures Bad(a + b, bad) == Bad(a, bad) + Bad(b, bad)
  {
    if a == [] {
      assert a + b == b;
    } else {
      assert (a + b)[1..] == a[1..] + b;
      OnlyBadAppend(a[1..], b, bad);
      var front := if a[0] in bad then [a[0]] else [];
      assert Bad(a + b, bad) == front + (Bad(a[1..], bad) + Bad(b, bad));
    }
  }

  lemma GoodAppend(a: seq<Id>, b: seq<Id>, bad: set<Id>)
    ensures Good(a + b, bad) == Good(a, bad) + Good(b, bad)
    ensures Bad(a + b, bad) == Bad(a, bad) + Bad(b, bad)
  {
    OnlyGoodAppend(a, b, bad);
    OnlyBadAppend(a, b, bad);
  }

  lemma {:induction false} GoodAndBad(ids: seq<Id>, bad: set<Id>)
    ensures |Good(ids, bad)| + |Bad(ids, bad)| == |ids|
    ensures forall id | id in Good(ids, bad) :: id in ids && id !in bad
    ensures forall id | id in ids && id !in bad :: id in Good(ids, bad)
    ensures Good(Bad(ids, bad), bad) == [] && Bad(Bad(ids, bad), bad) == Bad(ids, bad)
  {
    if ids != [] {
      var rest := Bad(ids[1..], bad);
      GoodAndBad(ids[1..], bad);
      if ids[0] in bad {
        assert Bad(ids, bad) == [ids[0]] + rest;
        GoodAppend([ids[0]], rest, bad);
        assert [ids[0]][1..] == [];
      } else {
        assert Bad(ids, bad) == rest;
      }
    }
  }

  // Rows in `bad` are refused every time, all others are delivered.
  function Pattern(bad: set<Id>): Answers {
    id => if id in bad then Refused else Delivered
  }

  lemma {:induction false} PatternSends(t: Table, ids: seq<Id>, bad: set<Id>)
    requires forall id | id in ids :: id in t.rows
    ensures SentOf(Deliveries(t, ids), Pattern(bad)) == Good(ids, bad)
    ensures Appended(Deliveries(t, ids), Pattern(bad)) == Deliveries(t, Good(ids, bad))
  {
    if ids == [] {
    } else {
      var d := Delivery(ids[0], t.rows[ids[0]].message);
      PatternSends(t, ids[1..], bad);
      FrontOfPass(d, Deliveries(t, ids[1..]), Pattern(bad));
      var rest := Good(ids[1..], bad);
      if ids[0] in bad {
        assert Good(ids, bad) == rest;
      } else {
        assert Good(ids, bad) == [ids[0]] + rest;
        assert ([ids[0]] + rest)[1..] == rest;
        assert Deliveries(t, [ids[0]] + rest) == [d] + Deliveries(t, rest);
      }
    }
  }

  lemma {:induction false} FrontSent(d: Delivery, rest: seq<Delivery>, answers: Answers)
    ensures SentOf([d] + rest, answers) == (if answers(d.id) == Delivered then [d.id] else []) + SentOf(rest, answers)
  {
    if rest == [] {
      assert [d] + rest == [d] && [d][..0] == [];
    } else {
      assert ([d] + rest)[..|rest|] == [d] + rest[..|rest| - 1];
      assert ([d] + rest)[|rest|] == rest[|rest| - 1];
      FrontSent(d, rest[..|rest| - 1], answers);
    }
  }

  lemma {:induction false} FrontAppended(d: Delivery, rest: seq<Delivery>, answers: Answers)
    ensures Appended([d] + rest, answers) == (if answers(d.id) != Refused then [d] else []) + Appended(rest, answers)
  {
    if rest == [] {
      assert [d] + rest == [d] && [d][..0] == [];
    } else {
      assert ([d] + rest)[..|rest|] == [d] + rest[..|rest| - 1];
      assert ([d] + rest)[|rest|] == rest[|rest| - 1];
      FrontAppended(d, rest[..|rest| - 1], answers);
    }
  }

  lemma FrontOfPass(d: Delivery, rest: seq<Delivery>, answers: Answers)
    ensures SentOf([d] + rest, answers) == (if answers(d.id) == Delivered then [d.id] else []) + SentOf(rest, answers)
    ensures Appended([d] + rest, answers) == (if answers(d.id) != Refused then [d] else []) + Appended(rest, answers)
  {
    FrontSent(d, rest, answers);
    FrontAppended(d, rest, answers);
  }

  // One undisturbed pass, as far as the table goes.
  function Relayed(t: Table, n: nat, bad: set<Id>, now: nat): Table {
    Mark(t, (set id | id in SentOf(Batch(t, n), Pattern(bad))), now)
  }

  lemma {:induction false} MarkRemoves(order: seq<Id>, t: Table, ids: set<Id>, now: nat)
    ensures Unpublished(order, Mark(t, ids, now)) == Without(Unpublished(order, t), ids)
  {
    if order != [] {
      MarkRemoves(order[1..], t, ids, now);
      var rest := Unpublished(order[1..], t);
      if Pending(t, order[0]) {
        assert Unpublished(order, t) == [order[0]] + rest;
        GoodAppend([order[0]], rest, ids);
        assert [order[0]][1..] == [];
      } else {
        assert Unpublished(order, t) == rest;
      }
    }
  }

  lemma {:induction false} WithoutGood(ids: seq<Id>, bad: set<Id>, gone: set<Id>)
    requires forall id | id in ids :: id in gone <==> id !in bad
    ensures Without(ids, gone) == Bad(ids, bad)
  {
    if ids != [] {
      WithoutGood(ids[1..], bad, gone);
    }
  }

  lemma {:induction false} WithoutNone(ids: seq<Id>, gone: set<Id>)
    requires forall id | id in ids :: id !in gone
    ensures Without(ids, gone) == ids
  {
    if ids != [] {
      WithoutNone(ids[1..], gone);
    }
  }

  lemma WithoutBatch(ids: seq<Id>, m: nat, bad: set<Id>, gone: set<Id>)
    requires Distinct(ids) && m <= |ids|
    requires gone == set id | id in Good(ids[..m], bad)
    ensures Without(ids, gone) == Bad(ids[..m], bad) + ids[m..]
  {
    assert ids == ids[..m] + ids[m..];
    GoodAppend(ids[..m], ids[m..], gone);
    GoodAndBad(ids[..m], bad);
    WithoutGood(ids[..m], bad, gone);
    WithoutNone(ids[m..], gone);
  }

  // A pass leaves pending the refused rows of its batch and everything behind the batch.
  lemma PassLeaves(t: Table, n: nat, bad: set<Id>, now: nat)
    requires Distinct(t.order)
    ensures var m := Min(n, |Pend(t)|);
      && SentOf(Batch(t, n), Pattern(bad)) == Good(Pend(t)[..m], bad)
      && Pend(Relayed(t, n, bad, now)) == Bad(Pend(t)[..m], bad) + Pend(t)[m..]
  {
    var ids := Pend(t);
    var m := Min(n, |ids|);
    UnpublishedDistinct(t.order, t);
    assert forall id | id in ids[..m] :: id in ids;
    PatternSends(t, ids[..m], bad);
    var gone := set id | id in Good(ids[..m], bad);
    MarkRemoves(t.order, t, gone, now);
    WithoutBatch(ids, m, bad, gone);
  }

  lemma SplitCounts(ids: seq<Id>, m: nat, bad: set<Id>)
    requires m <= |ids|
    ensures Good(ids, bad) == Good(ids[..m], bad) + Good(ids[m..], bad)
    ensures Bad(ids, bad) == Bad(ids[..m], bad) + Bad(ids[m..], bad)
  {
    assert ids == ids[..m] + ids[m..];
    GoodAppend(ids[..m], ids[m..], bad);
  }

  lemma GoodInBatch(ids: seq<Id>, n: nat, bad: set<Id>)
    ensures |Good(ids[..Min(n, |ids|)], bad)| >= Min(|Good(ids, bad)|, n - |Bad(ids, bad)|)
  {
    var m := Min(n, |ids|);
    SplitCounts(ids, m, bad);
    GoodBadCount(ids[..m], bad);
    if m == |ids| {
      assert ids[..m] == ids;
    }
  }

  lemma GoodBadCount(ids: seq<Id>, bad: set<Id>)
    ensures |Good(ids, bad)| + |Bad(ids, bad)| == |ids|
  {
    GoodAndBad(ids, bad);
  }

  // Each pass publishes at least min(g, n - f) of the g publishable pending rows, oldest first.
  lemma PassProgress(t: Table, n: nat, bad: set<Id>, now: nat)
    requires Distinct(t.order)
    ensures var sent := SentOf(Batch(t, n), Pattern(bad));
      var g, f := Good(Pend(t), bad), Bad(Pend(t), bad);
      && g == sent + Good(Pend(Relayed(t, n, bad, now)), bad)
      && Bad(Pend(Relayed(t, n, bad, now)), bad) == f
      && |sent| >= Min(|g|, n - |f|)
  {
    PassLeaves(t, n, bad, now);
    GoodInBatch(Pend(t), n, bad);
    WhatIsLeft(Pend(t), Min(n, |Pend(t)|), bad);
  }

  // The refused rows of a batch and everything behind it hold all the refused rows, and the others behind it.
  lemma WhatIsLeft(ids: seq<Id>, m: nat, bad: set<Id>)
    requires m <= |ids|
    ensures var left := Bad(ids[..m], bad) + ids[m..];
      Good(ids, bad) == Good(ids[..m], bad) + Good(left, bad) && Bad(left, bad) == Bad(ids, bad)
  {
    SplitCounts(ids, m, bad);
    GoodAppend(Bad(ids[..m], bad), ids[m..], bad);
    GoodAndBad(ids[..m], bad);
    assert [] + Good(ids[m..], bad) == Good(ids[m..], bad);
  }

  // k passes in a row: the table they leave, and the rows they published, in order.
  datatype Drained = Drained(table: Table, sent: seq<Id>)

  function Drain(t: Table, n: nat, bad: set<Id>, now: nat, k: nat): Drained
    decreases k
  {
    if k == 0 then Drained(t, [])
    else
      var first := SentOf(Batch(t, n), Pattern(bad));
      var rest := Drain(Relayed(t, n, bad, now), n, bad, now, k - 1);
      Drained(rest.table, first + rest.sent)
  }

  // With f rows that are always refused and f below the batch size n, k passes with k * (n - f) >= g
  // publish all g other rows, each exactly once and in creation order, and leave the f pending.
  lemma {:induction false} PassesDrain(t: Table, n: nat, bad: set<Id>, now: nat, k: nat)
    requires Distinct(t.order)
    requires |Bad(Pend(t), bad)| < n
    requires k * (n - |Bad(Pend(t), bad)|) >= |Good(Pend(t), bad)|
    ensures var d := Drain(t, n, bad, now, k);
      && d.sent == Good(Pend(t), bad)
      && Good(Pend(d.table), bad) == []
      && Bad(Pend(d.table), bad) == Bad(Pend(t), bad)
    decreases k
  {
    if k > 0 {
      var u := Relayed(t, n, bad, now);
      PassProgress(t, n, bad, now);
      var room := n - |Bad(Pend(t), bad)|;
      assert k * room == (k - 1) * room + room;
      if |Good(Pend(u), bad)| == 0 {
        assert (k - 1) * room >= 0;
      }
      PassesDrain(u, n, bad, now, k - 1);
    }
  }

  // ----- when passes drain the outbox -----

  // A pass whose whole batch is refused changes nothing, and so does every later one.
  lemma {:induction false} StuckForever(t: Table, n: nat, bad: set<Id>, now: nat, k: nat)
    requires Distinct(t.order)
    requires Good(Pend(t)[..Min(n, |Pend(t)|)], bad) == []
    ensures Drain(t, n, bad, now, k) == Drained(t, [])
    decreases k
  {
    if k > 0 {
      PassLeaves(t, n, bad, now);
      assert Relayed(t, n, bad, now).rows == t.rows;
      StuckForever(t, n, bad, now, k - 1);
    }
  }

  ghost predicate DrainsEventually(t: Table, n: nat, bad: set<Id>) {
    exists k :: Good(Pend(Drain(t, n, bad, 0, k).table), bad) == []
  }

  // Every outbox in which at most f pending rows are always refused is emptied of the others.
  ghost predicate AlwaysDrains(n: nat, f: nat) {
    forall t: Table, bad: set<Id> | Distinct(t.order) && |Bad(Pend(t), bad)| <= f :: DrainsEventually(t, n, bad)
  }

  const NOTICE := Row(NOTE, None, 0)

  function UpTo(n: nat): seq<Id> {
    seq(n, i => i)
  }

  // n rows that are always refused in front of one that is not.
  function Blocked(n: nat): Table {
    var order := UpTo(n + 1);
    Table(map id | id in order :: NOTICE, order)
  }

  lemma {:induction false} AllPending(order: seq<Id>, t: Table)
    requires forall id | id in order :: Pending(t, id)
    ensures Unpublished(order, t) == order
  {
    if order != [] {
      AllPending(order[1..], t);
    }
  }

  lemma {:induction false} AllBad(ids: seq<Id>, bad: set<Id>)
    requires forall id | id in ids :: id in bad
    ensures Bad(ids, bad) == ids && Good(ids, bad) == []
  {
    if ids != [] {
      AllBad(ids[1..], bad);
    }
  }

  function FirstRows(n: nat): set<Id> {
    var order := UpTo(n);
    set id | id in order
  }

  lemma BlockedShape(n: nat)
    ensures Distinct(Blocked(n).order) && Pend(Blocked(n)) == UpTo(n) + [n]
    ensures Bad(UpTo(n), FirstRows(n)) == UpTo(n) && Good(UpTo(n), FirstRows(n)) == []
    ensures Good([n], FirstRows(n)) == [n] && Bad([n], FirstRows(n)) == []
  {
    BlockedOrder(n);
    AllBad(UpTo(n), FirstRows(n));
    assert n !in UpTo(n);
    assert [n][1..] == [];
  }

  lemma BlockedOrder(n: nat)
    ensures Distinct(Blocked(n).order) && Pend(Blocked(n)) == UpTo(n) + [n]
  {
    var t := Blocked(n);
    assert forall id | id in t.order :: Pending(t, id);
    AllPending(t.order, t);
    OneMore(n);
  }

  lemma OneMore(n: nat)
    ensures UpTo(n + 1) == UpTo(n) + [n]
  {
  }

  lemma BlockedIsStuck(n: nat)
    ensures Distinct(Blocked(n).order) && |Bad(Pend(Blocked(n)), FirstRows(n))| == n
    ensures !DrainsEventually(Blocked(n), n, FirstRows(n))
  {
    var t, bad := Blocked(n), FirstRows(n);
    BlockedShape(n);
    GoodAppend(UpTo(n), [n], bad);
    assert Pend(t)[..n] == UpTo(n);
    forall k: nat ensures Good(Pend(Drain(t, n, bad, 0, k).table), bad) != [] {
      StuckForever(t, n, bad, 0, k);
    }
  }

  // Passes drain every such outbox exactly when the batch is larger than the number of refused rows.
  lemma DrainsExactly(n: nat, f: nat)
    ensures AlwaysDrains(n, f) <==> f < n
  {
    if f < n {
      forall t: Table, bad: set<Id> | Distinct(t.order) && |Bad(Pend(t), bad)| <= f ensures DrainsEventually(t, n, bad) {
        var g := |Good(Pend(t), bad)|;
        var room := n - |Bad(Pend(t), bad)|;
        assert g * room >= g;
        PassesDrain(t, n, bad, 0, g);
      }
    } else {
      BlockedIsStuck(n);
    }
  }
}
