/** Passes of the outbox machine, one after another: how many of them drain the outbox. */
module OutboxDrain {
  import opened Common
  import opened Outbox
  import opened OutboxCopies
  import opened OutboxTable
  import opened OutboxRelay

  // The state of the machine after one whole pass in which the rows in `bad` are refused and the others
  // delivered, and after k of them.
  function OnePass(pol: Policy, s: State, p: Id, bad: set<Id>): State {
    Run(pol, s, WholePass(p, Batch(s.table, pol.batch), Pattern(bad)))
  }

  function Passes(pol: Policy, s: State, p: Id, bad: set<Id>, k: nat): State
    decreases k
  {
    if k == 0 then s else Passes(pol, OnePass(pol, s, p, bad), p, bad, k - 1)
  }

  lemma {:induction false} PatternLosesNothing(batch: seq<Delivery>, bad: set<Id>)
    ensures LostOf(batch, Pattern(bad)) == multiset{}
  {
    if batch != [] {
      PatternLosesNothing(batch[..|batch| - 1], bad);
    }
  }

  lemma {:induction false} MarkKeepsMessages(t: Table, marked: set<Id>, now: nat, ids: seq<Id>)
    ensures Deliveries(Mark(t, marked, now), ids) == Deliveries(t, ids)
  {
    if ids != [] {
      MarkKeepsMessages(t, marked, now, ids[1..]);
    }
  }

  lemma {:induction false} DeliveriesAppend(t: Table, a: seq<Id>, b: seq<Id>)
    ensures Deliveries(t, a + b) == Deliveries(t, a) + Deliveries(t, b)
  {
    if a == [] {
      assert a + b == b;
    } else {
      assert (a + b)[1..] == a[1..] + b;
      DeliveriesAppend(t, a[1..], b);
    }
  }

  lemma EmptyPass(pol: Policy, s: State, p: Id, bad: set<Id>)
    requires s.passes == map[] && Batch(s.table, pol.batch) == []
    ensures Run(pol, s, WholePass(p, [], Pattern(bad))) == s
  {
    RunCons(pol, s, StartPass(p), [] + [EndPass(p)]);
    assert [] + [EndPass(p)] == [EndPass(p)];
    RunOne(pol, s, EndPass(p));
  }

  // The table, and the messages of the rows, that Drain says.
  function DrainedState(s: State, d: Drained): State {
    s.(log := s.log + Deliveries(s.table, d.sent), table := d.table)
  }

  function AfterPass(pol: Policy, s: State, bad: set<Id>): State {
    DrainedState(s, Drained(Relayed(s.table, pol.batch, bad, s.now), SentOf(Batch(s.table, pol.batch), Pattern(bad))))
  }

  // One whole pass appends what it delivers and marks it.
  lemma PassRuns(pol: Policy, s: State, p: Id, bad: set<Id>)
    requires s.passes == map[] && Distinct(s.table.order)
    ensures OnePass(pol, s, p, bad) == AfterPass(pol, s, bad)
  {
    var batch := Batch(s.table, pol.batch);
    FetchedIds(s.table, pol.batch);
    PatternSends(s.table, Fetch(s.table, pol.batch), bad);
    PatternLosesNothing(batch, bad);
    if batch == [] {
      EmptyPass(pol, s, p, bad);
      assert Relayed(s.table, pol.batch, bad, s.now).rows == s.table.rows;
    } else {
      PassAlone(pol, s, p, Pattern(bad));
    }
  }

  lemma OnePassMore(t: Table, marked: set<Id>, now: nat, log: seq<Delivery>, a: seq<Id>, b: seq<Id>)
    ensures log + Deliveries(t, a) + Deliveries(Mark(t, marked, now), b) == log + Deliveries(t, a + b)
  {
    MarkKeepsMessages(t, marked, now, b);
    DeliveriesAppend(t, a, b);
    assert log + Deliveries(t, a) + Deliveries(t, b) == log + (Deliveries(t, a) + Deliveries(t, b));
  }

  function ToDrain(pol: Policy, s: State, bad: set<Id>, k: nat): State {
    DrainedState(s, Drain(s.table, pol.batch, bad, s.now, k))
  }

  lemma DrainedInTwo(pol: Policy, s: State, bad: set<Id>, k: nat)
    requires k > 0
    ensures ToDrain(pol, AfterPass(pol, s, bad), bad, k - 1) == ToDrain(pol, s, bad, k)
  {
    var sent := SentOf(Batch(s.table, pol.batch), Pattern(bad));
    var rest := Drain(Relayed(s.table, pol.batch, bad, s.now), pol.batch, bad, s.now, k - 1);
    OnePassMore(s.table, (set id | id in sent), s.now, s.log, sent, rest.sent);
  }

  lemma NothingDrained(pol: Policy, s: State, bad: set<Id>)
    ensures ToDrain(pol, s, bad, 0) == s
  {
    assert s.log + Deliveries(s.table, []) == s.log;
  }

  // k passes of the machine leave that state.
  lemma {:induction false} PassesRun(pol: Policy, s: State, p: Id, bad: set<Id>, k: nat)
    requires s.passes == map[] && Distinct(s.table.order)
    ensures Passes(pol, s, p, bad, k) == ToDrain(pol, s, bad, k)
    decreases k
  {
    if k == 0 {
      NothingDrained(pol, s, bad);
    } else {
      PassRuns(pol, s, p, bad);
      PassesRun(pol, OnePass(pol, s, p, bad), p, bad, k - 1);
      DrainedInTwo(pol, s, bad, k);
    }
  }

  // With f rows that are always refused and f below the batch size, k passes with k * (batch - f) at least
  // g append the messages of all g other pending rows, each once and in creation order, to the broker's
  // log, leave the f pending and the others not, and lose nothing.
  lemma PassesDrainTheOutbox(pol: Policy, s: State, p: Id, bad: set<Id>, k: nat)
    requires s.passes == map[] && Distinct(s.table.order)
    requires |Bad(Pend(s.table), bad)| < pol.batch
    requires k * (pol.batch - |Bad(Pend(s.table), bad)|) >= |Good(Pend(s.table), bad)|
    ensures var t := Passes(pol, s, p, bad, k);
      && t.log == s.log + Deliveries(s.table, Good(Pend(s.table), bad))
      && Good(Pend(t.table), bad) == [] && Bad(Pend(t.table), bad) == Bad(Pend(s.table), bad)
      && t.lost == s.lost && t.passes == map[]
  {
    PassesRun(pol, s, p, bad, k);
    PassesDrain(s.table, pol.batch, bad, s.now, k);
  }
}
