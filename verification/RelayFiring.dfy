/** One firing of the scheduled relay, from the lock to its release: what it does when it gets in, and when it does not. */
module RelayFiring {
  import opened Common
  import opened RelayJobs
  import Scheduler
  import Outbox
  import OutboxRelay

  function AsData(ds: seq<Outbox.Event>): seq<Event> {
    if ds == [] then [] else [Data(ds[0])] + AsData(ds[1..])
  }

  // The worker sends these of its pass, and of nobody else's.
  predicate Passing(w: Id, ds: seq<Outbox.Event>) {
    forall d | d in ds :: (d.StartPass? || d.Publish? || d.EndPass?) && d.p == w
  }

  // The events of a firing; what its worker is not in the state for does nothing.
  function Firing(w: Id, batch: seq<Outbox.Delivery>, answers: OutboxRelay.Answers): seq<Event> {
    [Work(Scheduler.Acquire(w, RELAY))]
    + (AsData(OutboxRelay.WholePass(w, batch, answers)) + [Work(Scheduler.Leave(w)), Work(Scheduler.Release(w))])
  }

  lemma {:induction false} PublicationsPass(w: Id, batch: seq<Outbox.Delivery>, answers: OutboxRelay.Answers)
    ensures Passing(w, OutboxRelay.Publications(w, batch, answers))
  {
    if batch != [] {
      PublicationsPass(w, batch[..|batch| - 1], answers);
    }
  }

  lemma RunCons(p: Policy, s: State, e: Event, rest: seq<Event>)
    ensures Run(p, s, [e] + rest) == Run(p, Next(p, s, e), rest)
  {
    assert ([e] + rest)[1..] == rest;
  }

  lemma {:induction false} RunAppend(p: Policy, s: State, a: seq<Event>, b: seq<Event>)
    ensures Run(p, s, a + b) == Run(p, Run(p, s, a), b)
    decreases |a|
  {
    if a == [] {
      assert a + b == b;
    } else {
      assert (a + b)[1..] == a[1..] + b;
      RunAppend(p, Next(p, s, a[0]), a[1..], b);
    }
  }

  // Inside the job the pass runs as the outbox machine runs it.
  lemma {:induction false} PassesInsideRun(p: Policy, s: State, w: Id, ds: seq<Outbox.Event>)
    requires Inside(s, w) && Passing(w, ds)
    ensures Run(p, s, AsData(ds)) == State(s.workers, Outbox.Run(Passes(p, false), s.outbox, ds))
    decreases |ds|
  {
    if ds != [] {
      RunCons(p, s, Data(ds[0]), AsData(ds[1..]));
      DataStep(p, false, s, Data(ds[0]));
      var t := Next(p, s, Data(ds[0]));
      assert t == State(s.workers, Outbox.Next(Passes(p, false), s.outbox, ds[0]));
      PassesInsideRun(p, t, w, ds[1..]);
    }
  }

  // Outside it does nothing.
  lemma {:induction false} PassesOutsideRun(p: Policy, s: State, w: Id, ds: seq<Outbox.Event>)
    requires !Inside(s, w) && w !in s.outbox.passes && Passing(w, ds)
    ensures Run(p, s, AsData(ds)) == s
    decreases |ds|
  {
    if ds != [] {
      RunCons(p, s, Data(ds[0]), AsData(ds[1..]));
      DataStep(p, false, s, Data(ds[0]));
      PassesOutsideRun(p, s, w, ds[1..]);
    }
  }

  lemma LeavesAndReleases(p: Policy, s: State, w: Id)
    requires w !in s.outbox.passes
    ensures Run(p, s, [Work(Scheduler.Leave(w)), Work(Scheduler.Release(w))])
         == if w in s.workers.stays
            then s.(workers := s.workers.(stays := s.workers.stays - {w}, locks := s.workers.locks - {s.workers.stays[w].job}))
            else s
  {
    var a, b := Work(Scheduler.Leave(w)), Work(Scheduler.Release(w));
    assert [a, b] == [a, b] + [];
    RunTwo(p, s, a, b, []);
    var t := Next(p, s, a);
    if w in s.workers.stays {
      assert t.workers.stays - {w} == s.workers.stays - {w};
    }
  }

  lemma WholePassPasses(w: Id, batch: seq<Outbox.Delivery>, answers: OutboxRelay.Answers)
    ensures Passing(w, OutboxRelay.WholePass(w, batch, answers))
  {
    PublicationsPass(w, batch, answers);
  }

  // A firing that finds the job locked, whoever locked it, leaves everything as it is.
  lemma LockedOut(p: Policy, s: State, w: Id, batch: seq<Outbox.Delivery>, answers: OutboxRelay.Answers)
    requires w !in s.workers.stays && w !in s.outbox.passes && Scheduler.Locked(s.workers, RELAY)
    ensures Run(p, s, Firing(w, batch, answers)) == s
  {
    var pass, last := OutboxRelay.WholePass(w, batch, answers), [Work(Scheduler.Leave(w)), Work(Scheduler.Release(w))];
    RunCons(p, s, Work(Scheduler.Acquire(w, RELAY)), AsData(pass) + last);
    RunAppend(p, s, AsData(pass), last);
    WholePassPasses(w, batch, answers);
    PassesOutsideRun(p, s, w, pass);
    LeavesAndReleases(p, s, w);
  }

  lemma Enters(p: Policy, s: State, w: Id)
    requires w !in s.workers.stays && !Scheduler.Locked(s.workers, RELAY)
    ensures var t := Next(p, s, Work(Scheduler.Acquire(w, RELAY)));
      && t.outbox == s.outbox && Inside(t, w)
      && t.workers.(stays := t.workers.stays - {w}, locks := t.workers.locks - {RELAY})
         == s.workers.(locks := s.workers.locks - {RELAY})
  {
    var t := Next(p, s, Work(Scheduler.Acquire(w, RELAY)));
    assert t.workers.stays - {w} == s.workers.stays;
    assert t.workers.locks - {RELAY} == s.workers.locks - {RELAY};
  }

  // One that finds it free, with no pass under way and rows to relay, appends to the log what the broker
  // takes, marks what it acknowledged, and leaves the job free.
  lemma FiringRelays(p: Policy, s: State, w: Id, answers: OutboxRelay.Answers)
    requires w !in s.workers.stays && s.outbox.passes == map[] && !Scheduler.Locked(s.workers, RELAY)
    requires Outbox.Batch(s.outbox.table, p.batch) != []
    ensures var o, batch := s.outbox, Outbox.Batch(s.outbox.table, p.batch);
      Run(p, s, Firing(w, batch, answers))
      == State(s.workers.(locks := s.workers.locks - {RELAY}),
               o.(log := o.log + OutboxRelay.Appended(batch, answers), lost := o.lost + OutboxRelay.LostOf(batch, answers),
                  table := Outbox.Mark(o.table, (set id | id in OutboxRelay.SentOf(batch, answers)), o.now)))
  {
    var batch := Outbox.Batch(s.outbox.table, p.batch);
    var pass, last := OutboxRelay.WholePass(w, batch, answers), [Work(Scheduler.Leave(w)), Work(Scheduler.Release(w))];
    var s1 := Next(p, s, Work(Scheduler.Acquire(w, RELAY)));
    Enters(p, s, w);
    RunCons(p, s, Work(Scheduler.Acquire(w, RELAY)), AsData(pass) + last);
    RunAppend(p, s1, AsData(pass), last);
    WholePassPasses(w, batch, answers);
    PassesInsideRun(p, s1, w, pass);
    OutboxRelay.PassAlone(Passes(p, false), s.outbox, w, answers);
    LeavesAndReleases(p, State(s1.workers, Outbox.Run(Passes(p, false), s.outbox, pass)), w);
  }

  // One whose worker dies in mid-pass leaves the rows unmarked, the publications lost and the job locked
  // for what remains of the time to live.
  lemma DeathLeaves(p: Policy, s: State, w: Id, d: nat)
    requires Inside(s, w) && w in s.outbox.passes && RELAY in s.workers.locks
    requires Scheduler.InTime(Locking(p), s.workers.(stays := s.workers.stays - {w}), d)
    ensures var t := Run(p, s, [Work(Scheduler.Die(w)), Elapse(d)] + []);
      && t.outbox.table == s.outbox.table && t.outbox.log == s.outbox.log && w !in t.outbox.passes
      && t.outbox.lost == s.outbox.lost + multiset(s.outbox.passes[w].sent)
      && t.outbox.now == s.outbox.now + d
      && (Scheduler.Locked(t.workers, RELAY) <==> s.workers.now + d < s.workers.locks[RELAY].expires)
  {
    var a, b := Work(Scheduler.Die(w)), Elapse(d);
    RunTwo(p, s, a, b, []);
    DataStep(p, false, s, a);
    DataStep(p, false, Next(p, s, a), b);
  }
}
