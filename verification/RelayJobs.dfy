/**
 The relay as the scheduler runs it: a pass is started by a worker inside the single-instance job, ends
 before the worker leaves the job, and dies with the worker. One clock drives the locks and the table.
 */
module RelayJobs {
  import opened Common
  import Scheduler
  import Outbox
  import OutboxCopies
  import OutboxRelay

  datatype State = State(workers: Scheduler.State, outbox: Outbox.State)

  // ttl: the lock's time to live; longest: no stay in the job lasts longer; batch: rows per pass.
  datatype Policy = Policy(ttl: nat, longest: nat, batch: nat)

  datatype Event =
    | Elapse(d: nat)
    | Work(work: Scheduler.Event)
    | Data(data: Outbox.Event)

  const RELAY := "outbox_relay"

  const START := State(Scheduler.IDLE, Outbox.EMPTY)

  predicate Inside(s: State, w: Id) {
    w in s.workers.stays && s.workers.stays[w].job == RELAY && !s.workers.stays[w].leaving
  }

  // How the outbox policy looks to a relay that does, or does not, rely on the lock.
  function Passes(p: Policy, exclusive: bool): Outbox.Policy {
    Outbox.Policy(exclusive, p.batch)
  }

  function Locking(p: Policy): Scheduler.Policy {
    Scheduler.Policy(p.ttl, p.longest)
  }

  // What an event does to the workers; the clock moves by Elapse only, and nobody leaves amid a pass.
  function WorkOf(s: State, e: Event): Option<Scheduler.Event> {
    match e
    case Elapse(d) => Some(Scheduler.Tick(d))
    case Work(w) => if w.Tick? || (w.Leave? && w.w in s.outbox.passes) then None else Some(w)
    case Data(_) => None
  }

  // What an event does to the outbox: a pass starts inside the job only.
  function DataOf(p: Policy, s: State, e: Event): seq<Outbox.Event> {
    match e
    case Elapse(d) => if Scheduler.InTime(Locking(p), s.workers, d) then [Outbox.Tick(d)] else []
    case Work(w) => if w.Die? then [Outbox.DiePass(w.w)] else []
    case Data(d) => if d.Tick? || (d.StartPass? && !Inside(s, d.p)) then [] else [d]
  }

  function Next(p: Policy, s: State, e: Event): State {
    var w := WorkOf(s, e);
    State(if w.Some? then Scheduler.Next(Locking(p), s.workers, w.value) else s.workers,
          Outbox.Run(Passes(p, false), s.outbox, DataOf(p, s, e)))
  }

  function Run(p: Policy, s: State, events: seq<Event>): State
    decreases |events|
  {
    if events == [] then s else Run(p, Next(p, s, events[0]), events[1..])
  }

  ghost predicate PassesInside(s: State) {
    forall w | w in s.outbox.passes :: Inside(s, w)
  }

  ghost predicate Inv(p: Policy, s: State) {
    PassesInside(s) && Scheduler.Inv(Locking(p), s.workers)
  }

  lemma DataStep(p: Policy, exclusive: bool, s: State, e: Event)
    ensures Outbox.Run(Passes(p, exclusive), s.outbox, DataOf(p, s, e))
         == if DataOf(p, s, e) == [] then s.outbox
            else Outbox.Next(Passes(p, exclusive), s.outbox, DataOf(p, s, e)[0])
  {
    if DataOf(p, s, e) != [] {
      OutboxRelay.RunOne(Passes(p, exclusive), s.outbox, DataOf(p, s, e)[0]);
    }
  }

  lemma ElapseKeeps(p: Policy, s: State, d: nat)
    requires p.longest < p.ttl && Inv(p, s)
    ensures Inv(p, Next(p, s, Elapse(d)))
  {
    DataStep(p, false, s, Elapse(d));
    Scheduler.NextKeeps(Locking(p), s.workers, Scheduler.Tick(d));
    assert Next(p, s, Elapse(d)).outbox.passes == s.outbox.passes;
  }

  lemma WorkKeeps(p: Policy, s: State, w: Scheduler.Event)
    requires p.longest < p.ttl && Inv(p, s)
    ensures Inv(p, Next(p, s, Work(w)))
  {
    var t := Next(p, s, Work(w));
    DataStep(p, false, s, Work(w));
    Scheduler.NextKeeps(Locking(p), s.workers, w);
    assert t.outbox.passes == if w.Die? then s.outbox.passes - {w.w} else s.outbox.passes;
    forall v | v in t.outbox.passes ensures Inside(t, v) {
      assert Inside(s, v);
    }
  }

  lemma DataKeeps(p: Policy, s: State, d: Outbox.Event)
    requires p.longest < p.ttl && Inv(p, s)
    ensures Inv(p, Next(p, s, Data(d)))
  {
    var t := Next(p, s, Data(d));
    DataStep(p, false, s, Data(d));
    assert t.workers == s.workers;
    forall v | v in t.outbox.passes ensures Inside(t, v) {
      assert v in s.outbox.passes || Inside(s, v);
    }
  }

  lemma NextKeeps(p: Policy, s: State, e: Event)
    requires p.longest < p.ttl && Inv(p, s)
    ensures Inv(p, Next(p, s, e))
  {
    match e
    case Elapse(d) => ElapseKeeps(p, s, d);
    case Work(w) => WorkKeeps(p, s, w);
    case Data(d) => DataKeeps(p, s, d);
  }

  // While the lock outlives every stay, a relay that does not look for other passes meets none.
  lemma NobodyElse(p: Policy, s: State, e: Event)
    requires p.longest < p.ttl && Inv(p, s)
    ensures Next(p, s, e).outbox == Outbox.Run(Passes(p, true), s.outbox, DataOf(p, s, e))
  {
    DataStep(p, false, s, e);
    DataStep(p, true, s, e);
    if e.Data? && e.data.StartPass? && Inside(s, e.data.p) && s.outbox.passes != map[] {
      var other :| other in s.outbox.passes;
      assert Inside(s, other);
      assert other == e.data.p;
    }
  }

  // The outbox of a composed run is that of an outbox run, without overlap if the lock outlives every stay.
  lemma {:induction false} OutboxRun(p: Policy, exclusive: bool, s: State, events: seq<Event>)
    returns (run: seq<Outbox.Event>)
    requires exclusive ==> p.longest < p.ttl && Inv(p, s)
    ensures Run(p, s, events).outbox == Outbox.Run(Passes(p, exclusive), s.outbox, run)
    decreases |events|
  {
    if events == [] {
      run := [];
    } else {
      if exclusive {
        NextKeeps(p, s, events[0]);
        NobodyElse(p, s, events[0]);
      }
      var rest := OutboxRun(p, exclusive, Next(p, s, events[0]), events[1..]);
      run := DataOf(p, s, events[0]) + rest;
      OutboxRelay.RunAppend(Passes(p, exclusive), s.outbox, DataOf(p, s, events[0]), rest);
    }
  }

  // Whether or not the lock holds up: every committed event is a pending row or in the log, rows marked
  // published are in the log, and the log holds committed events only.
  lemma ComposedLosesNothing(p: Policy, events: seq<Event>)
    ensures var s := Run(p, START, events).outbox;
      && (forall id | id in s.committed :: Outbox.Pending(s.table, id) || Outbox.Delivery(id, s.committed[id]) in s.log)
      && (forall id | id in s.table.rows && s.table.rows[id].published.Some? ::
            id in s.committed && Outbox.Delivery(id, s.committed[id]) in s.log)
      && (forall d | d in s.log :: d.id in s.committed && d.message == s.committed[d.id])
  {
    var run := OutboxRun(p, false, START, events);
    Outbox.LosesAndInventsNothing(Passes(p, false), run);
  }

  // An event whose row is settled was delivered once, plus once for each pass that published it and
  // ended without marking it.
  lemma DeliveredOncePlusLost(p: Policy, events: seq<Event>, id: Id)
    requires p.longest < p.ttl
    ensures var s := Run(p, START, events).outbox;
      && (OutboxCopies.Settled(s, id) ==> OutboxCopies.Copies(s.log, id) == 1 + s.lost[id])
      && OutboxCopies.Copies(s.log, id) <= 1 + s.lost[id]
  {
    var run := OutboxRun(p, true, START, events);
    OutboxCopies.CopiesAccounted(Passes(p, true), run, id);
  }

  ghost predicate BoundedAfter(p: Policy, events: seq<Event>, id: Id) {
    OutboxCopies.Copies(Run(p, START, events).outbox.log, id) <= 1 + Run(p, START, events).outbox.lost[id]
  }

  ghost predicate AlwaysBounded(p: Policy) {
    forall events, id :: BoundedAfter(p, events, id)
  }

  lemma RunTwo(p: Policy, s: State, a: Event, b: Event, rest: seq<Event>)
    ensures Run(p, s, [a, b] + rest) == Run(p, Next(p, Next(p, s, a), b), rest)
  {
    var all := [a, b] + rest;
    assert all[1..] == [b] + rest && all[1..][1..] == rest;
  }

  const TABLED := Outbox.EMPTY.(
    table := OutboxCopies.NOTED,
    used := {7}, committed := map[7 := OutboxCopies.NOTE])

  const COPY := OutboxCopies.COPY

  lemma NoteTabled(p: Policy, rest: seq<Event>)
    ensures Run(p, START, [Data(Outbox.AddEvent(0, 7, OutboxCopies.NOTE)), Data(Outbox.CommitTx(0, 0))] + rest)
         == Run(p, State(Scheduler.IDLE, TABLED), rest)
  {
    var a, b := Data(Outbox.AddEvent(0, 7, OutboxCopies.NOTE)), Data(Outbox.CommitTx(0, 0));
    RunTwo(p, START, a, b, rest);
    DataStep(p, false, START, a);
    var s := Next(p, START, a);
    DataStep(p, false, s, b);
    assert Next(p, s, b).outbox == TABLED;
  }

  lemma WorkerStarts(p: Policy, s: State, w: Id)
    requires p.batch >= 1 && w !in s.workers.stays && !Scheduler.Locked(s.workers, RELAY)
    requires s.outbox.table == TABLED.table && w !in s.outbox.passes
    ensures var t := Next(p, Next(p, s, Work(Scheduler.Acquire(w, RELAY))), Data(Outbox.StartPass(w)));
      && t.workers == Scheduler.Next(Locking(p), s.workers, Scheduler.Acquire(w, RELAY))
      && t.outbox == s.outbox.(passes := s.outbox.passes[w := Outbox.Pass([COPY], [])])
  {
    OutboxCopies.NotedBatch(p.batch);
    DataStep(p, false, s, Work(Scheduler.Acquire(w, RELAY)));
    var t := Next(p, s, Work(Scheduler.Acquire(w, RELAY)));
    DataStep(p, false, t, Data(Outbox.StartPass(w)));
  }

  function Overlap(ttl: nat): seq<Event> {
    [Data(Outbox.AddEvent(0, 7, OutboxCopies.NOTE)), Data(Outbox.CommitTx(0, 0))]
    + ([Work(Scheduler.Acquire(1, RELAY)), Data(Outbox.StartPass(1))]
    + ([Elapse(ttl), Elapse(0)]
    + ([Work(Scheduler.Acquire(2, RELAY)), Data(Outbox.StartPass(2))]
    + ([Data(Outbox.Publish(1, Outbox.Delivered)), Data(Outbox.Publish(2, Outbox.Delivered))] + []))))
  }

  // A stay as long as the lock: the second worker's pass fetches the row the first is about to publish.
  lemma OverstayDuplicates(p: Policy)
    requires p.ttl <= p.longest && p.batch >= 1
    ensures !BoundedAfter(p, Overlap(p.ttl), 7)
  {
    var last := [Data(Outbox.Publish(1, Outbox.Delivered)), Data(Outbox.Publish(2, Outbox.Delivered))] + [];
    var second := [Work(Scheduler.Acquire(2, RELAY)), Data(Outbox.StartPass(2))];
    var first := [Work(Scheduler.Acquire(1, RELAY)), Data(Outbox.StartPass(1))];
    var wait := [Elapse(p.ttl), Elapse(0)];
    NoteTabled(p, first + (wait + (second + last)));
    var s0 := State(Scheduler.IDLE, TABLED);
    RunTwo(p, s0, first[0], first[1], wait + (second + last));
    WorkerStarts(p, s0, 1);
    var s1 := Next(p, Next(p, s0, first[0]), first[1]);
    RunTwo(p, s1, wait[0], wait[1], second + last);
    DataStep(p, false, s1, wait[0]);
    var m := Next(p, s1, wait[0]);
    DataStep(p, false, m, wait[1]);
    var s2 := Next(p, m, wait[1]);
    RunTwo(p, s2, second[0], second[1], last);
    WorkerStarts(p, s2, 2);
    var s3 := Next(p, Next(p, s2, second[0]), second[1]);
    BothPublish(p, s3);
  }

  lemma BothPublish(p: Policy, s: State)
    requires s.outbox.log == [] && s.outbox.lost == multiset{}
    requires s.outbox.passes == map[1 := Outbox.Pass([COPY], []), 2 := Outbox.Pass([COPY], [])]
    ensures var end := Run(p, s, [Data(Outbox.Publish(1, Outbox.Delivered)), Data(Outbox.Publish(2, Outbox.Delivered))] + []).outbox;
      OutboxCopies.Copies(end.log, 7) == 2 && end.lost == multiset{}
  {
    var a, b := Data(Outbox.Publish(1, Outbox.Delivered)), Data(Outbox.Publish(2, Outbox.Delivered));
    RunTwo(p, s, a, b, []);
    DataStep(p, false, s, a);
    var t := Next(p, s, a);
    DataStep(p, false, t, b);
    assert Next(p, t, b).outbox.log == [] + [COPY] + [COPY];
    OutboxCopies.CopiesOneMore([] + [COPY], COPY, 7);
    OutboxCopies.CopiesOneMore([], COPY, 7);
  }

  // No event is copied beyond once plus its lost publications, in every run of the scheduled relay,
  // exactly when every stay in the job ends before its lock expires (or a pass fetches nothing).
  lemma ScheduledRelayExactly(p: Policy)
    ensures AlwaysBounded(p) <==> p.longest < p.ttl || p.batch == 0
  {
    if p.longest < p.ttl {
      forall events, id ensures BoundedAfter(p, events, id) {
        DeliveredOncePlusLost(p, events, id);
      }
    } else if p.batch == 0 {
      forall events, id ensures BoundedAfter(p, events, id) {
        var run := OutboxRun(p, false, START, events);
        OutboxCopies.IdlePasses(Passes(p, false), Outbox.EMPTY, run);
      }
    } else {
      OverstayDuplicates(p);
    }
  }
}
