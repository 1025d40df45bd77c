/**
 The transactional outbox: events inserted with the business row, relay passes in three phases that
 may die between any two of them, and a retention job, interleaved in every order.
 */
module Outbox {
  import opened Common

  datatype Message = Message(topic: string, payload: string, key: Option<string>)

  datatype Row = Row(message: Message, published: Option<nat>, attempts: nat)

  // The table: its rows, and the order of their creation times (ties broken somehow).
  datatype Table = Table(rows: map<Id, Row>, order: seq<Id>)

  // One append to the broker's log; the id says which row it came from and is not part of the message.
  datatype Delivery = Delivery(id: Id, message: Message)

  // What a publish call does: appends and returns, raises without appending, or appends and raises.
  datatype Outcome = Delivered | Refused | Ambiguous

  predicate Pending(t: Table, id: Id) {
    id in t.rows && t.rows[id].published.None?
  }

  // ----- the repository's statements -----

  function Insert(t: Table, at: nat, id: Id, m: Message): Table {
    var i := Min(at, |t.order|);
    Table(t.rows[id := Row(m, None, 0)], t.order[..i] + [id] + t.order[i..])
  }

  function Unpublished(order: seq<Id>, t: Table): seq<Id> {
    if order == [] then []
    else (if Pending(t, order[0]) then [order[0]] else []) + Unpublished(order[1..], t)
  }

  function Take(ids: seq<Id>, n: nat): seq<Id> {
    ids[..Min(n, |ids|)]
  }

  function Fetch(t: Table, limit: nat): seq<Id> {
    Take(Unpublished(t.order, t), limit)
  }

  function Mark(t: Table, ids: set<Id>, now: nat): Table {
    t.(rows := map id | id in t.rows ::
         if id in ids then t.rows[id].(published := Some(now), attempts := t.rows[id].attempts + 1) else t.rows[id])
  }

  function DeleteBefore(t: Table, cutoff: int): Table {
    t.(rows := map id | id in t.rows && !(t.rows[id].published.Some? && t.rows[id].published.value < cutoff) ::
         t.rows[id])
  }

  // ----- the machine -----

  datatype Staged = Staged(id: Id, message: Message)

  // A pass between its two transactions: what is still to publish, and what was published.
  datatype Pass = Pass(todo: seq<Delivery>, sent: seq<Id>)

  datatype State = State(
    now: nat,
    table: Table,
    log: seq<Delivery>,
    staged: map<Id, Staged>,     // business transaction -> the event it has added
    passes: map<Id, Pass>,
    used: set<Id>,
    committed: map<Id, Message>, // every event of a committed transaction
    lost: multiset<Id>)          // publications whose pass ended without marking the row

  datatype Policy = Policy(exclusive: bool, batch: nat)  // exclusive: relay passes never overlap

  datatype Event =
    | Tick(d: nat)
    | AddEvent(tx: Id, id: Id, message: Message)
    | CommitTx(tx: Id, at: nat)  // at: where the row falls in creation order
    | RollbackTx(tx: Id)
    | StartPass(p: Id)
    | Publish(p: Id, outcome: Outcome)
    | EndPass(p: Id)             // the marking transaction commits
    | DiePass(p: Id)             // crash, or the marking transaction fails
    | Cleanup(cutoff: int)

  const EMPTY := State(0, Table(map[], []), [], map[], map[], {}, map[], multiset{})

  function Batch(t: Table, n: nat): seq<Delivery> {
    var ids := Fetch(t, n);
    Deliveries(t, ids)
  }

  function Deliveries(t: Table, ids: seq<Id>): seq<Delivery> {
    if ids == [] then []
    else (if ids[0] in t.rows then [Delivery(ids[0], t.rows[ids[0]].message)] else []) + Deliveries(t, ids[1..])
  }

  function AfterPublish(s: State, p: Id, outcome: Outcome): State
    requires p in s.passes && s.passes[p].todo != []
  {
    var Pass(todo, sent) := s.passes[p];
    match outcome
    case Delivered =>
      s.(log := s.log + [todo[0]], passes := s.passes[p := Pass(todo[1..], sent + [todo[0].id])])
    case Refused => s.(passes := s.passes[p := Pass(todo[1..], sent)])
    case Ambiguous =>
      s.(log := s.log + [todo[0]], passes := s.passes[p := Pass(todo[1..], sent)],
         lost := s.lost + multiset{todo[0].id})
  }

  function Next(pol: Policy, s: State, e: Event): State {
    match e
    case Tick(d) => s.(now := s.now + d)
    case AddEvent(tx, id, m) =>
      if tx in s.staged || id in s.used then s
      else s.(staged := s.staged[tx := Staged(id, m)], used := s.used + {id})
    case CommitTx(tx, at) =>
      if tx !in s.staged then s
      else
        var Staged(id, m) := s.staged[tx];
        s.(table := Insert(s.table, at, id, m), committed := s.committed[id := m], staged := s.staged - {tx})
    case RollbackTx(tx) => s.(staged := s.staged - {tx})
    case StartPass(p) =>
      if p in s.passes || (pol.exclusive && s.passes != map[]) || Batch(s.table, pol.batch) == [] then s
      else s.(passes := s.passes[p := Pass(Batch(s.table, pol.batch), [])])
    case Publish(p, outcome) =>
      if p in s.passes && s.passes[p].todo != [] then AfterPublish(s, p, outcome) else s
    case EndPass(p) =>
      if p in s.passes && s.passes[p].todo == [] then
        s.(table := Mark(s.table, (set id | id in s.passes[p].sent), s.now), passes := s.passes - {p})
      else s
    case DiePass(p) =>
      if p in s.passes then s.(passes := s.passes - {p}, lost := s.lost + multiset(s.passes[p].sent)) else s
    case Cleanup(cutoff) => s.(table := DeleteBefore(s.table, cutoff))
  }

  function Run(pol: Policy, s: State, events: seq<Event>): State
    decreases |events|
  {
    if events == [] then s else Run(pol, Next(pol, s, events[0]), events[1..])
  }

  // ----- nothing lost, nothing invented: any number of overlapping passes -----

  ghost predicate InLog(s: State, id: Id) {
    id in s.committed && Delivery(id, s.committed[id]) in s.log
  }

  ghost predicate StagedOk(s: State) {
    && (forall tx | tx in s.staged :: s.staged[tx].id in s.used && s.staged[tx].id !in s.committed)
    && (forall tx, ty | tx in s.staged && ty in s.staged && tx != ty :: s.staged[tx].id != s.staged[ty].id)
    && s.committed.Keys <= s.used
  }

  ghost predicate RowsOk(s: State) {
    forall id | id in s.table.rows ::
      && id in s.committed && s.table.rows[id].message == s.committed[id]
      && (s.table.rows[id].published.Some? ==> InLog(s, id))
  }

  ghost predicate NothingLost(s: State) {
    forall id | id in s.committed :: Pending(s.table, id) || InLog(s, id)
  }

  ghost predicate NothingInvented(s: State) {
    forall d | d in s.log :: d.id in s.committed && d.message == s.committed[d.id]
  }

  ghost predicate PassesOk(s: State) {
    forall p | p in s.passes ::
      && (forall d | d in s.passes[p].todo :: d.id in s.committed && d.message == s.committed[d.id])
      && (forall id | id in s.passes[p].sent :: InLog(s, id))
  }

  ghost predicate Inv(s: State) {
    StagedOk(s) && RowsOk(s) && NothingLost(s) && NothingInvented(s) && PassesOk(s)
  }

  lemma {:induction false} BatchFromTable(t: Table, ids: seq<Id>)
    ensures forall d | d in Deliveries(t, ids) :: d.id in ids && d.id in t.rows && d.message == t.rows[d.id].message
  {
    if ids != [] {
      BatchFromTable(t, ids[1..]);
    }
  }

  lemma PublishKeeps(s: State, p: Id, outcome: Outcome)
    requires Inv(s) && p in s.passes && s.passes[p].todo != []
    ensures Inv(AfterPublish(s, p, outcome))
  {
    var t := AfterPublish(s, p, outcome);
    var d := s.passes[p].todo[0];
    assert d in s.passes[p].todo;
    forall id | InLog(s, id) ensures InLog(t, id) {}
  }

  lemma EndPassKeeps(pol: Policy, s: State, p: Id)
    requires Inv(s) && p in s.passes
    ensures Inv(Next(pol, s, EndPass(p)))
  {
    var t := Next(pol, s, EndPass(p));
    forall id | InLog(s, id) ensures InLog(t, id) {}
    forall id | id in t.committed ensures Pending(t.table, id) || InLog(t, id) {
      assert Pending(s.table, id) || InLog(s, id);
    }
  }

  lemma CommitKeeps(pol: Policy, s: State, tx: Id, at: nat)
    requires Inv(s) && tx in s.staged
    ensures Inv(Next(pol, s, CommitTx(tx, at)))
  {
    var t := Next(pol, s, CommitTx(tx, at));
    var id := s.staged[tx].id;
    forall other | InLog(s, other) ensures InLog(t, other) {}
    forall other | other in t.committed ensures Pending(t.table, other) || InLog(t, other) {
      if other != id {
        assert Pending(s.table, other) || InLog(s, other);
      }
    }
  }

  lemma NextKeeps(pol: Policy, s: State, e: Event)
    requires Inv(s)
    ensures Inv(Next(pol, s, e))
  {
    match e
    case CommitTx(tx, at) => if tx in s.staged { CommitKeeps(pol, s, tx, at); }
    case Publish(p, outcome) =>
      if p in s.passes && s.passes[p].todo != [] { PublishKeeps(s, p, outcome); }
    case EndPass(p) => if p in s.passes { EndPassKeeps(pol, s, p); }
    case StartPass(p) => StartKeeps(pol, s, p);
    case _ => QuietKeeps(pol, s, e);
  }

  lemma StartKeeps(pol: Policy, s: State, p: Id)
    requires Inv(s)
    ensures Inv(Next(pol, s, StartPass(p)))
  {
    BatchFromTable(s.table, Fetch(s.table, pol.batch));
  }

  lemma QuietKeeps(pol: Policy, s: State, e: Event)
    requires Inv(s) && (e.Tick? || e.AddEvent? || e.RollbackTx? || e.DiePass? || e.Cleanup?)
    ensures Inv(Next(pol, s, e))
  {
    var t := Next(pol, s, e);
    forall id | id in t.committed ensures Pending(t.table, id) || InLog(t, id) {
      assert Pending(s.table, id) || InLog(s, id);
    }
  }

  lemma {:induction false} RunKeeps(pol: Policy, s: State, events: seq<Event>)
    requires Inv(s)
    ensures Inv(Run(pol, s, events))
    decreases |events|
  {
    if events != [] {
      NextKeeps(pol, s, events[0]);
      RunKeeps(pol, Next(pol, s, events[0]), events[1..]);
    }
  }

  // ----- what the steps achieve -----

  // A pass that ends marks exactly what it sent, with the time of its end, and keeps every other row.
  lemma EndPassMarks(pol: Policy, s: State, p: Id)
    requires p in s.passes && s.passes[p].todo == []
    ensures var t := Next(pol, s, EndPass(p));
      && t.passes == s.passes - {p} && t.log == s.log && t.lost == s.lost
      && t.table.rows.Keys == s.table.rows.Keys && t.table.order == s.table.order
      && forall id | id in s.table.rows ::
           t.table.rows[id] == if id in s.passes[p].sent
             then s.table.rows[id].(published := Some(s.now), attempts := s.table.rows[id].attempts + 1)
             else s.table.rows[id]
  {
  }

  // A row that was marked is there for as long after as the retention says: a clean-up removes exactly
  // the rows marked before its cutoff.
  lemma CleanupRemovesExactly(pol: Policy, s: State, cutoff: int, id: Id)
    ensures var t := Next(pol, s, Cleanup(cutoff));
      && t == s.(table := t.table) && t.table.order == s.table.order
      && (id in t.table.rows <==>
            id in s.table.rows && (s.table.rows[id].published.None? || cutoff <= s.table.rows[id].published.value))
      && (id in t.table.rows ==> t.table.rows[id] == s.table.rows[id])
  {
  }

  // So a row marked now outlives a clean-up after d ticks with that retention exactly when d is not longer.
  lemma RetainedExactly(pol: Policy, s: State, p: Id, id: Id, d: nat, retention: nat)
    requires p in s.passes && s.passes[p].todo == [] && id in s.passes[p].sent && id in s.table.rows
    ensures var t := Next(pol, Next(pol, s, EndPass(p)), Tick(d));
      id in Next(pol, t, Cleanup(t.now - retention)).table.rows <==> d <= retention
  {
  }

  // A committed transaction's event is a new unpublished row; one that is staged or rolled back is none.
  lemma CommitInserts(pol: Policy, s: State, tx: Id, at: nat)
    requires tx in s.staged
    ensures var t, id := Next(pol, s, CommitTx(tx, at)), s.staged[tx].id;
      && tx !in t.staged && id in t.committed && t.committed[id] == s.staged[tx].message
      && t.table == Insert(s.table, at, id, s.staged[tx].message) && Pending(t.table, id)
    ensures var t := Next(pol, s, RollbackTx(tx)); tx !in t.staged && t.table == s.table && t.committed == s.committed
  {
  }

  // A pass starts with the oldest pending rows, if there are any and no other pass is in its way.
  lemma StartsExactly(pol: Policy, s: State, p: Id)
    requires p !in s.passes
    ensures var t := Next(pol, s, StartPass(p));
      && (p in t.passes <==> Batch(s.table, pol.batch) != [] && (pol.exclusive ==> s.passes == map[]))
      && (p in t.passes ==> t == s.(passes := s.passes[p := Pass(Batch(s.table, pol.batch), [])]))
  {
  }

  // In every run: a committed event is an unpublished row or in the log, a row marked published is in
  // the log, and the log holds committed events only, as they were written.
  lemma LosesAndInventsNothing(pol: Policy, events: seq<Event>)
    ensures var s := Run(pol, EMPTY, events);
      && (forall id | id in s.committed :: Pending(s.table, id) || Delivery(id, s.committed[id]) in s.log)
      && (forall id | id in s.table.rows && s.table.rows[id].published.Some? ::
            id in s.committed && Delivery(id, s.committed[id]) in s.log)
      && (forall d | d in s.log :: d.id in s.committed && d.message == s.committed[d.id])
  {
    RunKeeps(pol, EMPTY, events);
  }

  // ----- what a rollback erases -----

  // An event whose transaction has ended without a commit never reaches the log.
  predicate Abandoned(s: State, id: Id) {
    id in s.used && id !in s.committed && forall tx | tx in s.staged :: s.staged[tx].id != id
  }

  lemma {:induction false} AbandonedStays(pol: Policy, s: State, events: seq<Event>, id: Id)
    requires Abandoned(s, id)
    ensures Abandoned(Run(pol, s, events), id)
    decreases |events|
  {
    if events != [] {
      assert Abandoned(Next(pol, s, events[0]), id);
      AbandonedStays(pol, Next(pol, s, events[0]), events[1..], id);
    }
  }

  lemma RolledBackNeverDelivered(pol: Policy, before: seq<Event>, tx: Id, after: seq<Event>, m: Message)
    requires var s := Run(pol, EMPTY, before); tx in s.staged
    ensures var s := Run(pol, EMPTY, before);
      Delivery(s.staged[tx].id, m) !in Run(pol, Next(pol, s, RollbackTx(tx)), after).log
  {
    var s := Run(pol, EMPTY, before);
    var id := s.staged[tx].id;
    RunKeeps(pol, EMPTY, before);
    NextKeeps(pol, s, RollbackTx(tx));
    var t := Next(pol, s, RollbackTx(tx));
    assert Abandoned(t, id);
    AbandonedStays(pol, t, after, id);
    RunKeeps(pol, t, after);
  }
}
