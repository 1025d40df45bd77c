/** One call of the money machine left alone, and the exact condition for "at most one effect per key". */
module MoneySolo {
  import opened Common
  import opened Operations
  import opened Money
  import opened MoneySafety
  import opened MoneyTheorems

  // What one call does when nothing interferes: new cells, new accounts, new commits, outcome.
  datatype Handled = Handled(cells: map<Key, Stored>, accounts: map<Id, AccountRead>, outcome: Outcome)

  function Handle(users: set<Id>, categories: set<Id>, cells: map<Key, Stored>,
                  accounts: map<Id, AccountRead>, q: Request): Handled
  {
    if Keyed(q) && q.key.value in cells then
      match cells[q.key.value]
      case Marker => Handled(cells, accounts, Conflict)
      case Saved(response) => Handled(cells, accounts, Replayed(response))
    else
      match Perform(users, categories, accounts, q.op)
      case None => Handled(cells, accounts, Failed(ProduceRaised(Refused)))
      case Some(row) =>
        Handled(if Keyed(q) then cells[q.key.value := Saved(row)] else cells,
                accounts[Target(q.op) := row], Success(row))
  }

  function Steps(c: Id, actions: seq<Action>): seq<Event> {
    if actions == [] then [] else [Step(c, actions[0])] + Steps(c, actions[1..])
  }

  // The order in which the code awaits; the branches it does not take find their step disabled.
  const WHOLE_CALL: seq<Action> := [SetNx, Get, Open, Flush, Commit, CacheDelete, Save, Return, Release]

  function WholeCall(c: Id, q: Request): seq<Event> {
    [Submit(c, q)] + Steps(c, WHOLE_CALL)
  }

  function Acts(p: Policy, s: State, c: Id, actions: seq<Action>): State
    requires c in s.calls
    ensures c in Acts(p, s, c, actions).calls
    decreases |actions|
  {
    if actions == [] then s else Acts(p, Act(p, s, c, actions[0]), c, actions[1..])
  }

  lemma RunCons(p: Policy, s: State, e: Event, rest: seq<Event>)
    ensures Run(p, s, [e] + rest) == Run(p, Next(p, s, e), rest)
  {
    assert ([e] + rest)[1..] == rest;
  }

  lemma RunStep(p: Policy, s: State, c: Id, action: Action, rest: seq<Event>)
    requires c in s.calls
    ensures Run(p, s, [Step(c, action)] + rest) == Run(p, Act(p, s, c, action), rest)
  {
    RunCons(p, s, Step(c, action), rest);
  }

  lemma {:induction false} RunSteps(p: Policy, s: State, c: Id, actions: seq<Action>)
    requires c in s.calls
    ensures Run(p, s, Steps(c, actions)) == Acts(p, s, c, actions)
    decreases |actions|
  {
    if actions != [] {
      var rest := Steps(c, actions[1..]);
      calc {
        Run(p, s, Steps(c, actions));
        { assert Steps(c, actions) == [Step(c, actions[0])] + rest; }
        Run(p, s, [Step(c, actions[0])] + rest);
        { RunStep(p, s, c, actions[0], rest); }
        Run(p, Act(p, s, c, actions[0]), rest);
        { RunSteps(p, Act(p, s, c, actions[0]), c, actions[1..]); }
        Acts(p, Act(p, s, c, actions[0]), c, actions[1..]);
      }
    }
  }

  lemma {:induction false} RunAppend(p: Policy, s: State, a: seq<Event>, b: seq<Event>)
    ensures Run(p, s, a + b) == Run(p, Run(p, s, a), b)
    decreases |a|
  {
    if a == [] {
      assert a + b == b;
    } else {
      assert (a + b)[1..] == a[1..] + b;
      RunAppend(p, Next(p, s, a[0]), a[1..], b);
    }
  }

  lemma {:induction false} ActsAppend(p: Policy, s: State, c: Id, a: seq<Action>, b: seq<Action>)
    requires c in s.calls
    ensures Acts(p, s, c, a + b) == Acts(p, Acts(p, s, c, a), c, b)
    decreases |a|
  {
    if a == [] {
      assert a + b == b;
    } else {
      assert (a + b)[1..] == a[1..] + b;
      ActsAppend(p, Act(p, s, c, a[0]), c, a[1..], b);
    }
  }

  lemma ActsTwo(p: Policy, s: State, c: Id, a: Action, b: Action)
    requires c in s.calls
    ensures Acts(p, s, c, [a, b]) == Act(p, Act(p, s, c, a), c, b)
  {
    assert [a, b][1..] == [b] && [b][1..] == [];
    assert Acts(p, Act(p, s, c, a), c, [b]) == Acts(p, Act(p, Act(p, s, c, a), c, b), c, []);
  }

  // No other transaction holds the row this call needs, and the call holds none.
  ghost predicate Unhindered(s: State, c: Id, op: Op) {
    && (!op.OpenAccount? ==> op.account !in s.locks)
    && (forall a | a in s.locks :: s.locks[a] != c)
  }

  function AfterFailure(s: State, c: Id): State
    requires c in s.calls
  {
    Moved(s, c, if Keyed(s.calls[c].request) then Raised(Refused) else Done(Failed(ProduceRaised(Refused))))
  }

  lemma OpenAlone(p: Policy, s: State, c: Id)
    requires c in s.calls && s.calls[c].phase.Producing? && Unhindered(s, c, s.calls[c].request.op)
    ensures Act(p, s, c, Open) ==
      var op := s.calls[c].request.op;
      match Loaded(s.users, s.accounts, op)
      case None => AfterFailure(s, c)
      case Some(row) => Moved(s.(locks := if op.OpenAccount? then s.locks else s.locks[op.account := c]), c, InTx(row))
  {
    assert Unlocked(s.locks, c) == s.locks;
  }

  // Inside the transaction: the row is locked and read.
  ghost predicate RowTaken(s: State, t: State, c: Id, row: AccountRead)
    requires c in s.calls
  {
    var op := s.calls[c].request.op;
    && Unhindered(s, c, op)
    && t == Moved(s.(locks := if op.OpenAccount? then s.locks else s.locks[op.account := c]), c, InTx(row))
  }

  lemma FlushAndCommitAlone(p: Policy, s: State, t: State, c: Id, row: AccountRead)
    requires c in s.calls && RowTaken(s, t, c, row)
    ensures Act(p, Act(p, t, c, Flush), c, Commit) ==
      var q := s.calls[c].request;
      match Changed(s.categories, q.op, row)
      case None => AfterFailure(s, c)
      case Some(row') =>
        if q.op.OpenAccount? && q.op.id in s.accounts then AfterFailure(s, c)
        else Moved(s.(accounts := s.accounts[Target(q.op) := row'], effects := s.effects + [Effect(c, q, row')]),
                   c, Committed(row'))
  {
    var changed := Changed(s.categories, s.calls[c].request.op, row);
    if changed.Some? {
      CommitAlone(p, s, t, c, row, changed.value);
    }
  }

  // The commit itself, answered.
  lemma CommitAlone(p: Policy, s: State, t: State, c: Id, row: AccountRead, row': AccountRead)
    requires c in s.calls && RowTaken(s, t, c, row)
    ensures var q := s.calls[c].request;
      AfterCommit(Moved(t, c, Staged(row')), c, true) ==
      if q.op.OpenAccount? && q.op.id in s.accounts then AfterFailure(s, c)
      else Moved(s.(accounts := s.accounts[Target(q.op) := row'], effects := s.effects + [Effect(c, q, row')]),
                 c, Committed(row'))
  {
    assert Unlocked(t.locks, c) == s.locks;
  }

  // And with its reply lost.
  lemma UnansweredCommitAlone(p: Policy, s: State, t: State, c: Id, row: AccountRead, row': AccountRead)
    requires c in s.calls && RowTaken(s, t, c, row)
    requires var op := s.calls[c].request.op; op.OpenAccount? ==> op.id !in s.accounts
    ensures var q := s.calls[c].request;
      AfterCommit(Moved(t, c, Staged(row')), c, false) ==
      Moved(s.(accounts := s.accounts[Target(q.op) := row'], effects := s.effects + [Effect(c, q, row')]),
            c, if Keyed(q) then Raised(Late) else Done(Failed(ProduceRaised(Late))))
  {
    assert Unlocked(t.locks, c) == s.locks;
    assert Unlocked(s.locks, c) == s.locks;
  }

  // The transaction of one call, from its first statement to the return of produce.
  lemma TransactionAlone(p: Policy, s: State, c: Id)
    requires c in s.calls && s.calls[c].phase.Producing? && Unhindered(s, c, s.calls[c].request.op)
    ensures Acts(p, s, c, [Open, Flush] + [Commit, CacheDelete]) ==
      var q := s.calls[c].request;
      match Perform(s.users, s.categories, s.accounts, q.op)
      case None => AfterFailure(s, c)
      case Some(row) =>
        Moved(s.(accounts := s.accounts[Target(q.op) := row], effects := s.effects + [Effect(c, q, row)]),
              c, if Keyed(q) then Produced(row) else Done(Success(row)))
  {
    var q := s.calls[c].request;
    ActsAppend(p, s, c, [Open, Flush], [Commit, CacheDelete]);
    ActsTwo(p, s, c, Open, Flush);
    var t := Act(p, s, c, Open);
    ActsTwo(p, Act(p, t, c, Flush), c, Commit, CacheDelete);
    CommittedAlone(p, s, t, c);
  }

  // The same up to the commit, from the state in which the row has been looked up.
  lemma CommittedAlone(p: Policy, s: State, t: State, c: Id)
    requires c in s.calls && s.calls[c].phase.Producing? && Unhindered(s, c, s.calls[c].request.op)
    requires t == Act(p, s, c, Open)
    ensures Act(p, Act(p, t, c, Flush), c, Commit) ==
      var q := s.calls[c].request;
      match Perform(s.users, s.categories, s.accounts, q.op)
      case None => AfterFailure(s, c)
      case Some(row) =>
        Moved(s.(accounts := s.accounts[Target(q.op) := row], effects := s.effects + [Effect(c, q, row)]), c, Committed(row))
  {
    OpenAlone(p, s, c);
    var loaded := Loaded(s.users, s.accounts, s.calls[c].request.op);
    if loaded.Some? {
      FlushAndCommitAlone(p, s, t, c, loaded.value);
    }
  }

  lemma FinishAlone(p: Policy, s: State, c: Id)
    requires c in s.calls
    requires s.calls[c].phase.Done? || (Keyed(s.calls[c].request)
             && (s.calls[c].phase.Produced?
                 || (s.calls[c].phase == Raised(Refused)
                     && s.calls[c].request.key.value in s.cells && s.cells[s.calls[c].request.key.value].Marker?)))
    ensures Acts(p, s, c, [Save, Return] + [Release]) ==
      var q := s.calls[c].request;
      match s.calls[c].phase
      case Produced(row) => Moved(s.(cells := s.cells[q.key.value := Saved(row)]), c, Done(Success(row)))
      case Raised(_) => Moved(s.(cells := s.cells - {q.key.value}), c, Done(Failed(ProduceRaised(Refused))))
      case _ => s
  {
    ActsAppend(p, s, c, [Save, Return], [Release]);
    ActsTwo(p, s, c, Save, Return);
    var t := Act(p, Act(p, s, c, Save), c, Return);
    assert [Release][1..] == [];
    assert Acts(p, t, c, [Release]) == Acts(p, Act(p, t, c, Release), c, []) == Act(p, t, c, Release);
  }

  lemma AcquireAlone(p: Policy, s: State, c: Id)
    requires c in s.calls && s.calls[c].phase == (if Keyed(s.calls[c].request) then Start else Producing)
    ensures Acts(p, s, c, [SetNx, Get]) ==
      var q := s.calls[c].request;
      if !Keyed(q) then s
      else if q.key.value !in s.cells then Moved(s.(cells := s.cells[q.key.value := Marker]), c, Producing)
      else match s.cells[q.key.value]
        case Marker => Moved(s, c, Done(Conflict))
        case Saved(response) => Moved(s, c, Done(Replayed(response)))
  {
    ActsTwo(p, s, c, SetNx, Get);
  }

  lemma DoneStaysDone(p: Policy, s: State, c: Id)
    requires c in s.calls && s.calls[c].phase.Done?
    ensures Acts(p, s, c, [Open, Flush] + [Commit, CacheDelete]) == s
  {
    ActsAppend(p, s, c, [Open, Flush], [Commit, CacheDelete]);
    ActsTwo(p, s, c, Open, Flush);
    ActsTwo(p, s, c, Commit, CacheDelete);
  }

  const TRANSACTION: seq<Action> := [Open, Flush] + [Commit, CacheDelete]
  const FINISH: seq<Action> := [Save, Return] + [Release]

  lemma WholeCallOrder()
    ensures WHOLE_CALL == [SetNx, Get] + (TRANSACTION + FINISH)
  {
  }

  lemma SubmitThenSteps(p: Policy, s: State, c: Id, q: Request, actions: seq<Action>)
    requires c !in s.calls && Accepted(q.op)
    ensures Run(p, s, [Submit(c, q)] + Steps(c, actions)) == Acts(p, AfterSubmit(s, c, q), c, actions)
  {
    RunCons(p, s, Submit(c, q), Steps(c, actions));
    RunSteps(p, AfterSubmit(s, c, q), c, actions);
  }

  lemma WholeCallParts(p: Policy, s: State, c: Id, q: Request)
    requires c !in s.calls && Accepted(q.op)
    ensures Run(p, s, WholeCall(c, q)) ==
      Acts(p, Acts(p, Acts(p, AfterSubmit(s, c, q), c, [SetNx, Get]), c, TRANSACTION), c, FINISH)
  {
    var s0 := AfterSubmit(s, c, q);
    SubmitThenSteps(p, s, c, q, WHOLE_CALL);
    WholeCallOrder();
    ActsAppend(p, s0, c, [SetNx, Get], TRANSACTION + FINISH);
    ActsAppend(p, Acts(p, s0, c, [SetNx, Get]), c, TRANSACTION, FINISH);
  }

  function Finished(s: State, c: Id, q: Request, h: Handled): State {
    s.(cells := h.cells, accounts := h.accounts,
       effects := if h.outcome.Success? then s.effects + [Effect(c, q, h.outcome.response)] else s.effects,
       calls := s.calls[c := Call(q, Done(h.outcome))])
  }

  // The key was taken: nothing runs.
  lemma HitAlone(p: Policy, s: State, c: Id, q: Request)
    requires c !in s.calls && Accepted(q.op) && Keyed(q) && q.key.value in s.cells
    ensures Run(p, s, WholeCall(c, q)) == Finished(s, c, q, Handle(s.users, s.categories, s.cells, s.accounts, q))
  {
    WholeCallParts(p, s, c, q);
    var s0 := AfterSubmit(s, c, q);
    AcquireAlone(p, s0, c);
    var s1 := Acts(p, s0, c, [SetNx, Get]);
    DoneAlone(p, s1, c);
  }

  lemma DoneAlone(p: Policy, s: State, c: Id)
    requires c in s.calls && s.calls[c].phase.Done?
    ensures Acts(p, Acts(p, s, c, TRANSACTION), c, FINISH) == s
  {
    DoneStaysDone(p, s, c);
    FinishAlone(p, s, c);
  }

  // The key was free, or there is none: produce runs.
  lemma MissAlone(p: Policy, s: State, c: Id, q: Request)
    requires c !in s.calls && Accepted(q.op) && Unhindered(s, c, q.op)
    requires Keyed(q) ==> q.key.value !in s.cells
    ensures Run(p, s, WholeCall(c, q)) == Finished(s, c, q, Handle(s.users, s.categories, s.cells, s.accounts, q))
  {
    WholeCallParts(p, s, c, q);
    var s0 := AfterSubmit(s, c, q);
    AcquireAlone(p, s0, c);
    var s1 := Acts(p, s0, c, [SetNx, Get]);
    var cells := if Keyed(q) then s.cells[q.key.value := Marker] else s.cells;
    assert s1 == s.(cells := cells, calls := s.calls[c := Call(q, Producing)]);
    TransactionAlone(p, s1, c);
    ProducedAlone(p, s, s1, Acts(p, s1, c, TRANSACTION), c, q);
  }

  lemma ProducedAlone(p: Policy, s: State, s1: State, s2: State, c: Id, q: Request)
    requires c !in s.calls && (Keyed(q) ==> q.key.value !in s.cells)
    requires s1 == s.(cells := if Keyed(q) then s.cells[q.key.value := Marker] else s.cells,
                      calls := s.calls[c := Call(q, Producing)])
    requires s2 == match Perform(s.users, s.categories, s.accounts, q.op)
      case None => AfterFailure(s1, c)
      case Some(row) =>
        Moved(s1.(accounts := s.accounts[Target(q.op) := row], effects := s.effects + [Effect(c, q, row)]),
              c, if Keyed(q) then Produced(row) else Done(Success(row)))
    ensures Acts(p, s2, c, FINISH) == Finished(s, c, q, Handle(s.users, s.categories, s.cells, s.accounts, q))
  {
    match Perform(s.users, s.categories, s.accounts, q.op)
    case None => FailureAlone(p, s, s1, c, q);
    case Some(row) => SuccessAlone(p, s, s1, s2, c, q, row);
  }

  lemma FailureAlone(p: Policy, s: State, s1: State, c: Id, q: Request)
    requires c !in s.calls && (Keyed(q) ==> q.key.value !in s.cells)
    requires s1 == s.(cells := if Keyed(q) then s.cells[q.key.value := Marker] else s.cells,
                      calls := s.calls[c := Call(q, Producing)])
    ensures Acts(p, AfterFailure(s1, c), c, FINISH) == s.(calls := s.calls[c := Call(q, Done(Failed(ProduceRaised(Refused))))])
  {
    FinishAlone(p, AfterFailure(s1, c), c);
    var t := Acts(p, AfterFailure(s1, c), c, FINISH);
    assert t.cells == s.cells;
    assert t.calls == s.calls[c := Call(q, Done(Failed(ProduceRaised(Refused))))];
  }

  lemma SuccessAlone(p: Policy, s: State, s1: State, s2: State, c: Id, q: Request, row: AccountRead)
    requires c !in s.calls && (Keyed(q) ==> q.key.value !in s.cells)
    requires s1 == s.(cells := if Keyed(q) then s.cells[q.key.value := Marker] else s.cells,
                      calls := s.calls[c := Call(q, Producing)])
    requires s2 == Moved(s1.(accounts := s.accounts[Target(q.op) := row], effects := s.effects + [Effect(c, q, row)]),
                         c, if Keyed(q) then Produced(row) else Done(Success(row)))
    ensures Acts(p, s2, c, FINISH)
         == s.(cells := if Keyed(q) then s.cells[q.key.value := Saved(row)] else s.cells,
               accounts := s.accounts[Target(q.op) := row], effects := s.effects + [Effect(c, q, row)],
               calls := s.calls[c := Call(q, Done(Success(row)))])
  {
    FinishAlone(p, s2, c);
    var t := Acts(p, s2, c, FINISH);
    assert t.cells == if Keyed(q) then s.cells[q.key.value := Saved(row)] else s.cells;
    assert t.calls == s.calls[c := Call(q, Done(Success(row)))];
  }

  // One call run from start to end with no interference does exactly what Handle says.
  lemma WholeCallIsHandle(p: Policy, s: State, c: Id, q: Request)
    requires c !in s.calls && Accepted(q.op) && Unhindered(s, c, q.op)
    ensures Run(p, s, WholeCall(c, q)) == Finished(s, c, q, Handle(s.users, s.categories, s.cells, s.accounts, q))
  {
    if Keyed(q) && q.key.value in s.cells {
      HitAlone(p, s, c, q);
    } else {
      MissAlone(p, s, c, q);
    }
  }

  // ----- a retry -----

  // After a success the same key replays the same response and changes nothing, whatever it asks for;
  // after a failure the key is free and the retry runs.
  lemma RetryAfterSuccessReplays(users: set<Id>, categories: set<Id>, cells: map<Key, Stored>,
                                 accounts: map<Id, AccountRead>, q: Request, again: Request)
    requires Keyed(q) && again.key == q.key
    ensures var h := Handle(users, categories, cells, accounts, q);
      match h.outcome
      case Success(response) =>
        Handle(users, categories, h.cells, h.accounts, again) == Handled(h.cells, h.accounts, Replayed(response))
      case Failed(failure) =>
        failure == ProduceRaised(Refused) &&
        h.cells == cells && h.accounts == accounts && q.key.value !in h.cells
        && Handle(users, categories, h.cells, h.accounts, again).outcome
           == (match Perform(users, categories, accounts, again.op) case None => Failed(ProduceRaised(Refused)) case Some(row) => Success(row))
      case _ => h.cells == cells && h.accounts == accounts
  {
  }

  // ----- when the promise holds -----

  // A call whose commit succeeds but whose produce raises all the same.
  const LATE_TRANSACTION: seq<Action> := [Open, Flush] + [CommitReplyLost, Release]

  function LateCall(c: Id, q: Request): seq<Event> {
    [Submit(c, q)] + Steps(c, [SetNx, Get] + LATE_TRANSACTION)
  }

  lemma LateCommitAlone(p: Policy, s: State, t: State, c: Id, row: AccountRead, row': AccountRead)
    requires p.lateRaise && c in s.calls && RowTaken(s, t, c, row)
    requires var op := s.calls[c].request.op;
      && Changed(s.categories, op, row) == Some(row')
      && (op.OpenAccount? ==> op.id !in s.accounts)
    requires Keyed(s.calls[c].request) && s.calls[c].request.key.value in s.cells
    ensures Act(p, Act(p, Act(p, t, c, Flush), c, CommitReplyLost), c, Release) ==
      var q := s.calls[c].request;
      Moved(s.(accounts := s.accounts[Target(q.op) := row'], effects := s.effects + [Effect(c, q, row')],
               cells := s.cells - {q.key.value}, faults := s.faults + multiset{q.key.value}), c, Done(Failed(ProduceRaised(Late))))
  {
    var q := s.calls[c].request;
    UnansweredCommitAlone(p, s, t, c, row, row');
    var v := Act(p, Act(p, t, c, Flush), c, CommitReplyLost);
    assert v == Moved(s.(accounts := s.accounts[Target(q.op) := row'],
                         effects := s.effects + [Effect(c, q, row')]), c, Raised(Late));
  }

  lemma LateTransactionAlone(p: Policy, s: State, c: Id)
    requires p.lateRaise && c in s.calls && s.calls[c].phase.Producing?
    requires Unhindered(s, c, s.calls[c].request.op)
    requires Keyed(s.calls[c].request) && s.calls[c].request.key.value in s.cells
    requires Perform(s.users, s.categories, s.accounts, s.calls[c].request.op).Some?
    ensures Acts(p, s, c, LATE_TRANSACTION) ==
      var q := s.calls[c].request;
      var row := Perform(s.users, s.categories, s.accounts, q.op).value;
      Moved(s.(accounts := s.accounts[Target(q.op) := row], effects := s.effects + [Effect(c, q, row)],
               cells := s.cells - {q.key.value}, faults := s.faults + multiset{q.key.value}), c, Done(Failed(ProduceRaised(Late))))
  {
    var q := s.calls[c].request;
    ActsAppend(p, s, c, [Open, Flush], [CommitReplyLost, Release]);
    ActsTwo(p, s, c, Open, Flush);
    OpenAlone(p, s, c);
    var t := Act(p, s, c, Open);
    ActsTwo(p, Act(p, t, c, Flush), c, CommitReplyLost, Release);
    LateCommitAlone(p, s, t, c, Loaded(s.users, s.accounts, q.op).value,
                    Perform(s.users, s.categories, s.accounts, q.op).value);
  }

  // The commit stays, the key is free again, and the client was told of a failure.
  lemma LateCallAlone(p: Policy, s: State, c: Id, q: Request)
    requires p.lateRaise && c !in s.calls && Accepted(q.op) && Unhindered(s, c, q.op)
    requires Keyed(q) && q.key.value !in s.cells
    requires Perform(s.users, s.categories, s.accounts, q.op).Some?
    ensures Run(p, s, LateCall(c, q)) ==
      var row := Perform(s.users, s.categories, s.accounts, q.op).value;
      s.(accounts := s.accounts[Target(q.op) := row], effects := s.effects + [Effect(c, q, row)],
         faults := s.faults + multiset{q.key.value},
         calls := s.calls[c := Call(q, Done(Failed(ProduceRaised(Late))))])
  {
    var s0 := AfterSubmit(s, c, q);
    SubmitThenSteps(p, s, c, q, [SetNx, Get] + LATE_TRANSACTION);
    ActsAppend(p, s0, c, [SetNx, Get], LATE_TRANSACTION);
    AcquireAlone(p, s0, c);
    var s1 := Acts(p, s0, c, [SetNx, Get]);
    assert s1 == s.(cells := s.cells[q.key.value := Marker], calls := s.calls[c := Call(q, Producing)]);
    LateTransactionAlone(p, s1, c);
    var t := Acts(p, s1, c, LATE_TRANSACTION);
    assert t.cells == s.cells;
    assert t.calls == s.calls[c := Call(q, Done(Failed(ProduceRaised(Late))))];
  }

  ghost predicate AtMostOnce(p: Policy) {
    forall s, k :: Reachable(p, s) && k != "" ==> EffectsOf(s.effects, k) <= 1
  }

  const OPENING := Request(None, OpenAccount(0, "wallet", 7))
  const TOP_UP := Request(Some("k"), Deposit(7, 5, []))
  const EMPTY_ROW := AccountRead(7, 0, "wallet", 0)

  // The system with one empty account, and no call in flight.
  function Opened(): State {
    Init({0}, {}).(accounts := map[7 := EMPTY_ROW], effects := [Effect(0, OPENING, EMPTY_ROW)],
                   calls := map[0 := Call(OPENING, Done(Success(EMPTY_ROW)))])
  }

  lemma OpenedByRun(p: Policy)
    ensures Run(p, Init({0}, {}), WholeCall(0, OPENING)) == Opened()
  {
    var s := Init({0}, {});
    WholeCallIsHandle(p, s, 0, OPENING);
    assert Handle(s.users, s.categories, s.cells, s.accounts, OPENING).outcome == Success(EMPTY_ROW);
  }

  // A reachable state in which one key has committed two deposits.
  ghost predicate Doubled(p: Policy, s: State) {
    Reachable(p, s) && EffectsOf(s.effects, "k") == 2
  }

  const FIRST := Effect(1, TOP_UP, EMPTY_ROW.(balance := 5))

  lemma CountOne()
    ensures EffectsOf([Effect(0, OPENING, EMPTY_ROW), FIRST], "k") == 1
  {
    var two := [Effect(0, OPENING, EMPTY_ROW), FIRST];
    assert two[..1] == [Effect(0, OPENING, EMPTY_ROW)] && two[..1][..0] == [];
    assert EffectsOf(two[..1], "k") == 0;
  }

  // The state `s` reached once the first deposit has committed and its key is free.
  ghost predicate CommittedButFree(s: State) {
    && s.users == {0} && s.categories == {} && s.cells == map[] && s.locks == map[] && 2 !in s.calls
    && s.accounts == map[7 := EMPTY_ROW.(balance := 5)]
    && s.effects == [Effect(0, OPENING, EMPTY_ROW), FIRST]
  }

  // Whatever has committed under a key: once the key is free, a request under it that is left alone
  // and can be performed commits once more.
  lemma FreeKeyCommitsAgain(p: Policy, s: State, c: Id, q: Request)
    requires c !in s.calls && Accepted(q.op) && Unhindered(s, c, q.op)
    requires Keyed(q) && q.key.value !in s.cells
    requires Perform(s.users, s.categories, s.accounts, q.op).Some?
    ensures var t := Run(p, s, WholeCall(c, q));
      && EffectsOf(t.effects, q.key.value) == EffectsOf(s.effects, q.key.value) + 1
      && t.accounts == s.accounts[Target(q.op) := Perform(s.users, s.categories, s.accounts, q.op).value]
  {
    WholeCallIsHandle(p, s, c, q);
    var t := Run(p, s, WholeCall(c, q));
    assert t.effects[..|t.effects| - 1] == s.effects;
  }

  // The retry of a deposit that has committed, when its key is free.
  lemma RetryCommitsAgain(p: Policy, s: State)
    requires CommittedButFree(s)
    ensures EffectsOf(Run(p, s, WholeCall(2, TOP_UP)).effects, "k") == 2
  {
    FreeKeyCommitsAgain(p, s, 2, TOP_UP);
    CountOne();
  }

  lemma LateDeposit(p: Policy)
    requires p.lateRaise
    ensures CommittedButFree(Run(p, Opened(), LateCall(1, TOP_UP)))
  {
    assert Perform({0}, {}, map[7 := EMPTY_ROW], TOP_UP.op) == Some(EMPTY_ROW.(balance := 5));
    LateCallAlone(p, Opened(), 1, TOP_UP);
  }

  lemma ExpiredDeposit(p: Policy)
    requires p.expiry
    ensures CommittedButFree(Run(p, Opened(), WholeCall(1, TOP_UP) + [Expire("k")]))
  {
    FirstDeposit(p);
    RunAppend(p, Opened(), WholeCall(1, TOP_UP), [Expire("k")]);
  }

  const DEPOSITED := Handled(map["k" := Saved(EMPTY_ROW.(balance := 5))], map[7 := EMPTY_ROW.(balance := 5)],
                             Success(EMPTY_ROW.(balance := 5)))

  lemma FirstDeposit(p: Policy)
    ensures var s := Run(p, Opened(), WholeCall(1, TOP_UP));
      s.cells.Keys == {"k"} && CommittedButFree(s.(cells := map[]))
  {
    WholeCallIsHandle(p, Opened(), 1, TOP_UP);
    DepositHandled();
    DepositedState();
  }

  lemma DepositHandled()
    ensures Handle(Opened().users, Opened().categories, Opened().cells, Opened().accounts, TOP_UP) == DEPOSITED
  {
    assert Perform({0}, {}, map[7 := EMPTY_ROW], TOP_UP.op) == Some(EMPTY_ROW.(balance := 5));
  }

  lemma DepositedState()
    ensures var s := Finished(Opened(), 1, TOP_UP, DEPOSITED);
      s.cells.Keys == {"k"} && CommittedButFree(s.(cells := map[]))
  {
  }

  lemma OpenedThen(p: Policy, events: seq<Event>)
    ensures Reachable(p, Run(p, Opened(), events))
  {
    OpenedByRun(p);
    RunAppend(p, Init({0}, {}), WholeCall(0, OPENING), events);
  }

  lemma FaultThenRetry(p: Policy, fault: seq<Event>)
    requires CommittedButFree(Run(p, Opened(), fault))
    ensures exists s :: Doubled(p, s)
  {
    var retry := WholeCall(2, TOP_UP);
    OpenedThen(p, fault + retry);
    RunAppend(p, Opened(), fault, retry);
    RetryCommitsAgain(p, Run(p, Opened(), fault));
    assert Doubled(p, Run(p, Opened(), fault + retry));
  }

  // Exactly when the money endpoints keep "at most one effect per key" in every run.
  lemma AtMostOnceExactly(p: Policy)
    ensures AtMostOnce(p) <==> !p.lateRaise && !p.expiry
  {
    if !p.lateRaise && !p.expiry {
      forall s, k | Reachable(p, s) && k != "" ensures EffectsOf(s.effects, k) <= 1 {
        NoFaults(p, s);
        AtMostOnceAndSameAnswer(p, s, k);
      }
    } else {
      if p.lateRaise {
        LateDeposit(p);
        FaultThenRetry(p, LateCall(1, TOP_UP));
      } else {
        ExpiredDeposit(p);
        FaultThenRetry(p, WholeCall(1, TOP_UP) + [Expire("k")]);
      }
      var s :| Doubled(p, s);
      assert "k" != "";
    }
  }
}
