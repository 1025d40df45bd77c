/** What every run of the money machine keeps: row locks, the ledger, the responses and the keys. */
module MoneySafety {
  import opened Common
  import opened Operations
  import opened Money

  // ----- the invariant, one part per concern -----

  predicate InTransaction(phase: Phase) {
    phase.InTx? || phase.Staged?
  }

  // A call is inside a transaction on an existing row exactly when it holds that row's lock.
  ghost predicate LocksOk(s: State) {
    && (forall a | a in s.locks ::
          && s.locks[a] in s.calls
          && InTransaction(s.calls[s.locks[a]].phase)
          && !s.calls[s.locks[a]].request.op.OpenAccount?
          && Target(s.calls[s.locks[a]].request.op) == a)
    && (forall c | c in s.calls && InTransaction(s.calls[c].phase) && !s.calls[c].request.op.OpenAccount? ::
          && Target(s.calls[c].request.op) in s.locks
          && s.locks[Target(s.calls[c].request.op)] == c)
  }

  // The row in a transaction's hands is still the committed one, or the change of it.
  ghost predicate RowOk(s: State, call: Call) {
    var op := call.request.op;
    var base := Loaded(s.users, s.accounts, op);
    match call.phase
    case InTx(row) => base == Some(row)
    case Staged(row) => base.Some? && Changed(s.categories, op, base.value) == Some(row)
    case _ => true
  }

  ghost predicate RowsOk(s: State) {
    forall c | c in s.calls :: RowOk(s, s.calls[c]) && Accepted(s.calls[c].request.op)
  }

  // The i-th commit did and answered what its operation does after the ones before it.
  ghost predicate LegalIn(users: set<Id>, categories: set<Id>, effects: seq<Effect>, i: nat)
    requires i < |effects|
  {
    Perform(users, categories, SerialRun(users, categories, effects[..i]), effects[i].request.op)
    == Some(effects[i].response)
  }

  ghost predicate Legal(s: State, i: nat)
    requires i < |s.effects|
  {
    LegalIn(s.users, s.categories, s.effects, i)
  }

  ghost predicate LedgerOk(s: State) {
    && s.accounts == SerialRun(s.users, s.categories, s.effects)
    && (forall i | 0 <= i < |s.effects| :: Legal(s, i))
    && (forall i | 0 <= i < |s.effects| :: Accepted(s.effects[i].request.op))
  }

  // Phases a call can be in once its transaction has committed.
  predicate PastCommit(phase: Phase) {
    phase.Committed? || phase.Produced? || phase.Kept? || (phase.Raised? && phase.why.Late?)
    || (phase.Done? && (phase.outcome.Success? || phase.outcome.Crashed?
                        || (phase.outcome.Failed? && AfterCommitting(phase.outcome.failure))))
  }

  predicate AfterCommitting(failure: Failure) {
    failure.NotSaved? || failure == ProduceRaised(Late)
  }

  ghost predicate EffectsOk(s: State) {
    && (forall e | e in s.effects ::
          e.call in s.calls && s.calls[e.call].request == e.request && PastCommit(s.calls[e.call].phase))
    && (forall i, j | 0 <= i < j < |s.effects| :: s.effects[i].call != s.effects[j].call)
  }

  ghost predicate SomeEffect(effects: seq<Effect>, key: Option<Key>, response: AccountRead) {
    exists e | e in effects :: e.request.key == key && e.response == response
  }

  ghost predicate HasEffect(s: State, c: Id) {
    exists e | e in s.effects :: e.call == c
  }

  // Every response in sight is the one its transaction committed, and so is every failure past a commit.
  ghost predicate ResponseOk(s: State, c: Id)
    requires c in s.calls
  {
    var Call(q, phase) := s.calls[c];
    match phase
    case Committed(response) => Effect(c, q, response) in s.effects
    case Produced(response) => Keyed(q) && Effect(c, q, response) in s.effects
    case Kept(response) => Keyed(q) && Effect(c, q, response) in s.effects
    case Done(Success(response)) => Effect(c, q, response) in s.effects
    case Done(Replayed(response)) => Keyed(q) && SomeEffect(s.effects, q.key, response)
    case Start => Keyed(q)
    case Missed => Keyed(q)
    case Raised(why) => Keyed(q) && (why.Late? ==> HasEffect(s, c))
    case Done(Failed(failure)) => AfterCommitting(failure) ==> HasEffect(s, c)
    case _ => true
  }

  ghost predicate ResponsesOk(s: State) {
    (forall c | c in s.calls :: ResponseOk(s, c)) && CellsBacked(s)
  }

  ghost predicate CellsBacked(s: State) {
    forall k | k in s.cells && s.cells[k].Saved? :: SomeEffect(s.effects, Some(k), s.cells[k].response)
  }

  // A call that won the key and may still commit under it.
  predicate Holds(call: Call, k: Key) {
    Keyed(call.request) && call.request.key.value == k
    && (call.phase.Producing? || InTransaction(call.phase) || (call.phase.Raised? && !call.phase.why.Late?))
  }

  ghost function Holders(s: State, k: Key): set<Id> {
    set c | c in s.calls && Holds(s.calls[c], k)
  }

  function Present(s: State, k: Key): nat {
    if k in s.cells then 1 else 0
  }

  // Every commit under a key, done or still possible, is paid for by the key's cell or a fault.
  ghost predicate KeyOk(s: State, k: Key) {
    EffectsOf(s.effects, k) + |Holders(s, k)| <= s.faults[k] + Present(s, k)
  }

  ghost predicate KeysOk(s: State) {
    forall k | k != "" :: KeyOk(s, k)
  }

  predicate RaisedLate(phase: Phase) {
    phase == Raised(Late) || phase == Done(Failed(ProduceRaised(Late)))
  }

  // Without late exceptions and expiry no fault ever happens.
  ghost predicate StrictOk(p: Policy, s: State) {
    !p.lateRaise && !p.expiry ==>
      && s.faults == multiset{}
      && (forall c | c in s.calls :: !RaisedLate(s.calls[c].phase))
  }

  ghost predicate Inv(p: Policy, s: State) {
    && LocksOk(s) && RowsOk(s) && LedgerOk(s) && EffectsOk(s) && ResponsesOk(s) && KeysOk(s) && StrictOk(p, s)
  }

  // ----- one call moves, the others stay -----

  lemma HoldersMoved(s: State, t: State, c: Id, k: Key)
    requires c in s.calls && c in t.calls
    requires t.calls == s.calls[c := t.calls[c]]
    ensures Holds(s.calls[c], k) && !Holds(t.calls[c], k) ==> |Holders(t, k)| == |Holders(s, k)| - 1
    ensures !Holds(s.calls[c], k) && Holds(t.calls[c], k) ==> |Holders(t, k)| == |Holders(s, k)| + 1
    ensures Holds(s.calls[c], k) == Holds(t.calls[c], k) ==> |Holders(t, k)| == |Holders(s, k)|
  {
    if Holds(s.calls[c], k) && !Holds(t.calls[c], k) {
      assert Holders(t, k) == Holders(s, k) - {c};
    } else if !Holds(s.calls[c], k) && Holds(t.calls[c], k) {
      assert Holders(t, k) == Holders(s, k) + {c};
    } else {
      assert Holders(t, k) == Holders(s, k);
    }
  }

  // Whatever the step adds under a key, by a new holder or a new commit, it pays for.
  ghost predicate Pays(s: State, t: State, c: Id)
    requires c in s.calls && c in t.calls
  {
    forall k | k != "" ::
      EffectsOf(t.effects, k) + (if Holds(t.calls[c], k) then 1 else 0) - t.faults[k] - Present(t, k)
      <= EffectsOf(s.effects, k) + (if Holds(s.calls[c], k) then 1 else 0) - s.faults[k] - Present(s, k)
  }

  lemma KeysMoved(s: State, t: State, c: Id)
    requires c in s.calls && c in t.calls
    requires t.calls == s.calls[c := t.calls[c]]
    requires KeysOk(s) && Pays(s, t, c)
    ensures KeysOk(t)
  {
    forall k | k != "" ensures KeyOk(t, k) {
      assert KeyOk(s, k);
      HoldersMoved(s, t, c, k);
    }
  }

  ghost predicate MovesOnly(s: State, t: State, c: Id) {
    && c in s.calls && c in t.calls
    && t.calls == s.calls[c := t.calls[c]]
    && t.calls[c].request == s.calls[c].request
    && t.users == s.users && t.categories == s.categories
  }

  ghost predicate SameLedger(s: State, t: State) {
    t.accounts == s.accounts && t.effects == s.effects
  }

  lemma LeavesLocksOk(s: State, t: State, c: Id)
    requires MovesOnly(s, t, c) && LocksOk(s)
    requires !InTransaction(t.calls[c].phase)
    requires t.locks == Unlocked(s.locks, c) || (t.locks == s.locks && !InTransaction(s.calls[c].phase))
    ensures LocksOk(t)
  {
  }

  lemma LeavesLedgerOk(s: State, t: State, c: Id)
    requires MovesOnly(s, t, c) && SameLedger(s, t) && LedgerOk(s)
    ensures LedgerOk(t)
  {
    forall i | 0 <= i < |t.effects| ensures Legal(t, i) {
      assert Legal(s, i);
    }
  }

  // A call moves to a phase outside a transaction and nothing is committed.
  lemma QuietMove(p: Policy, s: State, t: State, c: Id)
    requires Inv(p, s) && MovesOnly(s, t, c) && SameLedger(s, t)
    requires !InTransaction(t.calls[c].phase)
    requires t.locks == Unlocked(s.locks, c) || (t.locks == s.locks && !InTransaction(s.calls[c].phase))
    requires PastCommit(s.calls[c].phase) ==> PastCommit(t.calls[c].phase)
    requires ResponseOk(t, c) && CellsBacked(t) && Pays(s, t, c)
    requires !p.lateRaise && !p.expiry ==> t.faults == multiset{} && !RaisedLate(t.calls[c].phase)
    ensures Inv(p, t)
  {
    LeavesLocksOk(s, t, c);
    LeavesLedgerOk(s, t, c);
    KeysMoved(s, t, c);
  }

  // ----- every step keeps the invariant -----

  lemma SubmitKeepsRows(s: State, c: Id, q: Request)
    requires RowsOk(s) && LedgerOk(s) && ResponsesOk(s)
    requires c !in s.calls && Accepted(q.op)
    ensures RowsOk(AfterSubmit(s, c, q)) && LedgerOk(AfterSubmit(s, c, q)) && ResponsesOk(AfterSubmit(s, c, q))
  {
    var t := AfterSubmit(s, c, q);
    forall d | d in t.calls
      ensures RowOk(t, t.calls[d]) && Accepted(t.calls[d].request.op) && ResponseOk(t, d)
    {
      if d != c {
        assert RowOk(s, s.calls[d]) && ResponseOk(s, d);
      }
    }
    forall i | 0 <= i < |t.effects| ensures Legal(t, i) {
      assert Legal(s, i);
    }
  }

  lemma SubmitKeepsKeys(s: State, c: Id, q: Request)
    requires KeysOk(s) && c !in s.calls
    ensures KeysOk(AfterSubmit(s, c, q))
  {
    var t := AfterSubmit(s, c, q);
    forall k | k != "" ensures KeyOk(t, k) {
      assert KeyOk(s, k);
      assert Holders(t, k) == Holders(s, k);
    }
  }

  lemma SubmitKeeps(p: Policy, s: State, c: Id, q: Request)
    requires Inv(p, s)
    ensures Inv(p, AfterSubmit(s, c, q))
  {
    var t := AfterSubmit(s, c, q);
    if t != s {
      SubmitKeepsRows(s, c, q);
      SubmitKeepsKeys(s, c, q);
    }
  }

  lemma RaiseKeeps(p: Policy, s: State, c: Id, why: Why)
    requires Inv(p, s) && c in s.calls
    requires if why.Late? then p.lateRaise && s.calls[c].phase.Committed?
             else s.calls[c].phase.Producing? || InTransaction(s.calls[c].phase)
    ensures Inv(p, Raise(s, c, why))
  {
    var t := Raise(s, c, why);
    assert ResponseOk(s, c);
    assert SameLedger(s, t) && CellsBacked(t);
    assert Pays(s, t, c);
    QuietMove(p, s, t, c);
  }

  lemma CrashKeeps(p: Policy, s: State, c: Id)
    requires Inv(p, s) && c in s.calls && !s.calls[c].phase.Done?
    ensures Inv(p, Crashing(s, c))
  {
    var t := Crashing(s, c);
    QuietMove(p, s, t, c);
  }

  // A call outside a transaction moves, and neither the ledger nor the cells do.
  lemma JustMoves(p: Policy, s: State, c: Id, phase: Phase)
    requires Inv(p, s) && c in s.calls
    requires !InTransaction(s.calls[c].phase) && !InTransaction(phase)
    requires PastCommit(s.calls[c].phase) ==> PastCommit(phase)
    requires phase.Done? || !s.calls[c].phase.Raised?
    requires RaisedLate(phase) ==> RaisedLate(s.calls[c].phase)
    requires !phase.Producing? && !phase.Raised? && ResponseOk(Moved(s, c, phase), c)
    ensures Inv(p, Moved(s, c, phase))
  {
    var t := Moved(s, c, phase);
    assert CellsBacked(t);
    assert Pays(s, t, c);
    QuietMove(p, s, t, c);
  }

  // The marker is set.
  lemma MarkerKeeps(p: Policy, s: State, c: Id, phase: Phase)
    requires Inv(p, s) && c in s.calls && s.calls[c].phase.Start?
    requires Keyed(s.calls[c].request) && s.calls[c].request.key.value !in s.cells
    requires phase.Producing? || phase == Done(Failed(NotAcquired))
    ensures Inv(p, Moved(s.(cells := s.cells[s.calls[c].request.key.value := Marker]), c, phase))
  {
    var t := Moved(s.(cells := s.cells[s.calls[c].request.key.value := Marker]), c, phase);
    assert CellsBacked(t);
    QuietMove(p, s, t, c);
  }

  lemma SetNxKeeps(p: Policy, s: State, c: Id)
    requires Inv(p, s) && c in s.calls
    ensures Inv(p, AfterSetNx(s, c))
  {
    var Call(q, phase) := s.calls[c];
    if phase.Start? && Keyed(q) {
      if q.key.value in s.cells {
        JustMoves(p, s, c, Missed);
      } else {
        MarkerKeeps(p, s, c, Producing);
      }
    }
  }

  lemma SetNxReplyLostKeeps(p: Policy, s: State, c: Id)
    requires Inv(p, s) && c in s.calls
    ensures Inv(p, AfterSetNxReplyLost(s, c))
  {
    var Call(q, phase) := s.calls[c];
    if phase.Start? && Keyed(q) {
      if q.key.value in s.cells {
        NotAcquiredKeeps(p, s, c);
      } else {
        MarkerKeeps(p, s, c, Done(Failed(NotAcquired)));
      }
    }
  }

  lemma GetKeeps(p: Policy, s: State, c: Id)
    requires Inv(p, s) && c in s.calls
    ensures Inv(p, AfterGet(s, c))
  {
    var Call(q, phase) := s.calls[c];
    if phase.Missed? && Keyed(q) {
      JustMoves(p, s, c, AfterGet(s, c).calls[c].phase);
    }
  }

  // The acquiring commands raise without effect.
  lemma NotAcquiredKeeps(p: Policy, s: State, c: Id)
    requires Inv(p, s) && c in s.calls && (s.calls[c].phase.Start? || s.calls[c].phase.Missed?)
    ensures Inv(p, Moved(s, c, Done(Failed(NotAcquired))))
  {
    JustMoves(p, s, c, Done(Failed(NotAcquired)));
  }

  lemma CacheDeleteKeeps(p: Policy, s: State, c: Id)
    requires Inv(p, s) && c in s.calls
    ensures Inv(p, AfterCacheDelete(s, c))
  {
    assert ResponseOk(s, c);
    if s.calls[c].phase.Committed? {
      JustMoves(p, s, c, AfterCacheDelete(s, c).calls[c].phase);
    }
  }

  lemma ReleaseKeeps(p: Policy, s: State, c: Id)
    requires Inv(p, s) && c in s.calls
    ensures Inv(p, AfterRelease(s, c))
  {
    if s.calls[c].phase.Raised? && Keyed(s.calls[c].request) {
      var t := AfterRelease(s, c);
      assert ResponseOk(s, c);
      assert HasEffect(s, c) ==> HasEffect(t, c);
      assert CellsBacked(t);
      QuietMove(p, s, t, c);
    }
  }

  lemma ReleaseFailsKeeps(p: Policy, s: State, c: Id)
    requires Inv(p, s) && c in s.calls && s.calls[c].phase.Raised?
    ensures Inv(p, Moved(s, c, Done(Failed(ProduceRaised(s.calls[c].phase.why)))))
  {
    assert ResponseOk(s, c);
    JustMoves(p, s, c, Done(Failed(ProduceRaised(s.calls[c].phase.why))));
  }

  // The response is stored.
  lemma StoredKeeps(p: Policy, s: State, c: Id, phase: Phase)
    requires Inv(p, s) && c in s.calls && s.calls[c].phase.Produced? && Keyed(s.calls[c].request)
    requires phase == Kept(s.calls[c].phase.response) || phase == Done(Failed(NotSaved))
    ensures Inv(p, Moved(s.(cells := s.cells[s.calls[c].request.key.value := Saved(s.calls[c].phase.response)]), c, phase))
  {
    var Call(q, before) := s.calls[c];
    var t := Moved(s.(cells := s.cells[q.key.value := Saved(before.response)]), c, phase);
    assert ResponseOk(s, c);
    assert Effect(c, q, before.response).request.key == Some(q.key.value);
    assert CellsBacked(t);
    assert Pays(s, t, c);
    QuietMove(p, s, t, c);
  }

  lemma SaveKeeps(p: Policy, s: State, c: Id)
    requires Inv(p, s) && c in s.calls
    ensures Inv(p, AfterSave(s, c))
  {
    if s.calls[c].phase.Produced? && Keyed(s.calls[c].request) {
      StoredKeeps(p, s, c, Kept(s.calls[c].phase.response));
    }
  }

  lemma SaveRaisesKeeps(p: Policy, s: State, c: Id, stored: bool)
    requires Inv(p, s) && c in s.calls
    ensures Inv(p, AfterSaveRaises(s, c, stored))
  {
    if s.calls[c].phase.Produced? && Keyed(s.calls[c].request) {
      if stored {
        StoredKeeps(p, s, c, Done(Failed(NotSaved)));
      } else {
        assert ResponseOk(s, c);
        JustMoves(p, s, c, Done(Failed(NotSaved)));
      }
    }
  }

  lemma ReturnKeeps(p: Policy, s: State, c: Id)
    requires Inv(p, s) && c in s.calls && s.calls[c].phase.Kept?
    ensures Inv(p, Moved(s, c, Done(Success(s.calls[c].phase.response))))
  {
    assert ResponseOk(s, c);
    JustMoves(p, s, c, Done(Success(s.calls[c].phase.response)));
  }

  lemma ExpireKeeps(p: Policy, s: State, k: Key)
    requires Inv(p, s) && p.expiry
    ensures Inv(p, AfterExpire(s, k))
  {
    var t := AfterExpire(s, k);
    if t != s {
      assert RowsOk(t) by {
        forall d | d in t.calls ensures RowOk(t, t.calls[d]) { assert RowOk(s, s.calls[d]); }
      }
      assert LedgerOk(t) by {
        forall i | 0 <= i < |t.effects| ensures Legal(t, i) { assert Legal(s, i); }
      }
      assert ResponsesOk(t) by {
        forall d | d in t.calls ensures ResponseOk(t, d) { assert ResponseOk(s, d); }
      }
      forall j | j != "" ensures KeyOk(t, j) {
        assert KeyOk(s, j);
        assert Holders(t, j) == Holders(s, j);
      }
    }
  }

  lemma OpenKeeps(p: Policy, s: State, c: Id)
    requires Inv(p, s) && c in s.calls
    ensures Inv(p, AfterOpen(s, c))
  {
    var Call(q, phase) := s.calls[c];
    if phase.Producing? && (q.op.OpenAccount? || q.op.account !in s.locks) {
      if Loaded(s.users, s.accounts, q.op).None? {
        RaiseKeeps(p, s, c, Refused);
      } else {
        EnterKeeps(p, s, AfterOpen(s, c), c);
      }
    }
  }

  lemma FlushKeeps(p: Policy, s: State, c: Id)
    requires Inv(p, s) && c in s.calls
    ensures Inv(p, AfterFlush(s, c))
  {
    var Call(q, phase) := s.calls[c];
    if phase.InTx? {
      assert RowOk(s, s.calls[c]);
      if Changed(s.categories, q.op, phase.row).None? {
        RaiseKeeps(p, s, c, Refused);
      } else {
        EnterKeeps(p, s, AfterFlush(s, c), c);
      }
    }
  }

  // A call moves to a phase inside its transaction.
  lemma EnterKeeps(p: Policy, s: State, t: State, c: Id)
    requires Inv(p, s) && MovesOnly(s, t, c) && SameLedger(s, t)
    requires s.calls[c].phase.Producing? || InTransaction(s.calls[c].phase)
    requires InTransaction(t.calls[c].phase) && RowOk(t, t.calls[c])
    requires t.cells == s.cells && t.faults == s.faults
    requires LocksOk(t)
    ensures Inv(p, t)
  {
    LeavesLedgerOk(s, t, c);
    KeysMoved(s, t, c);
  }

  // ----- users and categories come -----

  ghost predicate AllLegal(users: set<Id>, categories: set<Id>, effects: seq<Effect>) {
    forall i | 0 <= i < |effects| :: LegalIn(users, categories, effects, i)
  }

  lemma LegalPrefix(users: set<Id>, categories: set<Id>, effects: seq<Effect>, n: nat)
    requires AllLegal(users, categories, effects) && n <= |effects|
    ensures AllLegal(users, categories, effects[..n])
  {
    forall i | 0 <= i < n ensures LegalIn(users, categories, effects[..n], i) {
      assert LegalIn(users, categories, effects, i);
      assert effects[..n][..i] == effects[..i];
    }
  }

  // A legal history stays the same run when users and categories are added.
  lemma {:induction false} SerialRunGrows(users: set<Id>, categories: set<Id>, users': set<Id>, categories': set<Id>,
                                          effects: seq<Effect>)
    requires users <= users' && categories <= categories' && AllLegal(users, categories, effects)
    ensures SerialRun(users', categories', effects) == SerialRun(users, categories, effects)
  {
    if effects != [] {
      var n := |effects| - 1;
      LegalPrefix(users, categories, effects, n);
      SerialRunGrows(users, categories, users', categories', effects[..n]);
      assert LegalIn(users, categories, effects, n);
    }
  }

  lemma GrowthKeepsLedger(s: State, t: State)
    requires LedgerOk(s) && s.users <= t.users && s.categories <= t.categories && SameLedger(s, t)
    ensures LedgerOk(t)
  {
    var effects := s.effects;
    assert AllLegal(s.users, s.categories, effects) by {
      forall i | 0 <= i < |effects| ensures LegalIn(s.users, s.categories, effects, i) { assert Legal(s, i); }
    }
    SerialRunGrows(s.users, s.categories, t.users, t.categories, effects);
    forall i | 0 <= i < |t.effects| ensures Legal(t, i) {
      assert LegalIn(s.users, s.categories, effects, i);
      LegalPrefix(s.users, s.categories, effects, i);
      SerialRunGrows(s.users, s.categories, t.users, t.categories, effects[..i]);
    }
  }

  lemma GrowthKeeps(p: Policy, s: State, users: set<Id>, categories: set<Id>)
    requires Inv(p, s) && s.users <= users && s.categories <= categories
    ensures Inv(p, s.(users := users, categories := categories))
  {
    var t := s.(users := users, categories := categories);
    GrowthKeepsLedger(s, t);
    assert RowsOk(t) by {
      forall c | c in t.calls ensures RowOk(t, t.calls[c]) { assert RowOk(s, s.calls[c]); }
    }
    assert ResponsesOk(t) by {
      forall c | c in t.calls ensures ResponseOk(t, c) { assert ResponseOk(s, c); }
    }
    forall k | k != "" ensures KeyOk(t, k) {
      assert KeyOk(s, k);
      assert Holders(t, k) == Holders(s, k);
    }
  }

  // ----- the commit -----

  ghost predicate Commits(s: State, t: State, c: Id) {
    && MovesOnly(s, t, c)
    && s.calls[c].phase.Staged?
    && (s.calls[c].request.op.OpenAccount? ==> s.calls[c].request.op.id !in s.accounts)
    && t.accounts == s.accounts[Target(s.calls[c].request.op) := s.calls[c].phase.row]
    && t.locks == Unlocked(s.locks, c)
    && t.effects == s.effects + [Effect(c, s.calls[c].request, s.calls[c].phase.row)]
    && t.cells == s.cells && t.faults == s.faults
    && (t.calls[c].phase == Committed(s.calls[c].phase.row)
        || t.calls[c].phase == Raised(Late) || t.calls[c].phase == Done(Failed(ProduceRaised(Late))))
  }

  lemma CommitKeepsRows(s: State, t: State, c: Id)
    requires Commits(s, t, c) && LocksOk(s) && RowsOk(s)
    ensures RowsOk(t)
  {
    forall d | d in t.calls ensures RowOk(t, t.calls[d]) && Accepted(t.calls[d].request.op) {
      if d != c {
        assert RowOk(s, s.calls[d]) && Accepted(s.calls[d].request.op);
        if InTransaction(s.calls[d].phase) && !s.calls[d].request.op.OpenAccount? {
          assert Target(s.calls[d].request.op) in s.accounts;
          assert Target(s.calls[d].request.op) != Target(s.calls[c].request.op);
        }
      }
    }
  }

  lemma CommitKeepsLedger(s: State, t: State, c: Id)
    requires Commits(s, t, c) && RowsOk(s) && LedgerOk(s)
    ensures LedgerOk(t)
  {
    var n := |s.effects|;
    assert t.effects[..n] == s.effects;
    assert RowOk(s, s.calls[c]);
    forall i | 0 <= i < |t.effects| ensures Legal(t, i) && Accepted(t.effects[i].request.op) {
      if i < n {
        assert t.effects[..i] == s.effects[..i];
        assert Legal(s, i);
      }
    }
  }

  lemma CommitKeepsEffects(s: State, t: State, c: Id)
    requires Commits(s, t, c) && EffectsOk(s)
    ensures EffectsOk(t)
  {
    forall e | e in t.effects
      ensures e.call in t.calls && t.calls[e.call].request == e.request && PastCommit(t.calls[e.call].phase)
    {
      if e in s.effects {
        assert e.call != c;
      }
    }
    forall i, j | 0 <= i < j < |t.effects| ensures t.effects[i].call != t.effects[j].call {
      assert t.effects[i] in s.effects;
    }
  }

  lemma CommitKeepsResponses(s: State, t: State, c: Id)
    requires Commits(s, t, c) && ResponsesOk(s) && ResponseOk(t, c)
    ensures ResponsesOk(t)
  {
    forall d | d in t.calls ensures ResponseOk(t, d) {
      if d != c {
        assert ResponseOk(s, d);
        assert HasEffect(s, d) ==> HasEffect(t, d);
      }
    }
  }

  lemma CommitKeepsKeys(s: State, t: State, c: Id)
    requires Commits(s, t, c) && KeysOk(s)
    ensures KeysOk(t)
  {
    assert t.effects[..|s.effects|] == s.effects;
    forall k | k != ""
      ensures EffectsOf(t.effects, k) + (if Holds(t.calls[c], k) then 1 else 0)
           == EffectsOf(s.effects, k) + (if Holds(s.calls[c], k) then 1 else 0)
    {
    }
    KeysMoved(s, t, c);
  }

  lemma CommittedKeeps(p: Policy, s: State, t: State, c: Id)
    requires Inv(p, s) && Commits(s, t, c) && ResponseOk(t, c)
    requires t.calls[c].phase.Committed? || p.lateRaise
    ensures Inv(p, t)
  {
    LeavesLocksOk(s, t, c);
    CommitKeepsRows(s, t, c);
    CommitKeepsLedger(s, t, c);
    CommitKeepsEffects(s, t, c);
    CommitKeepsResponses(s, t, c);
    CommitKeepsKeys(s, t, c);
  }

  lemma CommitKeeps(p: Policy, s: State, c: Id, acknowledged: bool)
    requires Inv(p, s) && c in s.calls && (acknowledged || p.lateRaise)
    ensures Inv(p, AfterCommit(s, c, acknowledged))
  {
    var Call(q, phase) := s.calls[c];
    if phase.Staged? {
      var t := AfterCommit(s, c, acknowledged);
      if q.op.OpenAccount? && q.op.id in s.accounts {
        RaiseKeeps(p, s, c, Refused);
      } else {
        assert Unlocked(Unlocked(s.locks, c), c) == Unlocked(s.locks, c);
        assert Effect(c, q, phase.row) in t.effects;
        CommittedKeeps(p, s, t, c);
      }
    }
  }

  // ----- runs -----

  predicate Acquires(action: Action) {
    action.SetNx? || action.SetNxFails? || action.SetNxReplyLost? || action.Get? || action.GetFails?
  }

  predicate Finishes(action: Action) {
    Saves(action) || action.Release? || action.ReleaseFails? || action.Crash?
  }

  predicate Saves(action: Action) {
    action.Save? || action.SaveFails? || action.SaveReplyLost? || action.Return?
  }

  lemma AcquireKeeps(p: Policy, s: State, c: Id, action: Action)
    requires Inv(p, s) && c in s.calls && Acquires(action)
    ensures Inv(p, Act(p, s, c, action))
  {
    var phase := s.calls[c].phase;
    match action
    case SetNx => SetNxKeeps(p, s, c);
    case SetNxFails => if phase.Start? { NotAcquiredKeeps(p, s, c); }
    case SetNxReplyLost => SetNxReplyLostKeeps(p, s, c);
    case Get => GetKeeps(p, s, c);
    case GetFails => if phase.Missed? { NotAcquiredKeeps(p, s, c); }
  }

  lemma SavingKeeps(p: Policy, s: State, c: Id, action: Action)
    requires Inv(p, s) && c in s.calls && Saves(action)
    ensures Inv(p, Act(p, s, c, action))
  {
    match action
    case Save => SaveKeeps(p, s, c);
    case SaveFails => SaveRaisesKeeps(p, s, c, false);
    case SaveReplyLost => SaveRaisesKeeps(p, s, c, true);
    case Return => if s.calls[c].phase.Kept? { ReturnKeeps(p, s, c); }
  }

  lemma FinishKeeps(p: Policy, s: State, c: Id, action: Action)
    requires Inv(p, s) && c in s.calls && Finishes(action) && !Saves(action)
    ensures Inv(p, Act(p, s, c, action))
  {
    var phase := s.calls[c].phase;
    match action
    case Release => ReleaseKeeps(p, s, c);
    case ReleaseFails => if phase.Raised? { ReleaseFailsKeeps(p, s, c); }
    case Crash => if !phase.Done? { CrashKeeps(p, s, c); }
  }

  lemma TransactionKeeps(p: Policy, s: State, c: Id, action: Action)
    requires Inv(p, s) && c in s.calls && !Acquires(action) && !Finishes(action)
    ensures Inv(p, Act(p, s, c, action))
  {
    var phase := s.calls[c].phase;
    match action
    case Open => OpenKeeps(p, s, c);
    case Flush => FlushKeeps(p, s, c);
    case Commit => CommitKeeps(p, s, c, true);
    case CommitReplyLost => if p.lateRaise { CommitKeeps(p, s, c, false); }
    case DbError => if phase.Producing? || InTransaction(phase) { RaiseKeeps(p, s, c, Broken); }
    case CacheDelete => CacheDeleteKeeps(p, s, c);
    case CacheDeleteFails => if p.lateRaise && phase.Committed? { RaiseKeeps(p, s, c, Late); }
  }

  lemma ActKeeps(p: Policy, s: State, c: Id, action: Action)
    requires Inv(p, s) && c in s.calls
    ensures Inv(p, Act(p, s, c, action))
  {
    if Acquires(action) {
      AcquireKeeps(p, s, c, action);
    } else if Saves(action) {
      SavingKeeps(p, s, c, action);
    } else if Finishes(action) {
      FinishKeeps(p, s, c, action);
    } else {
      TransactionKeeps(p, s, c, action);
    }
  }

  lemma NextKeeps(p: Policy, s: State, e: Event)
    requires Inv(p, s)
    ensures Inv(p, Next(p, s, e))
  {
    match e
    case Submit(c, q) => SubmitKeeps(p, s, c, q);
    case Step(c, action) => if c in s.calls { ActKeeps(p, s, c, action); }
    case Expire(k) => if p.expiry { ExpireKeeps(p, s, k); }
    case AddUser(user) => GrowthKeeps(p, s, s.users + {user}, s.categories);
    case AddCategory(category) => GrowthKeeps(p, s, s.users, s.categories + {category});
  }

  lemma {:induction false} RunKeeps(p: Policy, s: State, events: seq<Event>)
    requires Inv(p, s)
    ensures Inv(p, Run(p, s, events))
    decreases |events|
  {
    if events != [] {
      NextKeeps(p, s, events[0]);
      RunKeeps(p, Next(p, s, events[0]), events[1..]);
    }
  }

  // Every run from the empty system.
  ghost predicate Reachable(p: Policy, s: State) {
    exists users, categories, events :: s == Run(p, Init(users, categories), events)
  }

  lemma ReachableInv(p: Policy, s: State)
    requires Reachable(p, s)
    ensures Inv(p, s)
  {
    var users, categories, events :| s == Run(p, Init(users, categories), events);
    RunKeeps(p, Init(users, categories), events);
  }
}
