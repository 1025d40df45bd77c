/** What the events of a run say about a call: whether it committed, whether its client knows, why it was refused. */
module MoneyHistory {
  import opened Common
  import opened Operations
  import opened Money
  import opened MoneySafety
  import opened MoneySteps
  import opened MoneyTheorems

  // ----- commits -----

  // The step commits the call's transaction, answered or not.
  predicate Commits(p: Policy, s: State, e: Event, c: Id) {
    && e.Step? && e.call == c && c in s.calls && s.calls[c].phase.Staged?
    && (e.action.Commit? || (e.action.CommitReplyLost? && p.lateRaise))
    && !(s.calls[c].request.op.OpenAccount? && s.calls[c].request.op.id in s.accounts)
  }

  predicate CommitsIn(p: Policy, s: State, events: seq<Event>, c: Id)
    decreases |events|
  {
    events != [] && (Commits(p, s, events[0], c) || CommitsIn(p, Next(p, s, events[0]), events[1..], c))
  }

  // The step raises although the call's transaction has committed: the commit's reply is lost, the cached
  // user cannot be dropped, or the response cannot be stored.
  predicate HidesCommit(p: Policy, s: State, e: Event, c: Id) {
    && e.Step? && e.call == c && c in s.calls
    && ((e.action.CommitReplyLost? && Commits(p, s, e, c))
        || (e.action.CacheDeleteFails? && p.lateRaise && s.calls[c].phase.Committed?)
        || ((e.action.SaveFails? || e.action.SaveReplyLost?) && s.calls[c].phase.Produced?))
  }

  predicate HidesIn(p: Policy, s: State, events: seq<Event>, c: Id)
    decreases |events|
  {
    events != [] && (HidesCommit(p, s, events[0], c) || HidesIn(p, Next(p, s, events[0]), events[1..], c))
  }

  lemma EffectsByStep(p: Policy, s: State, e: Event, c: Id)
    ensures var t := Next(p, s, e);
      && s.effects <= t.effects
      && (Commits(p, s, e, c) ==> |t.effects| == |s.effects| + 1 && t.effects[|s.effects|].call == c)
      && (!Commits(p, s, e, c) ==> forall i | |s.effects| <= i < |t.effects| :: t.effects[i].call != c)
  {
    if e.Step? && e.call in s.calls && !e.action.Commit? && !e.action.CommitReplyLost? {
      OnlyCommitsCommit(p, s, e.call, e.action);
    }
  }

  lemma EffectByStep(p: Policy, s: State, e: Event, c: Id)
    ensures HasEffect(Next(p, s, e), c) <==> HasEffect(s, c) || Commits(p, s, e, c)
  {
    var t := Next(p, s, e);
    EffectsByStep(p, s, e, c);
    if HasEffect(t, c) {
      var i :| 0 <= i < |t.effects| && t.effects[i].call == c;
      assert i < |s.effects| ==> s.effects[i] == t.effects[i] && s.effects[i] in s.effects;
    }
  }

  lemma {:induction false} EffectByEvents(p: Policy, s: State, events: seq<Event>, c: Id)
    ensures HasEffect(Run(p, s, events), c) <==> HasEffect(s, c) || CommitsIn(p, s, events, c)
    decreases |events|
  {
    if events != [] {
      EffectByStep(p, s, events[0], c);
      EffectByEvents(p, Next(p, s, events[0]), events[1..], c);
    }
  }

  // The call is past a commit and on its way to an exception, or there.
  predicate Hidden(s: State, c: Id) {
    c in s.calls && (RaisedLate(s.calls[c].phase) || s.calls[c].phase == Done(Failed(NotSaved)))
  }

  predicate HasCrashed(s: State, c: Id) {
    c in s.calls && s.calls[c].phase == Done(Crashed)
  }

  lemma OnlyHidingHides(p: Policy, s: State, c: Id, action: Action)
    requires c in s.calls && !Hidden(s, c) && Hidden(Act(p, s, c, action), c)
    ensures HidesCommit(p, s, Step(c, action), c)
  {
  }

  lemma HiddenByAction(p: Policy, s: State, c: Id, action: Action)
    requires c in s.calls && (s.calls[c].phase.Produced? ==> Keyed(s.calls[c].request))
    ensures var t := Act(p, s, c, action);
      HasCrashed(t, c) || (Hidden(t, c) <==> Hidden(s, c) || HidesCommit(p, s, Step(c, action), c))
  {
    if !Hidden(s, c) && Hidden(Act(p, s, c, action), c) {
      OnlyHidingHides(p, s, c, action);
    }
  }

  lemma HiddenByStep(p: Policy, s: State, e: Event, c: Id)
    requires Inv(p, s)
    ensures var t := Next(p, s, e);
      HasCrashed(t, c) || (Hidden(t, c) <==> Hidden(s, c) || HidesCommit(p, s, e, c))
  {
    if c in s.calls && e.Step? && e.call == c {
      assert ResponseOk(s, c);
      HiddenByAction(p, s, c, e.action);
    } else if c in s.calls {
      OthersLeave(p, s, e, c);
    }
  }

  lemma {:induction false} HiddenByEvents(p: Policy, s: State, events: seq<Event>, c: Id)
    requires Inv(p, s) && !HasCrashed(Run(p, s, events), c)
    ensures Hidden(Run(p, s, events), c) <==> Hidden(s, c) || HidesIn(p, s, events, c)
    decreases |events|
  {
    if events != [] {
      var t := Next(p, s, events[0]);
      HiddenByStep(p, s, events[0], c);
      NextKeeps(p, s, events[0]);
      if HasCrashed(t, c) {
        OverStays(p, t, events[1..], c);
      }
      HiddenByEvents(p, t, events[1..], c);
    }
  }

  // A call has committed exactly when one of its steps was a commit that took.
  lemma CommittedExactly(p: Policy, users: set<Id>, categories: set<Id>, events: seq<Event>, c: Id)
    ensures HasEffect(Run(p, Init(users, categories), events), c) <==> CommitsIn(p, Init(users, categories), events, c)
  {
    EffectByEvents(p, Init(users, categories), events, c);
  }

  // A client gets an exception although its call has committed exactly when one of three commands raised
  // after the commit: the commit itself, the drop of the cached user, or the storing of the response.
  lemma HiddenCommitExactly(p: Policy, users: set<Id>, categories: set<Id>, events: seq<Event>, c: Id)
    requires var s := Run(p, Init(users, categories), events);
      c in s.calls && s.calls[c].phase.Done? && !s.calls[c].phase.outcome.Crashed?
    ensures var s := Run(p, Init(users, categories), events);
      s.calls[c].phase.outcome.Failed? && HasEffect(s, c) <==> HidesIn(p, Init(users, categories), events, c)
  {
    var start := Init(users, categories);
    HiddenByEvents(p, start, events, c);
    assert Reachable(p, Run(p, start, events));
    OutcomeTellsCommit(p, Run(p, start, events), c);
  }

  // ----- refusals -----

  predicate RefusedCall(s: State, c: Id) {
    c in s.calls && (s.calls[c].phase == Raised(Refused) || s.calls[c].phase == Done(Failed(ProduceRaised(Refused))))
  }

  // The operation of the call, run alone on what is committed now, is refused, and the call is not over.
  predicate RefusedHere(s: State, c: Id) {
    && c in s.calls && !s.calls[c].phase.Done?
    && Perform(s.users, s.categories, s.accounts, s.calls[c].request.op).None?
  }

  lemma RefusedByAction(p: Policy, s: State, c: Id, action: Action)
    requires c in s.calls && RowOk(s, s.calls[c])
    requires !RefusedCall(s, c) && RefusedCall(Act(p, s, c, action), c)
    ensures RefusedHere(s, c)
  {
  }

  lemma RefusedByStep(p: Policy, s: State, e: Event, c: Id)
    requires Inv(p, s) && !RefusedCall(s, c) && RefusedCall(Next(p, s, e), c)
    ensures RefusedHere(s, c)
  {
    if c in s.calls && e.Step? && e.call == c {
      assert RowOk(s, s.calls[c]);
      RefusedByAction(p, s, c, e.action);
    } else if c in s.calls {
      OthersLeave(p, s, e, c);
    }
  }

  lemma {:induction false} RefusedWithin(p: Policy, s: State, events: seq<Event>, c: Id) returns (n: nat)
    requires Inv(p, s) && !RefusedCall(s, c) && RefusedCall(Run(p, s, events), c)
    ensures n <= |events| && RefusedHere(Run(p, s, events[..n]), c)
    ensures Run(p, s, events[..n]).effects <= Run(p, s, events).effects
    decreases |events|
  {
    var t := Next(p, s, events[0]);
    if RefusedCall(t, c) {
      RefusedByStep(p, s, events[0], c);
      n := 0;
      EffectsGrow(p, s, events);
    } else {
      NextKeeps(p, s, events[0]);
      var m := RefusedWithin(p, t, events[1..], c);
      n := m + 1;
      assert events[..n][1..] == events[1..][..m];
    }
  }

  lemma {:induction false} EffectsGrow(p: Policy, s: State, events: seq<Event>)
    ensures s.effects <= Run(p, s, events).effects
    decreases |events|
  {
    if events != [] {
      EffectsByStep(p, s, events[0], 0);
      EffectsGrow(p, Next(p, s, events[0]), events[1..]);
    }
  }

  // A refused operation has its place too: at some instant between its submission and its end the serial
  // run of the commits so far refuses it.
  lemma RefusalIsSerial(p: Policy, users: set<Id>, categories: set<Id>, events: seq<Event>, c: Id) returns (n: nat)
    requires RefusedCall(Run(p, Init(users, categories), events), c)
    ensures n <= |events|
    ensures var s, t := Run(p, Init(users, categories), events[..n]), Run(p, Init(users, categories), events);
      && c in s.calls && !s.calls[c].phase.Done? && s.effects <= t.effects
      && Perform(s.users, s.categories, SerialRun(s.users, s.categories, s.effects), s.calls[c].request.op).None?
  {
    var start := Init(users, categories);
    n := RefusedWithin(p, start, events, c);
    assert Reachable(p, Run(p, start, events[..n]));
    Serializable(p, Run(p, start, events[..n]));
  }
}
