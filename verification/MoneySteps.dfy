/** What one step of the money machine leaves alone. */
module MoneySteps {
  import opened Common
  import opened Operations
  import opened Money
  import opened MoneySafety

  // A step of a call moves that call only, and not its request.
  lemma Frame(p: Policy, s: State, c: Id, action: Action)
    requires c in s.calls
    ensures var t := Act(p, s, c, action);
      t.calls == s.calls[c := t.calls[c]] && t.calls[c].request == s.calls[c].request
  {
  }

  lemma OnlyCommitsCommit(p: Policy, s: State, c: Id, action: Action)
    requires c in s.calls && !action.Commit? && !action.CommitReplyLost?
    ensures Act(p, s, c, action).effects == s.effects
  {
  }

  // From here a call can still come to its release.
  predicate BeforeRelease(p: Policy, phase: Phase) {
    phase.Producing? || InTransaction(phase) || phase.Raised? || (p.lateRaise && phase.Committed?)
  }

  lemma OnlySetNxStarts(p: Policy, s: State, c: Id, action: Action)
    requires c in s.calls && !BeforeRelease(p, s.calls[c].phase)
    requires BeforeRelease(p, Act(p, s, c, action).calls[c].phase)
    ensures action.SetNx? && s.calls[c].phase.Start? && Keyed(s.calls[c].request)
    ensures s.calls[c].request.key.value !in s.cells
  {
  }

  // Any event but a step of the call leaves it where it is.
  lemma OthersLeave(p: Policy, s: State, e: Event, c: Id)
    requires c in s.calls && !(e.Step? && e.call == c)
    ensures c in Next(p, s, e).calls && Next(p, s, e).calls[c] == s.calls[c]
  {
    if e.Step? && e.call in s.calls {
      Frame(p, s, e.call, e.action);
    }
  }

  lemma RequestStays(p: Policy, s: State, e: Event, c: Id)
    requires c in s.calls
    ensures c in Next(p, s, e).calls && Next(p, s, e).calls[c].request == s.calls[c].request
  {
    if e.Step? && e.call == c {
      Frame(p, s, c, e.action);
    } else {
      OthersLeave(p, s, e, c);
    }
  }

  lemma {:induction false} OverStays(p: Policy, s: State, events: seq<Event>, c: Id)
    requires c in s.calls && s.calls[c].phase.Done?
    ensures c in Run(p, s, events).calls && Run(p, s, events).calls[c] == s.calls[c]
    decreases |events|
  {
    if events != [] {
      if !(events[0].Step? && events[0].call == c) {
        OthersLeave(p, s, events[0], c);
      }
      OverStays(p, Next(p, s, events[0]), events[1..], c);
    }
  }
}
