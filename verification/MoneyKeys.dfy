/**
 When a key that is taken can be free again, and so when the GET after a lost SET NX can find nothing.
 */
module MoneyKeys {
  import opened Common
  import opened Operations
  import opened Money
  import opened MoneySafety
  import opened MoneySteps
  import opened MoneySolo

  // A call under the key that can still come to its release.
  predicate MayFree(p: Policy, call: Call, k: Key) {
    Keyed(call.request) && call.request.key.value == k
    && BeforeRelease(p, call.phase)
  }

  ghost predicate Freeable(p: Policy, s: State, k: Key) {
    p.expiry || exists d :: d in s.calls && MayFree(p, s.calls[d], k)
  }

  // Taken, and by nobody who could free it.
  ghost predicate Guarded(p: Policy, s: State, k: Key) {
    k in s.cells && !Freeable(p, s, k)
  }

  lemma KeptStays(p: Policy, s: State, e: Event, k: Key)
    requires Guarded(p, s, k)
    ensures Guarded(p, Next(p, s, e), k)
  {
    var t := Next(p, s, e);
    assert k in t.cells by {
      if e.Step? && e.call in s.calls {
        StepKeeps(p, s, e.call, e.action, k);
      }
    }
    forall d | d in t.calls ensures !MayFree(p, t.calls[d], k) {
      if d in s.calls {
        assert !MayFree(p, s.calls[d], k);
        if e.Step? && e.call == d {
          Frame(p, s, d, e.action);
          if BeforeRelease(p, t.calls[d].phase) && !BeforeRelease(p, s.calls[d].phase) {
            OnlySetNxStarts(p, s, d, e.action);
          }
        } else {
          OthersLeave(p, s, e, d);
        }
      }
    }
  }

  lemma StepKeeps(p: Policy, s: State, c: Id, action: Action, k: Key)
    requires c in s.calls && k in s.cells && !MayFree(p, s.calls[c], k)
    ensures k in Act(p, s, c, action).cells
  {
  }

  // Whoever may free the key does so in at most two steps, and moves nobody else.
  lemma Frees(p: Policy, s: State, k: Key) returns (events: seq<Event>)
    requires k in s.cells && Freeable(p, s, k)
    ensures var t := Run(p, s, events);
      k !in t.cells
      && forall c | c in s.calls && !MayFree(p, s.calls[c], k) :: c in t.calls && t.calls[c] == s.calls[c]
  {
    if d :| d in s.calls && MayFree(p, s.calls[d], k) {
      var phase := s.calls[d].phase;
      if phase.Raised? {
        events := [Step(d, Release)];
        RunOne(p, s, Step(d, Release));
      } else {
        var raise := if phase.Committed? then CacheDeleteFails else DbError;
        events := [Step(d, raise), Step(d, Release)];
        RunCons(p, s, Step(d, raise), [Step(d, Release)]);
        RunOne(p, Next(p, s, Step(d, raise)), Step(d, Release));
      }
    } else {
      events := [Expire(k)];
      RunOne(p, s, Expire(k));
    }
  }

  lemma RunOne(p: Policy, s: State, e: Event)
    ensures Run(p, s, [e]) == Next(p, s, e)
  {
    RunCons(p, s, e, []);
    assert [e] + [] == [e];
  }

  lemma {:induction false} KeptThroughout(p: Policy, s: State, events: seq<Event>, k: Key)
    requires Guarded(p, s, k)
    ensures Guarded(p, Run(p, s, events), k)
    decreases |events|
  {
    if events != [] {
      KeptStays(p, s, events[0], k);
      KeptThroughout(p, Next(p, s, events[0]), events[1..], k);
    }
  }

  // The call's GET has found nothing to parse.
  predicate FoundNothing(s: State, c: Id) {
    c in s.calls && s.calls[c].phase == Done(Failed(Unparsable))
  }

  lemma OnlyAbsenceIsUnparsable(p: Policy, s: State, e: Event, c: Id)
    requires c in s.calls && !FoundNothing(s, c) && FoundNothing(Next(p, s, e), c)
    ensures Keyed(s.calls[c].request) && s.calls[c].request.key.value !in s.cells
  {
    if !(e.Step? && e.call == c) {
      OthersLeave(p, s, e, c);
    }
  }

  lemma {:induction false} KeptIsFound(p: Policy, s: State, events: seq<Event>, c: Id)
    requires c in s.calls && Keyed(s.calls[c].request) && Guarded(p, s, s.calls[c].request.key.value)
    requires !FoundNothing(s, c)
    ensures !FoundNothing(Run(p, s, events), c)
    decreases |events|
  {
    if events != [] {
      var t := Next(p, s, events[0]);
      KeptStays(p, s, events[0], s.calls[c].request.key.value);
      RequestStays(p, s, events[0], c);
      if FoundNothing(t, c) {
        OnlyAbsenceIsUnparsable(p, s, events[0], c);
      }
      KeptIsFound(p, t, events[1..], c);
    }
  }

  // A call that has lost SET NX can find nothing at its GET exactly when the key is free by now, keys may
  // expire, or a call under the key is still before its release.
  lemma GetFindsNothingExactly(p: Policy, s: State, c: Id)
    requires c in s.calls && s.calls[c].phase.Missed? && Keyed(s.calls[c].request)
    ensures var k := s.calls[c].request.key.value;
      (exists events :: FoundNothing(Run(p, s, events), c)) <==> k !in s.cells || Freeable(p, s, k)
  {
    var k := s.calls[c].request.key.value;
    if k !in s.cells {
      RunOne(p, s, Step(c, Get));
      assert FoundNothing(Run(p, s, [Step(c, Get)]), c);
    } else if Freeable(p, s, k) {
      var events := Frees(p, s, k);
      RunAppend(p, s, events, [Step(c, Get)]);
      RunOne(p, Run(p, s, events), Step(c, Get));
      assert FoundNothing(Run(p, s, events + [Step(c, Get)]), c);
    } else {
      forall events ensures !FoundNothing(Run(p, s, events), c) {
        KeptIsFound(p, s, events, c);
      }
    }
  }

  // A key that is taken can be free again exactly when keys may expire or a call under it is still
  // before its release.
  lemma KeyVanishesExactly(p: Policy, s: State, k: Key)
    requires k in s.cells
    ensures (exists events :: k !in Run(p, s, events).cells) <==> Freeable(p, s, k)
  {
    if Freeable(p, s, k) {
      var events := Frees(p, s, k);
      assert k !in Run(p, s, events).cells;
    } else {
      forall events ensures k in Run(p, s, events).cells {
        KeptThroughout(p, s, events, k);
      }
    }
  }

  const PAYER := Request(Some("k"), Deposit(7, 5, []))

  // Two requests under one key: the first takes it, the second loses SET NX.
  const TWO_REQUESTS: seq<Event> := [Submit(1, PAYER), Submit(2, PAYER), Step(1, SetNx), Step(2, SetNx)]

  // And then the first fails and lets go before the second has sent its GET. No key expires, and produce
  // never raises late.
  const LET_GO: seq<Event> := [Step(1, DbError), Step(1, Release), Step(2, Get)]

  lemma ReleaseSlipsIn()
    ensures FoundNothing(Run(Policy(false, false), Init({}, {}), TWO_REQUESTS + LET_GO), 2)
  {
    var p, s := Policy(false, false), Init({}, {});
    var t := s.(cells := map["k" := Marker], calls := map[1 := Call(PAYER, Producing), 2 := Call(PAYER, Missed)]);
    RunAppend(p, s, TWO_REQUESTS, LET_GO);
    BothTry(p);
    assert Run(p, s, TWO_REQUESTS) == t;
    assert LET_GO[1..] == [Step(1, Release), Step(2, Get)] && LET_GO[1..][1..] == [Step(2, Get)];
    var u := Next(p, Next(p, t, Step(1, DbError)), Step(1, Release));
    assert u.cells == map[] && u.calls[2] == Call(PAYER, Missed);
    RunOne(p, u, Step(2, Get));
  }

  lemma BothTry(p: Policy)
    ensures Run(p, Init({}, {}), TWO_REQUESTS)
         == Init({}, {}).(cells := map["k" := Marker], calls := map[1 := Call(PAYER, Producing), 2 := Call(PAYER, Missed)])
  {
    var s := Init({}, {});
    var t := s.(calls := map[1 := Call(PAYER, Start)]);
    var u := s.(calls := map[1 := Call(PAYER, Start), 2 := Call(PAYER, Start)]);
    var v := s.(cells := map["k" := Marker], calls := map[1 := Call(PAYER, Producing), 2 := Call(PAYER, Start)]);
    RunCons(p, s, Submit(1, PAYER), [Submit(2, PAYER), Step(1, SetNx), Step(2, SetNx)]);
    RunCons(p, t, Submit(2, PAYER), [Step(1, SetNx), Step(2, SetNx)]);
    assert Next(p, t, Submit(2, PAYER)) == u;
    RunCons(p, u, Step(1, SetNx), [Step(2, SetNx)]);
    assert Next(p, u, Step(1, SetNx)) == v;
    RunOne(p, v, Step(2, SetNx));
    assert [Submit(1, PAYER)] + [Submit(2, PAYER), Step(1, SetNx), Step(2, SetNx)] == TWO_REQUESTS;
    assert [Submit(2, PAYER)] + [Step(1, SetNx), Step(2, SetNx)] == [Submit(2, PAYER), Step(1, SetNx), Step(2, SetNx)];
    assert [Step(1, SetNx)] + [Step(2, SetNx)] == [Step(1, SetNx), Step(2, SetNx)];
  }
}
