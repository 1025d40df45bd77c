/** The promises of the idempotent money endpoints, over every run of the machine. */
module MoneyTheorems {
  import opened Common
  import opened Operations
  import opened Money
  import opened MoneySafety

  // ----- at most one effect per key -----

  // In any run, under any policy: the commits under a key exceed one only by the faults of that key.
  lemma EffectsBoundedByFaults(p: Policy, s: State, k: Key)
    requires Reachable(p, s) && k != ""
    ensures EffectsOf(s.effects, k) <= 1 + s.faults[k]
  {
    ReachableInv(p, s);
    assert KeyOk(s, k);
  }

  lemma {:induction false} EffectOfKeyCounted(effects: seq<Effect>, k: Key, i: nat)
    requires i < |effects| && effects[i].request.key == Some(k)
    ensures EffectsOf(effects, k) >= 1
  {
    if i < |effects| - 1 {
      EffectOfKeyCounted(effects[..|effects| - 1], k, i);
    }
  }

  lemma {:induction false} OneEffectIsUnique(effects: seq<Effect>, k: Key, i: nat, j: nat)
    requires i < j < |effects|
    requires effects[i].request.key == Some(k) && effects[j].request.key == Some(k)
    ensures EffectsOf(effects, k) >= 2
  {
    var init := effects[..|effects| - 1];
    if j == |effects| - 1 {
      EffectOfKeyCounted(init, k, i);
    } else {
      OneEffectIsUnique(init, k, i, j);
    }
  }

  // The response a client got, if it got one.
  function Answer(phase: Phase): Option<AccountRead> {
    match phase
    case Done(Success(response)) => Some(response)
    case Done(Replayed(response)) => Some(response)
    case _ => None
  }

  lemma AnswerHasEffect(p: Policy, s: State, c: Id)
    requires Reachable(p, s) && c in s.calls && Answer(s.calls[c].phase).Some?
    ensures SomeEffect(s.effects, s.calls[c].request.key, Answer(s.calls[c].phase).value)
  {
    ReachableInv(p, s);
    assert ResponseOk(s, c);
  }

  // A key that was never freed after a commit and never expired, whatever may happen to others: at most
  // one commit, and all the successes handed out for the key are the response of that commit.
  lemma AtMostOnceAndSameAnswer(p: Policy, s: State, k: Key)
    requires Reachable(p, s) && k != "" && s.faults[k] == 0
    ensures EffectsOf(s.effects, k) <= 1
    ensures forall c, d | c in s.calls && d in s.calls
              && s.calls[c].request.key == Some(k) && s.calls[d].request.key == Some(k)
              && Answer(s.calls[c].phase).Some? && Answer(s.calls[d].phase).Some?
              :: Answer(s.calls[c].phase) == Answer(s.calls[d].phase)
  {
    EffectsBoundedByFaults(p, s, k);
    forall c, d | c in s.calls && d in s.calls
      && s.calls[c].request.key == Some(k) && s.calls[d].request.key == Some(k)
      && Answer(s.calls[c].phase).Some? && Answer(s.calls[d].phase).Some?
      ensures Answer(s.calls[c].phase) == Answer(s.calls[d].phase)
    {
      AnswerHasEffect(p, s, c);
      AnswerHasEffect(p, s, d);
      OneResponse(s.effects, k, Answer(s.calls[c].phase).value, Answer(s.calls[d].phase).value);
    }
  }

  lemma OneResponse(effects: seq<Effect>, k: Key, a: AccountRead, b: AccountRead)
    requires EffectsOf(effects, k) <= 1 && SomeEffect(effects, Some(k), a) && SomeEffect(effects, Some(k), b)
    ensures a == b
  {
    var i :| 0 <= i < |effects| && effects[i].request.key == Some(k) && effects[i].response == a;
    var j :| 0 <= j < |effects| && effects[j].request.key == Some(k) && effects[j].response == b;
    if i < j {
      OneEffectIsUnique(effects, k, i, j);
    } else if j < i {
      OneEffectIsUnique(effects, k, j, i);
    }
  }

  // When produce never raises after its commit and keys do not expire, that is so for every key.
  lemma NoFaults(p: Policy, s: State)
    requires Reachable(p, s) && !p.lateRaise && !p.expiry
    ensures s.faults == multiset{}
  {
    ReachableInv(p, s);
  }

  // What the outcome of a call that is over tells: a success, a response that could not be stored and a
  // produce that raised late mean a commit; a conflict, a replay and any other failure mean none. (Of a
  // crashed call nothing is known.)
  lemma OutcomeTellsCommit(p: Policy, s: State, c: Id)
    requires Reachable(p, s) && c in s.calls && s.calls[c].phase.Done? && !s.calls[c].phase.outcome.Crashed?
    ensures HasEffect(s, c) <==>
      match s.calls[c].phase.outcome
      case Success(_) => true
      case Failed(failure) => failure == NotSaved || failure == ProduceRaised(Late)
      case _ => false
  {
    ReachableInv(p, s);
    assert ResponseOk(s, c);
  }

  // ----- the ledger -----

  lemma {:induction false} SerialBalances(users: set<Id>, categories: set<Id>, effects: seq<Effect>, a: Id)
    requires forall i | 0 <= i < |effects| ::
      Accepted(effects[i].request.op)
      && Perform(users, categories, SerialRun(users, categories, effects[..i]), effects[i].request.op)
         == Some(effects[i].response)
    ensures a in SerialRun(users, categories, effects) ==>
      var row := SerialRun(users, categories, effects)[a];
      row.id == a && row.user in users && row.balance == LedgerSum(effects, a) && row.balance >= 0
    ensures a !in SerialRun(users, categories, effects) ==> LedgerSum(effects, a) == 0
  {
    if effects != [] {
      var n := |effects| - 1;
      var init := effects[..n];
      forall i | 0 <= i < n
        ensures Accepted(init[i].request.op)
        ensures Perform(users, categories, SerialRun(users, categories, init[..i]), init[i].request.op)
             == Some(init[i].response)
      {
        assert init[..i] == effects[..i];
        assert init[i] == effects[i];
      }
      SerialBalances(users, categories, init, a);
      SerialBalances(users, categories, init, Target(effects[n].request.op));
    }
  }

  // Every committed balance is the sum of the account's committed transaction amounts, never negative.
  lemma BalanceIsLedgerSum(p: Policy, s: State, a: Id)
    requires Reachable(p, s)
    ensures a in s.accounts ==> s.accounts[a].balance == LedgerSum(s.effects, a) && s.accounts[a].balance >= 0
    ensures a !in s.accounts ==> LedgerSum(s.effects, a) == 0
  {
    ReachableInv(p, s);
    forall i | 0 <= i < |s.effects|
      ensures Accepted(s.effects[i].request.op)
      ensures Perform(s.users, s.categories, SerialRun(s.users, s.categories, s.effects[..i]), s.effects[i].request.op)
           == Some(s.effects[i].response)
    {
      assert Legal(s, i);
    }
    SerialBalances(s.users, s.categories, s.effects, a);
  }

  // The i-th commit is this call's, and its response is what the operation yields when run alone there.
  ghost predicate ServedAt(s: State, c: Id, i: nat)
    requires c in s.calls
  {
    && i < |s.effects|
    && s.effects[i].call == c
    && s.calls[c].phase.Done? && s.calls[c].phase.outcome.Success?
    && Perform(s.users, s.categories, SerialRun(s.users, s.categories, s.effects[..i]), s.calls[c].request.op)
       == Some(s.calls[c].phase.outcome.response)
  }

  // The committed state is the serial run of the commits, and every success was served at its place
  // in the commit order.
  lemma Serializable(p: Policy, s: State)
    requires Reachable(p, s)
    ensures s.accounts == SerialRun(s.users, s.categories, s.effects)
    ensures forall c | c in s.calls && s.calls[c].phase.Done? && s.calls[c].phase.outcome.Success? ::
              exists i :: ServedAt(s, c, i)
  {
    ReachableInv(p, s);
    forall c | c in s.calls && s.calls[c].phase.Done? && s.calls[c].phase.outcome.Success?
      ensures exists i :: ServedAt(s, c, i)
    {
      assert ResponseOk(s, c);
      var i :| 0 <= i < |s.effects|
               && s.effects[i] == Effect(c, s.calls[c].request, s.calls[c].phase.outcome.response);
      assert Legal(s, i);
      assert ServedAt(s, c, i);
    }
  }
}
