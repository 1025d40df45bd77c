/** When the cached user details agree with the tables: call by call, and at every point of a serial run. */
module CacheAgreement {
  import opened Common
  import opened Operations
  import opened Tables
  import opened Services

  // Whatever is cached is what a read of the tables would build.
  ghost predicate Agrees(w: World) {
    forall id | id in w.cache :: id in w.tables.users && w.cache[id] == DetailOf(w.tables, id)
  }

  lemma MoneyTouchesOneUser(t: Tables, op: Op, row: AccountRead, id: Id)
    requires Reconciled(t) && Perform(t.users.Keys, t.categories, t.accounts, op) == Some(row)
    requires id in t.users && id != row.user
    ensures DetailOf(Moved(t, op, row), id) == DetailOf(t, id)
  {
    assert AccountsOf(Moved(t, op, row), id) == AccountsOf(t, id);
  }

  // ----- when a call leaves a stale entry -----

  // Whether the call, if it commits, changes the detail of some user, and of which.
  predicate ChangesDetail(t: Tables, call: ServiceCall) {
    match call
    case UpdateUser(id, newName, newActive) =>
      id in t.users && ((newName.Some? && newName.value != t.users[id].name)
                        || (newActive.Some? && newActive.value != t.users[id].active))
    case DeleteUser(id) => id in t.users
    case UpsertProfile(id, bio, avatar) =>
      id in t.users && (id !in t.profiles || (bio.Some? && bio.value != t.profiles[id].bio)
                        || (avatar.Some? && avatar.value != t.profiles[id].avatar))
    case MoveMoney(op) => Accepted(op) && Perform(t.users.Keys, t.categories, t.accounts, op).Some?
    case _ => false
  }

  function Owner(t: Tables, call: ServiceCall): Id
    requires ChangesDetail(t, call)
  {
    match call
    case UpdateUser(id, _, _) => id
    case DeleteUser(id) => id
    case UpsertProfile(id, _, _) => id
    case MoveMoney(op) => if op.OpenAccount? then op.user else t.accounts[op.account].user
  }

  // The call's commit is done, and the drop of the cached entry is not.
  predicate Uninvalidated(call: ServiceCall, f: Faults) {
    f.commit.ReplyLost? || (f.commit.Fine? && ((call.UpdateUser? && f.reload) || f.cache.NotDone?))
  }

  predicate LeavesStale(w: World, call: ServiceCall, f: Faults) {
    ChangesDetail(w.tables, call) && Owner(w.tables, call) in w.cache && Uninvalidated(call, f)
  }

  // No detail but the owner's changes, so dropping the owner's entry is enough.
  lemma OthersKeepTheirDetail(w: World, call: ServiceCall, f: Faults, id: Id)
    requires Reconciled(w.tables) && id in w.tables.users
    requires ChangesDetail(w.tables, call) ==> id != Owner(w.tables, call)
    ensures var t := Serve(w, call, f).world.tables;
      id in t.users && DetailOf(t, id) == DetailOf(w.tables, id)
  {
    var t, u := w.tables, Serve(w, call, f).world.tables;
    match call
    case MoveMoney(op) =>
      if u != t {
        MoneyTouchesOneUser(t, op, Perform(t.users.Keys, t.categories, t.accounts, op).value, id);
      }
    case DeleteUser(dropped) =>
      if u != t {
        DropTouchesOneUser(t, dropped, id);
      }
    case _ =>
      SameAccounts(w, call, f);
  }

  lemma DropTouchesOneUser(t: Tables, dropped: Id, id: Id)
    requires id in t.users && id != dropped
    ensures var u := Apply(t, DropUser(dropped));
      id in u.users && DetailOf(u, id) == DetailOf(t, id)
  {
    assert AccountsOf(Apply(t, DropUser(dropped)), id) == AccountsOf(t, id);
  }

  lemma SameAccounts(w: World, call: ServiceCall, f: Faults)
    requires !call.MoveMoney? && !call.DeleteUser?
    ensures Serve(w, call, f).world.tables.accounts == w.tables.accounts
  {
  }

  // The owner's detail does change.
  lemma OwnersDetailChanges(w: World, call: ServiceCall, f: Faults)
    requires Reconciled(w.tables) && ChangesDetail(w.tables, call) && !f.commit.NotDone?
    ensures var t, id := Serve(w, call, f).world.tables, Owner(w.tables, call);
      id in w.tables.users && (id in t.users ==> DetailOf(t, id) != DetailOf(w.tables, id))
  {
    var t, u, id := w.tables, Serve(w, call, f).world.tables, Owner(w.tables, call);
    match call
    case MoveMoney(op) =>
      var a := Target(op);
      assert ReconciledAt(t, a);
      assert a in AccountsOf(u, id) && (a in AccountsOf(t, id) ==> AccountsOf(u, id)[a] != AccountsOf(t, id)[a]);
    case _ =>
  }

  // A call on a cache that agrees keeps it so, unless it changes a cached user's detail, commits, and
  // does not get to drop the entry; then it does not.
  lemma ServeAgreesExactly(w: World, call: ServiceCall, f: Faults)
    requires Reconciled(w.tables) && Agrees(w)
    ensures Agrees(Serve(w, call, f).world) <==> !LeavesStale(w, call, f)
  {
    var v := Serve(w, call, f).world;
    if LeavesStale(w, call, f) {
      OwnersDetailChanges(w, call, f);
      var id := Owner(w.tables, call);
      assert id in v.cache && v.cache[id] == DetailOf(w.tables, id);
    } else {
      forall id | id in v.cache ensures id in v.tables.users && v.cache[id] == DetailOf(v.tables, id) {
        if v.tables != w.tables && id in w.tables.users && !(ChangesDetail(w.tables, call) && id == Owner(w.tables, call)) {
          OthersKeepTheirDetail(w, call, f, id);
        }
        FreshEntry(w, call, f, id);
      }
    }
  }

  // The one entry a create or a get may add.
  lemma FreshEntry(w: World, call: ServiceCall, f: Faults, id: Id)
    requires Reconciled(w.tables) && Agrees(w)
    ensures var v := Serve(w, call, f).world;
      id in v.cache && (id !in w.cache || call.CreateUser?) && id !in w.tables.users ==>
        call.CreateUser? && id in v.tables.users && v.cache[id] == DetailOf(v.tables, id)
    ensures var v := Serve(w, call, f).world;
      id in v.cache && id !in w.cache && id in w.tables.users ==>
        v.tables == w.tables && v.cache[id] == DetailOf(w.tables, id)
    ensures var v := Serve(w, call, f).world;
      id in v.cache && id in w.cache ==> v.cache[id] == w.cache[id]
  {
    var v := Serve(w, call, f).world;
    if call.CreateUser? && v.tables != w.tables {
      assert AccountsOf(v.tables, call.id) == map[];
    }
  }

  ghost predicate AgreesThroughout(w: World, steps: seq<Visit>)
    decreases |steps|
  {
    Agrees(w) && (steps == [] || AgreesThroughout(Serve(w, steps[0].call, steps[0].faults).world, steps[1..]))
  }

  predicate NeverLeavesStale(w: World, steps: seq<Visit>)
    decreases |steps|
  {
    steps == [] || (!LeavesStale(w, steps[0].call, steps[0].faults)
                    && NeverLeavesStale(Serve(w, steps[0].call, steps[0].faults).world, steps[1..]))
  }

  // The cache agrees with the tables at every point of a serial run exactly when no call of it changes
  // a cached user's detail, commits, and does not get to drop the entry.
  lemma {:induction false} AgreementExactly(w: World, steps: seq<Visit>)
    requires Reconciled(w.tables) && Agrees(w)
    ensures AgreesThroughout(w, steps) <==> NeverLeavesStale(w, steps)
    decreases |steps|
  {
    if steps != [] {
      ServeAgreesExactly(w, steps[0].call, steps[0].faults);
      ServeKeepsReconciled(w, steps[0].call, steps[0].faults);
      if !LeavesStale(w, steps[0].call, steps[0].faults) {
        AgreementExactly(Serve(w, steps[0].call, steps[0].faults).world, steps[1..]);
      }
    }
  }

  ghost predicate AllInvalidate(steps: seq<Visit>) {
    forall i | 0 <= i < |steps| :: !Uninvalidated(steps[i].call, steps[i].faults)
  }

  // So it agrees at the end of every run in which no commit goes without its cache command, whatever
  // else fails.
  lemma {:induction false} RunKeepsAgreement(w: World, steps: seq<Visit>)
    requires Reconciled(w.tables) && Agrees(w) && AllInvalidate(steps)
    ensures Agrees(Run(w, steps))
    decreases |steps|
  {
    if steps != [] {
      ServeKeepsReconciled(w, steps[0].call, steps[0].faults);
      ServeAgreesExactly(w, steps[0].call, steps[0].faults);
      RunKeepsAgreement(Serve(w, steps[0].call, steps[0].faults).world, steps[1..]);
    }
  }

  // In a world that agrees, a read is never stale: it serves exactly what the tables hold, or an error.
  lemma GetServesTheTables(w: World, id: Id, f: Faults)
    requires Agrees(w)
    ensures var reply := Serve(w, GetUser(id), f).reply;
      if f.read then reply == Error
      else if id !in w.tables.users then reply == Refused
      else reply == DetailReply(DetailOf(w.tables, id)) || (!f.cache.Fine? && reply == Error)
  {
  }

  // Three ways to lose the invalidation of an update: its cache command, its reload, its commit's reply.
  predicate LosesInvalidation(f: Faults) {
    f == Faults(Fine, false, false, NotDone) || f == Faults(Fine, true, false, Fine)
    || f == Faults(ReplyLost, false, false, Fine)
  }

  // Creating a user caches it; an update that loses its invalidation leaves the old detail there.
  lemma LostInvalidationDisagrees(f: Faults)
    requires LosesInvalidation(f)
    ensures !Agrees(Run(Empty({}), [Visit(CreateUser(1, "e", "old"), NO_FAULT), Visit(UpdateUser(1, Some("new"), None), f)]))
  {
    var first, second := Visit(CreateUser(1, "e", "old"), NO_FAULT), Visit(UpdateUser(1, Some("new"), None), f);
    var w := Serve(Empty({}), first.call, first.faults).world;
    var v := Serve(w, second.call, second.faults).world;
    assert w.tables.users == map[1 := FreshUser("e", "old")];
    assert "new"[0] != "old"[0];
    assert v.tables.users[1].name == "new" && v.cache[1].name == "old";
    assert [first, second][1..] == [second] && [second][1..] == [];
    assert Run(Empty({}), [first, second]) == Run(w, [second]) == Run(v, []) == v;
  }
}
