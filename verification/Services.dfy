/**
 What each user and account service call does to the tables and to the cache entry user:{id}, one
 call at a time, and what every run of such calls keeps: every balance is the sum of its transactions.
 */
module Services {
  import opened Common
  import opened Operations
  import opened Tables

  datatype World = World(tables: Tables, cache: map<Id, UserDetail>)

  // What may go wrong in one call: the commit; the reload of the row after the commit of an update;
  // the read of the cache entry; the command that puts or drops it.
  datatype Faults = Faults(commit: Fate, reload: bool, read: bool, cache: Fate)

  const NO_FAULT := Faults(Fine, false, false, Fine)

  datatype ServiceCall =
    | CreateUser(id: Id, email: string, name: string)  // id: the identifier the insert generates
    | GetUser(id: Id)
    | UpdateUser(id: Id, newName: Option<string>, newActive: Option<bool>)
    | DeleteUser(id: Id)
    | UpsertProfile(id: Id, bio: Option<Option<string>>, avatar: Option<Option<string>>)  // outer None: not sent
    | ChangePassword(id: Id, verified: bool, hash: string)  // verified: the current password matched
    | MoveMoney(op: Op)
    | EntryExpires(id: Id)

  datatype Reply =
    | Nothing
    | UserReply(user: User)
    | DetailReply(detail: UserDetail)
    | ProfileReply(profile: Profile)
    | AccountReply(account: AccountRead)
    | Refused        // a controlled error: not found, conflict, unauthorized, unprocessable
    | Error          // an unexpected exception

  datatype Served = Served(world: World, reply: Reply)

  predicate EmailTaken(t: Tables, email: string) {
    exists id | id in t.users :: t.users[id].email == email
  }

  function FreshUser(email: string, name: string): User {
    User(email, name, true, "user", None, 1)
  }

  // An assignment that changes no column issues no UPDATE and leaves the version alone.
  function Touched(before: User, after: User): User {
    if after == before then before else after.(version := before.version + 1)
  }

  function Edited(u: User, newName: Option<string>, newActive: Option<bool>): User {
    Touched(u, u.(name := if newName.Some? then newName.value else u.name,
                  active := if newActive.Some? then newActive.value else u.active))
  }

  function EditedProfile(p: Profile, bio: Option<Option<string>>, avatar: Option<Option<string>>): Profile {
    Profile(if bio.Some? then bio.value else p.bio, if avatar.Some? then avatar.value else p.avatar)
  }

  function ProfileOf(t: Tables, id: Id): Profile {
    if id in t.profiles then t.profiles[id] else Profile(None, None)
  }

  function TransactionsOf(op: Op): seq<Transaction> {
    match op
    case OpenAccount(_, _, _) => []
    case Deposit(account, amount, categories) => [Transaction(account, amount, "deposit", categories)]
    case Withdraw(account, amount) => [Transaction(account, -amount, "withdrawal", [])]
  }

  function Moved(t: Tables, op: Op, row: AccountRead): Tables {
    t.(accounts := t.accounts[Target(op) := row], transactions := t.transactions + TransactionsOf(op))
  }

  // A mutation that reached its commit; unless something raises before, the entry of `id` is dropped.
  function Mutation(w: World, f: Faults, raises: bool, t: Tables, id: Id, reply: Reply): Served {
    if f.commit.NotDone? then Served(w, Error)
    else if f.commit.ReplyLost? || raises then Served(w.(tables := t), Error)
    else Served(World(t, if f.cache.NotDone? then w.cache else w.cache - {id}), if f.cache.Fine? then reply else Error)
  }

  function Put(w: World, f: Faults, detail: UserDetail, reply: Reply): Served {
    Served(if f.cache.NotDone? then w else w.(cache := w.cache[detail.id := detail]),
           if f.cache.Fine? then reply else Error)
  }

  function ServeCreate(w: World, f: Faults, id: Id, email: string, name: string): Served {
    var t := w.tables;
    if EmailTaken(t, email) then Served(w, Refused)
    else if id in t.users || f.commit.NotDone? then Served(w, Error)
    else
      var u := FreshUser(email, name);
      var v := w.(tables := t.(users := t.users[id := u], outbox := t.outbox + [UserCreated(id, email)]));
      if f.commit.ReplyLost? then Served(v, Error)
      else Put(v, f, UserDetail(id, email, name, true, "user", map[], None), UserReply(u))
  }

  function ServeGet(w: World, f: Faults, id: Id): Served {
    if f.read then Served(w, Error)
    else if id in w.cache then Served(w, DetailReply(w.cache[id]))
    else if id !in w.tables.users then Served(w, Refused)
    else Put(w, f, DetailOf(w.tables, id), DetailReply(DetailOf(w.tables, id)))
  }

  function ServeUpdate(w: World, f: Faults, id: Id, newName: Option<string>, newActive: Option<bool>): Served {
    var t := w.tables;
    if id !in t.users then Served(w, Refused)
    else
      var u := Edited(t.users[id], newName, newActive);
      Mutation(w, f, f.reload, t.(users := t.users[id := u]), id, UserReply(u))
  }

  function ServeDelete(w: World, f: Faults, id: Id): Served {
    if id !in w.tables.users then Served(w, Refused)
    else Mutation(w, f, false, Apply(w.tables, DropUser(id)), id, Nothing)
  }

  function ServeProfile(w: World, f: Faults, id: Id, bio: Option<Option<string>>, avatar: Option<Option<string>>): Served {
    var t := w.tables;
    if id !in t.users then Served(w, Refused)
    else
      var p := EditedProfile(ProfileOf(t, id), bio, avatar);
      Mutation(w, f, false, t.(profiles := t.profiles[id := p]), id, ProfileReply(p))
  }

  // The only mutation that leaves the cache alone: nothing it changes is in the detail.
  function ServePassword(w: World, f: Faults, id: Id, verified: bool, hash: string): Served {
    var t := w.tables;
    if id !in t.users || t.users[id].password.None? || !verified then Served(w, Refused)
    else if f.commit.NotDone? then Served(w, Error)
    else
      var u := t.users[id];
      Served(w.(tables := t.(users := t.users[id := Touched(u, u.(password := Some(hash)))])),
             if f.commit.ReplyLost? then Error else Nothing)
  }

  function ServeMoney(w: World, f: Faults, op: Op): Served {
    if !Accepted(op) then Served(w, Refused)
    else match Perform(w.tables.users.Keys, w.tables.categories, w.tables.accounts, op)
      case None => Served(w, Refused)
      case Some(row) => Mutation(w, f, false, Moved(w.tables, op, row), row.user, AccountReply(row))
  }

  function Serve(w: World, call: ServiceCall, f: Faults): Served {
    match call
    case CreateUser(id, email, name) => ServeCreate(w, f, id, email, name)
    case GetUser(id) => ServeGet(w, f, id)
    case UpdateUser(id, newName, newActive) => ServeUpdate(w, f, id, newName, newActive)
    case DeleteUser(id) => ServeDelete(w, f, id)
    case UpsertProfile(id, bio, avatar) => ServeProfile(w, f, id, bio, avatar)
    case ChangePassword(id, verified, hash) => ServePassword(w, f, id, verified, hash)
    case MoveMoney(op) => ServeMoney(w, f, op)
    case EntryExpires(id) => Served(w.(cache := w.cache - {id}), Nothing)
  }

  datatype Visit = Visit(call: ServiceCall, faults: Faults)

  function Run(w: World, steps: seq<Visit>): World
    decreases |steps|
  {
    if steps == [] then w else Run(Serve(w, steps[0].call, steps[0].faults).world, steps[1..])
  }

  function Empty(categories: set<Id>): World {
    World(Tables(map[], map[], map[], categories, [], []), map[])
  }

  // ----- what every run keeps -----

  function SumOf(transactions: seq<Transaction>, account: Id): int {
    if transactions == [] then 0
    else
      var last := transactions[|transactions| - 1];
      SumOf(transactions[..|transactions| - 1], account) + (if last.account == account then last.amount else 0)
  }

  ghost predicate ReconciledAt(t: Tables, a: Id) {
    if a in t.accounts then
      t.accounts[a].id == a && t.accounts[a].balance == SumOf(t.transactions, a) && t.accounts[a].balance >= 0
    else SumOf(t.transactions, a) == 0
  }

  // Every balance is the sum of the account's transactions and not negative; no transaction is orphaned.
  ghost predicate Reconciled(t: Tables) {
    ForeignKeys(t) && forall a :: ReconciledAt(t, a)
  }

  lemma {:induction false} SumAppend(transactions: seq<Transaction>, more: seq<Transaction>, a: Id)
    requires |more| <= 1
    ensures SumOf(transactions + more, a)
         == SumOf(transactions, a) + (if more != [] && more[0].account == a then more[0].amount else 0)
  {
    if more == [] {
      assert transactions + more == transactions;
    } else {
      assert (transactions + more)[..|transactions|] == transactions;
    }
  }

  lemma {:induction false} SumKept(transactions: seq<Transaction>, dropped: set<Id>, a: Id)
    ensures SumOf(KeepTransactions(transactions, dropped), a)
         == if a in dropped then 0 else SumOf(transactions, a)
  {
    if transactions != [] {
      var init, last := transactions[..|transactions| - 1], transactions[|transactions| - 1];
      SumKept(init, dropped, a);
      SumAppend(KeepTransactions(init, dropped), if last.account in dropped then [] else [last], a);
    }
  }

  lemma DropKeepsReconciled(t: Tables, id: Id)
    requires Reconciled(t)
    ensures Reconciled(Apply(t, DropUser(id)))
  {
    var d := Apply(t, DropUser(id));
    var dropped := set a | a in t.accounts && t.accounts[a].user == id;
    forall a ensures ReconciledAt(d, a) {
      assert ReconciledAt(t, a);
      SumKept(t.transactions, dropped, a);
    }
  }

  lemma MoneyKeepsReconciled(t: Tables, op: Op, row: AccountRead)
    requires Reconciled(t) && Accepted(op)
    requires Perform(t.users.Keys, t.categories, t.accounts, op) == Some(row)
    ensures Reconciled(Moved(t, op, row))
  {
    var m := Moved(t, op, row);
    forall a ensures ReconciledAt(m, a) {
      assert ReconciledAt(t, a);
      SumAppend(t.transactions, TransactionsOf(op), a);
    }
    assert Target(op) in t.accounts ==> row.user == t.accounts[Target(op)].user;
  }

  lemma UsersKeepReconciled(t: Tables, id: Id, u: User)
    requires Reconciled(t)
    ensures Reconciled(t.(users := t.users[id := u]))
  {
    var d := t.(users := t.users[id := u]);
    forall a ensures ReconciledAt(d, a) {
      assert ReconciledAt(t, a);
    }
  }

  lemma ServeKeepsReconciled(w: World, call: ServiceCall, f: Faults)
    requires Reconciled(w.tables)
    ensures Reconciled(Serve(w, call, f).world.tables)
  {
    var t := w.tables;
    match call
    case CreateUser(id, email, name) =>
      UsersKeepReconciled(t, id, FreshUser(email, name));
      var d := t.(users := t.users[id := FreshUser(email, name)]);
      forall a ensures ReconciledAt(d.(outbox := t.outbox + [UserCreated(id, email)]), a) {
        assert ReconciledAt(d, a);
      }
    case UpdateUser(id, newName, newActive) =>
      if id in t.users { UsersKeepReconciled(t, id, Edited(t.users[id], newName, newActive)); }
    case DeleteUser(id) => DropKeepsReconciled(t, id);
    case UpsertProfile(id, bio, avatar) =>
      var d := t.(profiles := t.profiles[id := EditedProfile(ProfileOf(t, id), bio, avatar)]);
      forall a ensures ReconciledAt(d, a) { assert ReconciledAt(t, a); }
    case ChangePassword(id, verified, hash) =>
      if id in t.users {
        var u := t.users[id];
        UsersKeepReconciled(t, id, Touched(u, u.(password := Some(hash))));
      }
    case MoveMoney(op) =>
      if Accepted(op) && Perform(t.users.Keys, t.categories, t.accounts, op).Some? {
        MoneyKeepsReconciled(t, op, Perform(t.users.Keys, t.categories, t.accounts, op).value);
      }
    case _ =>
  }

  // Books stay balanced over every run of service calls, whatever fails in between.
  lemma {:induction false} RunKeepsReconciled(w: World, steps: seq<Visit>)
    requires Reconciled(w.tables)
    ensures Reconciled(Run(w, steps).tables)
    decreases |steps|
  {
    if steps != [] {
      ServeKeepsReconciled(w, steps[0].call, steps[0].faults);
      RunKeepsReconciled(Serve(w, steps[0].call, steps[0].faults).world, steps[1..]);
    }
  }
}
