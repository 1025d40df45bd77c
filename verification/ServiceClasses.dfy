/** The services as objects: each method runs its unit of work step by step and ends where Serve says. */
module ServiceClasses {
  import opened Common
  import opened Operations
  import opened Tables
  import opened UnitOfWork
  import opened Services
  import Sessions
  import opened SessionStore

  class Cache {
    var entries: map<Id, UserDetail>

    constructor ()
      ensures entries == map[]
    {
      entries := map[];
    }

    method Get(id: Id, raises: bool) returns (r: Result<Option<UserDetail>, ()>)
      ensures r == if raises then Err(()) else if id in entries then Ok(Some(entries[id])) else Ok(None)
    {
      if raises {
        return Err(());
      }
      if id in entries {
        return Ok(Some(entries[id]));
      }
      return Ok(None);
    }

    // Not ok: the command raises.
    method Set(detail: UserDetail, fate: Fate) returns (ok: bool)
      modifies this
      ensures ok == fate.Fine?
      ensures entries == if fate.NotDone? then old(entries) else old(entries)[detail.id := detail]
    {
      if !fate.NotDone? {
        entries := entries[detail.id := detail];
      }
      return fate.Fine?;
    }

    method Delete(id: Id, fate: Fate) returns (ok: bool)
      modifies this
      ensures ok == fate.Fine?
      ensures entries == if fate.NotDone? then old(entries) else old(entries) - {id}
    {
      if !fate.NotDone? {
        entries := entries - {id};
      }
      return fate.Fine?;
    }
  }

  // get_many drops unknown ids, so a short answer means one of them was unknown.
  lemma {:induction false} AllFoundIffKnown(ids: seq<Id>, categories: set<Id>)
    ensures |set c | c in ids && c in categories| == |set c | c in ids| <==> KnownCategories(categories, ids)
  {
    var found, asked := set c | c in ids && c in categories, set c | c in ids;
    assert found <= asked;
    if KnownCategories(categories, ids) {
      assert found == asked;
    } else {
      var i :| 0 <= i < |ids| && ids[i] !in categories;
      assert ids[i] in asked - found;
      assert |asked| == |found| + |asked - found|;
    }
  }

  class AccountService {
    const uow: UnitOfWork
    const cache: Cache

    ghost predicate Valid()
      reads this, uow
    {
      uow.Valid() && uow.session.None?
    }

    ghost function World(): World
      reads this, uow, uow.db, cache
    {
      Services.World(uow.db.tables, cache.entries)
    }

    constructor (uow: UnitOfWork, cache: Cache)
      requires uow.Valid() && uow.session.None?
      ensures Valid() && this.uow == uow && this.cache == cache
    {
      this.uow, this.cache := uow, cache;
    }

    method CreateAccount(user: Id, name: string, id: Id, f: Faults) returns (r: Reply)
      requires Valid()
      modifies uow, uow.db, cache
      ensures Valid()
      ensures Served(World(), r) == Serve(old(World()), MoveMoney(Op.OpenAccount(user, name, id)), f)
    {
      var _ := uow.Enter();
      var seen := uow.Read(Users);
      if user !in seen.users {
        var _ := uow.Exit(true);
        return Refused;
      }
      seen := uow.Read(Accounts);
      if id in seen.accounts {
        var _ := uow.Exit(true);
        return Refused;
      }
      var account := AccountRead(id, user, name, 0);
      uow.Stage(Accounts, PutAccount(id, account));
      ghost var op := Op.OpenAccount(user, name, id);
      assert Perform(seen.users.Keys, seen.categories, seen.accounts, op) == Some(account);
      assert uow.View() == Moved(seen, op, account);
      r := Finish(f, account);
    }

    method Deposit(account: Id, amount: int, categoryIds: seq<Id>, f: Faults) returns (r: Reply)
      requires Valid() && amount > 0
      modifies uow, uow.db, cache
      ensures Valid()
      ensures Served(World(), r) == Serve(old(World()), MoveMoney(Op.Deposit(account, amount, categoryIds)), f)
    {
      var _ := uow.Enter();
      var seen := uow.Read(Accounts);
      if account !in seen.accounts {
        var _ := uow.Exit(true);
        return Refused;
      }
      var row := seen.accounts[account].(balance := seen.accounts[account].balance + amount);
      ghost var op, before := Op.Deposit(account, amount, categoryIds), uow.db.tables;
      uow.Stage(Accounts, PutAccount(account, row));
      assert uow.View() == before.(accounts := before.accounts[account := row]);
      if categoryIds != [] {
        var known := AllFound(categoryIds);
        if !known {
          var _ := uow.Exit(true);
          return Refused;
        }
      }
      uow.Stage(Transactions, AddTransaction(Transaction(account, amount, "deposit", categoryIds)));
      assert uow.View() == Moved(before, op, row);
      assert Perform(before.users.Keys, before.categories, before.accounts, op) == Some(row);
      r := Finish(f, row);
    }

    // Whether the database has every category asked for.
    method AllFound(categoryIds: seq<Id>) returns (known: bool)
      requires uow.Valid() && uow.session.Some?
      modifies uow`repos
      ensures uow.Valid()
      ensures known == KnownCategories(uow.View().categories, categoryIds)
    {
      var seen := uow.Read(Categories);
      var found := set c | c in categoryIds && c in seen.categories;
      AllFoundIffKnown(categoryIds, seen.categories);
      return |found| == |set c | c in categoryIds|;
    }

    method Withdraw(account: Id, amount: int, f: Faults) returns (r: Reply)
      requires Valid() && amount > 0
      modifies uow, uow.db, cache
      ensures Valid()
      ensures Served(World(), r) == Serve(old(World()), MoveMoney(Op.Withdraw(account, amount)), f)
    {
      var _ := uow.Enter();
      var seen := uow.Read(Accounts);
      if account !in seen.accounts {
        var _ := uow.Exit(true);
        return Refused;
      }
      var row := seen.accounts[account];
      if row.balance < amount {
        var _ := uow.Exit(true);
        return Refused;
      }
      row := row.(balance := row.balance - amount);
      uow.Stage(Accounts, PutAccount(account, row));
      uow.Stage(Transactions, AddTransaction(Transaction(account, -amount, "withdrawal", [])));
      r := Finish(f, row);
    }

    // Commit, leave the unit of work, drop the owner's cached detail.
    method Finish(f: Faults, row: AccountRead) returns (r: Reply)
      requires uow.Valid() && uow.session.Some?
      modifies uow, uow.db, cache
      ensures Valid()
      ensures Served(World(), r) == Mutation(old(World()), f, false, old(uow.View()), row.user, AccountReply(row))
    {
      var committed := uow.Commit(f.commit);
      if committed.Err? {
        var _ := uow.Exit(true);
        return Error;
      }
      var _ := uow.Exit(false);
      var ok := cache.Delete(row.user, f.cache);
      return if ok then AccountReply(row) else Error;
    }
  }

  class UserService {
    const uow: UnitOfWork
    const cache: Cache
    const sessions: Option<SessionStore>
    const uidOf: Id -> Sessions.Uid

    ghost predicate Valid()
      reads this, uow
    {
      uow.Valid() && uow.session.None?
    }

    ghost function World(): World
      reads this, uow, uow.db, cache
    {
      Services.World(uow.db.tables, cache.entries)
    }

    constructor (uow: UnitOfWork, cache: Cache, sessions: Option<SessionStore>, uidOf: Id -> Sessions.Uid)
      requires uow.Valid() && uow.session.None?
      ensures Valid() && this.uow == uow && this.cache == cache && this.sessions == sessions && this.uidOf == uidOf
    {
      this.uow, this.cache, this.sessions, this.uidOf := uow, cache, sessions, uidOf;
    }

    method Create(id: Id, email: string, name: string, f: Faults) returns (r: Reply)
      requires Valid()
      modifies uow, uow.db, cache
      ensures Valid()
      ensures Served(World(), r) == Serve(old(World()), CreateUser(id, email, name), f)
    {
      var _ := uow.Enter();
      var seen := uow.Read(Users);
      if exists other | other in seen.users :: seen.users[other].email == email {
        var _ := uow.Exit(true);
        return Refused;
      }
      if id in seen.users {
        var _ := uow.Exit(true);
        return Error;
      }
      var user := FreshUser(email, name);
      uow.Stage(Users, PutUser(id, user));
      // The event joins the user's own transaction.
      uow.Stage(Outbox, AddEvent(UserCreated(id, email)));
      var committed := uow.Commit(f.commit);
      var _ := uow.Exit(committed.Err?);
      if committed.Err? {
        return Error;
      }
      var ok := cache.Set(UserDetail(id, email, name, true, "user", map[], None), f.cache);
      return if ok then UserReply(user) else Error;
    }

    method Get(id: Id, f: Faults) returns (r: Reply)
      requires Valid()
      modifies uow, uow.db, cache
      ensures Valid()
      ensures Served(World(), r) == Serve(old(World()), GetUser(id), f)
    {
      var cached := cache.Get(id, f.read);
      if cached.Err? {
        return Error;
      }
      if cached.value.Some? {
        return DetailReply(cached.value.value);
      }
      var _ := uow.Enter();
      var seen := uow.Read(Users);
      var _ := uow.Exit(false);
      if id !in seen.users {
        return Refused;
      }
      var detail := DetailOf(seen, id);
      var ok := cache.Set(detail, f.cache);
      return if ok then DetailReply(detail) else Error;
    }

    method Update(id: Id, newName: Option<string>, newActive: Option<bool>, f: Faults) returns (r: Reply)
      requires Valid()
      modifies uow, uow.db, cache
      ensures Valid()
      ensures Served(World(), r) == Serve(old(World()), UpdateUser(id, newName, newActive), f)
    {
      var _ := uow.Enter();
      var seen := uow.Read(Users);
      if id !in seen.users {
        var _ := uow.Exit(true);
        return Refused;
      }
      var user := Edited(seen.users[id], newName, newActive);
      if user != seen.users[id] {
        uow.Stage(Users, PutUser(id, user));
      }
      r := Finish(f, f.reload, id, UserReply(user));
    }

    // When the deletion and the drop of the cached entry went well, the user's sessions go too.
    method Delete(id: Id, f: Faults, revoke: Fate) returns (r: Reply)
      requires Valid()
      modifies uow, uow.db, cache, if sessions.Some? then {sessions.value} else {}
      ensures Valid()
      ensures World() == Serve(old(World()), DeleteUser(id), f).world
      ensures var reply := Serve(old(World()), DeleteUser(id), f).reply;
        && r == (if reply == Nothing && sessions.Some? && !revoke.Fine? then Error else reply)
        && (sessions.Some? && reply == Nothing && !revoke.NotDone? ==>
              sessions.value.client == Sessions.RevokeAll(old(sessions.value.client), uidOf(id)))
        && (sessions.Some? && (reply != Nothing || revoke.NotDone?) ==>
              sessions.value.client == old(sessions.value.client))
    {
      r := DeleteRow(id, f);
      if r == Nothing && sessions.Some? {
        if !revoke.NotDone? {
          var _ := sessions.value.RevokeAll(uidOf(id));
        }
        r := if revoke.Fine? then Nothing else Error;
      }
    }

    method DeleteRow(id: Id, f: Faults) returns (r: Reply)
      requires Valid()
      modifies uow, uow.db, cache
      ensures Valid()
      ensures Served(World(), r) == Serve(old(World()), DeleteUser(id), f)
    {
      var _ := uow.Enter();
      var seen := uow.Read(Users);
      if id !in seen.users {
        var _ := uow.Exit(true);
        return Refused;
      }
      uow.Stage(Users, DropUser(id));
      r := Finish(f, false, id, Nothing);
    }

    method UpsertProfile(id: Id, bio: Option<Option<string>>, avatar: Option<Option<string>>, f: Faults)
      returns (r: Reply)
      requires Valid()
      modifies uow, uow.db, cache
      ensures Valid()
      ensures Served(World(), r) == Serve(old(World()), ServiceCall.UpsertProfile(id, bio, avatar), f)
    {
      var _ := uow.Enter();
      var seen := uow.Read(Users);
      if id !in seen.users {
        var _ := uow.Exit(true);
        return Refused;
      }
      var profile := EditedProfile(ProfileOf(seen, id), bio, avatar);
      uow.Stage(Users, PutProfile(id, profile));
      r := Finish(f, false, id, ProfileReply(profile));
    }

    // The password service shares the user row but not the cache.
    method ChangePassword(id: Id, verified: bool, hash: string, f: Faults) returns (r: Reply)
      requires Valid()
      modifies uow, uow.db, cache
      ensures Valid()
      ensures Served(World(), r) == Serve(old(World()), ServiceCall.ChangePassword(id, verified, hash), f)
    {
      var _ := uow.Enter();
      var seen := uow.Read(Users);
      var _ := uow.Exit(false);
      if id !in seen.users || seen.users[id].password.None? || !verified {
        return Refused;
      }
      r := SetPassword(id, hash, f.commit);
    }

    method SetPassword(id: Id, hash: string, fate: Fate) returns (r: Reply)
      requires Valid()
      modifies uow, uow.db
      ensures Valid()
      ensures var t := old(uow.db.tables);
        if id !in t.users then r == Refused && uow.db.tables == t
        else
          var changed := Touched(t.users[id], t.users[id].(password := Some(hash)));
          && uow.db.tables == (if fate.NotDone? then t else t.(users := t.users[id := changed]))
          && r == (if fate.Fine? then Nothing else Error)
    {
      var _ := uow.Enter();
      var seen := uow.Read(Users);
      r := Refused;
      if id in seen.users {
        var user := seen.users[id];
        var changed := Touched(user, user.(password := Some(hash)));
        if changed != user {
          uow.Stage(Users, PutUser(id, changed));
        }
        assert uow.View() == seen.(users := seen.users[id := changed]);
        var committed := uow.Commit(fate);
        r := if committed.Err? then Error else Nothing;
      }
      var _ := uow.Exit(r != Nothing);
    }

    method Finish(f: Faults, reloadFails: bool, id: Id, reply: Reply) returns (r: Reply)
      requires uow.Valid() && uow.session.Some?
      modifies uow, uow.db, cache
      ensures Valid()
      ensures Served(World(), r) == Mutation(old(World()), f, reloadFails, old(uow.View()), id, reply)
    {
      var committed := uow.Commit(f.commit);
      var raised := committed.Err? || reloadFails;
      var _ := uow.Exit(raised);
      if raised {
        return Error;
      }
      var ok := cache.Delete(id, f.cache);
      return if ok then reply else Error;
    }
  }
}
