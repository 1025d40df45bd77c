/** What each user service call changes, and what it leaves alone, said outright. */
module ServiceRules {
  import opened Common
  import opened Tables
  import opened Services

  // The row of a user that is not this one, and every other table.
  ghost predicate OnlyUser(t: Tables, u: Tables, id: Id) {
    && (forall other | other != id :: (other in u.users <==> other in t.users)
          && (other in t.users ==> u.users[other] == t.users[other]))
    && u.profiles == t.profiles && u.accounts == t.accounts && u.categories == t.categories
    && u.transactions == t.transactions && u.outbox == t.outbox
  }

  // A user is created exactly when nobody has the email; then the row and its event, with the same id and
  // email, are there together, and nothing else has changed.
  lemma CreateExactly(w: World, id: Id, email: string, name: string, f: Faults)
    requires id !in w.tables.users
    ensures var t := w.tables;
      var end := Serve(w, CreateUser(id, email, name), f);
      var u := end.world.tables;
      && (end.reply == Refused <==> exists other :: other in t.users && t.users[other].email == email)
      && (end.reply == Refused || f.commit.NotDone? ==> end.world == w)
      && (end.reply != Refused && !f.commit.NotDone? ==>
            && OnlyUser(t, u.(outbox := t.outbox), id)
            && id in u.users && u.users[id].email == email && u.users[id].name == name && u.users[id].active
            && u.users[id].password == None && u.users[id].role == "user" && u.users[id].version == 1
            && u.outbox == t.outbox + [UserCreated(id, email)])
      && (end.reply.UserReply? <==> end.reply != Refused && f.commit.Fine? && f.cache.Fine?)
      && (end.reply.UserReply? ==>
            && id in u.users && end.reply.user == u.users[id]
            && end.world.cache == w.cache[id := UserDetail(id, email, name, true, u.users[id].role, map[], None)])
  {
  }

  // A get without failures leaves the detail it serves in the cache, and changes no table.
  lemma GetCaches(w: World, id: Id, f: Faults)
    ensures var end := Serve(w, GetUser(id), f);
      && end.world.tables == w.tables
      && (end.reply.DetailReply? ==> id in end.world.cache && end.world.cache == w.cache[id := end.reply.detail])
      && (end.reply == Error <==> f.read || (id !in w.cache && id in w.tables.users && !f.cache.Fine?))
      && (!f.read && id in w.cache ==> end.reply == DetailReply(w.cache[id]))
      && (!f.read && id !in w.cache ==> (end.reply == Refused <==> id !in w.tables.users))
  {
    if id in w.cache {
      assert w.cache[id := w.cache[id]] == w.cache;
    }
  }

  // An entry that expires is gone, and nothing else.
  lemma ExpiryDrops(w: World, id: Id, f: Faults)
    ensures Serve(w, EntryExpires(id), f).world == w.(cache := w.cache - {id})
  {
  }

  // The detail shows the user's own columns, all and only the user's accounts, and the profile if there is one.
  lemma DetailShows(t: Tables, id: Id)
    requires id in t.users
    ensures var d := DetailOf(t, id);
      && d.id == id && d.email == t.users[id].email && d.name == t.users[id].name
      && d.active == t.users[id].active && d.role == t.users[id].role
      && (forall a :: a in d.accounts <==> a in t.accounts && t.accounts[a].user == id)
      && (forall a | a in d.accounts :: d.accounts[a] == t.accounts[a])
      && d.profile == (if id in t.profiles then Some(t.profiles[id]) else None)
  {
  }

  // An update is refused exactly for a missing user. It changes the fields that were sent to what was sent,
  // keeps the others, and counts one version exactly when some field differs.
  lemma UpdateExactly(w: World, id: Id, newName: Option<string>, newActive: Option<bool>, f: Faults)
    ensures var t := w.tables;
      var end := Serve(w, UpdateUser(id, newName, newActive), f);
      && (end.reply.UserReply? <==> id in t.users && f.commit.Fine? && !f.reload && f.cache.Fine?)
      && (end.reply == Refused <==> id !in t.users)
      && (end.reply == Refused || f.commit.NotDone? ==> end.world == w)
      && (end.reply != Refused && !f.commit.NotDone? ==>
            var u := end.world.tables;
            && OnlyUser(t, u, id) && id in u.users
            && u.users[id].name == (if newName.Some? then newName.value else t.users[id].name)
            && u.users[id].active == (if newActive.Some? then newActive.value else t.users[id].active)
            && u.users[id].email == t.users[id].email && u.users[id].role == t.users[id].role
            && u.users[id].password == t.users[id].password
            && u.users[id].version == t.users[id].version
                 + (if u.users[id].name != t.users[id].name || u.users[id].active != t.users[id].active then 1 else 0)
            && (end.reply.UserReply? ==> end.reply.user == u.users[id] && end.world.cache == w.cache - {id}))
  {
  }

  // A password is changed exactly for a user that has one and proved to know it; nothing else of the user
  // changes but the version, and the cache is not touched.
  lemma PasswordExactly(w: World, id: Id, verified: bool, hash: string, f: Faults)
    ensures var t := w.tables;
      var end := Serve(w, ChangePassword(id, verified, hash), f);
      && (end.reply == Refused <==> id !in t.users || t.users[id].password.None? || !verified)
      && end.world.cache == w.cache
      && (end.reply == Nothing <==> end.reply != Refused && f.commit.Fine?)
      && (end.reply == Refused || f.commit.NotDone? ==> end.world == w)
      && (end.reply != Refused && !f.commit.NotDone? ==>
            var u := end.world.tables;
            && OnlyUser(t, u, id) && id in u.users && u.users[id].password == Some(hash)
            && u.users[id].(password := None, version := 0) == t.users[id].(password := None, version := 0)
            && u.users[id].version == t.users[id].version + (if t.users[id].password == Some(hash) then 0 else 1))
  {
  }

  // A profile is written exactly for a user that exists: what was sent replaces what was there, what was not
  // sent stays, and a new profile has nothing else.
  lemma ProfileExactly(w: World, id: Id, bio: Option<Option<string>>, avatar: Option<Option<string>>, f: Faults)
    ensures var t := w.tables;
      var end := Serve(w, UpsertProfile(id, bio, avatar), f);
      && (end.reply.ProfileReply? <==> id in t.users && f.commit.Fine? && f.cache.Fine?)
      && (end.reply == Refused <==> id !in t.users)
      && (end.reply == Refused || f.commit.NotDone? ==> end.world == w)
      && (end.reply != Refused && !f.commit.NotDone? ==>
            var u := end.world.tables;
            && u == t.(profiles := u.profiles) && u.profiles.Keys == t.profiles.Keys + {id}
            && (forall other | other in t.profiles && other != id :: u.profiles[other] == t.profiles[other])
            && (bio.Some? ==> u.profiles[id].bio == bio.value)
            && (avatar.Some? ==> u.profiles[id].avatar == avatar.value)
            && (bio.None? ==> u.profiles[id].bio == if id in t.profiles then t.profiles[id].bio else None)
            && (avatar.None? ==> u.profiles[id].avatar == if id in t.profiles then t.profiles[id].avatar else None)
            && (end.reply.ProfileReply? ==>
                  end.reply.profile == u.profiles[id] && end.world.cache == w.cache - {id}))
  {
  }

  // ----- deletion -----

  // Of the transactions exactly those of other accounts stay, as often as before, and in their order.
  lemma {:induction false} KeptExactly(ts: seq<Transaction>, dropped: set<Id>, x: Transaction)
    ensures multiset(KeepTransactions(ts, dropped))[x] == if x.account in dropped then 0 else multiset(ts)[x]
  {
    if ts != [] {
      var init, last := ts[..|ts| - 1], ts[|ts| - 1];
      KeptExactly(init, dropped, x);
      assert ts == init + [last];
      OneMore(init, last, x);
      OneMore(KeepTransactions(init, dropped), last, x);
    }
  }

  lemma OneMore(ts: seq<Transaction>, last: Transaction, x: Transaction)
    ensures multiset(ts + [last])[x] == multiset(ts)[x] + if x == last then 1 else 0
  {
  }

  lemma {:induction false} KeptInOrder(a: seq<Transaction>, b: seq<Transaction>, dropped: set<Id>)
    ensures KeepTransactions(a + b, dropped) == KeepTransactions(a, dropped) + KeepTransactions(b, dropped)
    decreases |b|
  {
    if b == [] {
      assert a + b == a;
    } else {
      assert (a + b)[..|a + b| - 1] == a + b[..|b| - 1];
      KeptInOrder(a, b[..|b| - 1], dropped);
    }
  }

  // What is left without a user: nothing of that user, everything of everybody else.
  ghost predicate Without(t: Tables, u: Tables, id: Id) {
    && u.users == t.users - {id} && u.profiles == t.profiles - {id}
    && (forall a :: a in u.accounts <==> a in t.accounts && t.accounts[a].user != id)
    && (forall a | a in u.accounts :: u.accounts[a] == t.accounts[a])
    && u.categories == t.categories && u.outbox == t.outbox
    && (forall x :: multiset(u.transactions)[x] ==
          if x.account in t.accounts && t.accounts[x.account].user == id then 0 else multiset(t.transactions)[x])
  }

  lemma DropMeans(t: Tables, id: Id)
    ensures Without(t, Apply(t, DropUser(id)), id)
  {
    var dropped := set a | a in t.accounts && t.accounts[a].user == id;
    forall x
      ensures multiset(Apply(t, DropUser(id)).transactions)[x] ==
        if x.account in t.accounts && t.accounts[x.account].user == id then 0 else multiset(t.transactions)[x]
    {
      KeptExactly(t.transactions, dropped, x);
    }
  }

  // A user is deleted exactly when there is one; with it go its profile, its accounts and their
  // transactions, and nothing of anybody else, nor any event.
  lemma DeleteExactly(w: World, id: Id, f: Faults)
    ensures var end := Serve(w, DeleteUser(id), f);
      && (end.reply == Nothing <==> id in w.tables.users && f.commit.Fine? && f.cache.Fine?)
      && (end.reply == Refused <==> id !in w.tables.users)
      && (end.reply == Refused || f.commit.NotDone? ==> end.world == w)
      && (end.reply != Refused && !f.commit.NotDone? ==> Without(w.tables, end.world.tables, id))
      && (end.reply == Nothing ==> end.world.cache == w.cache - {id})
  {
    DropMeans(w.tables, id);
  }
}
