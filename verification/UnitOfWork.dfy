/**
 The unit of work: one session at a time, repositories created lazily and bound to that session,
 nothing reaches the committed tables before Commit.
 */
module UnitOfWork {
  import opened Common
  import opened Tables

  class Database {
    var tables: Tables

    constructor (tables: Tables)
      ensures this.tables == tables
    {
      this.tables := tables;
    }
  }

  datatype RepoKind = Users | Accounts | Transactions | Categories | Outbox

  datatype Repo = Repo(kind: RepoKind, session: nat)

  // An open session: its number and the statements it has not committed.
  datatype Session = Session(number: nat, pending: seq<Write>)

  datatype UowError = AlreadyActive | OutsideContext | CommitFailed | RollbackFailed | CloseFailed

  class UnitOfWork {
    const db: Database
    var session: Option<Session>
    var repos: map<RepoKind, Repo>
    var issued: nat  // sessions the factory has handed out

    // No repository outlives its session.
    ghost predicate Valid()
      reads this
    {
      && (session.None? ==> repos == map[])
      && (session.Some? ==>
            && session.value.number < issued
            && forall kind | kind in repos :: repos[kind] == Repo(kind, session.value.number))
    }

    // What a statement of the open session sees: the committed tables under its own writes.
    ghost function View(): Tables
      reads this, db
      requires session.Some?
    {
      ApplyAll(db.tables, session.value.pending)
    }

    constructor (db: Database)
      ensures Valid() && this.db == db && session == None
    {
      this.db := db;
      session, repos, issued := None, map[], 0;
    }

    method Enter() returns (r: Result<(), UowError>)
      requires Valid()
      modifies this
      ensures Valid()
      ensures old(session).Some? ==>
                r == Err(AlreadyActive) && session == old(session) && repos == old(repos) && issued == old(issued)
      ensures old(session).None? ==>
                r == Ok(()) && session == Some(Session(old(issued), [])) && repos == map[] && issued == old(issued) + 1
    {
      if session.Some? {
        return Err(AlreadyActive);
      }
      session, issued := Some(Session(issued, [])), issued + 1;
      repos := map[];
      return Ok(());
    }

    // Leaving discards whatever was not committed, whether or not an exception is on its way out, and
    // even when the rollback raises. When closing the session raises, the unit of work stays entered.
    method Exit(raised: bool, rollbackFails: bool := false, closeFails: bool := false) returns (r: Result<(), UowError>)
      requires Valid()
      modifies this
      ensures Valid() && issued == old(issued)
      ensures old(session).None? ==> r == Err(OutsideContext) && session == None && repos == map[]
      ensures old(session).Some? && closeFails ==>
                && r == Err(CloseFailed) && repos == old(repos)
                && session.Some? && session.value.number == old(session).value.number
      ensures old(session).Some? && !closeFails ==>
                && r == (if raised && rollbackFails then Err(RollbackFailed) else Ok(()))
                && session == None && repos == map[]
    {
      if session.None? {
        return Err(OutsideContext);
      }
      if raised && !rollbackFails {
        Rollback();
      }
      if closeFails {
        return Err(CloseFailed);
      }
      session := None;
      repos := map[];
      return if raised && rollbackFails then Err(RollbackFailed) else Ok(());
    }

    method Repository(kind: RepoKind) returns (r: Result<Repo, UowError>)
      requires Valid()
      modifies this`repos
      ensures Valid()
      ensures old(session).None? ==> r == Err(OutsideContext) && repos == old(repos)
      ensures old(session).Some? ==>
                r == Ok(Repo(kind, session.value.number)) && repos == old(repos)[kind := r.value]
    {
      if kind in repos {
        return Ok(repos[kind]);
      }
      if session.None? {
        return Err(OutsideContext);
      }
      var created := Repo(kind, session.value.number);
      repos := repos[kind := created];
      return Ok(created);
    }

    // A commit that is not done applies nothing; one whose reply is lost raises all the same.
    method Commit(fate: Fate) returns (r: Result<(), UowError>)
      requires Valid()
      modifies this`session, db
      ensures Valid()
      ensures old(session).None? ==> r == Err(OutsideContext) && session == None && db.tables == old(db.tables)
      ensures old(session).Some? && fate.NotDone? ==>
                r == Err(CommitFailed) && session == old(session) && db.tables == old(db.tables)
      ensures old(session).Some? && !fate.NotDone? ==>
                && r == (if fate.ReplyLost? then Err(CommitFailed) else Ok(()))
                && session == Some(Session(old(session).value.number, [])) && db.tables == old(View())
    {
      if session.None? {
        return Err(OutsideContext);
      }
      if fate.NotDone? {
        return Err(CommitFailed);
      }
      db.tables := ApplyAll(db.tables, session.value.pending);
      session := Some(Session(session.value.number, []));
      return if fate.ReplyLost? then Err(CommitFailed) else Ok(());
    }

    method Rollback()
      requires Valid() && session.Some?
      modifies this`session
      ensures Valid() && session == Some(Session(old(session).value.number, []))
    {
      session := Some(Session(session.value.number, []));
    }

    // A repository reading the tables through this session.
    method Read(kind: RepoKind) returns (seen: Tables)
      requires Valid() && session.Some?
      modifies this`repos
      ensures Valid() && seen == View()
    {
      var _ := Repository(kind);
      return ApplyAll(db.tables, session.value.pending);
    }

    // A repository adding to, or a watched object changing, the session.
    method Stage(kind: RepoKind, w: Write)
      requires Valid() && session.Some?
      modifies this`repos, this`session
      ensures Valid() && session == Some(old(session).value.(pending := old(session).value.pending + [w]))
      ensures View() == Apply(old(View()), w)
    {
      var _ := Repository(kind);
      ApplyOneMore(db.tables, session.value.pending, w);
      session := Some(session.value.(pending := session.value.pending + [w]));
    }
  }
}
