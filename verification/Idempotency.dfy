/** The idempotency store and the money endpoint as objects, one call at a time. */
module Idempotency {
  import opened Common
  import opened Operations
  import opened Services
  import opened ServiceClasses
  import Money
  import MoneySolo

  datatype Hit = Hit(found: bool, inProgress: bool, response: Option<AccountRead>)

  datatype StoreError = CommandRaised | Unparsable

  // What may go wrong in the store's own commands; freed: another client's release, or the expiry, of
  // the key falls between a lost SET NX and its GET.
  datatype StoreFaults = StoreFaults(setNx: Fate, freed: bool, get: bool, save: Fate, release: Fate)

  // The live Redis strings under "idempotency:", when each expires, and the commands the store sends.
  class IdempotencyStore {
    var cells: map<Money.Key, Money.Stored>
    var expires: map<Money.Key, nat>
    var now: nat
    const ttl: nat

    ghost predicate Valid()
      reads this
    {
      ttl > 0 && expires.Keys == cells.Keys && forall k | k in expires :: now < expires[k] <= now + ttl
    }

    constructor (ttl: nat)
      requires ttl > 0
      ensures Valid() && cells == map[] && this.ttl == ttl && now == 0
    {
      cells, expires, now := map[], map[], 0;
      this.ttl := ttl;
    }

    // Time passes, and what has expired is gone.
    method Wait(d: nat)
      requires Valid()
      modifies this
      ensures Valid() && now == old(now) + d
      ensures forall k :: k in cells <==> k in old(cells) && old(now) + d < old(expires)[k]
      ensures forall k | k in cells :: cells[k] == old(cells)[k] && expires[k] == old(expires)[k]
    {
      now := now + d;
      cells := map k | k in cells && now < expires[k] :: cells[k];
      expires := map k | k in expires && now < expires[k] :: expires[k];
    }

    method Put(key: Money.Key, value: Money.Stored)
      requires Valid()
      modifies this`cells, this`expires
      ensures Valid() && cells == old(cells)[key := value] && expires == old(expires)[key := now + ttl]
    {
      cells, expires := cells[key := value], expires[key := now + ttl];
    }

    method Drop(key: Money.Key)
      requires Valid()
      modifies this`cells, this`expires
      ensures Valid() && cells == old(cells) - {key} && expires == old(expires) - {key}
    {
      cells, expires := cells - {key}, expires - {key};
    }

    // A marker put here lives for the whole time to live; a key that was there keeps its own.
    method SetNx(key: Money.Key, value: Money.Stored, fate: Fate) returns (r: Result<bool, StoreError>)
      requires Valid()
      modifies this`cells, this`expires
      ensures Valid()
      ensures cells == if key in old(cells) || fate.NotDone? then old(cells) else old(cells)[key := value]
      ensures expires == if key in old(cells) || fate.NotDone? then old(expires) else old(expires)[key := now + ttl]
      ensures r == if fate.Fine? then Ok(key !in old(cells)) else Err(CommandRaised)
    {
      var free := key !in cells;
      if free && !fate.NotDone? {
        Put(key, value);
      }
      return if fate.Fine? then Ok(free) else Err(CommandRaised);
    }

    // Who finds the key free owns it; whoever does not learn that is told of a failure and owns nothing.
    // A key that is taken at the SET NX and gone at the GET makes the parse of the reply raise.
    method TryAcquire(key: Money.Key, g: StoreFaults) returns (r: Result<Hit, StoreError>)
      requires Valid()
      modifies this`cells, this`expires
      ensures Valid()
      ensures key !in old(cells) ==>
                && cells == (if g.setNx.NotDone? then old(cells) else old(cells)[key := Money.Marker])
                && expires == (if g.setNx.NotDone? then old(expires) else old(expires)[key := now + ttl])
                && r == (if g.setNx.Fine? then Ok(Hit(false, false, None)) else Err(CommandRaised))
      ensures key in old(cells) ==>
                && cells == (if g.setNx.Fine? && g.freed then old(cells) - {key} else old(cells))
                && expires == (if g.setNx.Fine? && g.freed then old(expires) - {key} else old(expires))
                && (r.Err? <==> !g.setNx.Fine? || g.get || g.freed)
                && (r == Err(Unparsable) <==> g.setNx.Fine? && !g.get && g.freed)
                && (r.Ok? && old(cells)[key].Marker? ==> r == Ok(Hit(true, true, None)))
                && (r.Ok? && old(cells)[key].Saved? ==> r == Ok(Hit(true, false, Some(old(cells)[key].response))))
    {
      var acquired := SetNx(key, Money.Marker, g.setNx);
      if acquired.Err? {
        return Err(acquired.error);
      }
      if acquired.value {
        return Ok(Hit(false, false, None));
      }
      if g.freed {
        Drop(key);
      }
      if g.get {
        return Err(CommandRaised);
      }
      var existing := if key in cells then Some(cells[key]) else None;
      match existing
      case None => return Err(Unparsable);
      case Some(Marker) => return Ok(Hit(true, true, None));
      case Some(Saved(response)) => return Ok(Hit(true, false, Some(response)));
    }

    // The response lives for the whole time to live from now. Not ok: the command raises.
    method SaveResponse(key: Money.Key, response: AccountRead, fate: Fate) returns (ok: bool)
      requires Valid()
      modifies this`cells, this`expires
      ensures Valid() && ok == fate.Fine?
      ensures cells == if fate.NotDone? then old(cells) else old(cells)[key := Money.Saved(response)]
      ensures expires == if fate.NotDone? then old(expires) else old(expires)[key := now + ttl]
    {
      if !fate.NotDone? {
        Put(key, Money.Saved(response));
      }
      return fate.Fine?;
    }

    method Release(key: Money.Key, fate: Fate) returns (ok: bool)
      requires Valid()
      modifies this`cells, this`expires
      ensures Valid() && ok == fate.Fine?
      ensures cells == if fate.NotDone? then old(cells) else old(cells) - {key}
      ensures expires == if fate.NotDone? then old(expires) else old(expires) - {key}
    {
      if !fate.NotDone? {
        Drop(key);
      }
      return fate.Fine?;
    }
  }

  datatype Answered = Answered(cells: map<Money.Key, Money.Stored>, world: World, outcome: Money.Outcome)

  // What produce returned, or which exception it let out: a refusal, a commit that was not done, or
  // something after the commit.
  function Produced(reply: Reply, f: Faults): Money.Outcome {
    match reply
    case AccountReply(row) => Money.Success(row)
    case Refused => Money.Failed(Money.ProduceRaised(Money.Refused))
    case _ => Money.Failed(Money.ProduceRaised(if f.commit.NotDone? then Money.Broken else Money.Late))
  }

  // One endpoint call, with the failures its transaction, its cache command and its store may meet.
  function Answer(cells: map<Money.Key, Money.Stored>, w: World, q: Money.Request, f: Faults, g: StoreFaults): Answered {
    if !Money.Keyed(q) then
      var served := Serve(w, MoveMoney(q.op), f);
      Answered(cells, served.world, Produced(served.reply, f))
    else if q.key.value in cells then AnswerTaken(cells, w, q.key.value, g)
    else AnswerFree(cells, w, q.key.value, q.op, f, g)
  }

  function AnswerTaken(cells: map<Money.Key, Money.Stored>, w: World, key: Money.Key, g: StoreFaults): Answered
    requires key in cells
  {
    if !g.setNx.Fine? then Answered(cells, w, Money.Failed(Money.NotAcquired))
    else
      var left := if g.freed then cells - {key} else cells;
      if g.get then Answered(left, w, Money.Failed(Money.NotAcquired))
      else if g.freed then Answered(left, w, Money.Failed(Money.Unparsable))
      else
        match cells[key]
        case Marker => Answered(cells, w, Money.Conflict)
        case Saved(response) => Answered(cells, w, Money.Replayed(response))
  }

  function AnswerFree(cells: map<Money.Key, Money.Stored>, w: World, key: Money.Key, op: Op, f: Faults, g: StoreFaults)
    : Answered
  {
    match g.setNx
    case NotDone => Answered(cells, w, Money.Failed(Money.NotAcquired))
    case ReplyLost => Answered(cells[key := Money.Marker], w, Money.Failed(Money.NotAcquired))
    case Fine =>
      var served := Serve(w, MoveMoney(op), f);
      match Produced(served.reply, f)
      case Success(row) =>
        Answered(cells[key := if g.save.NotDone? then Money.Marker else Money.Saved(row)], served.world,
                 if g.save.Fine? then Money.Success(row) else Money.Failed(Money.NotSaved))
      case failed =>
        Answered(if g.release.NotDone? then cells[key := Money.Marker] else cells - {key}, served.world, failed)
  }

  const STORE_WORKS := StoreFaults(Fine, false, false, Fine, Fine)

  // Without failures the endpoint does what one uninterrupted call of the machine does.
  lemma EndpointIsMachineCall(cells: map<Money.Key, Money.Stored>, w: World, q: Money.Request)
    requires Accepted(q.op)
    ensures var a := Answer(cells, w, q, NO_FAULT, STORE_WORKS);
      MoneySolo.Handle(w.tables.users.Keys, w.tables.categories, cells, w.tables.accounts, q)
      == MoneySolo.Handled(a.cells, a.world.tables.accounts, a.outcome)
  {
    if Money.Keyed(q) && q.key.value !in cells {
      assert cells - {q.key.value} == cells;
    }
  }

  // ----- what the failures of one call decide -----

  predicate CanPerform(w: World, op: Op) {
    Perform(w.tables.users.Keys, w.tables.categories, w.tables.accounts, op).Some?
  }

  // The call gets to its commit, and the commit is done.
  predicate Commits(cells: map<Money.Key, Money.Stored>, w: World, q: Money.Request, f: Faults, g: StoreFaults) {
    && CanPerform(w, q.op) && !f.commit.NotDone?
    && (Money.Keyed(q) ==> q.key.value !in cells && g.setNx.Fine?)
  }

  lemma ServedMoney(w: World, op: Op, f: Faults)
    requires Accepted(op)
    ensures var served := Serve(w, MoveMoney(op), f);
      && (served.world.tables != w.tables <==> CanPerform(w, op) && !f.commit.NotDone?)
      && (served.reply.AccountReply? <==> CanPerform(w, op) && f.commit.Fine? && f.cache.Fine?)
      && (served.reply == Refused <==> !CanPerform(w, op))
  {
    var t := w.tables;
    if CanPerform(w, op) {
      var row := Perform(t.users.Keys, t.categories, t.accounts, op).value;
      assert Moved(t, op, row).accounts[Target(op)] == row;
    }
  }

  // The money moves exactly when the call gets to a commit that is done.
  lemma MovedExactly(cells: map<Money.Key, Money.Stored>, w: World, q: Money.Request, f: Faults, g: StoreFaults)
    requires Accepted(q.op)
    ensures Answer(cells, w, q, f, g).world.tables != w.tables <==> Commits(cells, w, q, f, g)
  {
    ServedMoney(w, q.op, f);
  }

  // It moves and the client is told of a failure exactly when moreover the commit, the drop of the cached
  // user or the storing of the response raises.
  lemma HiddenExactly(cells: map<Money.Key, Money.Stored>, w: World, q: Money.Request, f: Faults, g: StoreFaults)
    requires Accepted(q.op)
    ensures var a := Answer(cells, w, q, f, g);
      a.outcome.Failed? && a.world.tables != w.tables
      <==> Commits(cells, w, q, f, g) && (!f.commit.Fine? || !f.cache.Fine? || (Money.Keyed(q) && !g.save.Fine?))
  {
    ServedMoney(w, q.op, f);
  }

  // So the failure tells: a save that raised and a late exception, and no other, hide a commit.
  lemma FailureTells(cells: map<Money.Key, Money.Stored>, w: World, q: Money.Request, f: Faults, g: StoreFaults)
    requires Accepted(q.op) && Answer(cells, w, q, f, g).outcome.Failed?
    ensures var a := Answer(cells, w, q, f, g);
      a.world.tables != w.tables
      <==> a.outcome.failure == Money.NotSaved || a.outcome.failure == Money.ProduceRaised(Money.Late)
  {
    ServedMoney(w, q.op, f);
  }

  // After the call its key is free exactly when it was taken and went between the two commands, or when
  // it was free and SET NX did nothing, or produce raised and the release was done.
  lemma FreeExactly(cells: map<Money.Key, Money.Stored>, w: World, q: Money.Request, f: Faults, g: StoreFaults)
    requires Accepted(q.op) && Money.Keyed(q)
    ensures q.key.value !in Answer(cells, w, q, f, g).cells <==>
      if q.key.value in cells then g.setNx.Fine? && g.freed
      else g.setNx.NotDone?
           || (g.setNx.Fine? && !g.release.NotDone? && !(CanPerform(w, q.op) && f.commit.Fine? && f.cache.Fine?))
  {
    ServedMoney(w, q.op, f);
  }

  // A commit followed by a failed cache delete leaves the key free although the money has moved:
  // the same request sent again moves it a second time.
  lemma LateFailureFreesTheKey(cells: map<Money.Key, Money.Stored>, w: World, q: Money.Request)
    requires Accepted(q.op) && Money.Keyed(q) && q.key.value !in cells && q.op.Deposit?
    requires CanPerform(w, q.op)
    ensures var a := Answer(cells, w, q, Faults(Fine, false, false, NotDone), STORE_WORKS);
      var b := Answer(a.cells, a.world, q, NO_FAULT, STORE_WORKS);
      && a.outcome == Money.Failed(Money.ProduceRaised(Money.Late)) && a.cells == cells
      && b.outcome.Success?
      && b.world.tables.accounts[q.op.account].balance
         == w.tables.accounts[q.op.account].balance + 2 * q.op.amount
  {
    assert cells - {q.key.value} == cells;
  }

  class MoneyEndpoint {
    const store: IdempotencyStore
    const accounts: AccountService

    constructor (store: IdempotencyStore, accounts: AccountService)
      ensures this.store == store && this.accounts == accounts
    {
      this.store, this.accounts := store, accounts;
    }

    method Produce(op: Op, f: Faults) returns (r: Reply)
      requires accounts.Valid()
      modifies accounts.uow, accounts.uow.db, accounts.cache
      ensures accounts.Valid()
      ensures Served(accounts.World(), r) == Serve(old(accounts.World()), MoveMoney(op), f)
    {
      if !Accepted(op) {
        return Refused;
      }
      match op
      case OpenAccount(user, name, id) => r := accounts.CreateAccount(user, name, id, f);
      case Deposit(account, amount, categories) => r := accounts.Deposit(account, amount, categories, f);
      case Withdraw(account, amount) => r := accounts.Withdraw(account, amount, f);
    }

    method Call(q: Money.Request, f: Faults, g: StoreFaults) returns (outcome: Money.Outcome)
      requires accounts.Valid() && store.Valid()
      modifies store`cells, store`expires, accounts.uow, accounts.uow.db, accounts.cache
      ensures accounts.Valid() && store.Valid()
      ensures Answered(store.cells, accounts.World(), outcome)
           == Answer(old(store.cells), old(accounts.World()), q, f, g)
    {
      if !Money.Keyed(q) {
        var direct := Produce(q.op, f);
        return Produced(direct, f);
      }
      var key := q.key.value;
      var hit := store.TryAcquire(key, g);
      if hit.Err? {
        return Money.Failed(if hit.error == Unparsable then Money.Unparsable else Money.NotAcquired);
      }
      if hit.value.inProgress {
        return Money.Conflict;
      }
      if hit.value.found && hit.value.response.Some? {
        return Money.Replayed(hit.value.response.value);
      }
      var produced := Produce(q.op, f);
      if !produced.AccountReply? {
        var _ := store.Release(key, g.release);
        assert store.cells == if g.release.NotDone? then old(store.cells)[key := Money.Marker] else old(store.cells) - {key};
        return Produced(produced, f);
      }
      var saved := store.SaveResponse(key, produced.account, g.save);
      return if saved then Money.Success(produced.account) else Money.Failed(Money.NotSaved);
    }
  }
}
