/** What the money operations decide and do, said outright: when each is refused, and what it moves. */
module MoneyRules {
  import opened Common
  import opened Operations
  import opened Tables
  import Services
  import Money
  import MoneySafety
  import MoneyTheorems
  import MoneyHistory

  // Why an operation is refused: the money or the account, a category or the user is not there.
  ghost predicate Refuses(users: set<Id>, categories: set<Id>, accounts: map<Id, AccountRead>, op: Op) {
    match op
    case OpenAccount(user, _, id) => user !in users || id in accounts
    case Deposit(account, _, ids) => account !in accounts || exists c :: c in ids && c !in categories
    case Withdraw(account, amount) => account !in accounts || accounts[account].balance < amount
  }

  // The account row it leaves and answers.
  ghost predicate Leaves(accounts: map<Id, AccountRead>, op: Op, row: AccountRead) {
    match op
    case OpenAccount(user, name, id) => id !in accounts && row == AccountRead(id, user, name, 0)
    case Deposit(account, amount, _) =>
      account in accounts && row == accounts[account].(balance := accounts[account].balance + amount)
    case Withdraw(account, amount) =>
      && account in accounts && amount <= accounts[account].balance
      && row == accounts[account].(balance := accounts[account].balance - amount)
  }

  lemma PerformMeans(users: set<Id>, categories: set<Id>, accounts: map<Id, AccountRead>, op: Op)
    ensures var done := Perform(users, categories, accounts, op);
      && (done.None? <==> Refuses(users, categories, accounts, op))
      && (done.Some? ==> Leaves(accounts, op, done.value))
  {
    if op.Deposit? {
      KnownMeans(categories, op.categories);
    }
  }

  lemma KnownMeans(categories: set<Id>, ids: seq<Id>)
    ensures KnownCategories(categories, ids) <==> !(exists c :: c in ids && c !in categories)
  {
    if c :| c in ids && c !in categories {
      var i :| 0 <= i < |ids| && ids[i] == c;
    } else {
      forall i | 0 <= i < |ids| ensures ids[i] in categories {
        assert ids[i] in ids;
      }
    }
  }

  // ----- one service call -----

  // A withdrawal is refused exactly when the account is missing or holds less than the amount; otherwise,
  // if its commit is done, exactly the amount leaves that account and is booked as a withdrawal.
  lemma WithdrawExactly(w: Services.World, a: Id, n: int, f: Services.Faults)
    requires n > 0
    ensures var t := w.tables;
      var end := Services.Serve(w, Services.MoveMoney(Withdraw(a, n)), f);
      && (end.reply == Services.Refused <==> a !in t.accounts || t.accounts[a].balance < n)
      && (end.reply.AccountReply? <==> end.reply != Services.Refused && f.commit.Fine? && f.cache.Fine?)
      && (end.reply == Services.Refused || f.commit.NotDone? ==> end.world == w)
      && (end.reply != Services.Refused && !f.commit.NotDone? ==>
            var row := t.accounts[a].(balance := t.accounts[a].balance - n);
            && end.world.tables == t.(accounts := t.accounts[a := row],
                                      transactions := t.transactions + [Transaction(a, -n, "withdrawal", [])])
            && (end.reply.AccountReply? ==> end.reply.account == row))
  {
    PerformMeans(w.tables.users.Keys, w.tables.categories, w.tables.accounts, Withdraw(a, n));
  }

  // A deposit is refused exactly when the account is missing or some category asked for is; otherwise, if
  // its commit is done, exactly the amount enters that account and is booked with its categories.
  lemma DepositExactly(w: Services.World, a: Id, n: int, ids: seq<Id>, f: Services.Faults)
    requires n > 0
    ensures var t := w.tables;
      var end := Services.Serve(w, Services.MoveMoney(Deposit(a, n, ids)), f);
      && (end.reply == Services.Refused <==> a !in t.accounts || exists c :: c in ids && c !in t.categories)
      && (end.reply.AccountReply? <==> end.reply != Services.Refused && f.commit.Fine? && f.cache.Fine?)
      && (end.reply == Services.Refused || f.commit.NotDone? ==> end.world == w)
      && (end.reply != Services.Refused && !f.commit.NotDone? ==>
            var row := t.accounts[a].(balance := t.accounts[a].balance + n);
            && end.world.tables == t.(accounts := t.accounts[a := row],
                                      transactions := t.transactions + [Transaction(a, n, "deposit", ids)])
            && (end.reply.AccountReply? ==> end.reply.account == row))
  {
    PerformMeans(w.tables.users.Keys, w.tables.categories, w.tables.accounts, Deposit(a, n, ids));
  }

  // An account is opened exactly for a user that exists, empty, in that user's name, and books nothing.
  lemma OpenExactly(w: Services.World, user: Id, name: string, id: Id, f: Services.Faults)
    ensures var t := w.tables;
      var end := Services.Serve(w, Services.MoveMoney(OpenAccount(user, name, id)), f);
      && (end.reply == Services.Refused <==> user !in t.users || id in t.accounts)
      && (end.reply.AccountReply? <==> end.reply != Services.Refused && f.commit.Fine? && f.cache.Fine?)
      && (end.reply == Services.Refused || f.commit.NotDone? ==> end.world == w)
      && (end.reply != Services.Refused && !f.commit.NotDone? ==>
            var row := AccountRead(id, user, name, 0);
            && end.world.tables == t.(accounts := t.accounts[id := row])
            && (end.reply.AccountReply? ==> end.reply.account == row))
  {
    PerformMeans(w.tables.users.Keys, w.tables.categories, w.tables.accounts, OpenAccount(user, name, id));
  }

  // ----- every run of interleaved calls -----

  // Whenever the business rule refused a call, there was an instant during the call at which the money,
  // the account, a category or the user was not there.
  lemma RefusalHasCause(p: Money.Policy, users: set<Id>, categories: set<Id>, events: seq<Money.Event>, c: Id)
    returns (n: nat)
    requires MoneyHistory.RefusedCall(Money.Run(p, Money.Init(users, categories), events), c)
    ensures n <= |events|
    ensures var s := Money.Run(p, Money.Init(users, categories), events[..n]);
      c in s.calls && !s.calls[c].phase.Done? && Refuses(s.users, s.categories, s.accounts, s.calls[c].request.op)
  {
    n := MoneyHistory.RefusalIsSerial(p, users, categories, events, c);
    var s := Money.Run(p, Money.Init(users, categories), events[..n]);
    assert MoneySafety.Reachable(p, s);
    MoneyTheorems.Serializable(p, s);
    PerformMeans(s.users, s.categories, s.accounts, s.calls[c].request.op);
  }

  // A user or category that is added is no cause from then on; the other causes stay as they were.
  lemma AddedIsNoCause(p: Money.Policy, s: Money.State, x: Id, op: Op)
    ensures var t := Money.Next(p, s, Money.AddUser(x));
      Refuses(t.users, t.categories, t.accounts, op)
      <==> Refuses(s.users, s.categories, s.accounts, op)
           && !(op.OpenAccount? && op.user == x && op.id !in s.accounts)
    ensures var t := Money.Next(p, s, Money.AddCategory(x));
      Refuses(t.users, t.categories, t.accounts, op)
      <==> if op.Deposit? then op.account !in s.accounts || exists c :: c in op.categories && c != x && c !in s.categories
           else Refuses(s.users, s.categories, s.accounts, op)
  {
  }

  ghost predicate LeavesAt(s: Money.State, c: Id, i: nat)
    requires c in s.calls && s.calls[c].phase.Done? && s.calls[c].phase.outcome.Success?
  {
    && i < |s.effects| && s.effects[i].call == c
    && Leaves(Money.SerialRun(s.users, s.categories, s.effects[..i]), s.calls[c].request.op,
              s.calls[c].phase.outcome.response)
  }

  // Every success answers the account its own operation leaves, on what the commits before it had left.
  lemma SuccessDoesItsJob(p: Money.Policy, s: Money.State, c: Id)
    requires MoneySafety.Reachable(p, s)
    requires c in s.calls && s.calls[c].phase.Done? && s.calls[c].phase.outcome.Success?
    ensures exists i: nat :: LeavesAt(s, c, i)
  {
    MoneyTheorems.Serializable(p, s);
    var i: nat :| MoneyTheorems.ServedAt(s, c, i);
    PerformMeans(s.users, s.categories, Money.SerialRun(s.users, s.categories, s.effects[..i]), s.calls[c].request.op);
    assert LeavesAt(s, c, i);
  }

  // ----- the ledger of one operation -----

  // What an operation adds to an account's books is what it adds to its balance.
  lemma AmountIsChange(accounts: map<Id, AccountRead>, op: Op, row: AccountRead)
    requires Leaves(accounts, op, row)
    ensures row.balance == (if Target(op) in accounts then accounts[Target(op)].balance else 0) + SignedAmount(op)
  {
  }
}
