/** The business rule of one money operation: what its transaction reads, and what it writes back. */
module Operations {
  import opened Common

  datatype AccountRead = AccountRead(id: Id, user: Id, name: string, balance: int)

  datatype Op =
    | OpenAccount(user: Id, name: string, id: Id)  // id: the identifier the insert will generate
    | Deposit(account: Id, amount: int, categories: seq<Id>)
    | Withdraw(account: Id, amount: int)

  // Request bodies with a non-positive amount never reach the service.
  predicate Accepted(op: Op) {
    op.OpenAccount? || op.amount > 0
  }

  function Target(op: Op): Id {
    if op.OpenAccount? then op.id else op.account
  }

  function SignedAmount(op: Op): int {
    match op
    case OpenAccount(_, _, _) => 0
    case Deposit(_, amount, _) => amount
    case Withdraw(_, amount) => -amount
  }

  predicate KnownCategories(categories: set<Id>, ids: seq<Id>) {
    forall i | 0 <= i < |ids| :: ids[i] in categories
  }

  // The row a transaction writes back, given the row it read; None when the service raises.
  function Changed(categories: set<Id>, op: Op, row: AccountRead): Option<AccountRead> {
    match op
    case OpenAccount(_, _, _) => Some(row)
    case Deposit(_, amount, ids) =>
      if KnownCategories(categories, ids) then Some(row.(balance := row.balance + amount)) else None
    case Withdraw(_, amount) =>
      if row.balance < amount then None else Some(row.(balance := row.balance - amount))
  }

  // The row a transaction starts from; None when the service raises NotFound.
  function Loaded(users: set<Id>, accounts: map<Id, AccountRead>, op: Op): Option<AccountRead> {
    if op.OpenAccount? then
      if op.user in users then Some(AccountRead(op.id, op.user, op.name, 0)) else None
    else if op.account in accounts then Some(accounts[op.account])
    else None
  }

  // One operation run alone against committed accounts.
  function Perform(users: set<Id>, categories: set<Id>, accounts: map<Id, AccountRead>, op: Op)
    : Option<AccountRead>
  {
    match Loaded(users, accounts, op)
    case None => None
    case Some(row) =>
      if op.OpenAccount? && op.id in accounts then None else Changed(categories, op, row)
  }
}
