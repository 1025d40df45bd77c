/** The committed tables, the statements a session flushes into them, and the cached user detail. */
module Tables {
  import opened Common
  import opened Operations

  datatype User = User(email: string, name: string, active: bool, role: string, password: Option<string>, version: nat)

  datatype Profile = Profile(bio: Option<string>, avatar: Option<string>)

  datatype Transaction = Transaction(account: Id, amount: int, kind: string, categories: seq<Id>)

  // An outbox row written beside the business row.
  datatype UserCreated = UserCreated(id: Id, email: string)

  datatype Tables = Tables(
    users: map<Id, User>,
    profiles: map<Id, Profile>,
    accounts: map<Id, AccountRead>,
    categories: set<Id>,
    transactions: seq<Transaction>,
    outbox: seq<UserCreated>)

  datatype Write =
    | PutUser(id: Id, user: User)
    | PutProfile(id: Id, profile: Profile)
    | PutAccount(id: Id, account: AccountRead)
    | AddTransaction(transaction: Transaction)
    | AddEvent(event: UserCreated)
    | DropUser(id: Id)

  // Deleting a user cascades to its profile, accounts and their transactions.
  function Apply(t: Tables, w: Write): Tables {
    match w
    case PutUser(id, user) => t.(users := t.users[id := user])
    case PutProfile(id, profile) => t.(profiles := t.profiles[id := profile])
    case PutAccount(id, account) => t.(accounts := t.accounts[id := account])
    case AddTransaction(transaction) => t.(transactions := t.transactions + [transaction])
    case AddEvent(event) => t.(outbox := t.outbox + [event])
    case DropUser(id) =>
      t.(users := t.users - {id}, profiles := t.profiles - {id},
         accounts := map a | a in t.accounts && t.accounts[a].user != id :: t.accounts[a],
         transactions := KeepTransactions(t.transactions, set a | a in t.accounts && t.accounts[a].user == id))
  }

  function KeepTransactions(transactions: seq<Transaction>, dropped: set<Id>): seq<Transaction> {
    if transactions == [] then []
    else KeepTransactions(transactions[..|transactions| - 1], dropped)
         + (if transactions[|transactions| - 1].account in dropped then [] else [transactions[|transactions| - 1]])
  }

  function ApplyAll(t: Tables, writes: seq<Write>): Tables {
    if writes == [] then t
    else Apply(ApplyAll(t, writes[..|writes| - 1]), writes[|writes| - 1])
  }

  lemma ApplyOneMore(t: Tables, writes: seq<Write>, w: Write)
    ensures ApplyAll(t, writes + [w]) == Apply(ApplyAll(t, writes), w)
  {
    assert (writes + [w])[..|writes|] == writes;
  }

  // Foreign keys.
  ghost predicate ForeignKeys(t: Tables) {
    && (forall a | a in t.accounts :: t.accounts[a].user in t.users)
    && t.profiles.Keys <= t.users.Keys
  }

  // The detailed form served by GET /users/{id}; the version and the update time are not part of it.
  datatype UserDetail = UserDetail(
    id: Id, email: string, name: string, active: bool, role: string,
    accounts: map<Id, AccountRead>, profile: Option<Profile>)

  function AccountsOf(t: Tables, user: Id): map<Id, AccountRead> {
    map a | a in t.accounts && t.accounts[a].user == user :: t.accounts[a]
  }

  function DetailOf(t: Tables, id: Id): UserDetail
    requires id in t.users
  {
    var u := t.users[id];
    UserDetail(id, u.email, u.name, u.active, u.role, AccountsOf(t, id),
               if id in t.profiles then Some(t.profiles[id]) else None)
  }
}
