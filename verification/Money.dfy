/**
 Money operations behind an Idempotency-Key: the acquire / replay / produce / save-or-release
 protocol around row-locked transactions, as a machine in which every awaited Redis or database
 call is one step, any number of requests interleave and any of them may crash between two steps.

 An event that is not enabled in a state leaves the state as it is, so every list of events is a run.
 */
module Money {
  import opened Common
  import opened Operations

  type Key = string

  datatype Request = Request(key: Option<Key>, op: Op)

  // What Redis holds under an idempotency key.
  datatype Stored = Marker | Saved(response: AccountRead)

  datatype Outcome =
    | Success(response: AccountRead)   // this call ran produce
    | Replayed(response: AccountRead)  // the stored response of an earlier call
    | Conflict                         // 409: the key is in flight
    | Failed(failure: Failure)         // an exception reached the client
    | Crashed                          // cancelled or killed: nothing reached the client

  // Where the exception came from.
  datatype Failure =
    | NotAcquired                      // SET NX or GET raised
    | Unparsable                       // GET found nothing to parse
    | ProduceRaised(why: Why)
    | NotSaved                         // produce returned, and storing its response raised

  // Why produce raised: the business rule, the database, or something after the commit.
  datatype Why = Refused | Broken | Late

  datatype Phase =
    | Start                            // about to SET NX
    | Missed                           // SET NX lost, about to GET
    | Producing                        // about to open the transaction
    | InTx(row: AccountRead)           // row read, for update when it already existed
    | Staged(row: AccountRead)         // new row flushed, not committed
    | Committed(response: AccountRead) // about to drop the cached user
    | Produced(response: AccountRead)  // produce returned, about to save
    | Raised(why: Why)                 // produce raised, about to release
    | Kept(response: AccountRead)      // response saved, about to return
    | Done(outcome: Outcome)

  datatype Call = Call(request: Request, phase: Phase)

  // One committed transaction, in commit order.
  datatype Effect = Effect(call: Id, request: Request, response: AccountRead)

  datatype State = State(
    users: set<Id>,
    categories: set<Id>,
    cells: map<Key, Stored>,
    accounts: map<Id, AccountRead>,
    locks: map<Id, Id>,          // account -> the call whose transaction holds its row
    calls: map<Id, Call>,
    effects: seq<Effect>,
    faults: multiset<Key>        // keys freed although a call that held them had committed, or expired
  )

  // What the environment may do beyond crashing a call and failing a transaction.
  datatype Policy = Policy(
    lateRaise: bool,  // produce may raise after its commit (lost commit reply, failed cache delete)
    expiry: bool      // a key may expire or be evicted
  )

  datatype Event =
    | Submit(call: Id, request: Request)
    | Step(call: Id, action: Action)
    | Expire(key: Key)
    | AddUser(user: Id)
    | AddCategory(category: Id)

  // The awaited calls of one request, and the ways they raise: Fails without effect, ReplyLost with it.
  // (A release whose reply is lost ends like one that is answered.)
  datatype Action =
    | SetNx | SetNxFails | SetNxReplyLost | Get | GetFails
    | Open | Flush | Commit | CommitReplyLost | DbError | CacheDelete | CacheDeleteFails
    | Release | ReleaseFails | Save | SaveFails | SaveReplyLost | Return | Crash

  // ----- what a list of commits amounts to -----

  predicate Keyed(q: Request) {
    q.key.Some? && q.key.value != ""
  }

  // The committed operations run one after another, in commit order.
  function SerialRun(users: set<Id>, categories: set<Id>, effects: seq<Effect>): map<Id, AccountRead> {
    if effects == [] then map[]
    else
      var before := SerialRun(users, categories, effects[..|effects| - 1]);
      var op := effects[|effects| - 1].request.op;
      match Perform(users, categories, before, op)
      case None => before
      case Some(row) => before[Target(op) := row]
  }

  function LedgerSum(effects: seq<Effect>, account: Id): int {
    if effects == [] then 0
    else
      var op := effects[|effects| - 1].request.op;
      LedgerSum(effects[..|effects| - 1], account) + (if Target(op) == account then SignedAmount(op) else 0)
  }

  function EffectsOf(effects: seq<Effect>, key: Key): nat {
    if effects == [] then 0
    else EffectsOf(effects[..|effects| - 1], key)
         + (if effects[|effects| - 1].request.key == Some(key) then 1 else 0)
  }

  // ----- steps -----

  function Init(users: set<Id>, categories: set<Id>): State {
    State(users, categories, map[], map[], map[], map[], [], multiset{})
  }

  function Moved(s: State, c: Id, phase: Phase): State
    requires c in s.calls
  {
    s.(calls := s.calls[c := s.calls[c].(phase := phase)])
  }

  function Unlocked(locks: map<Id, Id>, c: Id): map<Id, Id> {
    map a | a in locks && locks[a] != c :: locks[a]
  }

  // The transaction rolls back or has ended, and produce raises.
  function Raise(s: State, c: Id, why: Why): State
    requires c in s.calls
  {
    Moved(s.(locks := Unlocked(s.locks, c)), c,
          if Keyed(s.calls[c].request) then Raised(why) else Done(Failed(ProduceRaised(why))))
  }

  function AfterSubmit(s: State, c: Id, q: Request): State {
    if c in s.calls || !Accepted(q.op) then s
    else s.(calls := s.calls[c := Call(q, if Keyed(q) then Start else Producing)])
  }

  function AfterSetNx(s: State, c: Id): State
    requires c in s.calls
  {
    var Call(q, phase) := s.calls[c];
    if !phase.Start? || !Keyed(q) then s
    else if q.key.value in s.cells then Moved(s, c, Missed)
    else Moved(s.(cells := s.cells[q.key.value := Marker]), c, Producing)
  }

  // The marker is set, and the client is told of a failure.
  function AfterSetNxReplyLost(s: State, c: Id): State
    requires c in s.calls
  {
    var Call(q, phase) := s.calls[c];
    if !phase.Start? || !Keyed(q) then s
    else Moved(if q.key.value in s.cells then s else s.(cells := s.cells[q.key.value := Marker]), c,
               Done(Failed(NotAcquired)))
  }

  // A key released between the lost SET NX and this GET makes the parse of the reply raise.
  function AfterGet(s: State, c: Id): State
    requires c in s.calls
  {
    var Call(q, phase) := s.calls[c];
    if !phase.Missed? || !Keyed(q) then s
    else if q.key.value !in s.cells then Moved(s, c, Done(Failed(Unparsable)))
    else match s.cells[q.key.value]
      case Marker => Moved(s, c, Done(Conflict))
      case Saved(response) => Moved(s, c, Done(Replayed(response)))
  }

  // SELECT ... FOR UPDATE: waits while another transaction holds the row.
  function AfterOpen(s: State, c: Id): State
    requires c in s.calls
  {
    var Call(q, phase) := s.calls[c];
    if !phase.Producing? then s
    else if !q.op.OpenAccount? && q.op.account in s.locks then s
    else match Loaded(s.users, s.accounts, q.op)
      case None => Raise(s, c, Refused)
      case Some(row) =>
        Moved(s.(locks := if q.op.OpenAccount? then s.locks else s.locks[q.op.account := c]), c, InTx(row))
  }

  function AfterFlush(s: State, c: Id): State
    requires c in s.calls
  {
    var Call(q, phase) := s.calls[c];
    if !phase.InTx? then s
    else match Changed(s.categories, q.op, phase.row)
      case None => Raise(s, c, Refused)
      case Some(row) => Moved(s, c, Staged(row))
  }

  // The commit itself; `acknowledged` says whether the caller learns of it.
  function AfterCommit(s: State, c: Id, acknowledged: bool): State
    requires c in s.calls
  {
    var Call(q, phase) := s.calls[c];
    if !phase.Staged? then s
    else if q.op.OpenAccount? && q.op.id in s.accounts then Raise(s, c, Refused)
    else
      var t := s.(accounts := s.accounts[Target(q.op) := phase.row],
                  locks := Unlocked(s.locks, c),
                  effects := s.effects + [Effect(c, q, phase.row)]);
      if acknowledged then Moved(t, c, Committed(phase.row)) else Raise(t, c, Late)
  }

  function AfterCacheDelete(s: State, c: Id): State
    requires c in s.calls
  {
    var Call(q, phase) := s.calls[c];
    if !phase.Committed? then s
    else Moved(s, c, if Keyed(q) then Produced(phase.response) else Done(Success(phase.response)))
  }

  function AfterRelease(s: State, c: Id): State
    requires c in s.calls
  {
    var Call(q, phase) := s.calls[c];
    if !phase.Raised? || !Keyed(q) then s
    else
      var k := q.key.value;
      Moved(s.(cells := s.cells - {k},
               faults := if phase.why.Late? && k in s.cells then s.faults + multiset{k} else s.faults),
            c, Done(Failed(ProduceRaised(phase.why))))
  }

  function AfterSave(s: State, c: Id): State
    requires c in s.calls
  {
    var Call(q, phase) := s.calls[c];
    if !phase.Produced? || !Keyed(q) then s
    else Moved(s.(cells := s.cells[q.key.value := Saved(phase.response)]), c, Kept(phase.response))
  }

  // Storing the response raises outside the try block: the key keeps its marker, or the response.
  function AfterSaveRaises(s: State, c: Id, stored: bool): State
    requires c in s.calls
  {
    var Call(q, phase) := s.calls[c];
    if !phase.Produced? || !Keyed(q) then s
    else Moved(if stored then s.(cells := s.cells[q.key.value := Saved(phase.response)]) else s,
               c, Done(Failed(NotSaved)))
  }

  // A cancelled or killed call rolls back.
  function Crashing(s: State, c: Id): State
    requires c in s.calls
  {
    Moved(s.(locks := Unlocked(s.locks, c)), c, Done(Crashed))
  }

  function Act(p: Policy, s: State, c: Id, action: Action): (t: State)
    requires c in s.calls
    ensures t.calls.Keys == s.calls.Keys
  {
    var phase := s.calls[c].phase;
    match action
    case SetNx => AfterSetNx(s, c)
    case SetNxFails => if phase.Start? then Moved(s, c, Done(Failed(NotAcquired))) else s
    case SetNxReplyLost => AfterSetNxReplyLost(s, c)
    case Get => AfterGet(s, c)
    case GetFails => if phase.Missed? then Moved(s, c, Done(Failed(NotAcquired))) else s
    case Open => AfterOpen(s, c)
    case Flush => AfterFlush(s, c)
    case Commit => AfterCommit(s, c, true)
    case CommitReplyLost => if p.lateRaise then AfterCommit(s, c, false) else s
    case DbError => if phase.Producing? || phase.InTx? || phase.Staged? then Raise(s, c, Broken) else s
    case CacheDelete => AfterCacheDelete(s, c)
    case CacheDeleteFails => if p.lateRaise && phase.Committed? then Raise(s, c, Late) else s
    case Release => AfterRelease(s, c)
    case ReleaseFails =>
      if phase.Raised? then Moved(s, c, Done(Failed(ProduceRaised(phase.why)))) else s
    case Save => AfterSave(s, c)
    case SaveFails => AfterSaveRaises(s, c, false)
    case SaveReplyLost => AfterSaveRaises(s, c, true)
    case Return => if phase.Kept? then Moved(s, c, Done(Success(phase.response))) else s
    case Crash => if phase.Done? then s else Crashing(s, c)
  }

  function AfterExpire(s: State, k: Key): State {
    if k in s.cells then s.(cells := s.cells - {k}, faults := s.faults + multiset{k}) else s
  }

  function Next(p: Policy, s: State, e: Event): State {
    match e
    case Submit(c, q) => AfterSubmit(s, c, q)
    case Step(c, action) => if c in s.calls then Act(p, s, c, action) else s
    case Expire(k) => if p.expiry then AfterExpire(s, k) else s
    case AddUser(user) => s.(users := s.users + {user})
    case AddCategory(category) => s.(categories := s.categories + {category})
  }

  function Run(p: Policy, s: State, events: seq<Event>): State
    decreases |events|
  {
    if events == [] then s else Run(p, Next(p, s, events[0]), events[1..])
  }
}
