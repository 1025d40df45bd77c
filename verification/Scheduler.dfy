/**
 Single-instance jobs: a Redis lock taken with SET NX EX and released by an unconditional DEL, by any
 number of workers that may leave a job by returning, raising, being cancelled or dying.
 */
module Scheduler {
  import opened Common

  type JobName = string

  // The stored value is the same for everybody; who set it is history.
  datatype Lock = Lock(expires: nat, owner: Option<Id>)

  // A worker between its successful SET NX and its DEL.
  datatype Stay = Stay(job: JobName, since: nat, leaving: bool)

  datatype State = State(now: nat, locks: map<JobName, Lock>, stays: map<Id, Stay>)

  // ttl: the lock's time to live; longest: no stay lasts longer, from SET NX to DEL.
  datatype Policy = Policy(ttl: nat, longest: nat)

  datatype Event =
    | Tick(d: nat)
    | Acquire(w: Id, job: JobName)
    | AcquireReplyLost(job: JobName)  // the lock is set, and nobody enters
    | Leave(w: Id)                    // the job returned, raised or was cancelled
    | Release(w: Id)
    | Die(w: Id)                      // killed, or its DEL is not done

  const IDLE := State(0, map[], map[])

  predicate Locked(s: State, job: JobName) {
    job in s.locks && s.now < s.locks[job].expires
  }

  predicate InTime(pol: Policy, s: State, d: nat) {
    forall w | w in s.stays :: s.now + d <= s.stays[w].since + pol.longest
  }

  function Next(pol: Policy, s: State, e: Event): State {
    match e
    case Tick(d) => if InTime(pol, s, d) then s.(now := s.now + d) else s
    case Acquire(w, job) =>
      if w in s.stays || Locked(s, job) then s
      else s.(locks := s.locks[job := Lock(s.now + pol.ttl, Some(w))],
              stays := s.stays[w := Stay(job, s.now, false)])
    case AcquireReplyLost(job) =>
      if Locked(s, job) then s else s.(locks := s.locks[job := Lock(s.now + pol.ttl, None)])
    case Leave(w) => if w in s.stays then s.(stays := s.stays[w := s.stays[w].(leaving := true)]) else s
    case Release(w) =>
      if w in s.stays && s.stays[w].leaving then
        s.(locks := s.locks - {s.stays[w].job}, stays := s.stays - {w})
      else s
    case Die(w) => s.(stays := s.stays - {w})
  }

  function Run(pol: Policy, s: State, events: seq<Event>): State
    decreases |events|
  {
    if events == [] then s else Run(pol, Next(pol, s, events[0]), events[1..])
  }

  // Nobody shares a job.
  ghost predicate Exclusive(s: State) {
    forall w, v | w in s.stays && v in s.stays && s.stays[w].job == s.stays[v].job :: w == v
  }

  // Whoever is inside still has its own lock, so its DEL removes no one else's.
  ghost predicate OwnLocks(s: State) {
    forall w | w in s.stays :: Locked(s, s.stays[w].job) && s.locks[s.stays[w].job].owner == Some(w)
  }

  ghost predicate Inv(pol: Policy, s: State) {
    forall w | w in s.stays ::
      && s.stays[w].since <= s.now <= s.stays[w].since + pol.longest
      && s.stays[w].job in s.locks
      && s.locks[s.stays[w].job] == Lock(s.stays[w].since + pol.ttl, Some(w))
  }

  lemma NextKeeps(pol: Policy, s: State, e: Event)
    requires pol.longest < pol.ttl && Inv(pol, s)
    ensures Inv(pol, Next(pol, s, e))
  {
  }

  lemma {:induction false} RunKeeps(pol: Policy, s: State, events: seq<Event>)
    requires pol.longest < pol.ttl && Inv(pol, s)
    ensures Inv(pol, Run(pol, s, events))
    decreases |events|
  {
    if events != [] {
      NextKeeps(pol, s, events[0]);
      RunKeeps(pol, Next(pol, s, events[0]), events[1..]);
    }
  }

  ghost predicate SafeAfter(pol: Policy, events: seq<Event>) {
    Exclusive(Run(pol, IDLE, events)) && OwnLocks(Run(pol, IDLE, events))
  }

  ghost predicate AlwaysSafe(pol: Policy) {
    forall events :: SafeAfter(pol, events)
  }

  lemma RunThree(pol: Policy, s: State, a: Event, b: Event, c: Event)
    ensures Run(pol, s, [a, b, c]) == Next(pol, Next(pol, Next(pol, s, a), b), c)
  {
    assert [a, b, c][1..] == [b, c] && [b, c][1..] == [c] && [c][1..] == [];
    assert Run(pol, Next(pol, s, a), [b, c]) == Run(pol, Next(pol, Next(pol, s, a), b), [c]);
  }

  // A stay as long as the lock lives: a second worker enters on the dot.
  lemma OverstayShares(pol: Policy)
    requires pol.ttl <= pol.longest
    ensures !SafeAfter(pol, [Acquire(1, "j"), Tick(pol.ttl), Acquire(2, "j")])
  {
    RunThree(pol, IDLE, Acquire(1, "j"), Tick(pol.ttl), Acquire(2, "j"));
    var s := Next(pol, Next(pol, Next(pol, IDLE, Acquire(1, "j")), Tick(pol.ttl)), Acquire(2, "j"));
    assert 1 in s.stays && 2 in s.stays && s.stays[1].job == s.stays[2].job;
  }

  // In every run at most one worker is inside a job, and every release deletes its own lock, exactly
  // when every stay ends before its lock expires.
  lemma SafeExactly(pol: Policy)
    ensures AlwaysSafe(pol) <==> pol.longest < pol.ttl
  {
    if pol.longest < pol.ttl {
      forall events ensures SafeAfter(pol, events) {
        RunKeeps(pol, IDLE, events);
      }
    } else {
      OverstayShares(pol);
    }
  }

  // Once a run has overstayed, its release frees the job under the worker that is now inside.
  lemma OverstayStealsTheLock(pol: Policy, s: State, w: Id, v: Id, job: JobName)
    requires w != v && w in s.stays && v in s.stays && s.stays[w] == Stay(job, s.stays[w].since, true)
    requires s.stays[v].job == job
    ensures var t := Next(pol, s, Release(w));
      v in t.stays && t.stays[v].job == job && !Locked(t, job)
  {
  }

  // Left alone, a free job is entered, left and released, and is free again, as RunJob does in one go.
  lemma WholeStay(pol: Policy, s: State, w: Id, job: JobName)
    requires w !in s.stays && !Locked(s, job) && 0 < pol.ttl
    ensures var inside := Next(pol, s, Acquire(w, job));
      w in inside.stays && inside.stays[w].job == job && Locked(inside, job)
    ensures Run(pol, s, [Acquire(w, job), Leave(w), Release(w)]) == s.(locks := s.locks - {job})
  {
    RunThree(pol, s, Acquire(w, job), Leave(w), Release(w));
    var t := Next(pol, Next(pol, Next(pol, s, Acquire(w, job)), Leave(w)), Release(w));
    assert t.stays == s.stays;
    assert t.locks == s.locks - {job};
  }

  // ----- what the steps achieve -----

  // A worker enters exactly a job that nobody has locked, and locks it for exactly the time to live.
  lemma EntersExactly(pol: Policy, s: State, w: Id, job: JobName, d: nat)
    requires w !in s.stays
    ensures var t := Next(pol, s, Acquire(w, job));
      && (w in t.stays <==> job !in s.locks || s.locks[job].expires <= s.now)
      && (w in t.stays ==> t.stays == s.stays[w := Stay(job, s.now, false)] && t.locks[job].owner == Some(w))
      && (w !in t.stays ==> t == s)
      && (w in t.stays ==> (Locked(t.(now := t.now + d), job) <==> d < pol.ttl))
  {
  }

  // A lock whose reply is lost blocks the job as long, and nobody is inside.
  lemma LostReplyBlocks(pol: Policy, s: State, job: JobName, d: nat)
    requires !Locked(s, job)
    ensures var t := Next(pol, s, AcquireReplyLost(job));
      t.stays == s.stays && (Locked(t.(now := t.now + d), job) <==> d < pol.ttl)
  {
  }

  // Who leaves and releases is outside and the job is unlocked; who dies is outside and leaves the lock.
  lemma LeavesOrDies(pol: Policy, s: State, w: Id)
    requires w in s.stays
    ensures var t := Next(pol, Next(pol, s, Leave(w)), Release(w));
      t.stays == s.stays - {w} && t.locks == s.locks - {s.stays[w].job} && t.now == s.now
    ensures var t := Next(pol, s, Die(w)); t.stays == s.stays - {w} && t.locks == s.locks && t.now == s.now
  {
    assert Next(pol, Next(pol, s, Leave(w)), Release(w)).stays == s.stays - {w};
  }

  // ----- one firing of a job -----

  type Held = map<JobName, Lock>

  datatype Outcome = Returns | Raises | Cancelled

  datatype Job = Job(name: JobName, singleInstance: bool, lockTtl: nat, runOnStart: bool)

  // A stretch of time: how long, and what the other workers have made of the locks by its end.
  datatype Meanwhile = Meanwhile(elapsed: nat, others: Held -> Held)

  // How the SET NX goes, how the job leaves, what happens while it runs, how the DEL goes.
  datatype Firing = Firing(acquire: Fate, outcome: Outcome, during: Meanwhile, release: Fate)

  // The clock, the locks, and how often this worker has called a job function.
  datatype Shift = Shift(now: nat, held: Held, ran: nat)

  datatype Ended = Normally | WithCancellation | WithLockError

  datatype Fired = Fired(shift: Shift, ended: Ended)

  predicate Free(s: Shift, job: Job) {
    !(job.name in s.held && s.now < s.held[job.name].expires)
  }

  function Taken(s: Shift, worker: Id, job: Job): Shift {
    s.(held := s.held[job.name := Lock(s.now + job.lockTtl, Some(worker))])
  }

  function Passed(s: Shift, m: Meanwhile): Shift {
    s.(now := s.now + m.elapsed, held := m.others(s.held))
  }

  function Worked(s: Shift, f: Firing): Shift {
    Passed(s.(ran := s.ran + 1), f.during)
  }

  function Left(f: Firing): Ended {
    if f.outcome.Cancelled? then WithCancellation else Normally
  }

  function Fire(s: Shift, worker: Id, job: Job, f: Firing): Fired {
    if !job.singleInstance then Fired(Worked(s, f), Left(f))
    else
      var taken := if Free(s, job) && !f.acquire.NotDone? then Taken(s, worker, job) else s;
      if !f.acquire.Fine? then Fired(taken, WithLockError)
      else if !Free(s, job) then Fired(s, Normally)
      else
        var worked := Worked(taken, f);
        Fired(if f.release.NotDone? then worked else worked.(held := worked.held - {job.name}),
              if f.release.Fine? then Left(f) else WithLockError)
  }

  // Whether the firing gets to call the job function.
  predicate Enters(s: Shift, job: Job, f: Firing) {
    !job.singleInstance || (f.acquire.Fine? && Free(s, job))
  }

  // A lock command that the firing sends raises.
  predicate LockRaises(s: Shift, job: Job, f: Firing) {
    job.singleInstance && (!f.acquire.Fine? || (Free(s, job) && !f.release.Fine?))
  }

  // An exception of the job stays inside. The firing goes on to the next one exactly when no lock command
  // it sends raises and the job, if it ran, was not cancelled; and it ran at most once, exactly if it entered.
  lemma GoesOnExactly(s: Shift, worker: Id, job: Job, f: Firing)
    ensures var end := Fire(s, worker, job, f);
      && (end.ended == Normally <==> GoesOn(s, job, f))
      && end.shift.ran == s.ran + (if Enters(s, job, f) then 1 else 0)
  {
  }

  // A firing enters exactly a job that needs no lock, or whose lock is absent or has expired when the
  // acquisition goes well; a lock taken is free again exactly when its time to live has passed.
  lemma EntersWhenFree(s: Shift, worker: Id, job: Job, f: Firing, d: nat)
    ensures Enters(s, job, f) <==>
      !job.singleInstance || (f.acquire.Fine? && (job.name !in s.held || s.held[job.name].expires <= s.now))
    ensures var t := Taken(s, worker, job); Free(t.(now := t.now + d), job) <==> job.lockTtl <= d
    ensures Taken(s, worker, job).held[job.name].owner == Some(worker)
  {
  }

  // A firing that does not enter takes no time; it takes the lock only if that is free and the
  // acquisition was done. One that enters takes its time, and for every other job's lock it is as if it
  // had not been there.
  lemma FiringLeaves(s: Shift, worker: Id, job: Job, f: Firing)
    ensures var end := Fire(s, worker, job, f).shift;
      && end.now == s.now + (if Enters(s, job, f) then f.during.elapsed else 0)
      && (!Enters(s, job, f) ==>
            end.held == if Free(s, job) && f.acquire.ReplyLost? then Taken(s, worker, job).held else s.held)
      && (Enters(s, job, f) && !job.singleInstance ==> end.held == f.during.others(s.held))
      && (Enters(s, job, f) && job.singleInstance ==>
            end.held - {job.name} == f.during.others(Taken(s, worker, job).held) - {job.name})
  {
    if Enters(s, job, f) && job.singleInstance {
      LockGoneExactly(s, worker, job, f);
    }
  }

  // However the job leaves, its lock is gone afterwards exactly when the DEL was done or there was none
  // left to delete. The DEL takes whatever lock is there, and touches no other.
  lemma LockGoneExactly(s: Shift, worker: Id, job: Job, f: Firing)
    requires job.singleInstance && Enters(s, job, f)
    ensures var before := Worked(Taken(s, worker, job), f).held;
      var after := Fire(s, worker, job, f).shift.held;
      && (job.name !in after <==> !f.release.NotDone? || job.name !in before)
      && after - {job.name} == before - {job.name}
  {
    var before := Worked(Taken(s, worker, job), f).held;
    assert (before - {job.name}) - {job.name} == before - {job.name};
  }

  // A SET NX that is done and whose reply is lost leaves the job locked for the whole time to live,
  // and nobody inside.
  lemma LostReplyLocks(s: Shift, worker: Id, job: Job, f: Firing)
    requires job.singleInstance && Free(s, job) && f.acquire.ReplyLost? && 0 < job.lockTtl
    ensures var end := Fire(s, worker, job, f);
      && !Free(end.shift, job) && end.shift.held[job.name].expires == s.now + job.lockTtl
      && end.shift.ran == s.ran && end.ended == WithLockError
  {
  }

  // ----- the scheduler as an object -----

  class Locks {
    var now: nat
    var held: Held

    constructor ()
      ensures now == 0 && held == map[]
    {
      now, held := 0, map[];
    }
  }

  // What the world does around a job's loop: the i-th look at the stop event, the sleep before the i-th
  // firing, and the i-th firing.
  datatype Day = Day(stopped: nat -> bool, sleeps: nat -> Meanwhile, firings: nat -> Firing)

  function Before(s: Shift, worker: Id, job: Job, day: Day, i: nat): Shift
    decreases i, 0
  {
    if i > 0 then Passed(Nth(s, worker, job, day, i - 1).shift, day.sleeps(i))
    else if job.runOnStart then s
    else Passed(s, day.sleeps(0))
  }

  // The i-th firing of the loop, if the loop gets there.
  function Nth(s: Shift, worker: Id, job: Job, day: Day, i: nat): Fired
    decreases i, 1
  {
    Fire(Before(s, worker, job, day, i), worker, job, day.firings(i))
  }

  function AfterFirings(s: Shift, worker: Id, job: Job, day: Day, n: nat): Shift {
    if n == 0 then s else Nth(s, worker, job, day, n - 1).shift
  }

  // The look is the first that sees the stop event.
  ghost predicate FirstStop(day: Day, look: nat) {
    day.stopped(look) && forall i: nat | i < look :: !day.stopped(i)
  }

  // How many firings there are before that look: each round looks before and after its sleep.
  function FiringsBefore(job: Job, look: nat): nat {
    (if job.runOnStart then 1 else 0) + look / 2
  }

  // The firing goes on to the next one.
  predicate GoesOn(s: Shift, job: Job, f: Firing) {
    !LockRaises(s, job, f) && !(Enters(s, job, f) && f.outcome.Cancelled?)
  }

  predicate EndsWell(s: Shift, worker: Id, job: Job, day: Day, i: nat) {
    Nth(s, worker, job, day, i).ended == Normally
  }

  predicate GoesOnAt(s: Shift, worker: Id, job: Job, day: Day, i: nat) {
    GoesOn(Before(s, worker, job, day, i), job, day.firings(i))
  }

  ghost predicate AllEndWell(s: Shift, worker: Id, job: Job, day: Day, n: nat) {
    forall i: nat | i < n :: EndsWell(s, worker, job, day, i)
  }

  // Before each of the first n firings: no lock command it sends raises, and it is not cancelled.
  ghost predicate AllGoOn(s: Shift, worker: Id, job: Job, day: Day, n: nat) {
    forall i: nat | i < n :: GoesOnAt(s, worker, job, day, i)
  }

  // What the job function itself raises does not matter.
  lemma EndWellExactly(s: Shift, worker: Id, job: Job, day: Day, n: nat)
    ensures AllEndWell(s, worker, job, day, n) <==> AllGoOn(s, worker, job, day, n)
  {
    forall i: nat ensures EndsWell(s, worker, job, day, i) <==> GoesOnAt(s, worker, job, day, i) {
      GoesOnExactly(Before(s, worker, job, day, i), worker, job, day.firings(i));
    }
  }

  lemma OneEndsBadly(s: Shift, worker: Id, job: Job, day: Day, i: nat, n: nat)
    requires i < n && !EndsWell(s, worker, job, day, i)
    ensures !AllGoOn(s, worker, job, day, n)
  {
    EndWellExactly(s, worker, job, day, n);
  }

  // A job fires before its first sleep exactly if it runs on start, and then once after each sleep: the
  // number of firings before a look grows by one with every two looks.
  lemma FiresEachRound(s: Shift, worker: Id, job: Job, day: Day, look: nat, i: nat)
    ensures FiringsBefore(job, 0) == (if job.runOnStart then 1 else 0)
    ensures FiringsBefore(job, look + 2) == FiringsBefore(job, look) + 1
    ensures look % 2 == 0 ==> FiringsBefore(job, look + 1) == FiringsBefore(job, look)
    ensures Before(s, worker, job, day, 0) == if job.runOnStart then s else Passed(s, day.sleeps(0))
    ensures Before(s, worker, job, day, i + 1)
         == Passed(Fire(Before(s, worker, job, day, i), worker, job, day.firings(i)).shift, day.sleeps(i + 1))
  {
  }

  class Scheduler {
    const redis: Locks
    const worker: Id
    var jobs: seq<Job>
    var ran: nat  // times a job function was called

    constructor (redis: Locks, worker: Id)
      ensures this.redis == redis && this.worker == worker && jobs == [] && ran == 0
    {
      this.redis, this.worker := redis, worker;
      jobs, ran := [], 0;
    }

    function Now(): Shift
      reads this, redis
    {
      Shift(redis.now, redis.held, ran)
    }

    method Add(job: Job)
      modifies this`jobs
      ensures jobs == old(jobs) + [job]
    {
      jobs := jobs + [job];
    }

    method AcquireLock(job: Job, fate: Fate) returns (r: Result<bool, ()>)
      modifies redis`held
      ensures Now() == if Free(old(Now()), job) && !fate.NotDone? then Taken(old(Now()), worker, job) else old(Now())
      ensures r == if fate.Fine? then Ok(Free(old(Now()), job)) else Err(())
    {
      var free := Free(Now(), job);
      if free && !fate.NotDone? {
        redis.held := redis.held[job.name := Lock(redis.now + job.lockTtl, Some(worker))];
      }
      return if fate.Fine? then Ok(free) else Err(());
    }

    // Not ok: the DEL raises.
    method ReleaseLock(job: Job, fate: Fate) returns (ok: bool)
      modifies redis`held
      ensures ok == fate.Fine?
      ensures redis.held == if fate.NotDone? then old(redis.held) else old(redis.held) - {job.name}
    {
      if !fate.NotDone? {
        redis.held := redis.held - {job.name};
      }
      return fate.Fine?;
    }

    method Spend(m: Meanwhile)
      modifies redis
      ensures Now() == Passed(old(Now()), m)
    {
      redis.now, redis.held := redis.now + m.elapsed, m.others(redis.held);
    }

    // One firing. The acquisition is outside the try block, and the release in its finally clause.
    method RunJob(job: Job, f: Firing) returns (ended: Ended)
      modifies this`ran, redis
      ensures Fired(Now(), ended) == Fire(old(Now()), worker, job, f)
    {
      if job.singleInstance {
        var acquired := AcquireLock(job, f.acquire);
        if acquired.Err? {
          return WithLockError;
        }
        if !acquired.value {
          return Normally;
        }
      }
      ran := ran + 1;
      Spend(f.during);
      if job.singleInstance {
        var ok := ReleaseLock(job, f.release);
        if !ok {
          return WithLockError;
        }
      }
      return if f.outcome.Cancelled? then WithCancellation else Normally;
    }

    // The loop of one job, until the stop event or until a firing lets an exception out. `last` is the
    // first look that sees the stop event; it reaches that look exactly when no firing before it does so.
    method Loop(job: Job, day: Day, ghost last: nat) returns (ended: Ended, ghost fired: nat)
      requires FirstStop(day, last)
      modifies this`ran, redis
      ensures ended == Normally <==> AllGoOn(old(Now()), worker, job, day, FiringsBefore(job, last))
      ensures fired > 0 || ended == Normally
      ensures AllEndWell(old(Now()), worker, job, day, if ended == Normally then fired else fired - 1)
      ensures ended == Normally ==>
                && fired == FiringsBefore(job, last)
                && var after := AfterFirings(old(Now()), worker, job, day, fired);
                   Now() == if last % 2 == 1 then Passed(after, day.sleeps(fired)) else after
      ensures ended != Normally ==>
                && fired <= FiringsBefore(job, last)
                && Fired(Now(), ended) == Nth(old(Now()), worker, job, day, fired - 1)
    {
      ghost var start := Now();
      fired := 0;
      if job.runOnStart {
        ended := RunJob(job, day.firings(0));
        fired := 1;
        assert ended == Normally <==> EndsWell(start, worker, job, day, 0);
        if ended != Normally {
          OneEndsBadly(start, worker, job, day, 0, FiringsBefore(job, last));
          return;
        }
      }
      var looks, next := 0, if job.runOnStart then 1 else 0;
      ended := Normally;
      while !day.stopped(looks)
        invariant ended == Normally && looks % 2 == 0 && looks <= last
        invariant next == fired == FiringsBefore(job, looks)
        invariant Now() == AfterFirings(start, worker, job, day, fired)
        invariant AllEndWell(start, worker, job, day, fired)
        decreases last - looks
      {
        Spend(day.sleeps(next));
        looks := looks + 1;
        if day.stopped(looks) {
          assert looks == last;
          EndWellExactly(start, worker, job, day, fired);
          return;
        }
        assert looks < last;
        assert Now() == Before(start, worker, job, day, fired);
        ended := RunJob(job, day.firings(next));
        looks, next, fired := looks + 1, next + 1, fired + 1;
        if ended != Normally {
          OneEndsBadly(start, worker, job, day, fired - 1, FiringsBefore(job, last));
          return;
        }
      }
      assert looks == last;
      EndWellExactly(start, worker, job, day, fired);
    }
  }
}
