/**
 The cache-aside detail of one user under interleaving: readers, creators and mutators of both
 services, each awaited call a step. The database read is one snapshot.
 */
module Staleness {
  import opened Common
  import opened Tables

  type Value = UserDetail

  // A committed state of the user's detail; None before creation and after deletion.
  datatype Version = Version(at: nat, value: Option<Value>)

  // readAt, when the value was read or committed, is history; Redis keeps value and expiry.
  datatype Entry = Entry(value: Value, readAt: nat, expires: nat)

  datatype Client =
    | Missed                            // no live entry found, about to read the database
    | Holding(value: Value, readAt: nat) // about to put the value into the cache
    | Owing                             // committed a mutation, about to delete the entry

  datatype Served = Served(value: Value, at: nat)

  datatype State = State(
    now: nat, versions: seq<Version>, entry: Option<Entry>, clients: map<Id, Client>, served: seq<Served>)

  // ttl: of the entry; delay: the longest time from a read (or creating commit) to its put.
  datatype Policy = Policy(ttl: nat, delay: nat)

  datatype Event =
    | Tick(d: nat)
    | Lookup(c: Id)
    | ReadDb(c: Id)
    | Put(c: Id)
    | CommitCreate(c: Id, value: Value)
    | CommitChange(c: Id, after: Option<Value>)
    | Invalidate(c: Id)
    | Crash(c: Id)
    | Evict

  const START := State(0, [Version(0, None)], None, map[], [])

  function Current(s: State): Option<Value>
    requires s.versions != []
  {
    s.versions[|s.versions| - 1].value
  }

  predicate InTime(p: Policy, s: State, d: nat) {
    forall c | c in s.clients && s.clients[c].Holding? :: s.now + d <= s.clients[c].readAt + p.delay
  }

  function Next(p: Policy, s: State, e: Event): State {
    match e
    case Tick(d) => if InTime(p, s, d) then s.(now := s.now + d) else s
    case Lookup(c) =>
      if c in s.clients then s
      else if s.entry.Some? && s.now < s.entry.value.expires then
        s.(served := s.served + [Served(s.entry.value.value, s.now)])
      else s.(clients := s.clients[c := Missed])
    case ReadDb(c) =>
      if c !in s.clients || !s.clients[c].Missed? || s.versions == [] then s
      else if Current(s).None? then s.(clients := s.clients - {c})
      else s.(clients := s.clients[c := Holding(Current(s).value, s.now)])
    case Put(c) =>
      if c !in s.clients || !s.clients[c].Holding? then s
      else s.(entry := Some(Entry(s.clients[c].value, s.clients[c].readAt, s.now + p.ttl)),
              clients := s.clients - {c})
    case CommitCreate(c, v) =>
      if c in s.clients || s.versions == [] || Current(s).Some? then s
      else s.(versions := s.versions + [Version(s.now, Some(v))], clients := s.clients[c := Holding(v, s.now)])
    case CommitChange(c, v) =>
      if c in s.clients || s.versions == [] || Current(s).None? then s
      else s.(versions := s.versions + [Version(s.now, v)], clients := s.clients[c := Owing])
    case Invalidate(c) =>
      if c in s.clients && s.clients[c].Owing? then s.(entry := None, clients := s.clients - {c}) else s
    case Crash(c) => s.(clients := s.clients - {c})
    case Evict => s.(entry := None)
  }

  function Run(p: Policy, s: State, events: seq<Event>): State
    decreases |events|
  {
    if events == [] then s else Run(p, Next(p, s, events[0]), events[1..])
  }

  // The i-th version was the committed one at instant t.
  predicate CommittedAt(versions: seq<Version>, i: nat, t: nat) {
    i < |versions| && versions[i].at <= t && (i + 1 < |versions| ==> t <= versions[i + 1].at)
  }

  ghost predicate ValueAt(versions: seq<Version>, v: Value, t: nat) {
    exists i: nat :: CommittedAt(versions, i, t) && versions[i].value == Some(v)
  }

  // The value was committed at some instant less than `bound` before it was served.
  ghost predicate FreshWithin(versions: seq<Version>, x: Served, bound: nat) {
    exists t: nat :: ValueAt(versions, x.value, t) && t <= x.at < t + bound
  }

  ghost predicate Inv(p: Policy, s: State) {
    && s.versions != []
    && (forall i | 0 <= i < |s.versions| :: s.versions[i].at <= s.now)
    && (forall c | c in s.clients && s.clients[c].Holding? ::
          && s.clients[c].readAt <= s.now <= s.clients[c].readAt + p.delay
          && ValueAt(s.versions, s.clients[c].value, s.clients[c].readAt))
    && (s.entry.Some? ==>
          && s.entry.value.readAt <= s.now
          && s.entry.value.expires <= s.entry.value.readAt + p.delay + p.ttl
          && ValueAt(s.versions, s.entry.value.value, s.entry.value.readAt))
    && (forall x | x in s.served :: FreshWithin(s.versions, x, p.ttl + p.delay) && x.at <= s.now)
  }

  // A new version, committed now, does not change what was committed at earlier instants.
  lemma HistoryStays(versions: seq<Version>, fresh_: Version, v: Value, t: nat)
    requires ValueAt(versions, v, t) && t <= fresh_.at
    ensures ValueAt(versions + [fresh_], v, t)
  {
    var i: nat :| CommittedAt(versions, i, t) && versions[i].value == Some(v);
    assert CommittedAt(versions + [fresh_], i, t);
  }

  lemma CommitKeeps(p: Policy, s: State, fresh_: Version)
    requires Inv(p, s) && fresh_.at == s.now
    ensures Inv(p, s.(versions := s.versions + [fresh_]))
  {
    var t := s.(versions := s.versions + [fresh_]);
    forall c | c in s.clients && s.clients[c].Holding?
      ensures ValueAt(t.versions, s.clients[c].value, s.clients[c].readAt)
    {
      HistoryStays(s.versions, fresh_, s.clients[c].value, s.clients[c].readAt);
    }
    if s.entry.Some? {
      HistoryStays(s.versions, fresh_, s.entry.value.value, s.entry.value.readAt);
    }
    forall x | x in t.served ensures FreshWithin(t.versions, x, p.ttl + p.delay) {
      var u: nat :| ValueAt(s.versions, x.value, u) && u <= x.at < u + (p.ttl + p.delay);
      HistoryStays(s.versions, fresh_, x.value, u);
    }
  }

  lemma NextKeeps(p: Policy, s: State, e: Event)
    requires Inv(p, s)
    ensures Inv(p, Next(p, s, e))
  {
    match e
    case CommitCreate(c, v) =>
      CommitKeeps(p, s, Version(s.now, Some(v)));
      assert CommittedAt(s.versions + [Version(s.now, Some(v))], |s.versions|, s.now);
    case CommitChange(c, v) => CommitKeeps(p, s, Version(s.now, v));
    case ReadDb(c) => assert CommittedAt(s.versions, |s.versions| - 1, s.now);
    case _ =>
  }

  lemma {:induction false} RunKeeps(p: Policy, s: State, events: seq<Event>)
    requires Inv(p, s)
    ensures Inv(p, Run(p, s, events))
    decreases |events|
  {
    if events != [] {
      NextKeeps(p, s, events[0]);
      RunKeeps(p, Next(p, s, events[0]), events[1..]);
    }
  }

  ghost predicate FreshAfter(p: Policy, bound: nat, events: seq<Event>) {
    var s := Run(p, START, events);
    forall x | x in s.served :: FreshWithin(s.versions, x, bound)
  }

  ghost predicate AlwaysFresh(p: Policy, bound: nat) {
    forall events :: FreshAfter(p, bound, events)
  }

  // ----- the bound is reached -----

  const OLD := UserDetail(0, "e", "old", true, "user", map[], None)
  const NEW := OLD.(name := "new")

  lemma RunCons(p: Policy, s: State, e: Event, rest: seq<Event>)
    ensures Run(p, s, [e] + rest) == Run(p, Next(p, s, e), rest)
  {
    assert ([e] + rest)[1..] == rest;
  }

  lemma RunThree(p: Policy, s: State, a: Event, b: Event, c: Event, rest: seq<Event>)
    ensures Run(p, s, [a, b, c] + rest) == Run(p, Next(p, Next(p, Next(p, s, a), b), c), rest)
  {
    assert [a, b, c] + rest == [a] + ([b] + ([c] + rest));
    RunCons(p, s, a, [b] + ([c] + rest));
    RunCons(p, Next(p, s, a), b, [c] + rest);
    RunCons(p, Next(p, Next(p, s, a), b), c, rest);
  }

  // A reader fetches the value, the value is replaced and invalidated, and then the reader's put lands.
  function LatePut(p: Policy): seq<Event>
    requires p.ttl >= 1
  {
    [CommitCreate(1, OLD), Crash(1), Lookup(2)]
    + ([ReadDb(2), CommitChange(3, Some(NEW)), Invalidate(3)]
       + ([Tick(p.delay), Put(2), Tick(p.ttl - 1)] + ([Lookup(4), Evict, Evict] + [])))
  }

  const REPLACED: seq<Version> := [Version(0, None), Version(0, Some(OLD)), Version(0, Some(NEW))]

  lemma LatePutFirst(p: Policy, rest: seq<Event>)
    ensures Run(p, START, [CommitCreate(1, OLD), Crash(1), Lookup(2)] + rest)
         == Run(p, State(0, REPLACED[..2], None, map[2 := Missed], []), rest)
  {
    RunThree(p, START, CommitCreate(1, OLD), Crash(1), Lookup(2), rest);
    var t := Next(p, Next(p, Next(p, START, CommitCreate(1, OLD)), Crash(1)), Lookup(2));
    assert t.versions == REPLACED[..2];
    assert t.clients == map[2 := Missed];
  }

  lemma LatePutSecond(p: Policy, rest: seq<Event>)
    ensures Run(p, State(0, REPLACED[..2], None, map[2 := Missed], []),
                [ReadDb(2), CommitChange(3, Some(NEW)), Invalidate(3)] + rest)
         == Run(p, State(0, REPLACED, None, map[2 := Holding(OLD, 0)], []), rest)
  {
    var s := State(0, REPLACED[..2], None, map[2 := Missed], []);
    RunThree(p, s, ReadDb(2), CommitChange(3, Some(NEW)), Invalidate(3), rest);
    var t := Next(p, Next(p, Next(p, s, ReadDb(2)), CommitChange(3, Some(NEW))), Invalidate(3));
    assert t.versions == REPLACED;
    assert t.clients == map[2 := Holding(OLD, 0)];
  }

  lemma LatePutThird(p: Policy, rest: seq<Event>)
    requires p.ttl >= 1
    ensures Run(p, State(0, REPLACED, None, map[2 := Holding(OLD, 0)], []),
                [Tick(p.delay), Put(2), Tick(p.ttl - 1)] + rest)
         == Run(p, State(p.delay + p.ttl - 1, REPLACED, Some(Entry(OLD, 0, p.delay + p.ttl)), map[], []), rest)
  {
    var s := State(0, REPLACED, None, map[2 := Holding(OLD, 0)], []);
    RunThree(p, s, Tick(p.delay), Put(2), Tick(p.ttl - 1), rest);
    var t := Next(p, Next(p, Next(p, s, Tick(p.delay)), Put(2)), Tick(p.ttl - 1));
    assert t.clients == map[];
  }

  lemma LatePutServesOld(p: Policy)
    requires p.ttl >= 1
    ensures var s := Run(p, START, LatePut(p));
      s.versions == REPLACED && s.served == [Served(OLD, p.delay + p.ttl - 1)]
  {
    var last := [Lookup(4), Evict, Evict] + [];
    var third := [Tick(p.delay), Put(2), Tick(p.ttl - 1)] + last;
    LatePutFirst(p, [ReadDb(2), CommitChange(3, Some(NEW)), Invalidate(3)] + third);
    LatePutSecond(p, third);
    LatePutThird(p, last);
    var s := State(p.delay + p.ttl - 1, REPLACED, Some(Entry(OLD, 0, p.delay + p.ttl)), map[], []);
    RunThree(p, s, Lookup(4), Evict, Evict, []);
  }

  // Every value served from the cache was committed less than `bound` before, in every run, exactly
  // when the bound is at least the entry's time to live plus the longest delay of a put.
  lemma FreshExactly(p: Policy, bound: nat)
    requires p.ttl >= 1
    ensures AlwaysFresh(p, bound) <==> p.ttl + p.delay <= bound
  {
    if p.ttl + p.delay <= bound {
      forall events ensures FreshAfter(p, bound, events) {
        RunKeeps(p, START, events);
        var s := Run(p, START, events);
        forall x | x in s.served ensures FreshWithin(s.versions, x, bound) {
          var t: nat :| ValueAt(s.versions, x.value, t) && t <= x.at < t + (p.ttl + p.delay);
        }
      }
    } else {
      LatePutServesOld(p);
      var x := Served(OLD, p.delay + p.ttl - 1);
      assert OLD.name[0] != NEW.name[0];
      forall t: nat | ValueAt(REPLACED, OLD, t) ensures t == 0 {
        var i: nat :| CommittedAt(REPLACED, i, t) && REPLACED[i].value == Some(OLD);
        assert i == 1;
      }
      assert x in Run(p, START, LatePut(p)).served;
      assert !FreshWithin(REPLACED, x, bound);
      assert !FreshAfter(p, bound, LatePut(p));
    }
  }
}
