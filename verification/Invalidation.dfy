/** What the invalidation of the cached detail is for: after it, a replaced value comes back only by a late put. */
module Invalidation {
  import opened Common
  import opened Tables
  import opened Staleness

  // ----- one step -----

  // After an invalidation the next lookup finds nothing and goes to the database.
  lemma InvalidatedMisses(p: Policy, s: State, c: Id, d: Id)
    requires c in s.clients && s.clients[c].Owing? && d !in s.clients
    ensures var t := Next(p, Next(p, s, Invalidate(c)), Lookup(d));
      t.served == s.served && d in t.clients && t.clients[d].Missed? && t.entry == None
  {
  }

  // A lookup serves exactly the value of an entry that is live.
  lemma LookupServesExactly(p: Policy, s: State, d: Id)
    requires d !in s.clients
    ensures var t := Next(p, s, Lookup(d));
      && (t.served != s.served <==> s.entry.Some? && s.now < s.entry.value.expires)
      && (t.served != s.served ==> t.served == s.served + [Served(s.entry.value.value, s.now)] && t.clients == s.clients)
      && (t.served == s.served ==> d in t.clients && t.clients[d].Missed?)
  {
  }

  // A client that missed, with nothing in between, puts what is committed now, for the whole time to live.
  lemma ReadThenPut(p: Policy, s: State, c: Id)
    requires s.versions != [] && c in s.clients && s.clients[c].Missed?
    ensures var t := Next(p, Next(p, s, ReadDb(c)), Put(c));
      && c !in t.clients
      && (Current(s).None? ==> t.entry == s.entry)
      && (Current(s).Some? ==> t.entry == Some(Entry(Current(s).value, s.now, s.now + p.ttl)))
  {
  }

  // A mutation commits its version and then owes the deletion; a creation holds what it committed.
  lemma CommitsThenInvalidates(p: Policy, s: State, c: Id, after: Option<Value>)
    requires s.versions != [] && c !in s.clients && Current(s).Some?
    ensures var t := Next(p, s, CommitChange(c, after));
      && t.versions == s.versions + [Version(s.now, after)] && t.entry == s.entry && t.served == s.served
      && c in t.clients && t.clients[c].Owing?
  {
  }

  lemma CreatesThenCaches(p: Policy, s: State, c: Id, v: Value)
    requires s.versions != [] && c !in s.clients && Current(s).None?
    ensures var t := Next(p, s, CommitCreate(c, v));
      && t.versions == s.versions + [Version(s.now, Some(v))] && t.entry == s.entry && t.served == s.served
      && c in t.clients && t.clients[c] == Holding(v, s.now)
    ensures Next(p, Next(p, s, CommitCreate(c, v)), Put(c)).entry == Some(Entry(v, s.now, s.now + p.ttl))
  {
  }

  // An entry that expires, is evicted or is deleted is found by nobody.
  lemma GoneIsMissed(p: Policy, s: State, d: Id, e: Event)
    requires d !in s.clients
    requires e == Evict || (e.Tick? && InTime(p, s, e.d) && s.entry.Some? && s.entry.value.expires <= s.now + e.d)
    ensures var t := Next(p, Next(p, s, e), Lookup(d)); t.served == s.served && d in t.clients && t.clients[d].Missed?
  {
  }

  // ----- runs -----

  // The value is the one committed when there were n versions, or a later one.
  ghost predicate Recent(versions: seq<Version>, n: nat, v: Value) {
    exists i: nat :: n <= i + 1 && i < |versions| && versions[i].value == Some(v)
  }

  predicate Holds(s: State, c: Id, v: Value) {
    c in s.clients && s.clients[c].Holding? && s.clients[c].value == v
  }

  // The clients in `early` hold values they read before; this is what they put in the run.
  function EarlyPuts(p: Policy, s: State, events: seq<Event>, early: set<Id>): set<Value>
    decreases |events|
  {
    if events == [] then {}
    else PutBy(s, events[0], early) + EarlyPuts(p, Next(p, s, events[0]), events[1..], Still(events[0], early))
  }

  function PutBy(s: State, e: Event, early: set<Id>): set<Value> {
    if e.Put? && e.c in early && e.c in s.clients && s.clients[e.c].Holding? then {s.clients[e.c].value} else {}
  }

  // Who puts or crashes holds nothing any more.
  function Still(e: Event, early: set<Id>): set<Id> {
    if e.Put? || e.Crash? then early - {e.c} else early
  }

  // With n versions at the start: what is cached or held is recent, or held early, or was put from there.
  ghost predicate Origins(s: State, early: set<Id>, n: nat, put: set<Value>) {
    && 0 < n <= |s.versions|
    && (forall c | c in early :: c in s.clients && s.clients[c].Holding?)
    && (s.entry.Some? ==> Recent(s.versions, n, s.entry.value.value) || s.entry.value.value in put)
    && (forall c | c in s.clients && s.clients[c].Holding? && c !in early :: Recent(s.versions, n, s.clients[c].value))
  }

  lemma RecentStays(versions: seq<Version>, more: seq<Version>, n: nat, v: Value)
    requires Recent(versions, n, v)
    ensures Recent(versions + more, n, v)
  {
    var i: nat :| n <= i + 1 && i < |versions| && versions[i].value == Some(v);
    assert (versions + more)[i] == versions[i];
  }

  lemma CommitKeepsOrigins(s: State, early: set<Id>, n: nat, put: set<Value>, fresh_: Version)
    requires Origins(s, early, n, put)
    ensures Origins(s.(versions := s.versions + [fresh_]), early, n, put)
  {
    if s.entry.Some? && Recent(s.versions, n, s.entry.value.value) {
      RecentStays(s.versions, [fresh_], n, s.entry.value.value);
    }
    forall c | c in s.clients && s.clients[c].Holding? && c !in early
      ensures Recent(s.versions + [fresh_], n, s.clients[c].value)
    {
      RecentStays(s.versions, [fresh_], n, s.clients[c].value);
    }
  }

  lemma StepKeepsOrigins(p: Policy, s: State, e: Event, early: set<Id>, n: nat, put: set<Value>)
    requires Origins(s, early, n, put)
    ensures Origins(Next(p, s, e), Still(e, early), n, put + PutBy(s, e, early))
  {
    match e
    case CommitCreate(c, v) =>
      CommitKeepsOrigins(s, early, n, put, Version(s.now, Some(v)));
      assert (s.versions + [Version(s.now, Some(v))])[|s.versions|].value == Some(v);
    case CommitChange(c, v) => CommitKeepsOrigins(s, early, n, put, Version(s.now, v));
    case ReadDb(c) => assert Current(s).Some? ==> Recent(s.versions, n, Current(s).value);
    case _ =>
  }

  lemma {:induction false} ServedHaveOrigins(p: Policy, s: State, events: seq<Event>, early: set<Id>, n: nat, put: set<Value>)
    requires Origins(s, early, n, put)
    ensures var t := Run(p, s, events);
      && |s.served| <= |t.served|
      && (forall j | |s.served| <= j < |t.served| ::
            Recent(t.versions, n, t.served[j].value) || t.served[j].value in put + EarlyPuts(p, s, events, early))
    decreases |events|
  {
    if events != [] {
      var e, rest := events[0], events[1..];
      var s', early', put' := Next(p, s, e), Still(e, early), put + PutBy(s, e, early);
      StepKeepsOrigins(p, s, e, early, n, put);
      ServedHaveOrigins(p, s', rest, early', n, put');
      NewlyServed(p, s, e, rest, early, n, put);
      assert put' + EarlyPuts(p, s', rest, early') == put + EarlyPuts(p, s, events, early);
    }
  }

  lemma {:induction false} VersionsGrow(p: Policy, s: State, events: seq<Event>)
    ensures s.versions <= Run(p, s, events).versions && s.served <= Run(p, s, events).served
    decreases |events|
  {
    if events != [] {
      assert s.versions <= Next(p, s, events[0]).versions && s.served <= Next(p, s, events[0]).served;
      VersionsGrow(p, Next(p, s, events[0]), events[1..]);
    }
  }

  // What the step itself serves.
  lemma NewlyServed(p: Policy, s: State, e: Event, rest: seq<Event>, early: set<Id>, n: nat, put: set<Value>)
    requires Origins(s, early, n, put)
    ensures var s', t := Next(p, s, e), Run(p, Next(p, s, e), rest);
      && s'.served <= t.served
      && (forall j | |s.served| <= j < |s'.served| :: Recent(t.versions, n, t.served[j].value) || t.served[j].value in put)
  {
    var s' := Next(p, s, e);
    var t := Run(p, s', rest);
    VersionsGrow(p, s', rest);
    if s'.served != s.served && Recent(s.versions, n, s.entry.value.value) {
      RecentStays(s.versions, t.versions[|s.versions|..], n, s.entry.value.value);
      assert s.versions + t.versions[|s.versions|..] == t.versions;
    }
  }

  function Holders(s: State): set<Id> {
    set c | c in s.clients && s.clients[c].Holding?
  }

  // From an invalidation on, whatever interleaves: a value that was replaced before it is served again only
  // if a client that had read it before puts it afterwards.
  lemma ReplacedOnlyByLatePut(p: Policy, s: State, c: Id, events: seq<Event>, j: nat)
    requires s.versions != [] && c in s.clients && s.clients[c].Owing?
    requires var t := Run(p, Next(p, s, Invalidate(c)), events); |s.served| <= j < |t.served|
    ensures var s' := Next(p, s, Invalidate(c));
      var t := Run(p, s', events);
      Recent(t.versions, |s.versions|, t.served[j].value)
      || t.served[j].value in EarlyPuts(p, s', events, Holders(s'))
  {
    var s' := Next(p, s, Invalidate(c));
    ServedHaveOrigins(p, s', events, Holders(s'), |s.versions|, {});
    assert {} + EarlyPuts(p, s', events, Holders(s')) == EarlyPuts(p, s', events, Holders(s'));
  }

  // So when nobody holds a value at the invalidation, nothing replaced before is ever served again.
  lemma NobodyHoldsNothingReturns(p: Policy, s: State, c: Id, events: seq<Event>, j: nat)
    requires s.versions != [] && c in s.clients && s.clients[c].Owing?
    requires forall d | d in s.clients :: !s.clients[d].Holding?
    requires var t := Run(p, Next(p, s, Invalidate(c)), events); |s.served| <= j < |t.served|
    ensures var t := Run(p, Next(p, s, Invalidate(c)), events); Recent(t.versions, |s.versions|, t.served[j].value)
  {
    var s' := Next(p, s, Invalidate(c));
    ReplacedOnlyByLatePut(p, s, c, events, j);
    assert Holders(s') == {};
    NoEarlyPuts(p, s', events);
  }

  lemma {:induction false} NoEarlyPuts(p: Policy, s: State, events: seq<Event>)
    ensures EarlyPuts(p, s, events, {}) == {}
    decreases |events|
  {
    if events != [] {
      assert Still(events[0], {}) == {};
      NoEarlyPuts(p, Next(p, s, events[0]), events[1..]);
    }
  }
}
