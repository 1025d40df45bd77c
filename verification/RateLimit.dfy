/** The multi-tier fixed-window rate limiter: one atomic script over the counters of all tiers. */
module RateLimit {
  import opened Common

  datatype Tier = Tier(name: string, limit: int, window: int)

  // A Redis counter; a key that INCR has just made has no expiry yet.
  datatype Counter = Counter(count: nat, expires: Option<int>)

  datatype CounterKey = CounterKey(tier: string, identity: string)

  type Counters = map<CounterKey, Counter>

  predicate Alive(c: Counter, now: int) {
    c.expires.None? || now < c.expires.value
  }

  predicate Holds(cells: Counters, k: CounterKey, now: int) {
    k in cells && Alive(cells[k], now)
  }

  // INCR, and on a fresh key EXPIRE; an expiry of zero or less deletes the key.
  function Hit(cells: Counters, k: CounterKey, window: int, now: int): Counters {
    if Holds(cells, k, now) then
      var c := cells[k].(count := cells[k].count + 1);
      if c.count == 1 then Expire(cells[k := c], k, window, now) else cells[k := c]
    else Expire(cells[k := Counter(1, None)], k, window, now)
  }

  function Expire(cells: Counters, k: CounterKey, window: int, now: int): Counters
    requires k in cells
  {
    if window <= 0 then cells - {k} else cells[k := cells[k].(expires := Some(now + window))]
  }

  // The value INCR returned.
  function CountAfter(cells: Counters, k: CounterKey, now: int): nat {
    if Holds(cells, k, now) then cells[k].count + 1 else 1
  }

  // TTL: -2 without the key, -1 without an expiry.
  function TimeToLive(cells: Counters, k: CounterKey, now: int): int {
    if !Holds(cells, k, now) then -2
    else if cells[k].expires.None? then -1
    else cells[k].expires.value - now
  }

  datatype Verdict = Verdict(allowed: bool, remaining: int, retryAfter: int, limit: int)

  // The script's running values.
  datatype Tally = Tally(cells: Counters, blocked: bool, retry: int, remaining: int)

  function TallyTier(t: Tally, tier: Tier, identity: string, now: int): Tally {
    var k := CounterKey(tier.name, identity);
    var remaining := tier.limit - CountAfter(t.cells, k, now);
    var cells := Hit(t.cells, k, tier.window, now);
    Tally(cells, t.blocked || remaining < 0,
          if remaining < 0 then Max(t.retry, TimeToLive(cells, k, now)) else t.retry,
          if t.remaining == -1 || remaining < t.remaining then remaining else t.remaining)
  }

  function TallyAll(cells: Counters, tiers: seq<Tier>, identity: string, now: int): Tally {
    if tiers == [] then Tally(cells, false, 0, -1)
    else TallyTier(TallyAll(cells, tiers[..|tiers| - 1], identity, now), tiers[|tiers| - 1], identity, now)
  }

  function Judged(t: Tally, tiers: seq<Tier>): Verdict
    requires tiers != []
  {
    Verdict(!t.blocked, Max(0, t.remaining), if t.blocked then t.retry else 0, tiers[0].limit)
  }

  class RateLimiter {
    var cells: Counters
    const tiers: seq<Tier>

    constructor (tiers: seq<Tier>)
      ensures cells == map[] && this.tiers == tiers
    {
      cells := map[];
      this.tiers := tiers;
    }

    // The tiers the settings give: the long window, and the burst window when its limit is positive.
    static function TiersFromSettings(requests: int, window: int, burst: int, burstWindow: int): (tiers: seq<Tier>)
      ensures tiers != [] && DistinctNames(tiers)
      ensures tiers[0] == Tier("win", requests, window)
      ensures |tiers| == if burst > 0 then 2 else 1
      ensures burst > 0 ==> tiers[1] == Tier("burst", burst, burstWindow)
    {
      assert "win"[0] != "burst"[0];
      [Tier("win", requests, window)] + if burst > 0 then [Tier("burst", burst, burstWindow)] else []
    }

    // Without tiers the script passes, and naming the headline limit then raises.
    method Check(identity: string, now: int) returns (v: Option<Verdict>)
      modifies this
      ensures cells == TallyAll(old(cells), tiers, identity, now).cells
      ensures v == if tiers == [] then None else Some(Judged(TallyAll(old(cells), tiers, identity, now), tiers))
    {
      var blocked, retry, minRemaining := false, 0, -1;
      var i := 0;
      while i < |tiers|
        invariant 0 <= i <= |tiers|
        invariant Tally(cells, blocked, retry, minRemaining) == TallyAll(old(cells), tiers[..i], identity, now)
      {
        var tier := tiers[i];
        assert tiers[..i + 1][..i] == tiers[..i];
        var k := CounterKey(tier.name, identity);
        var current := CountAfter(cells, k, now);
        cells := Hit(cells, k, tier.window, now);
        var remaining := tier.limit - current;
        if remaining < 0 {
          blocked := true;
          var ttl := TimeToLive(cells, k, now);
          if ttl > retry {
            retry := ttl;
          }
        }
        if minRemaining == -1 || remaining < minRemaining {
          minRemaining := remaining;
        }
        i := i + 1;
      }
      assert tiers[..|tiers|] == tiers;
      if tiers == [] {
        return None;
      }
      return Some(Verdict(!blocked, Max(0, minRemaining), if blocked then retry else 0, tiers[0].limit));
    }
  }

  predicate DistinctNames(tiers: seq<Tier>) {
    forall i, j | 0 <= i < j < |tiers| :: tiers[i].name != tiers[j].name
  }

  // ----- each tier by itself -----

  function Cell(cells: Counters, k: CounterKey): Option<Counter> {
    if k in cells then Some(cells[k]) else None
  }

  function KeyOf(tier: Tier, identity: string): CounterKey {
    CounterKey(tier.name, identity)
  }

  // Counters of other tiers and other identities are left alone.
  lemma {:induction false} OthersUntouched(cells: Counters, tiers: seq<Tier>, identity: string, now: int, k: CounterKey)
    requires forall i | 0 <= i < |tiers| :: KeyOf(tiers[i], identity) != k
    ensures Cell(TallyAll(cells, tiers, identity, now).cells, k) == Cell(cells, k)
  {
    if tiers != [] {
      OthersUntouched(cells, tiers[..|tiers| - 1], identity, now, k);
    }
  }

  // No other tier has this tier's name; no earlier one; no later one.
  predicate OnlyOfName(tiers: seq<Tier>, i: nat)
    requires i < |tiers|
  {
    FirstOfName(tiers, i) && LastOfName(tiers, i)
  }

  predicate FirstOfName(tiers: seq<Tier>, i: nat)
    requires i < |tiers|
  {
    forall j | 0 <= j < i :: tiers[j].name != tiers[i].name
  }

  predicate LastOfName(tiers: seq<Tier>, i: nat)
    requires i < |tiers|
  {
    forall j | i < j < |tiers| :: tiers[j].name != tiers[i].name
  }

  // A tier that shares its name with no other: its counter ends as if its own hit were the only one.
  lemma {:induction false} OwnHitOnly(cells: Counters, tiers: seq<Tier>, identity: string, now: int, i: nat)
    requires i < |tiers| && OnlyOfName(tiers, i)
    ensures var k := KeyOf(tiers[i], identity);
      Cell(TallyAll(cells, tiers, identity, now).cells, k) == Cell(Hit(cells, k, tiers[i].window, now), k)
  {
    var n := |tiers| - 1;
    if i == n {
      OthersUntouched(cells, tiers[..n], identity, now, KeyOf(tiers[n], identity));
    } else {
      OwnHitOnly(cells, tiers[..n], identity, now, i);
    }
  }

  function CountOf(cells: Counters, tier: Tier, identity: string, now: int): nat {
    CountAfter(cells, KeyOf(tier, identity), now)
  }

  // The counters as the tiers before the i-th leave them, and the count the i-th then gets.
  function Met(cells: Counters, tiers: seq<Tier>, identity: string, now: int, i: nat): Counters
    requires i <= |tiers|
  {
    TallyAll(cells, tiers[..i], identity, now).cells
  }

  function CountAt(cells: Counters, tiers: seq<Tier>, identity: string, now: int, i: nat): nat
    requires i < |tiers|
  {
    CountOf(Met(cells, tiers, identity, now, i), tiers[i], identity, now)
  }

  // Which is what it would get alone, unless an earlier tier counts under the same name.
  lemma CountsAlone(cells: Counters, tiers: seq<Tier>, identity: string, now: int, i: nat)
    requires i < |tiers| && FirstOfName(tiers, i)
    ensures CountAt(cells, tiers, identity, now, i) == CountOf(cells, tiers[i], identity, now)
  {
    OthersUntouched(cells, tiers[..i], identity, now, KeyOf(tiers[i], identity));
  }

  // What each tier has left, this call included.
  function Left(cells: Counters, tiers: seq<Tier>, identity: string, now: int): (left: seq<int>)
    ensures |left| == |tiers|
  {
    seq(|tiers|, i requires 0 <= i < |tiers| => tiers[i].limit - CountAt(cells, tiers, identity, now, i))
  }

  lemma LeftOfPrefix(cells: Counters, tiers: seq<Tier>, identity: string, now: int, n: nat)
    requires n <= |tiers|
    ensures Left(cells, tiers, identity, now)[..n] == Left(cells, tiers[..n], identity, now)
  {
    forall i | 0 <= i < n
      ensures CountAt(cells, tiers, identity, now, i) == CountAt(cells, tiers[..n], identity, now, i)
    {
      assert tiers[..n][..i] == tiers[..i];
    }
  }

  // The script's way of keeping a minimum, with -1 for "nothing yet".
  function Scan(left: seq<int>): int {
    if left == [] then -1
    else
      var m, last := Scan(left[..|left| - 1]), left[|left| - 1];
      if m == -1 || last < m then last else m
  }

  function Least(left: seq<int>): int
    requires left != []
  {
    if |left| == 1 then left[0] else Min(Least(left[..|left| - 1]), left[|left| - 1])
  }

  // The call is blocked exactly when some tier has less than nothing left.
  lemma {:induction false} TallyByTier(cells: Counters, tiers: seq<Tier>, identity: string, now: int)
    ensures var t, left := TallyAll(cells, tiers, identity, now), Left(cells, tiers, identity, now);
      && (t.blocked <==> exists i :: 0 <= i < |left| && left[i] < 0)
      && t.remaining == Scan(left)
  {
    if tiers != [] {
      var n := |tiers| - 1;
      TallyByTier(cells, tiers[..n], identity, now);
      LeftOfPrefix(cells, tiers, identity, now, n);
      SomeNegative(Left(cells, tiers, identity, now));
    }
  }

  lemma SomeNegative(left: seq<int>)
    requires left != []
    ensures var n := |left| - 1;
      (exists i :: 0 <= i < |left| && left[i] < 0)
      <==> (exists i :: 0 <= i < n && left[..n][i] < 0) || left[n] < 0
  {
    var n := |left| - 1;
    assert forall i | 0 <= i < n :: left[i] == left[..n][i];
  }

  lemma {:induction false} LeastIsLeast(left: seq<int>)
    requires left != []
    ensures Least(left) in left && forall i | 0 <= i < |left| :: Least(left) <= left[i]
  {
    if |left| > 1 {
      LeastIsLeast(left[..|left| - 1]);
    }
  }

  // ----- the verdict -----

  // A call is allowed exactly when every tier, this call counted, is within its limit; then the
  // reported remainder is the least over the tiers.
  lemma AllowedIffEveryTier(cells: Counters, tiers: seq<Tier>, identity: string, now: int)
    requires tiers != []
    ensures var v := Judged(TallyAll(cells, tiers, identity, now), tiers);
      && (v.allowed <==> forall i: nat | i < |tiers| :: CountAt(cells, tiers, identity, now, i) <= tiers[i].limit)
      && (v.allowed ==> v.remaining == Least(Left(cells, tiers, identity, now)) && v.retryAfter == 0)
      && v.limit == tiers[0].limit && v.remaining >= 0
  {
    var left := Left(cells, tiers, identity, now);
    TallyByTier(cells, tiers, identity, now);
    LeastIsLeast(left);
    ScanMisses(left);
    forall i: nat | i < |tiers| ensures left[i] < 0 <==> CountAt(cells, tiers, identity, now, i) > tiers[i].limit {}
    if !TallyAll(cells, tiers, identity, now).blocked {
      assert forall i | 0 <= i < |left| :: left[i] >= 0;
      ScanOfNonNegative(left);
    }
  }

  lemma {:induction false} ScanOfNonNegative(left: seq<int>)
    requires left != [] && forall i | 0 <= i < |left| :: left[i] >= 0
    ensures Scan(left) == Least(left) >= 0
  {
    if |left| == 1 {
      assert left[..0] == [];
    } else {
      ScanOfNonNegative(left[..|left| - 1]);
    }
  }

  predicate AllPositive(left: seq<int>) {
    forall i | 0 <= i < |left| :: left[i] > 0
  }

  // A -1 that was a real remainder is overwritten, and only positive ones follow it.
  ghost predicate Overwritten(left: seq<int>) {
    exists j :: 0 < j < |left| && Scan(left[..j]) == -1 && AllPositive(left[j..])
  }

  lemma {:induction false} ScanBounds(left: seq<int>)
    requires left != []
    ensures Scan(left) >= Least(left)
    ensures Scan(left) == -1 ==> Least(left) < 0
    ensures Least(left) >= 0 ==> Scan(left) == Least(left)
  {
    if |left| == 1 {
      assert left[..0] == [];
    } else {
      ScanBounds(left[..|left| - 1]);
    }
  }

  lemma {:induction false} OverwrittenMisses(left: seq<int>, j: nat)
    requires 0 < j < |left| && Scan(left[..j]) == -1 && AllPositive(left[j..])
    ensures Scan(left) > 0 && Least(left) < 0
  {
    var n := |left| - 1;
    assert left[n] == left[j..][n - j];
    if j == n {
      ScanBounds(left[..n]);
    } else {
      assert left[..n][..j] == left[..j];
      forall i | 0 <= i < |left[..n][j..]| ensures left[..n][j..][i] > 0 {
        assert left[..n][j..][i] == left[j..][i];
      }
      OverwrittenMisses(left[..n], j);
    }
  }

  lemma {:induction false} MissIsOverwritten(left: seq<int>)
    requires left != [] && Scan(left) > 0 && Least(left) < 0
    ensures Overwritten(left)
  {
    var n := |left| - 1;
    if n == 0 {
      assert false;
    } else if Scan(left[..n]) == -1 {
      assert AllPositive(left[n..]);
    } else {
      MissIsOverwritten(left[..n]);
      var j :| 0 < j < n && Scan(left[..n][..j]) == -1 && AllPositive(left[..n][j..]);
      PositiveOneLonger(left, j);
    }
  }

  lemma PositiveOneLonger(left: seq<int>, j: nat)
    requires 0 < j < |left| - 1 && left[|left| - 1] > 0
    requires Scan(left[..|left| - 1][..j]) == -1 && AllPositive(left[..|left| - 1][j..])
    ensures Overwritten(left)
  {
    var init := left[..|left| - 1];
    assert left[..j] == init[..j];
    assert left[j..] == init[j..] + [left[|left| - 1]];
  }

  // The reported remainder misses the least one, cut off at zero, exactly then.
  lemma ScanMisses(left: seq<int>)
    requires left != []
    ensures Max(0, Scan(left)) != Max(0, Least(left)) <==> Overwritten(left)
  {
    ScanBounds(left);
    if Overwritten(left) {
      var j :| 0 < j < |left| && Scan(left[..j]) == -1 && AllPositive(left[j..]);
      OverwrittenMisses(left, j);
    }
    if Scan(left) > 0 && Least(left) < 0 {
      MissIsOverwritten(left);
    }
  }

  // For the tiers the settings give: exactly when the long window is over by one and the burst has room.
  lemma ReportedRemainderExactly(cells: Counters, requests: int, window: int, burst: int, burstWindow: int,
                                 identity: string, now: int)
    ensures var tiers := RateLimiter.TiersFromSettings(requests, window, burst, burstWindow);
      var left := Left(cells, tiers, identity, now);
      Judged(TallyAll(cells, tiers, identity, now), tiers).remaining == Max(0, Least(left))
      <==> !(burst > 0 && left[0] == -1 && left[1] > 0)
  {
    var tiers := RateLimiter.TiersFromSettings(requests, window, burst, burstWindow);
    var left := Left(cells, tiers, identity, now);
    TallyByTier(cells, tiers, identity, now);
    ScanMisses(left);
    if burst > 0 {
      assert left[..1][..0] == [];
      assert Scan(left[..1]) == left[0];
      if left[0] == -1 && left[1] > 0 {
        assert AllPositive(left[1..]);
      }
      if Overwritten(left) {
        assert left[1..][0] == left[1];
      }
    }
  }

  // ----- counters and waiting -----

  // No counter is without an expiry, and none is empty.
  ghost predicate Expiring(cells: Counters) {
    forall k | k in cells :: cells[k].expires.Some? && cells[k].count >= 1
  }

  lemma {:induction false} EveryCounterExpires(cells: Counters, tiers: seq<Tier>, identity: string, now: int)
    requires Expiring(cells)
    ensures Expiring(TallyAll(cells, tiers, identity, now).cells)
  {
    if tiers != [] {
      EveryCounterExpires(cells, tiers[..|tiers| - 1], identity, now);
    }
  }

  predicate Exceeded(cells: Counters, tiers: seq<Tier>, identity: string, now: int, i: nat)
    requires i < |tiers|
  {
    CountAt(cells, tiers, identity, now, i) > tiers[i].limit
  }

  // How long the i-th tier's counter lives on after its hit.
  function LifeLeft(cells: Counters, tiers: seq<Tier>, identity: string, now: int, i: nat): int
    requires i < |tiers|
  {
    TimeToLive(Met(cells, tiers, identity, now, i + 1), KeyOf(tiers[i], identity), now)
  }

  // The lives of the exceeded tiers, and the longest of them, or zero.
  function Lives(cells: Counters, tiers: seq<Tier>, identity: string, now: int): (lives: seq<Option<int>>)
    ensures |lives| == |tiers|
  {
    seq(|tiers|, i requires 0 <= i < |tiers| =>
      if Exceeded(cells, tiers, identity, now, i) then Some(LifeLeft(cells, tiers, identity, now, i)) else None)
  }

  function Longest(lives: seq<Option<int>>): int {
    if lives == [] then 0
    else
      var init, last := Longest(lives[..|lives| - 1]), lives[|lives| - 1];
      if last.Some? then Max(init, last.value) else init
  }

  lemma {:induction false} LongestMeans(lives: seq<Option<int>>)
    ensures Longest(lives) >= 0
    ensures forall i | 0 <= i < |lives| && lives[i].Some? :: lives[i].value <= Longest(lives)
    ensures Longest(lives) > 0 ==> Some(Longest(lives)) in lives
  {
    if lives != [] {
      var n := |lives| - 1;
      LongestMeans(lives[..n]);
      assert forall i | 0 <= i < n :: lives[i] == lives[..n][i];
      assert lives == lives[..n] + [lives[n]];
    }
  }

  lemma LivesOfPrefix(cells: Counters, tiers: seq<Tier>, identity: string, now: int, n: nat)
    requires n <= |tiers|
    ensures Lives(cells, tiers, identity, now)[..n] == Lives(cells, tiers[..n], identity, now)
  {
    forall i | 0 <= i < n
      ensures Lives(cells, tiers, identity, now)[i] == Lives(cells, tiers[..n], identity, now)[i]
    {
      SamePrefix(cells, tiers, identity, now, n, i);
    }
  }

  lemma LastRetry(cells: Counters, tiers: seq<Tier>, identity: string, now: int)
    requires tiers != []
    ensures var n := |tiers| - 1;
      var before := TallyAll(cells, tiers[..n], identity, now).retry;
      TallyAll(cells, tiers, identity, now).retry
      == if Exceeded(cells, tiers, identity, now, n) then Max(before, LifeLeft(cells, tiers, identity, now, n)) else before
  {
    assert tiers[..|tiers|] == tiers;
  }

  // The retry time is the longest of those lives.
  lemma {:induction false} RetryIsLongest(cells: Counters, tiers: seq<Tier>, identity: string, now: int)
    ensures TallyAll(cells, tiers, identity, now).retry == Longest(Lives(cells, tiers, identity, now))
  {
    if tiers != [] {
      var n := |tiers| - 1;
      RetryIsLongest(cells, tiers[..n], identity, now);
      LivesOfPrefix(cells, tiers, identity, now, n);
      LastRetry(cells, tiers, identity, now);
    }
  }

  lemma SamePrefix(cells: Counters, tiers: seq<Tier>, identity: string, now: int, n: nat, i: nat)
    requires i < n <= |tiers|
    ensures Exceeded(cells, tiers, identity, now, i) == Exceeded(cells, tiers[..n], identity, now, i)
    ensures LifeLeft(cells, tiers, identity, now, i) == LifeLeft(cells, tiers[..n], identity, now, i)
  {
    assert tiers[..n][..i] == tiers[..i] && tiers[..n][..i + 1] == tiers[..i + 1];
  }

  // A counter that is live after some tiers: the later ones, even of its name, leave its expiry alone.
  lemma {:induction false} CounterStays(cells: Counters, tiers: seq<Tier>, identity: string, now: int, i: nat, k: CounterKey)
    requires i <= |tiers| && Expiring(cells) && Holds(Met(cells, tiers, identity, now, i), k, now)
    ensures var before, after := Met(cells, tiers, identity, now, i), TallyAll(cells, tiers, identity, now).cells;
      k in after && after[k].expires == before[k].expires && after[k].count >= before[k].count
    decreases |tiers|
  {
    if i == |tiers| {
      assert tiers[..i] == tiers;
    } else {
      var n := |tiers| - 1;
      assert tiers[..n][..i] == tiers[..i];
      CounterStays(cells, tiers[..n], identity, now, i, k);
      EveryCounterExpires(cells, tiers[..n], identity, now);
    }
  }

  // A counter that is gone stays gone if no later tier counts under its name.
  lemma {:induction false} GoneStaysGone(cells: Counters, tiers: seq<Tier>, identity: string, now: int, i: nat)
    requires i < |tiers| && LastOfName(tiers, i)
    ensures var k := KeyOf(tiers[i], identity);
      Cell(TallyAll(cells, tiers, identity, now).cells, k) == Cell(Met(cells, tiers, identity, now, i + 1), k)
    decreases |tiers|
  {
    var n := |tiers| - 1;
    if i == n {
      assert tiers[..i + 1] == tiers;
    } else {
      assert tiers[..n][..i + 1] == tiers[..i + 1];
      GoneStaysGone(cells, tiers[..n], identity, now, i);
    }
  }

  // After a blocked call, silence for retryAfter resets every exceeded tier; one tick less leaves one
  // of them standing. (A window that is not positive deletes the counter, and a later tier of the same
  // name could then open it anew.)
  lemma WaitingResets(cells: Counters, tiers: seq<Tier>, identity: string, now: int, i: nat)
    requires Expiring(cells) && i < |tiers| && (tiers[i].window > 0 || LastOfName(tiers, i))
    requires Exceeded(cells, tiers, identity, now, i)
    ensures var t := TallyAll(cells, tiers, identity, now);
      var v := Judged(t, tiers);
      && !v.allowed
      && CountOf(t.cells, tiers[i], identity, now + v.retryAfter) == 1
      && (v.retryAfter > 0 ==> SomeStands(cells, tiers, identity, now, now + v.retryAfter - 1))
  {
    BlockedReports(cells, tiers, identity, now, i);
    ExceededResets(cells, tiers, identity, now, i);
    if TallyAll(cells, tiers, identity, now).retry > 0 {
      RetryIsTight(cells, tiers, identity, now);
    }
  }

  // The tier is exceeded by this call, and its counter still live at the later instant.
  predicate Stands(cells: Counters, tiers: seq<Tier>, identity: string, now: int, later: int, j: nat) {
    j < |tiers| && Exceeded(cells, tiers, identity, now, j)
    && Holds(TallyAll(cells, tiers, identity, now).cells, KeyOf(tiers[j], identity), later)
  }

  ghost predicate SomeStands(cells: Counters, tiers: seq<Tier>, identity: string, now: int, later: int) {
    exists j: nat :: Stands(cells, tiers, identity, now, later, j)
  }

  lemma BlockedReports(cells: Counters, tiers: seq<Tier>, identity: string, now: int, i: nat)
    requires i < |tiers| && Exceeded(cells, tiers, identity, now, i)
    ensures var t := TallyAll(cells, tiers, identity, now);
      !Judged(t, tiers).allowed && Judged(t, tiers).retryAfter == t.retry
  {
    AllowedIffEveryTier(cells, tiers, identity, now);
  }

  // A hit with a positive window leaves the counter live.
  lemma LiveAfterHit(cells: Counters, tiers: seq<Tier>, identity: string, now: int, i: nat)
    requires i < |tiers| && Expiring(cells) && tiers[i].window > 0
    ensures Holds(Met(cells, tiers, identity, now, i + 1), KeyOf(tiers[i], identity), now)
  {
    var upTo := tiers[..i + 1];
    assert upTo[..i] == tiers[..i];
    EveryCounterExpires(cells, tiers[..i], identity, now);
  }

  lemma ExceededResets(cells: Counters, tiers: seq<Tier>, identity: string, now: int, i: nat)
    requires Expiring(cells) && i < |tiers| && (tiers[i].window > 0 || LastOfName(tiers, i))
    requires Exceeded(cells, tiers, identity, now, i)
    ensures var t := TallyAll(cells, tiers, identity, now);
      CountOf(t.cells, tiers[i], identity, now + t.retry) == 1
  {
    var k := KeyOf(tiers[i], identity);
    var retry := TallyAll(cells, tiers, identity, now).retry;
    RetryIsLongest(cells, tiers, identity, now);
    LongestMeans(Lives(cells, tiers, identity, now));
    assert Lives(cells, tiers, identity, now)[i] == Some(LifeLeft(cells, tiers, identity, now, i));
    if Holds(Met(cells, tiers, identity, now, i + 1), k, now) {
      LiveResets(cells, tiers, identity, now, i, retry);
    } else {
      if tiers[i].window > 0 {
        LiveAfterHit(cells, tiers, identity, now, i);
        assert false;
      }
      GoneResets(cells, tiers, identity, now, i, retry);
    }
  }

  lemma LiveResets(cells: Counters, tiers: seq<Tier>, identity: string, now: int, i: nat, wait: int)
    requires Expiring(cells) && i < |tiers| && LifeLeft(cells, tiers, identity, now, i) <= wait
    requires Holds(Met(cells, tiers, identity, now, i + 1), KeyOf(tiers[i], identity), now)
    ensures CountOf(TallyAll(cells, tiers, identity, now).cells, tiers[i], identity, now + wait) == 1
  {
    EveryCounterExpires(cells, tiers[..i + 1], identity, now);
    CounterStays(cells, tiers, identity, now, i + 1, KeyOf(tiers[i], identity));
  }

  lemma GoneResets(cells: Counters, tiers: seq<Tier>, identity: string, now: int, i: nat, wait: int)
    requires Expiring(cells) && i < |tiers| && LastOfName(tiers, i) && 0 <= wait
    requires !Holds(Met(cells, tiers, identity, now, i + 1), KeyOf(tiers[i], identity), now)
    ensures CountOf(TallyAll(cells, tiers, identity, now).cells, tiers[i], identity, now + wait) == 1
  {
    EveryCounterExpires(cells, tiers[..i + 1], identity, now);
    GoneStaysGone(cells, tiers, identity, now, i);
  }

  lemma RetryIsTight(cells: Counters, tiers: seq<Tier>, identity: string, now: int)
    requires Expiring(cells) && TallyAll(cells, tiers, identity, now).retry > 0
    ensures SomeStands(cells, tiers, identity, now, now + TallyAll(cells, tiers, identity, now).retry - 1)
  {
    var lives := Lives(cells, tiers, identity, now);
    RetryIsLongest(cells, tiers, identity, now);
    LongestMeans(lives);
    var j: nat :| j < |lives| && lives[j] == Some(Longest(lives));
    StandsForItsLife(cells, tiers, identity, now, j);
  }

  lemma StandsForItsLife(cells: Counters, tiers: seq<Tier>, identity: string, now: int, j: nat)
    requires Expiring(cells) && j < |tiers| && Exceeded(cells, tiers, identity, now, j)
    requires LifeLeft(cells, tiers, identity, now, j) > 0
    ensures Stands(cells, tiers, identity, now, now + LifeLeft(cells, tiers, identity, now, j) - 1, j)
  {
    EveryCounterExpires(cells, tiers[..j + 1], identity, now);
    CounterStays(cells, tiers, identity, now, j + 1, KeyOf(tiers[j], identity));
  }
}
