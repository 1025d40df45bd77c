/** How many calls the rate limiter can admit in a sliding interval, and that no smaller bound holds. */
module RateLimitBound {
  import opened Common
  import opened RateLimit

  datatype Call = Call(identity: string, at: int)

  predicate InOrder(calls: seq<Call>, from: int) {
    (forall i | 0 <= i < |calls| :: from <= calls[i].at)
    && (forall i, j | 0 <= i < j < |calls| :: calls[i].at <= calls[j].at)
  }

  function After(cells: Counters, tiers: seq<Tier>, c: Call): Tally {
    TallyAll(cells, tiers, c.identity, c.at)
  }

  // Calls of `identity` admitted at instants in [a, a + length), when the calls run one after another.
  function Admitted(cells: Counters, tiers: seq<Tier>, calls: seq<Call>, identity: string, a: int, length: nat): nat
    decreases |calls|
  {
    if calls == [] then 0
    else
      var t := After(cells, tiers, calls[0]);
      (if calls[0].identity == identity && a <= calls[0].at < a + length && !t.blocked then 1 else 0)
      + Admitted(t.cells, tiers, calls[1..], identity, a, length)
  }

  // Windows that can start in a stretch of x ticks: x / window, rounded up.
  function Starts(x: int, window: int): nat
    requires window > 0
    decreases if x > 0 then x else 0
  {
    if x <= 0 then 0 else 1 + Starts(x - window, window)
  }

  lemma {:induction false} StartsIsCeiling(x: nat, window: int)
    requires window > 0
    ensures Starts(x, window) * window >= x
    ensures x > 0 ==> (Starts(x, window) - 1) * window < x
    decreases x
  {
    if x > window {
      StartsIsCeiling(x - window, window);
    }
  }

  lemma {:induction false} StartsGrow(x: int, y: int, window: int)
    requires window > 0 && x <= y
    ensures Starts(x, window) <= Starts(y, window)
    decreases if y > 0 then y else 0
  {
    if x > 0 {
      StartsGrow(x - window, y - window, window);
    }
  }

  lemma Scale(limit: int, x: nat, y: nat)
    requires limit >= 0 && x <= y
    ensures 0 <= limit * x <= limit * y
    ensures limit * (x + 1) == limit * x + limit
  {
  }

  // What windows started in a stretch of x ticks can admit.
  function Fill(tier: Tier, x: int): int
    requires tier.window > 0
  {
    tier.limit * Starts(x, tier.window)
  }

  lemma FillGrows(tier: Tier, x: int, y: int)
    requires tier.window > 0 && tier.limit >= 0 && x <= y
    ensures 0 <= Fill(tier, x) <= Fill(tier, y)
  {
    StartsGrow(x, y, tier.window);
    Scale(tier.limit, Starts(x, tier.window), Starts(y, tier.window));
  }

  lemma FillStep(tier: Tier, x: int)
    requires tier.window > 0 && tier.limit >= 0 && x > 0
    ensures Fill(tier, x) == Fill(tier, x - tier.window) + tier.limit
  {
    Scale(tier.limit, Starts(x - tier.window, tier.window), Starts(x, tier.window));
  }

  // The most calls a tier can admit in an interval of that length. Either windows start with the interval
  // and follow each other, or one that started before fills up to its limit but for the call that opened
  // it, and windows follow from the next tick on.
  function MostAdmitted(tier: Tier, length: nat): int
    requires tier.window > 0
  {
    if tier.limit <= 0 || length == 0 then 0
    else Max(Fill(tier, length), tier.limit - 1 + Fill(tier, length - 1))
  }

  // It is limit * (length / window rounded up, plus one) - 1, unless the interval is one tick longer than
  // some windows: then it is limit * (length / window rounded up).
  lemma MostAdmittedIs(tier: Tier, length: nat)
    requires tier.window > 0 && tier.limit >= 1 && length >= 1
    ensures MostAdmitted(tier, length) ==
      if Starts(length - 1, tier.window) == Starts(length, tier.window)
      then tier.limit * (Starts(length, tier.window) + 1) - 1
      else tier.limit * Starts(length, tier.window)
    ensures length == tier.window >= 2 ==> MostAdmitted(tier, length) == 2 * tier.limit - 1
  {
    var n, m := Starts(length, tier.window), Starts(length - 1, tier.window);
    StartsGrow(length - 1, length, tier.window);
    OneTickMore(length - 1, tier.window);
    Scale(tier.limit, m, n);
    if length == tier.window >= 2 {
      assert Starts(0, tier.window) == 0 && Starts(length - 1 - tier.window, tier.window) == 0;
      assert n == 1 && m == 1;
    }
  }

  lemma {:induction false} OneTickMore(x: nat, window: int)
    requires window > 0
    ensures Starts(x + 1, window) <= Starts(x, window) + 1
    decreases x
  {
    if x >= window {
      OneTickMore(x - window, window);
    } else {
      assert Starts(x + 1 - window, window) == 0;
    }
  }

  // The counter is live at `now` and beyond the start of the interval.
  predicate LiveInto(c: Option<Counter>, a: int, now: int)
    requires c.Some? ==> c.value.expires.Some?
  {
    c.Some? && now < c.value.expires.value && a < c.value.expires.value
  }

  // The most admissions in the interval a tier can still give, from the state of its counter at `now`.
  function Budget(c: Option<Counter>, tier: Tier, a: int, length: nat, now: int): int
    requires tier.window > 0 && (c.Some? ==> c.value.expires.Some?)
  {
    if now >= a + length then 0
    else if LiveInto(c, a, now) then
      Max(0, tier.limit - c.value.count) + Fill(tier, a + length - c.value.expires.value)
    else if now >= a then Fill(tier, a + length - now)
    else MostAdmitted(tier, length)
  }

  lemma BudgetShrinks(c: Option<Counter>, tier: Tier, a: int, length: nat, now: int, later: int)
    requires tier.window > 0 && tier.limit >= 1 && now <= later && length >= 1
    requires c.Some? ==> c.value.expires.Some? && c.value.count >= 1
    ensures 0 <= Budget(c, tier, a, length, later) <= Budget(c, tier, a, length, now)
  {
    FillGrows(tier, 0, length);
    FillGrows(tier, a + length - later, a + length - now);
    if c.Some? {
      FillGrows(tier, 0, a + length - Min(a + length, c.value.expires.value));
      if LiveInto(c, a, now) && !LiveInto(c, a, later) {
        FillGrows(tier, a + length - later, a + length - c.value.expires.value);
      }
    }
    if a <= later {
      FillGrows(tier, a + length - later, length);
    }
    if later >= a + length {
      FillGrows(tier, a + length - later, 0);
    }
  }

  lemma BudgetAtMost(c: Option<Counter>, tier: Tier, a: int, length: nat, now: int)
    requires tier.window > 0 && tier.limit >= 1 && length >= 1
    requires c.Some? ==> c.value.expires.Some? && c.value.count >= 1
    ensures Budget(c, tier, a, length, now) <= MostAdmitted(tier, length)
  {
    FillGrows(tier, 0, length);
    if LiveInto(c, a, now) {
      FillGrows(tier, a + length - c.value.expires.value, length - 1);
    } else if now >= a {
      FillGrows(tier, a + length - now, length);
    }
  }

  // One hit of the tier at `at`, admitted or not, is paid for by the budget.
  lemma HitPays(cells: Counters, tier: Tier, identity: string, a: int, length: nat, at: int, admitted: bool)
    requires tier.window > 0 && tier.limit >= 1 && length >= 1 && Expiring(cells)
    requires admitted ==> CountOf(cells, tier, identity, at) <= tier.limit
    ensures var k := KeyOf(tier, identity);
      var hit := Hit(cells, k, tier.window, at);
      && k in hit && hit[k].expires.Some?
      && Budget(Cell(hit, k), tier, a, length, at) + (if admitted && a <= at < a + length then 1 else 0)
         <= Budget(Cell(cells, k), tier, a, length, at)
  {
    var k := KeyOf(tier, identity);
    FillGrows(tier, 0, length);
    if !Holds(cells, k, at) && at < a + length {
      FillStep(tier, a + length - at);
      if at < a < at + tier.window {
        FillGrows(tier, a + length - at - tier.window, length - 1);
      }
    }
  }

  // ----- the bound -----

  // The tier counts in windows of its own: no earlier tier opens them for it.
  ghost predicate Applies(tiers: seq<Tier>, j: nat) {
    j < |tiers| && FirstOfName(tiers, j) && tiers[j].window > 0 && tiers[j].limit >= 1
  }

  // All the hits of one call on the tier's counter, its own and those of later tiers of the same name.
  lemma CallPays(cells: Counters, tiers: seq<Tier>, j: nat, identity: string, a: int, length: nat, at: int)
    requires Applies(tiers, j) && Expiring(cells) && length >= 1
    ensures var k, t := KeyOf(tiers[j], identity), TallyAll(cells, tiers, identity, at);
      && Expiring(t.cells)
      && Budget(Cell(t.cells, k), tiers[j], a, length, at) + (if !t.blocked && a <= at < a + length then 1 else 0)
         <= Budget(Cell(cells, k), tiers[j], a, length, at)
  {
    var tier, k, t := tiers[j], KeyOf(tiers[j], identity), TallyAll(cells, tiers, identity, at);
    EveryCounterExpires(cells, tiers, identity, at);
    AdmittedIsWithin(cells, tiers, j, identity, at);
    HitPays(cells, tier, identity, a, length, at, !t.blocked);
    HitThenMore(cells, tiers, j, identity, at);
  }

  lemma AdmittedIsWithin(cells: Counters, tiers: seq<Tier>, j: nat, identity: string, at: int)
    requires j < |tiers| && FirstOfName(tiers, j)
    ensures !TallyAll(cells, tiers, identity, at).blocked ==> CountOf(cells, tiers[j], identity, at) <= tiers[j].limit
  {
    TallyByTier(cells, tiers, identity, at);
    CountsAlone(cells, tiers, identity, at, j);
    assert Left(cells, tiers, identity, at)[j] == tiers[j].limit - CountOf(cells, tiers[j], identity, at);
  }

  lemma HitThenMore(cells: Counters, tiers: seq<Tier>, j: nat, identity: string, at: int)
    requires Applies(tiers, j) && Expiring(cells)
    ensures var k, after := KeyOf(tiers[j], identity), TallyAll(cells, tiers, identity, at).cells;
      var hit := Hit(cells, k, tiers[j].window, at);
      k in hit && k in after && after[k].expires == hit[k].expires && after[k].count >= hit[k].count
  {
    var k, upTo := KeyOf(tiers[j], identity), tiers[..j + 1];
    assert upTo[..j] == tiers[..j] && upTo[j] == tiers[j];
    OthersUntouched(cells, tiers[..j], identity, at, k);
    LiveAfterHit(cells, tiers, identity, at, j);
    CounterStays(cells, tiers, identity, at, j + 1, k);
    assert Cell(Met(cells, tiers, identity, at, j + 1), k) == Cell(Hit(cells, k, tiers[j].window, at), k);
  }

  lemma {:induction false} AdmittedWithinBudget(cells: Counters, tiers: seq<Tier>, j: nat, calls: seq<Call>,
                                                identity: string, a: int, length: nat, now: int)
    requires Applies(tiers, j) && Expiring(cells) && InOrder(calls, now) && length >= 1
    ensures Admitted(cells, tiers, calls, identity, a, length)
         <= Budget(Cell(cells, KeyOf(tiers[j], identity)), tiers[j], a, length, now)
    decreases |calls|
  {
    var tier, k := tiers[j], KeyOf(tiers[j], identity);
    if calls == [] {
      BudgetShrinks(Cell(cells, k), tier, a, length, now, Max(now, a + length));
    } else {
      var c := calls[0];
      var t := After(cells, tiers, c);
      EveryCounterExpires(cells, tiers, c.identity, c.at);
      AdmittedWithinBudget(t.cells, tiers, j, calls[1..], identity, a, length, c.at);
      BudgetShrinks(Cell(cells, k), tier, a, length, now, c.at);
      if c.identity == identity {
        CallPays(cells, tiers, j, identity, a, length, c.at);
      } else {
        OthersUntouched(cells, tiers, c.identity, c.at, k);
      }
    }
  }

  // A tier whose limit is not positive admits nothing.
  lemma {:induction false} NothingAdmitted(cells: Counters, tiers: seq<Tier>, j: nat, calls: seq<Call>,
                                           identity: string, a: int, length: nat)
    requires j < |tiers| && tiers[j].limit <= 0
    ensures Admitted(cells, tiers, calls, identity, a, length) == 0
    decreases |calls|
  {
    if calls != [] {
      var c := calls[0];
      TallyByTier(cells, tiers, c.identity, c.at);
      assert Left(cells, tiers, c.identity, c.at)[j] < 0;
      NothingAdmitted(After(cells, tiers, c).cells, tiers, j, calls[1..], identity, a, length);
    }
  }

  lemma {:induction false} NoTimeNoCalls(cells: Counters, tiers: seq<Tier>, calls: seq<Call>, identity: string, a: int)
    ensures Admitted(cells, tiers, calls, identity, a, 0) == 0
    decreases |calls|
  {
    if calls != [] {
      NoTimeNoCalls(After(cells, tiers, calls[0]).cells, tiers, calls[1..], identity, a);
    }
  }

  // From any counters, any run of calls in order of time: in any interval, every tier that counts in
  // windows of its own admits at most MostAdmitted calls of one identity.
  lemma SlidingIntervalBound(cells: Counters, tiers: seq<Tier>, j: nat, calls: seq<Call>, identity: string,
                             a: int, length: nat, now: int)
    requires j < |tiers| && FirstOfName(tiers, j) && tiers[j].window > 0
    requires Expiring(cells) && InOrder(calls, now)
    ensures Admitted(cells, tiers, calls, identity, a, length) <= MostAdmitted(tiers[j], length)
  {
    var tier := tiers[j];
    if tier.limit <= 0 {
      NothingAdmitted(cells, tiers, j, calls, identity, a, length);
    } else if length == 0 {
      NoTimeNoCalls(cells, tiers, calls, identity, a);
    } else {
      AdmittedWithinBudget(cells, tiers, j, calls, identity, a, length, now);
      BudgetAtMost(Cell(cells, KeyOf(tier, identity)), tier, a, length, now);
    }
  }

  // ----- the bound is reached -----

  function Burst(identity: string, at: int, n: nat): seq<Call> {
    seq(n, _ => Call(identity, at))
  }

  lemma OneTier(cells: Counters, tier: Tier, identity: string, at: int)
    ensures var t := TallyAll(cells, [tier], identity, at);
      && t.cells == Hit(cells, KeyOf(tier, identity), tier.window, at)
      && (t.blocked <==> CountOf(cells, tier, identity, at) > tier.limit)
  {
    assert [tier][..0] == [];
  }

  // A burst that fits into the current window is admitted whole.
  lemma {:induction false} BurstAdmitted(cells: Counters, tier: Tier, identity: string, at: int, n: nat, rest: seq<Call>,
                                         a: int, length: nat, count: nat, expires: int)
    requires cells == map[KeyOf(tier, identity) := Counter(count, Some(expires))]
    requires 1 <= count && count + n <= tier.limit && at < expires && a <= at < a + length
    ensures Admitted(cells, [tier], Burst(identity, at, n) + rest, identity, a, length)
         == n + Admitted(map[KeyOf(tier, identity) := Counter(count + n, Some(expires))], [tier], rest, identity, a, length)
    decreases n
  {
    var calls := Burst(identity, at, n) + rest;
    if n == 0 {
      assert calls == rest;
    } else {
      assert calls[1..] == Burst(identity, at, n - 1) + rest;
      OneTier(cells, tier, identity, at);
      var k := KeyOf(tier, identity);
      assert After(cells, [tier], calls[0]).cells == map[k := Counter(count + 1, Some(expires))];
      BurstAdmitted(map[k := Counter(count + 1, Some(expires))], tier, identity, at, n - 1, rest, a, length,
                    count + 1, expires);
    }
  }

  // A call that starts a new window.
  lemma StartsWindow(cells: Counters, tier: Tier, identity: string, at: int, rest: seq<Call>, a: int, length: nat)
    requires cells.Keys <= {KeyOf(tier, identity)} && !Holds(cells, KeyOf(tier, identity), at)
    requires tier.limit >= 1 && tier.window > 0
    ensures Admitted(cells, [tier], [Call(identity, at)] + rest, identity, a, length)
         == (if a <= at < a + length then 1 else 0)
            + Admitted(map[KeyOf(tier, identity) := Counter(1, Some(at + tier.window))], [tier], rest, identity, a, length)
  {
    OneTier(cells, tier, identity, at);
    assert ([Call(identity, at)] + rest)[1..] == rest;
    assert After(cells, [tier], Call(identity, at)).cells
        == map[KeyOf(tier, identity) := Counter(1, Some(at + tier.window))];
  }

  // A window opened at `start` and filled at `at`, which lies in the interval.
  function Window(identity: string, limit: int, start: int, at: int): seq<Call>
    requires limit >= 1
  {
    [Call(identity, start)] + Burst(identity, at, limit - 1)
  }

  lemma WindowAdmits(cells: Counters, tier: Tier, identity: string, start: int, at: int, rest: seq<Call>, a: int, length: nat)
    requires tier.limit >= 1 && tier.window > 0
    requires cells.Keys <= {KeyOf(tier, identity)} && !Holds(cells, KeyOf(tier, identity), start)
    requires start <= at < start + tier.window && a <= at < a + length
    ensures Admitted(cells, [tier], Window(identity, tier.limit, start, at) + rest, identity, a, length)
         == (if a <= start then tier.limit else tier.limit - 1)
            + Admitted(map[KeyOf(tier, identity) := Counter(tier.limit, Some(start + tier.window))], [tier], rest,
                       identity, a, length)
  {
    var opened_ := map[KeyOf(tier, identity) := Counter(1, Some(start + tier.window))];
    var burst := Burst(identity, at, tier.limit - 1);
    assert Window(identity, tier.limit, start, at) + rest == [Call(identity, start)] + (burst + rest);
    StartsWindow(cells, tier, identity, start, burst + rest, a, length);
    BurstAdmitted(opened_, tier, identity, at, tier.limit - 1, rest, a, length, 1, start + tier.window);
  }

  // Windows one after the other, each filled when it opens, until `end`.
  function Chain(identity: string, tier: Tier, start: int, end: int): seq<Call>
    requires tier.limit >= 1 && tier.window > 0
    decreases if end > start then end - start else 0
  {
    if start >= end then []
    else Window(identity, tier.limit, start, start) + Chain(identity, tier, start + tier.window, end)
  }

  lemma {:induction false} ChainAdmits(cells: Counters, tier: Tier, identity: string, start: int, a: int, length: nat)
    requires tier.limit >= 1 && tier.window > 0 && a <= start
    requires cells.Keys <= {KeyOf(tier, identity)} && !Holds(cells, KeyOf(tier, identity), start)
    ensures Admitted(cells, [tier], Chain(identity, tier, start, a + length), identity, a, length)
         == Fill(tier, a + length - start)
    decreases if a + length > start then a + length - start else 0
  {
    if start < a + length {
      var rest := Chain(identity, tier, start + tier.window, a + length);
      WindowAdmits(cells, tier, identity, start, start, rest, a, length);
      ChainAdmits(map[KeyOf(tier, identity) := Counter(tier.limit, Some(start + tier.window))], tier, identity,
                  start + tier.window, a, length);
      FillStep(tier, a + length - start);
    }
  }

  lemma {:induction false} ChainInOrder(identity: string, tier: Tier, start: int, end: int)
    requires tier.limit >= 1 && tier.window > 0
    ensures InOrder(Chain(identity, tier, start, end), start)
    decreases if end > start then end - start else 0
  {
    if start < end {
      ChainInOrder(identity, tier, start + tier.window, end);
    }
  }

  // Windows from the start of the interval on.
  lemma ChainReaches(identity: string, tier: Tier, length: nat)
    requires tier.limit >= 1 && tier.window > 0
    ensures var calls := Chain(identity, tier, 0, length);
      InOrder(calls, 0) && Admitted(map[], [tier], calls, identity, 0, length) == Fill(tier, length)
  {
    ChainInOrder(identity, tier, 0, length);
    ChainAdmits(map[], tier, identity, 0, 0, length);
  }

  // A window opened as early and filled as late as can be, at the first tick of the interval, and
  // windows from the next tick on.
  function LateFill(identity: string, tier: Tier, length: nat): seq<Call>
    requires tier.limit >= 1 && tier.window > 0
  {
    var w := tier.window;
    Window(identity, tier.limit, 0, w - 1) + Chain(identity, tier, w, w - 1 + length)
  }

  lemma LateFillInOrder(identity: string, tier: Tier, length: nat)
    requires tier.limit >= 1 && tier.window >= 2
    ensures InOrder(LateFill(identity, tier, length), 0)
  {
    var w := tier.window;
    ChainInOrder(identity, tier, w, w - 1 + length);
  }

  lemma LateFillReaches(identity: string, tier: Tier, length: nat)
    requires tier.limit >= 1 && tier.window >= 2 && length >= 1
    ensures Admitted(map[], [tier], LateFill(identity, tier, length), identity, tier.window - 1, length)
         == tier.limit - 1 + Fill(tier, length - 1)
  {
    var w := tier.window;
    WindowAdmits(map[], tier, identity, 0, w - 1, Chain(identity, tier, w, w - 1 + length), w - 1, length);
    ChainAdmits(map[KeyOf(tier, identity) := Counter(tier.limit, Some(w))], tier, identity, w, w - 1, length);
  }

  // For every limit, every window and every length some run of calls admits as many as the bound allows.
  lemma BoundIsReached(identity: string, tier: Tier, length: nat) returns (calls: seq<Call>, a: int)
    requires tier.window > 0
    ensures InOrder(calls, 0)
    ensures Admitted(map[], [tier], calls, identity, a, length) == MostAdmitted(tier, length)
  {
    calls, a := [], 0;
    if tier.limit >= 1 && length >= 1 {
      FillStep(tier, length);
      if MostAdmitted(tier, length) == Fill(tier, length) {
        calls := Chain(identity, tier, 0, length);
        ChainReaches(identity, tier, length);
      } else {
        calls, a := LateFill(identity, tier, length), tier.window - 1;
        LateFillInOrder(identity, tier, length);
        LateFillReaches(identity, tier, length);
      }
    }
  }

  // ----- a shared name -----

  const SHARED := [Tier("a", 2, 1), Tier("a", 2, 100)]

  function Ticks(at: int, n: nat): seq<Call>
    decreases n
  {
    if n == 0 then [] else [Call("u", at)] + Ticks(at + 1, n - 1)
  }

  // Each call opens the first tier's window anew and counts twice.
  lemma SharedCall(cells: Counters, at: int)
    requires cells.Keys <= {CounterKey("a", "u")} && !Holds(cells, CounterKey("a", "u"), at)
    ensures var t := TallyAll(cells, SHARED, "u", at);
      !t.blocked && t.cells == map[CounterKey("a", "u") := Counter(2, Some(at + 1))]
  {
    var one := [SHARED[0]];
    assert SHARED[..1] == one && one[..0] == [];
    assert TallyAll(cells, [], "u", at) == Tally(cells, false, 0, -1);
    var t := TallyAll(cells, one, "u", at);
    assert t == TallyTier(Tally(cells, false, 0, -1), SHARED[0], "u", at);
    assert t.cells == map[CounterKey("a", "u") := Counter(1, Some(at + 1))];
  }

  lemma {:induction false} SharedCalls(cells: Counters, at: int, n: nat, length: nat)
    requires cells.Keys <= {CounterKey("a", "u")} && !Holds(cells, CounterKey("a", "u"), at)
    requires 0 <= at && at + n <= length
    ensures InOrder(Ticks(at, n), at) && Admitted(cells, SHARED, Ticks(at, n), "u", 0, length) == n
    decreases n
  {
    if n > 0 {
      SharedCall(cells, at);
      SharedCalls(map[CounterKey("a", "u") := Counter(2, Some(at + 1))], at + 1, n - 1, length);
      assert Ticks(at, n)[1..] == Ticks(at + 1, n - 1);
    }
  }

  // A tier behind another of its name counts in that one's windows, and its own bound does not hold:
  // here a call at every tick passes a tier of 2 in 100, and its bound for up to 100 ticks is 3.
  lemma SharedNameBreaksTheBound(n: nat)
    requires 4 <= n <= 100
    ensures InOrder(Ticks(0, n), 0)
    ensures Admitted(map[], SHARED, Ticks(0, n), "u", 0, n) == n > MostAdmitted(SHARED[1], n)
  {
    SharedCalls(map[], 0, n, n);
    assert Starts(n - 100, 100) == 0 && Starts(n - 1 - 100, 100) == 0;
    assert Starts(n, 100) == 1 && Starts(n - 1, 100) == 1;
  }
}
