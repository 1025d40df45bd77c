/** The HTTP client: the retry loop of one request, with its pauses. */
module HttpClient {
  import opened Common

  // The content of a good response: none, something that is not JSON, or JSON with or without a
  // string under "access_token".
  datatype Body = NoContent | Garbled | Json(accessToken: Option<string>)

  // What one send comes back with.
  datatype Reply =
    | TransportFailure
    | Response(status: int, retryAfter: Option<nat>, body: Body)

  datatype RetryPolicy = RetryPolicy(
    attempts: int, backoffBase: real, backoffMax: real, retryStatuses: set<int>, retryMethods: set<string>)

  // How a request ends for its caller.
  datatype Outcome =
    | Good(body: Body)
    | Upstream(status: Option<int>)  // the external API failed: no status after a transport failure
    | Unexpected                     // any other exception

  // One request on the wire, and the whole history of them.
  datatype Sent = Sent(url: string, bearer: Option<string>)
  type Wire = seq<Sent>

  // The other side, any at all: its reply to the last request of a history.
  type Server = Wire -> Reply

  datatype Trip = Trip(outcome: Outcome, wire: Wire, slept: real)

  function Upper(s: string): (r: string)
    ensures |r| == |s|
    ensures forall i :: 0 <= i < |s| ==> r[i] == if 'a' <= s[i] <= 'z' then s[i] - 'a' + 'A' else s[i]
  {
    if s == "" then ""
    else [if 'a' <= s[0] <= 'z' then s[0] - 'a' + 'A' else s[0]] + Upper(s[1..])
  }

  // base * 2^n
  function Doubled(base: real, n: nat): real {
    if n == 0 then base else 2.0 * Doubled(base, n - 1)
  }

  // n * x, as a sum.
  function Times(n: nat, x: real): real {
    if n == 0 then 0.0 else x + Times(n - 1, x)
  }

  function MinReal(a: real, b: real): real {
    if a < b then a else b
  }

  // The pause after the given attempt: what the server asked for, capped, or exponential with jitter.
  function Pause(attempt: nat, p: RetryPolicy, reply: Reply): real
    requires attempt >= 1
  {
    if reply.Response? && reply.retryAfter.Some? then MinReal(reply.retryAfter.value as real, p.backoffMax)
    else
      var delay := MinReal(Doubled(p.backoffBase, attempt - 1), p.backoffMax);
      delay + Times(attempt % 3, delay * 0.1)
  }

  lemma PauseBounded(attempt: nat, p: RetryPolicy, reply: Reply)
    requires attempt >= 1 && p.backoffBase >= 0.0 && p.backoffMax >= 0.0
    ensures 0.0 <= Pause(attempt, p, reply) <= 1.2 * p.backoffMax
  {
    if !(reply.Response? && reply.retryAfter.Some?) {
      DoubledGrows(p.backoffBase, attempt - 1);
      Tenths(attempt % 3, MinReal(Doubled(p.backoffBase, attempt - 1), p.backoffMax));
    }
  }

  lemma {:induction false} DoubledGrows(base: real, n: nat)
    requires base >= 0.0
    ensures Doubled(base, n) >= base
  {
    if n > 0 {
      DoubledGrows(base, n - 1);
    }
  }

  lemma Tenths(k: nat, delay: real)
    requires k <= 2
    ensures Times(k, delay * 0.1) == if k == 0 then 0.0 else if k == 1 then 0.1 * delay else 0.2 * delay
  {
    assert Times(1, delay * 0.1) == delay * 0.1 + Times(0, delay * 0.1);
  }

  // A server that asks for a pause gets the longest pause that neither it nor the cap exceeds; otherwise
  // the pause is at least the capped backoff, and below the cap it grows eightfold every three attempts.
  lemma PauseMeans(attempt: nat, p: RetryPolicy, reply: Reply)
    requires attempt >= 1 && p.backoffBase >= 0.0 && p.backoffMax >= 0.0
    ensures var pause := Pause(attempt, p, reply);
      if reply.Response? && reply.retryAfter.Some? then
        var asked := reply.retryAfter.value as real;
        pause <= asked && pause <= p.backoffMax && (pause == asked || pause == p.backoffMax)
      else
        && (pause >= p.backoffBase || pause >= p.backoffMax)
        && (Doubled(p.backoffBase, attempt + 2) <= p.backoffMax ==> Pause(attempt + 3, p, reply) == 8.0 * pause)
  {
    if !(reply.Response? && reply.retryAfter.Some?) {
      var n := attempt - 1;
      DoubledGrows(p.backoffBase, n);
      assert Doubled(p.backoffBase, n + 3) == 2.0 * Doubled(p.backoffBase, n + 2) == 4.0 * Doubled(p.backoffBase, n + 1)
          == 8.0 * Doubled(p.backoffBase, n);
      assert (attempt + 3) % 3 == attempt % 3;
      Tenths(attempt % 3, MinReal(Doubled(p.backoffBase, n), p.backoffMax));
      Tenths(attempt % 3, MinReal(Doubled(p.backoffBase, n + 3), p.backoffMax));
    }
  }

  predicate Retryable(reply: Reply, p: RetryPolicy) {
    reply.TransportFailure? || reply.status in p.retryStatuses
  }

  // Whether the loop goes round again after this attempt.
  predicate Again(p: RetryPolicy, verb: string, attempt: nat, reply: Reply) {
    verb in p.retryMethods && attempt < p.attempts && Retryable(reply, p)
  }

  function Ending(reply: Reply): Outcome {
    match reply
    case TransportFailure => Upstream(None)
    case Response(status, _, body) =>
      if status >= 400 then Upstream(Some(status))
      else if body.Garbled? then Unexpected
      else Good(body)
  }

  // The sends from the given attempt on, until one ends the request.
  function Sends(p: RetryPolicy, verb: string, what: Sent, server: Server, wire: Wire, attempt: nat, slept: real): Trip
    requires attempt >= 1
    decreases p.attempts - attempt
  {
    var now := wire + [what];
    var reply := server(now);
    if Again(p, verb, attempt, reply)
    then Sends(p, verb, what, server, now, attempt + 1, slept + Pause(attempt, p, reply))
    else Trip(Ending(reply), now, slept)
  }

  function Copies(what: Sent, n: nat): (r: Wire)
    ensures |r| == n
    ensures forall i :: 0 <= i < n ==> r[i] == what
  {
    seq(n, i => what)
  }

  // Whether the request goes on after the k-th of these sends.
  predicate GoesOn(p: RetryPolicy, verb: string, what: Sent, server: Server, wire: Wire, attempt: nat, k: nat)
    requires k >= 1
  {
    Again(p, verb, attempt + k - 1, server(wire + Copies(what, k)))
  }

  // What one request puts on the wire: the same thing `n` times; every reply but the last could be
  // retried, and the last is the first that ends it.
  ghost predicate StopsAt(p: RetryPolicy, verb: string, what: Sent, server: Server, wire: Wire, attempt: nat, n: nat) {
    && n >= 1
    && !GoesOn(p, verb, what, server, wire, attempt, n)
    && forall k: nat | 1 <= k < n :: GoesOn(p, verb, what, server, wire, attempt, k)
  }

  lemma {:induction false} SendsExactly(
    p: RetryPolicy, verb: string, what: Sent, server: Server, wire: Wire, attempt: nat, slept: real) returns (n: nat)
    requires attempt >= 1
    ensures StopsAt(p, verb, what, server, wire, attempt, n)
    ensures Sends(p, verb, what, server, wire, attempt, slept).wire == wire + Copies(what, n)
    ensures Sends(p, verb, what, server, wire, attempt, slept).outcome == Ending(server(wire + Copies(what, n)))
    ensures n <= Max(1, p.attempts - attempt + 1)
    ensures verb !in p.retryMethods ==> n == 1
    decreases p.attempts - attempt
  {
    var now := wire + [what];
    var reply := server(now);
    assert Copies(what, 1) == [what];
    if Again(p, verb, attempt, reply) {
      var next := slept + Pause(attempt, p, reply);
      var rest := SendsExactly(p, verb, what, server, now, attempt + 1, next);
      n := rest + 1;
      Shift(what, wire, rest);
      forall k: nat | 1 <= k < n ensures GoesOn(p, verb, what, server, wire, attempt, k) {
        if k > 1 {
          Shift(what, wire, k - 1);
          assert GoesOn(p, verb, what, server, now, attempt + 1, k - 1);
        }
      }
    } else {
      n := 1;
    }
  }

  lemma Shift(what: Sent, wire: Wire, n: nat)
    ensures wire + [what] + Copies(what, n) == wire + Copies(what, n + 1)
  {
    assert [what] + Copies(what, n) == Copies(what, n + 1);
  }

  lemma {:induction false} TimesIsProduct(n: nat, cap: real)
    ensures Times(n, cap) == (n as real) * cap
  {
    if n > 0 {
      TimesIsProduct(n - 1, cap);
      var before := (n - 1) as real;
      assert (n as real) == before + 1.0;
      assert (before + 1.0) * cap == before * cap + cap;
    }
  }

  lemma {:induction false} TimesNonNegative(n: nat, cap: real)
    requires cap >= 0.0
    ensures Times(n, cap) >= 0.0
  {
    if n > 0 {
      TimesNonNegative(n - 1, cap);
    }
  }

  function Left(p: RetryPolicy, attempt: nat): nat {
    Max(attempt, p.attempts) - attempt
  }

  // The pauses of a request are bounded by those of the attempts it still has, less the last.
  lemma {:induction false} PausesBounded(
    p: RetryPolicy, verb: string, what: Sent, server: Server, wire: Wire, attempt: nat, slept: real)
    requires attempt >= 1 && p.backoffBase >= 0.0 && p.backoffMax >= 0.0
    ensures slept <= Sends(p, verb, what, server, wire, attempt, slept).slept
    ensures Sends(p, verb, what, server, wire, attempt, slept).slept
            <= slept + Times(Left(p, attempt), 1.2 * p.backoffMax)
    decreases p.attempts - attempt
  {
    var cap := 1.2 * p.backoffMax;
    var now := wire + [what];
    var reply := server(now);
    if Again(p, verb, attempt, reply) {
      PauseBounded(attempt, p, reply);
      PausesBounded(p, verb, what, server, now, attempt + 1, slept + Pause(attempt, p, reply));
      assert Left(p, attempt) - 1 == Left(p, attempt + 1);
    } else {
      TimesNonNegative(Left(p, attempt), cap);
    }
  }

  function Whole(p: RetryPolicy, verb: string, what: Sent, server: Server, wire: Wire): Trip {
    Sends(p, Upper(verb), what, server, wire, 1, 0.0)
  }

  // BaseHTTPClient.request after its prepare hook.
  method Request(p: RetryPolicy, verb: string, what: Sent, server: Server, before: Wire) returns (trip: Trip)
    ensures trip == Whole(p, verb, what, server, before)
  {
    var method_ := Upper(verb);
    var canRetry := method_ in p.retryMethods;
    var attempt, slept, wire := 0, 0.0, before;
    while true
      invariant attempt > 0 ==> attempt < p.attempts
      invariant Sends(p, method_, what, server, wire, attempt + 1, slept) == Whole(p, verb, what, server, before)
      decreases p.attempts - attempt
    {
      attempt := attempt + 1;
      wire := wire + [what];
      var reply := server(wire);
      if reply.TransportFailure? {
        if canRetry && attempt < p.attempts {
          slept := slept + Pause(attempt, p, reply);
          continue;
        }
        return Trip(Upstream(None), wire, slept);
      }
      if reply.status in p.retryStatuses && canRetry && attempt < p.attempts {
        slept := slept + Pause(attempt, p, reply);
        continue;
      }
      if reply.status >= 400 {
        return Trip(Upstream(Some(reply.status)), wire, slept);
      }
      if reply.body.Garbled? {
        return Trip(Unexpected, wire, slept);
      }
      return Trip(Good(reply.body), wire, slept);
    }
  }

  // One request sends the same thing between 1 and `attempts` times, exactly once when its method must
  // not be retried, pauses at most (attempts - 1) * 1.2 * backoffMax in all, and ends as its last reply says.
  lemma RequestBounded(p: RetryPolicy, verb: string, what: Sent, server: Server, wire: Wire) returns (n: nat)
    requires p.backoffBase >= 0.0 && p.backoffMax >= 0.0
    ensures var trip := Whole(p, verb, what, server, wire);
            && trip.wire == wire + Copies(what, n)
            && StopsAt(p, Upper(verb), what, server, wire, 1, n)
            && trip.outcome == Ending(server(trip.wire))
            && 1 <= n <= Max(1, p.attempts)
            && (Upper(verb) !in p.retryMethods ==> n == 1)
            && 0.0 <= trip.slept <= MostSlept(p)
  {
    n := SendsExactly(p, Upper(verb), what, server, wire, 1, 0.0);
    PausesBounded(p, Upper(verb), what, server, wire, 1, 0.0);
  }

  // The longest the pauses of one request can add up to.
  function MostSlept(p: RetryPolicy): real {
    Times(Left(p, 1), 1.2 * p.backoffMax)
  }

  lemma MostSleptIsProduct(p: RetryPolicy, n: nat, cap: real)
    requires n == Max(1, p.attempts) - 1 && cap == 1.2 * p.backoffMax
    ensures MostSlept(p) == (n as real) * cap
  {
    TimesIsProduct(n, cap);
  }

  // A request of a method that may be retried goes on exactly past transport failures and retryable
  // statuses, as long as it has attempts: n is the first attempt that is the last allowed, or whose reply is
  // a response of another status. Any other method sends once.
  lemma RetriesExactly(p: RetryPolicy, verb: string, what: Sent, server: Server, wire: Wire) returns (n: nat)
    ensures n >= 1 && Whole(p, verb, what, server, wire).wire == wire + Copies(what, n)
    ensures Upper(verb) !in p.retryMethods ==> n == 1
    ensures Upper(verb) in p.retryMethods ==>
      && (n >= p.attempts
          || (server(wire + Copies(what, n)).Response? && server(wire + Copies(what, n)).status !in p.retryStatuses))
      && forall k: nat | 1 <= k < n ::
           k < p.attempts
           && (server(wire + Copies(what, k)).TransportFailure? || server(wire + Copies(what, k)).status in p.retryStatuses)
  {
    n := SendsExactly(p, Upper(verb), what, server, wire, 1, 0.0);
    forall k: nat | 1 <= k < n
      ensures k < p.attempts
        && (server(wire + Copies(what, k)).TransportFailure? || server(wire + Copies(what, k)).status in p.retryStatuses)
    {
      assert GoesOn(p, Upper(verb), what, server, wire, 1, k);
    }
    assert !GoesOn(p, Upper(verb), what, server, wire, 1, n);
  }

  // So a first reply that may be retried leads to another send.
  lemma RetriesAtLeastOnce(p: RetryPolicy, verb: string, what: Sent, server: Server, wire: Wire)
    requires Upper(verb) in p.retryMethods && p.attempts >= 2
    requires server(wire + [what]).TransportFailure? || server(wire + [what]).status in p.retryStatuses
    ensures |Whole(p, verb, what, server, wire).wire| >= |wire| + 2
  {
    var n := RetriesExactly(p, verb, what, server, wire);
    assert Copies(what, 1) == [what];
  }

  // What the last reply means to the caller: an error status and a transport failure are the external
  // API's failure, an unreadable body of a good response an unexpected one, anything else is returned.
  lemma EndsExactly(p: RetryPolicy, verb: string, what: Sent, server: Server, wire: Wire)
    ensures var trip := Whole(p, verb, what, server, wire);
      var last := server(trip.wire);
      && (trip.outcome == Upstream(None) <==> last.TransportFailure?)
      && (forall status :: trip.outcome == Upstream(Some(status)) <==>
            last.Response? && last.status == status && status >= 400)
      && (trip.outcome == Unexpected <==> last.Response? && last.status < 400 && last.body.Garbled?)
      && (trip.outcome.Good? ==> last.Response? && last.status < 400 && trip.outcome.body == last.body)
  {
    var n := SendsExactly(p, Upper(verb), what, server, wire, 1, 0.0);
  }

  // How often a request sends follows from what its replies say, in one way only.
  lemma StopsOnce(p: RetryPolicy, verb: string, what: Sent, server: Server, wire: Wire, attempt: nat, n: nat, m: nat)
    requires StopsAt(p, verb, what, server, wire, attempt, n)
    requires StopsAt(p, verb, what, server, wire, attempt, m)
    ensures n == m
  {
    if n != m {
      assert false;
    }
  }
}
