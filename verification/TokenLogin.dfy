/** The lazy login of the HTTP client: a token fetched on first use, and one new login after a 401. */
module TokenLogin {
  import opened Common
  import opened HttpClient

  datatype Settings = Settings(policy: RetryPolicy, loginPath: string, server: Server)

  // What a request leaves behind: its outcome, the token now held, and the wire.
  datatype After = After(outcome: Outcome, token: Option<string>, wire: Wire)

  // A token, or how the login that was to fetch it failed.
  datatype Ready = Ready(token: Result<string, Outcome>, wire: Wire)

  // An access token in the answer to a login; anything else there is an unexpected exception.
  function Granted(outcome: Outcome): Result<string, Outcome> {
    if !outcome.Good? then Err(outcome)
    else if outcome.body.Json? && outcome.body.accessToken.Some? then Ok(outcome.body.accessToken.value)
    else Err(Unexpected)
  }

  function Ensured(c: Settings, token: Option<string>, wire: Wire): Ready {
    if token.Some? then Ready(Ok(token.value), wire)
    else
      var trip := Whole(c.policy, "POST", Sent(c.loginPath, None), c.server, wire);
      Ready(Granted(trip.outcome), trip.wire)
  }

  // One pass through the base request with its prepare hook.
  function Once(c: Settings, p: RetryPolicy, verb: string, url: string, token: Option<string>, wire: Wire): After {
    if url == c.loginPath then
      var trip := Whole(p, verb, Sent(url, None), c.server, wire);
      After(trip.outcome, token, trip.wire)
    else
      var ready := Ensured(c, token, wire);
      match ready.token
      case Err(outcome) => After(outcome, token, ready.wire)
      case Ok(t) =>
        var trip := Whole(p, verb, Sent(url, Some(t)), c.server, ready.wire);
        After(trip.outcome, Some(t), trip.wire)
  }

  predicate Held(token: Option<string>) {
    token.Some? && token.value != ""
  }

  predicate Refused(c: Settings, url: string, first: After) {
    first.outcome == Upstream(Some(401)) && url != c.loginPath && Held(first.token)
  }

  function Called(c: Settings, p: RetryPolicy, verb: string, url: string, token: Option<string>, wire: Wire): After {
    var first := Once(c, p, verb, url, token, wire);
    if Refused(c, url, first) then Once(c, p, verb, url, None, first.wire) else first
  }

  // TokenLoginMixin over BaseHTTPClient, used by one request at a time.
  class TokenClient {
    const settings: Settings
    var token: Option<string>
    var wire: Wire  // everything sent so far

    constructor (settings: Settings)
      ensures this.settings == settings && token == None && wire == []
    {
      this.settings := settings;
      token, wire := None, [];
    }

    method Login() returns (answer: Result<string, Outcome>)
      modifies this`wire
      ensures answer == Ensured(settings, None, old(wire)).token
      ensures wire == Ensured(settings, None, old(wire)).wire
    {
      var trip := HttpClient.Request(settings.policy, "POST", Sent(settings.loginPath, None), settings.server, wire);
      wire := trip.wire;
      if !trip.outcome.Good? {
        return Err(trip.outcome);
      }
      match trip.outcome.body {
        case Json(Some(t)) => return Ok(t);
        case Json(None) => return Err(Unexpected);
        case NoContent => return Err(Unexpected);
        case Garbled => return Err(Unexpected);
      }
    }

    method Base(p: RetryPolicy, verb: string, url: string) returns (outcome: Outcome)
      modifies this
      ensures After(outcome, token, wire) == Once(settings, p, verb, url, old(token), old(wire))
    {
      var bearer: Option<string> := None;
      if url != settings.loginPath {
        if token.None? {
          var answer := Login();
          if answer.Err? {
            return answer.error;
          }
          token := Some(answer.value);
        }
        bearer := token;
      }
      var trip := HttpClient.Request(p, verb, Sent(url, bearer), settings.server, wire);
      wire := trip.wire;
      outcome := trip.outcome;
    }

    method Request(retry: Option<RetryPolicy>, verb: string, url: string) returns (outcome: Outcome)
      modifies this
      ensures var p := if retry.Some? then retry.value else settings.policy;
              After(outcome, token, wire) == Called(settings, p, verb, url, old(token), old(wire))
    {
      var p := if retry.Some? then retry.value else settings.policy;
      outcome := Base(p, verb, url);
      if outcome == Upstream(Some(401)) && url != settings.loginPath && token.Some? && token.value != "" {
        token := None;
        outcome := Base(p, verb, url);
      }
    }
  }

  function Count(wire: Wire, url: string): nat {
    if wire == [] then 0 else Count(wire[..|wire| - 1], url) + if wire[|wire| - 1].url == url then 1 else 0
  }

  lemma {:induction false} CountMore(wire: Wire, what: Sent, n: nat, url: string)
    ensures Count(wire + Copies(what, n), url) == Count(wire, url) + if what.url == url then n else 0
  {
    var all := wire + Copies(what, n);
    if n == 0 {
      assert all == wire;
    } else {
      CountMore(wire, what, n - 1, url);
      assert all[..|all| - 1] == wire + Copies(what, n - 1);
    }
  }

  // The sends one loop may make.
  function Budget(p: RetryPolicy, verb: string): nat {
    if Upper(verb) in p.retryMethods then Max(1, p.attempts) else 1
  }

  predicate Grown(before: Wire, after: Wire, url: string, n: nat) {
    Count(before, url) <= Count(after, url) <= Count(before, url) + n
  }

  lemma WholeGrows(p: RetryPolicy, verb: string, what: Sent, server: Server, wire: Wire, url: string)
    ensures Grown(wire, Whole(p, verb, what, server, wire).wire, url, if what.url == url then Budget(p, verb) else 0)
  {
    var n := SendsExactly(p, Upper(verb), what, server, wire, 1, 0.0);
    CountMore(wire, what, n, url);
  }

  lemma OnceGrows(c: Settings, p: RetryPolicy, verb: string, url: string, token: Option<string>, wire: Wire)
    requires url != c.loginPath
    ensures var after := Once(c, p, verb, url, token, wire).wire;
            && Grown(wire, after, url, Budget(p, verb))
            && Grown(wire, after, c.loginPath, if token.None? then Budget(c.policy, "POST") else 0)
  {
    var login := Sent(c.loginPath, None);
    if token.None? {
      WholeGrows(c.policy, "POST", login, c.server, wire, url);
      WholeGrows(c.policy, "POST", login, c.server, wire, c.loginPath);
    }
    var ready := Ensured(c, token, wire);
    if ready.token.Ok? {
      var what := Sent(url, Some(ready.token.value));
      WholeGrows(p, verb, what, c.server, ready.wire, url);
      WholeGrows(p, verb, what, c.server, ready.wire, c.loginPath);
    }
  }

  // Whatever the server answers, a request goes out at most twice its attempts, and logs in at most
  // twice, once less when it starts with a token.
  lemma CalledBounded(c: Settings, p: RetryPolicy, verb: string, url: string, token: Option<string>, wire: Wire)
    requires url != c.loginPath
    ensures var after := Called(c, p, verb, url, token, wire).wire;
            && Grown(wire, after, url, 2 * Budget(p, verb))
            && Grown(wire, after, c.loginPath, (if token.None? then 2 else 1) * Budget(c.policy, "POST"))
  {
    OnceGrows(c, p, verb, url, token, wire);
    var first := Once(c, p, verb, url, token, wire);
    if Refused(c, url, first) {
      OnceGrows(c, p, verb, url, None, first.wire);
    }
  }

  // A request that ends well ended with the token the client now holds, and its answer is the server's
  // to that very send.
  lemma GoodBearsTheToken(c: Settings, p: RetryPolicy, verb: string, url: string, token: Option<string>, wire: Wire)
    requires url != c.loginPath
    requires Called(c, p, verb, url, token, wire).outcome.Good?
    ensures var end := Called(c, p, verb, url, token, wire);
            && end.token.Some?
            && |end.wire| > |wire|
            && end.wire[|end.wire| - 1] == Sent(url, end.token)
            && end.outcome == Ending(c.server(end.wire))
  {
    GoodOnce(c, p, verb, url, token, wire);
    var first := Once(c, p, verb, url, token, wire);
    if Refused(c, url, first) {
      GoodOnce(c, p, verb, url, None, first.wire);
      OnceLengthens(c, p, verb, url, token, wire);
    }
  }

  lemma OnceLengthens(c: Settings, p: RetryPolicy, verb: string, url: string, token: Option<string>, wire: Wire)
    ensures |Once(c, p, verb, url, token, wire).wire| > |wire|
  {
    if url == c.loginPath {
      var n := SendsExactly(p, Upper(verb), Sent(url, None), c.server, wire, 1, 0.0);
    } else {
      if token.None? {
        var n := SendsExactly(c.policy, Upper("POST"), Sent(c.loginPath, None), c.server, wire, 1, 0.0);
      }
      var ready := Ensured(c, token, wire);
      if ready.token.Ok? {
        var n := SendsExactly(p, Upper(verb), Sent(url, Some(ready.token.value)), c.server, ready.wire, 1, 0.0);
      }
    }
  }

  lemma GoodOnce(c: Settings, p: RetryPolicy, verb: string, url: string, token: Option<string>, wire: Wire)
    requires url != c.loginPath
    ensures var end := Once(c, p, verb, url, token, wire);
            end.outcome.Good? ==>
              && end.token.Some?
              && |end.wire| > |wire|
              && end.wire[|end.wire| - 1] == Sent(url, end.token)
              && end.outcome == Ending(c.server(end.wire))
  {
    OnceLengthens(c, p, verb, url, token, wire);
    var ready := Ensured(c, token, wire);
    if ready.token.Ok? {
      var n := SendsExactly(p, Upper(verb), Sent(url, Some(ready.token.value)), c.server, ready.wire, 1, 0.0);
    }
  }

  // A request is sent a second time exactly when its first round ended in a 401 and a non-empty token was
  // held: then it starts by logging in anew, and otherwise the first round is all there is.
  lemma SecondRoundExactly(c: Settings, p: RetryPolicy, verb: string, url: string, token: Option<string>, wire: Wire)
    requires url != c.loginPath
    ensures var first, end := Once(c, p, verb, url, token, wire), Called(c, p, verb, url, token, wire);
      var again := first.outcome == Upstream(Some(401)) && first.token.Some? && |first.token.value| > 0;
      && (!again ==> end == first)
      && (again ==> first.wire < end.wire && end.wire[|first.wire|] == Sent(c.loginPath, None))
  {
    var first := Once(c, p, verb, url, token, wire);
    if Refused(c, url, first) {
      var n := SendsExactly(c.policy, Upper("POST"), Sent(c.loginPath, None), c.server, first.wire, 1, 0.0);
      var ready := Ensured(c, None, first.wire);
      if ready.token.Ok? {
        var m := SendsExactly(p, Upper(verb), Sent(url, Some(ready.token.value)), c.server, ready.wire, 1, 0.0);
      }
    }
  }

  // A client with a token sends it without logging in; one without logs in first, bearing nothing.
  lemma FirstSend(c: Settings, p: RetryPolicy, verb: string, url: string, token: Option<string>, wire: Wire)
    ensures var end := Called(c, p, verb, url, token, wire).wire;
      && wire < end
      && end[|wire|] == if url == c.loginPath then Sent(url, None)
                        else if token.Some? then Sent(url, token)
                        else Sent(c.loginPath, None)
  {
    FirstOfOnce(c, p, verb, url, token, wire);
    var first := Once(c, p, verb, url, token, wire);
    if Refused(c, url, first) {
      FirstOfOnce(c, p, verb, url, None, first.wire);
    }
  }

  lemma FirstOfOnce(c: Settings, p: RetryPolicy, verb: string, url: string, token: Option<string>, wire: Wire)
    ensures var end := Once(c, p, verb, url, token, wire).wire;
      && wire < end
      && end[|wire|] == if url == c.loginPath then Sent(url, None)
                        else if token.Some? then Sent(url, token)
                        else Sent(c.loginPath, None)
  {
    if url == c.loginPath {
      var n := SendsExactly(p, Upper(verb), Sent(url, None), c.server, wire, 1, 0.0);
    } else {
      if token.None? {
        var n := SendsExactly(c.policy, Upper("POST"), Sent(c.loginPath, None), c.server, wire, 1, 0.0);
      }
      var ready := Ensured(c, token, wire);
      if ready.token.Ok? {
        var m := SendsExactly(p, Upper(verb), Sent(url, Some(ready.token.value)), c.server, ready.wire, 1, 0.0);
      }
    }
  }

  // A server that grants one token at login, serves whoever bears it, and answers 401 to anyone else.
  ghost predicate Keeps(c: Settings, good: string) {
    && good != ""
    && forall wire: Wire | wire != [] :: Answers(c, good, wire[|wire| - 1], c.server(wire))
  }

  predicate Answers(c: Settings, good: string, last: Sent, reply: Reply) {
    if last.url == c.loginPath then Ending(reply) == Good(Json(Some(good)))
    else if last.bearer == Some(good) then Ending(reply).Good?
    else Ending(reply) == Upstream(Some(401))
  }

  lemma EndsAsAnswered(c: Settings, p: RetryPolicy, verb: string, what: Sent, wire: Wire, good: string)
    requires Keeps(c, good)
    ensures var outcome := Whole(p, verb, what, c.server, wire).outcome;
            if what.url == c.loginPath then outcome == Good(Json(Some(good)))
            else if what.bearer == Some(good) then outcome.Good?
            else outcome == Upstream(Some(401))
  {
    var n := SendsExactly(p, Upper(verb), what, c.server, wire, 1, 0.0);
    var sent := wire + Copies(what, n);
    assert sent[|sent| - 1] == what;
    assert Answers(c, good, sent[|sent| - 1], c.server(sent));
  }

  // Against such a server every request ends well, whatever token the client starts with, unless it
  // holds the empty token: that one counts as a token to send but not as one to drop.
  lemma RecoversExactly(c: Settings, p: RetryPolicy, verb: string, url: string, token: Option<string>, wire: Wire, good: string)
    requires url != c.loginPath && Keeps(c, good)
    ensures Called(c, p, verb, url, token, wire).outcome.Good? <==> token != Some("")
    ensures Called(c, p, verb, url, token, wire).token == if token == Some("") then token else Some(good)
  {
    var first := Once(c, p, verb, url, token, wire);
    OnceAgainst(c, p, verb, url, token, wire, good);
    if Refused(c, url, first) {
      OnceAgainst(c, p, verb, url, None, first.wire, good);
    }
  }

  lemma OnceAgainst(c: Settings, p: RetryPolicy, verb: string, url: string, token: Option<string>, wire: Wire, good: string)
    requires url != c.loginPath && Keeps(c, good)
    ensures var end := Once(c, p, verb, url, token, wire);
            if token.None? || token.value == good then end.outcome.Good? && end.token == Some(good)
            else end.outcome == Upstream(Some(401)) && end.token == token
  {
    EndsAsAnswered(c, c.policy, "POST", Sent(c.loginPath, None), wire, good);
    var ready := Ensured(c, token, wire);
    if ready.token.Ok? {
      EndsAsAnswered(c, p, verb, Sent(url, Some(ready.token.value)), ready.wire, good);
    }
  }

  // A failed login ends the request: nothing protected is sent after it and no second login is tried.
  lemma FailedLoginEnds(c: Settings, p: RetryPolicy, verb: string, url: string, wire: Wire)
    requires url != c.loginPath
    requires Granted(Whole(c.policy, "POST", Sent(c.loginPath, None), c.server, wire).outcome).Err?
    ensures var end := Called(c, p, verb, url, None, wire);
            && end.token == None
            && !end.outcome.Good?
            && Count(end.wire, url) == Count(wire, url)
            && Grown(wire, end.wire, c.loginPath, Budget(c.policy, "POST"))
  {
    WholeGrows(c.policy, "POST", Sent(c.loginPath, None), c.server, wire, url);
    WholeGrows(c.policy, "POST", Sent(c.loginPath, None), c.server, wire, c.loginPath);
  }
}
