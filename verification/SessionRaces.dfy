/**
 Refreshes, logouts and logins interleaved command by command: what survives every interleaving, and
 what does not.
 */
module SessionRaces {
  import opened Common
  import opened Sessions

  // What a client carries from the command it has sent to the one it will send next.
  datatype Pending =
    | Validated(sid: Sid, user: Uid)
    | ReadyToRotate(sid: Sid, user: Uid)
    | Rotated(sid: Sid, jti: Jti)
    | WantsRevoke(sid: Sid)
    | ReadyToRevoke(sid: Sid, user: Uid)
    | ReadyToRevokeAll(user: Uid, sids: set<Sid>)
    | ReadyToRevokeOthers(user: Uid, sids: set<Sid>)
    | Refreshed(sid: Sid, jti: Jti)  // the new pair was handed out

  datatype Event =
    | Tick(d: nat)
    | Login(user: Uid, sid: Sid, jti: Jti, ip: string, agent: string)
    | Validate(c: Id, sid: Sid, jti: Jti, user: Uid)
    | StartRotate(c: Id)
    | FinishRotate(c: Id, newJti: Jti)
    | CheckUser(c: Id, active: bool)
    | Logout(c: Id, sid: Sid)
    | StartRevoke(c: Id)
    | FinishRevoke(c: Id)
    | StartRevokeAll(c: Id, user: Uid)
    | FinishRevokeAll(c: Id)
    | StartRevokeOthers(c: Id, user: Uid, keep: Sid)
    | FinishRevokeOthers(c: Id)
    | Crash(c: Id)

  // used, drawn: the session ids and the token ids drawn so far.
  datatype State = State(store: Store, used: set<Sid>, drawn: set<Jti>, clients: map<Id, Pending>)

  const INIT := State(EMPTY, {}, {}, map[])

  // Identifiers are drawn afresh.
  predicate Fresh(s: State, jti: Jti) {
    jti !in s.drawn && jti != ""
  }

  // Events a client sends in the middle of a method, given what it carries.
  function Continue(s: State, ttl: nat, c: Id, p: Pending, e: Event): State {
    match (e, p)
    case (StartRotate(_), Validated(sid, user)) =>
      if RotateRead(s.store, sid, user) then s.(clients := s.clients[c := ReadyToRotate(sid, user)])
      else s.(clients := s.clients - {c})
    case (FinishRotate(_, jti), ReadyToRotate(sid, user)) =>
      if !Fresh(s, jti) then s
      else s.(store := RotateWrite(s.store, ttl, sid, user, jti), drawn := s.drawn + {jti},
              clients := s.clients[c := Rotated(sid, jti)])
    case (CheckUser(_, active), Rotated(sid, jti)) =>
      s.(clients := s.clients[c := if active then Refreshed(sid, jti) else WantsRevoke(sid)])
    case (StartRevoke(_), WantsRevoke(sid)) =>
      var user := RevokeRead(s.store, sid);
      s.(clients := if user == "" then s.clients - {c} else s.clients[c := ReadyToRevoke(sid, user)])
    case (FinishRevoke(_), ReadyToRevoke(sid, user)) =>
      s.(store := RevokeWrite(s.store, sid, user), clients := s.clients - {c})
    case (FinishRevokeAll(_), ReadyToRevokeAll(user, sids)) =>
      s.(store := RevokeAllWrite(s.store, user, sids), clients := s.clients - {c})
    case (FinishRevokeOthers(_), ReadyToRevokeOthers(user, sids)) =>
      s.(store := RevokeOthersWrite(s.store, user, sids), clients := s.clients - {c})
    case (Crash(_), _) => s.(clients := s.clients - {c})
    case _ => s
  }

  function Next(s: State, ttl: nat, e: Event): State {
    match e
    case Tick(d) => s.(store := Wait(s.store, d))
    case Login(user, sid, jti, ip, agent) =>
      // the user id is that of a stored user
      if sid in s.used || sid == "" || !Fresh(s, jti) || user == "" then s
      else s.(store := Create(s.store, ttl, user, sid, jti, ip, agent), used := s.used + {sid}, drawn := s.drawn + {jti})
    case Validate(c, sid, jti, user) =>
      if c in s.clients || sid == "" || jti == "" then s
      else s.(clients := s.clients[c := if Validates(s.store, sid, jti, user) then Validated(sid, user)
                                        else WantsRevoke(sid)])
    case Logout(c, sid) => if c in s.clients then s else s.(clients := s.clients[c := WantsRevoke(sid)])
    case StartRevokeAll(c, user) =>
      if c in s.clients then s
      else s.(clients := s.clients[c := ReadyToRevokeAll(user, MembersOf(s.store, user))])
    case StartRevokeOthers(c, user, keep) =>
      if c in s.clients then s
      else s.(clients := s.clients[c := ReadyToRevokeOthers(user, MembersOf(s.store, user) - {keep})])
    case _ => if e.c in s.clients then Continue(s, ttl, e.c, s.clients[e.c], e) else s
  }

  function Run(s: State, ttl: nat, events: seq<Event>): State
    decreases |events|
  {
    if events == [] then s else Run(Next(s, ttl, events[0]), ttl, events[1..])
  }

  // ----- a revoked session stays dead -----

  // The session existed, and its hash is gone or no longer says whose it is.
  predicate Lost(s: State, sid: Sid) {
    sid in s.used && !Owned(s.store, sid)
  }

  lemma {:induction false} LostStaysLost(s: State, ttl: nat, events: seq<Event>, sid: Sid)
    requires Lost(s, sid)
    ensures Lost(Run(s, ttl, events), sid)
    decreases |events|
  {
    if events != [] {
      LostStaysLost(Next(s, ttl, events[0]), ttl, events[1..], sid);
    }
  }

  // Whatever interleaves after the loss, no refresh token of that session is ever valid again.
  lemma RevokedNeverValidates(s: State, ttl: nat, events: seq<Event>, sid: Sid, jti: Jti, user: Uid)
    requires Lost(s, sid) && user != ""
    ensures !Validates(Run(s, ttl, events).store, sid, jti, user)
  {
    LostStaysLost(s, ttl, events, sid);
  }

  // A logout that runs to its end is such a loss, whatever interleaved between its two commands.
  lemma LogoutLoses(s: State, ttl: nat, c: Id, sid: Sid)
    requires sid in s.used && c in s.clients
    requires s.clients[c].ReadyToRevoke? ==> s.clients[c].sid == sid
    requires s.clients[c].ReadyToRevokeAll? ==> sid in s.clients[c].sids
    requires s.clients[c].ReadyToRevokeOthers? ==> sid in s.clients[c].sids
    ensures s.clients[c].ReadyToRevoke? ==> Lost(Next(s, ttl, FinishRevoke(c)), sid)
    ensures s.clients[c].ReadyToRevokeAll? ==> Lost(Next(s, ttl, FinishRevokeAll(c)), sid)
    ensures s.clients[c].ReadyToRevokeOthers? ==> Lost(Next(s, ttl, FinishRevokeOthers(c)), sid)
  {
  }

  lemma RunCons(s: State, ttl: nat, e: Event, rest: seq<Event>)
    ensures Run(s, ttl, [e] + rest) == Run(Next(s, ttl, e), ttl, rest)
  {
    assert ([e] + rest)[1..] == rest;
  }

  lemma RunFour(s: State, ttl: nat, a: Event, b: Event, c: Event, d: Event, rest: seq<Event>)
    ensures Run(s, ttl, [a, b, c, d] + rest)
         == Run(Next(Next(Next(Next(s, ttl, a), ttl, b), ttl, c), ttl, d), ttl, rest)
  {
    assert [a, b, c, d] + rest == [a] + ([b] + ([c] + ([d] + rest)));
    RunCons(s, ttl, a, [b] + ([c] + ([d] + rest)));
    var s1 := Next(s, ttl, a);
    RunCons(s1, ttl, b, [c] + ([d] + rest));
    var s2 := Next(s1, ttl, b);
    RunCons(s2, ttl, c, [d] + rest);
    RunCons(Next(s2, ttl, c), ttl, d, rest);
  }

  // ----- why the promise is about validate and about a named user -----

  // A refresh has read the session when the logout deletes it; its write then makes a nameless hash.
  const LATE_ROTATION: seq<Event> :=
    [Login("u", "s", "j", "", ""), Validate(1, "s", "j", "u"), StartRotate(1), Logout(2, "s")]
    + ([StartRevoke(2), FinishRevoke(2), Tick(0), Tick(0)] + [])

  const FULL := Session(Some("u"), Some("j"), Some(0), Some(0), Some(""), Some(""), 60)
  const LOGGED_IN := State(Store(0, map["s" := FULL], map["u" := Index({"s"}, 60)]), {"s"}, {"j"}, map[])

  lemma FirstLogin()
    ensures Next(INIT, 60, Login("u", "s", "j", "", "")) == LOGGED_IN
  {
    var t := Next(INIT, 60, Login("u", "s", "j", "", ""));
    assert MembersOf(EMPTY, "u") + {"s"} == {"s"};
    assert INIT.used + {"s"} == {"s"} && INIT.drawn + {"j"} == {"j"};
    assert t.store.sessions == LOGGED_IN.store.sessions;
    assert t.store.indexes == LOGGED_IN.store.indexes;
  }

  const NAMELESS := Session(None, Some("k"), None, Some(0), None, None, 60)

  lemma LateRotationRuns()
    ensures Run(INIT, 60, LATE_ROTATION) == State(EMPTY, {"s"}, {"j"}, map[1 := ReadyToRotate("s", "u")])
    ensures Run(Run(INIT, 60, LATE_ROTATION), 60, [FinishRotate(1, "k")]).store
         == Store(0, map["s" := NAMELESS], map[])
  {
    RunFour(INIT, 60, LATE_ROTATION[0], LATE_ROTATION[1], LATE_ROTATION[2], LATE_ROTATION[3],
            [StartRevoke(2), FinishRevoke(2), Tick(0), Tick(0)] + []);
    FirstLogin();
    var st, s1 := LOGGED_IN.store, LOGGED_IN;
    var s4 := Next(Next(Next(s1, 60, LATE_ROTATION[1]), 60, LATE_ROTATION[2]), 60, LATE_ROTATION[3]);
    assert s4 == State(st, {"s"}, {"j"}, map[1 := ReadyToRotate("s", "u"), 2 := WantsRevoke("s")]);
    RunFour(s4, 60, StartRevoke(2), FinishRevoke(2), Tick(0), Tick(0), []);
    var s6 := Next(Next(s4, 60, StartRevoke(2)), 60, FinishRevoke(2));
    assert s6.store.sessions == map[] && s6.store.indexes == map[];
    assert s6.clients == map[1 := ReadyToRotate("s", "u")];
    assert "k"[0] != "j"[0];
    RunCons(s6, 60, FinishRotate(1, "k"), []);
    assert [FinishRotate(1, "k")] + [] == [FinishRotate(1, "k")];
  }

  // Some run brings a lost session's id to validate again for this user id.
  ghost predicate Revivable(user: Uid) {
    exists ttl, before, after, sid, jti ::
      Lost(Run(INIT, ttl, before), sid) && Validates(Run(Run(INIT, ttl, before), ttl, after).store, sid, jti, user)
  }

  lemma RevivableOnlyForNobody(user: Uid)
    ensures Revivable(user) <==> user == ""
  {
    if Revivable(user) {
      var ttl: nat, before, after, sid, jti :|
        Lost(Run(INIT, ttl, before), sid) && Validates(Run(Run(INIT, ttl, before), ttl, after).store, sid, jti, user);
      if user != "" {
        RevokedNeverValidates(Run(INIT, ttl, before), ttl, after, sid, jti, user);
      }
    }
    if user == "" {
      LateRotationRuns();
      assert Validates(Run(Run(INIT, 60, LATE_ROTATION), 60, [FinishRotate(1, "k")]).store, "s", "k", "");
    }
  }

  // Nothing lives under the id, and nobody is about to write there.
  predicate Gone(s: State, sid: Sid) {
    && sid in s.used && !Live(s.store, sid)
    && forall c | c in s.clients :: !AboutToWrite(s.clients[c], sid)
  }

  predicate AboutToWrite(p: Pending, sid: Sid) {
    p.ReadyToRotate? && p.sid == sid
  }

  lemma {:induction false} GoneStaysGone(s: State, ttl: nat, events: seq<Event>, sid: Sid)
    requires Gone(s, sid)
    ensures Gone(Run(s, ttl, events), sid)
    decreases |events|
  {
    if events != [] {
      assert Gone(Next(s, ttl, events[0]), sid);
      GoneStaysGone(Next(s, ttl, events[0]), ttl, events[1..], sid);
    }
  }

  // There is always an identifier left to draw.
  lemma {:induction false} Bounded(js: set<Jti>) returns (n: nat)
    ensures forall j | j in js :: |j| <= n
    decreases js
  {
    if j :| j in js {
      var m := Bounded(js - {j});
      n := Max(m, |j|);
      forall k | k in js ensures |k| <= n {
        assert k == j || k in js - {j};
      }
    } else {
      n := 0;
    }
  }

  lemma UnusedJti(js: set<Jti>) returns (jti: Jti)
    ensures jti !in js && jti != ""
  {
    var n := Bounded(js);
    jti := seq(n + 1, _ => 'x');
  }

  // The existence check is not such a promise: after a session's hash is gone, some run makes the id
  // exist again exactly when a client has read the session for a rotation and not yet written it.
  lemma ExistsAgainExactly(s: State, ttl: nat, sid: Sid)
    requires sid in s.used && !Live(s.store, sid) && 0 < ttl
    ensures (exists events :: Live(Run(s, ttl, events).store, sid))
            <==> exists c :: c in s.clients && AboutToWrite(s.clients[c], sid)
  {
    if c :| c in s.clients && AboutToWrite(s.clients[c], sid) {
      var jti := UnusedJti(s.drawn);
      RunCons(s, ttl, FinishRotate(c, jti), []);
      assert [FinishRotate(c, jti)] + [] == [FinishRotate(c, jti)];
      assert Live(Run(s, ttl, [FinishRotate(c, jti)]).store, sid);
    } else {
      forall events ensures !Live(Run(s, ttl, events).store, sid) {
        GoneStaysGone(s, ttl, events, sid);
      }
    }
  }

  // The witness: a lost session whose id exists again.
  lemma RevokedMayExistAgain()
    ensures Lost(Run(INIT, 60, LATE_ROTATION), "s")
    ensures Live(Run(Run(INIT, 60, LATE_ROTATION), 60, [FinishRotate(1, "k")]).store, "s")
  {
    LateRotationRuns();
  }

  // ----- what interleaving costs -----

  lemma RunTwo(s: State, ttl: nat, a: Event, b: Event, rest: seq<Event>)
    ensures Run(s, ttl, [a, b] + rest) == Run(Next(Next(s, ttl, a), ttl, b), ttl, rest)
  {
    assert [a, b] + rest == [a] + ([b] + rest);
    RunCons(s, ttl, a, [b] + rest);
    RunCons(Next(s, ttl, a), ttl, b, rest);
  }

  // The rest of a refresh whose token has been validated.
  function RestOfRefresh(c: Id, jti: Jti): seq<Event> {
    [StartRotate(c), FinishRotate(c, jti)] + ([CheckUser(c, true), Tick(0)] + [])
  }

  // Once validated, a refresh that nothing disturbs hands out its pair, whatever the token's jti is by now.
  lemma ValidatedRefreshes(s: State, ttl: nat, c: Id, jti: Jti)
    requires c in s.clients && s.clients[c].Validated? && Fresh(s, jti)
    requires RotateRead(s.store, s.clients[c].sid, s.clients[c].user) && 0 < ttl
    ensures var sid, user := s.clients[c].sid, s.clients[c].user;
      Run(s, ttl, RestOfRefresh(c, jti))
      == s.(store := RotateWrite(s.store, ttl, sid, user, jti), drawn := s.drawn + {jti},
            clients := s.clients[c := Refreshed(sid, jti)])
  {
    var sid, user := s.clients[c].sid, s.clients[c].user;
    RunTwo(s, ttl, StartRotate(c), FinishRotate(c, jti), [CheckUser(c, true), Tick(0)] + []);
    var t := s.(store := RotateWrite(s.store, ttl, sid, user, jti), drawn := s.drawn + {jti},
                clients := s.clients[c := Rotated(sid, jti)]);
    assert Next(Next(s, ttl, StartRotate(c)), ttl, FinishRotate(c, jti)).clients == t.clients;
    RunTwo(t, ttl, CheckUser(c, true), Tick(0), []);
    assert Next(Next(t, ttl, CheckUser(c, true)), ttl, Tick(0)).clients == s.clients[c := Refreshed(sid, jti)];
  }

  lemma {:induction false} RunAppend(s: State, ttl: nat, a: seq<Event>, b: seq<Event>)
    ensures Run(s, ttl, a + b) == Run(Run(s, ttl, a), ttl, b)
    decreases |a|
  {
    if a == [] {
      assert a + b == b;
    } else {
      assert (a + b)[1..] == a[1..] + b;
      RunAppend(Next(s, ttl, a[0]), ttl, a[1..], b);
    }
  }

  // The same token presented by two clients whose validations both come first is accepted from both.
  lemma TokenRefreshedTwice(s: State, ttl: nat, sid: Sid, jti: Jti, user: Uid, c: Id, d: Id, j1: Jti, j2: Jti)
    requires c !in s.clients && d !in s.clients && c != d && sid != "" && jti != "" && 0 < ttl
    requires Validates(s.store, sid, jti, user) && Fresh(s, j1) && Fresh(s, j2) && j1 != j2
    ensures var t := Run(s, ttl, [Validate(c, sid, jti, user), Validate(d, sid, jti, user)]
                                 + (RestOfRefresh(c, j1) + RestOfRefresh(d, j2)));
      c in t.clients && d in t.clients && t.clients[c] == Refreshed(sid, j1) && t.clients[d] == Refreshed(sid, j2)
  {
    var rest := RestOfRefresh(c, j1) + RestOfRefresh(d, j2);
    RunTwo(s, ttl, Validate(c, sid, jti, user), Validate(d, sid, jti, user), rest);
    var s2 := s.(clients := s.clients[c := Validated(sid, user)][d := Validated(sid, user)]);
    RunAppend(s2, ttl, RestOfRefresh(c, j1), RestOfRefresh(d, j2));
    ValidatedRefreshes(s2, ttl, c, j1);
    ValidatedRefreshes(Run(s2, ttl, RestOfRefresh(c, j1)), ttl, d, j2);
  }

  // ----- when a token is accepted again -----

  // Every live hash, and every rotation under way, is of a session that was created; and every live hash
  // holds a token id that was drawn.
  ghost predicate Known(s: State) {
    && (forall sid | Live(s.store, sid) :: sid in s.used && s.store.sessions[sid].jti.Some?
          && s.store.sessions[sid].jti.value in s.drawn && s.store.sessions[sid].jti.value != "")
    && (forall c | c in s.clients && s.clients[c].ReadyToRotate? :: s.clients[c].sid in s.used)
  }

  lemma KnownStays(s: State, ttl: nat, e: Event)
    requires Known(s)
    ensures Known(Next(s, ttl, e))
  {
  }

  lemma {:induction false} RunKeepsKnown(s: State, ttl: nat, events: seq<Event>)
    requires Known(s)
    ensures Known(Run(s, ttl, events))
    decreases |events|
  {
    if events != [] {
      KnownStays(s, ttl, events[0]);
      RunKeepsKnown(Next(s, ttl, events[0]), ttl, events[1..]);
    }
  }

  // The session has had this token, and holds another or none.
  predicate Superseded(s: State, sid: Sid, jti: Jti) {
    sid in s.used && jti in s.drawn && (Live(s.store, sid) ==> s.store.sessions[sid].jti != Some(jti))
  }

  lemma {:induction false} SupersededStays(s: State, ttl: nat, events: seq<Event>, sid: Sid, jti: Jti)
    requires Superseded(s, sid, jti)
    ensures Superseded(Run(s, ttl, events), sid, jti)
    decreases |events|
  {
    if events != [] {
      assert Superseded(Next(s, ttl, events[0]), sid, jti);
      SupersededStays(Next(s, ttl, events[0]), ttl, events[1..], sid, jti);
    }
  }

  // The step is a rotation write of this session.
  predicate Rotates(s: State, e: Event, sid: Sid) {
    e.FinishRotate? && e.c in s.clients && AboutToWrite(s.clients[e.c], sid) && Fresh(s, e.newJti)
  }

  predicate RotatedIn(s: State, ttl: nat, events: seq<Event>, sid: Sid)
    decreases |events|
  {
    events != [] && (Rotates(s, events[0], sid) || RotatedIn(Next(s, ttl, events[0]), ttl, events[1..], sid))
  }

  // A token that validates now validates after any further commands exactly when the session still
  // says whose it is and none of those commands was a rotation write of it.
  lemma {:induction false} ValidatesAgainExactly(
    s: State, ttl: nat, events: seq<Event>, sid: Sid, jti: Jti, user: Uid)
    requires Known(s) && Validates(s.store, sid, jti, user) && user != "" && jti != ""
    ensures Validates(Run(s, ttl, events).store, sid, jti, user)
            <==> Owned(Run(s, ttl, events).store, sid) && !RotatedIn(s, ttl, events, sid)
    decreases |events|
  {
    if events != [] {
      var e, rest := events[0], events[1..];
      var t := Next(s, ttl, e);
      if Rotates(s, e, sid) {
        SupersededStays(t, ttl, rest, sid, jti);
      } else if Owned(t.store, sid) {
        KnownStays(s, ttl, e);
        ValidatesAgainExactly(t, ttl, rest, sid, jti, user);
      } else {
        LostStaysLost(t, ttl, rest, sid);
      }
    }
  }

  // So when a client's token has been accepted, a second client that presents it later is accepted too
  // exactly when the session is still owned and no rotation has been written in between.
  lemma AcceptedAgainExactly(
    ttl: nat, before: seq<Event>, c: Id, between: seq<Event>, d: Id, sid: Sid, jti: Jti, user: Uid)
    requires var s := Run(INIT, ttl, before);
      c !in s.clients && sid != "" && jti != "" && user != "" && Validates(s.store, sid, jti, user)
    requires d !in Run(Next(Run(INIT, ttl, before), ttl, Validate(c, sid, jti, user)), ttl, between).clients
    ensures var s := Next(Run(INIT, ttl, before), ttl, Validate(c, sid, jti, user));
      var t := Run(s, ttl, between);
      Next(t, ttl, Validate(d, sid, jti, user)).clients[d] == Validated(sid, user)
      <==> Owned(t.store, sid) && !RotatedIn(s, ttl, between, sid)
  {
    RunKeepsKnown(INIT, ttl, before);
    var s := Next(Run(INIT, ttl, before), ttl, Validate(c, sid, jti, user));
    ValidatesAgainExactly(s, ttl, between, sid, jti, user);
  }

  // ----- when the index misses a session -----

  const SLIPPED: seq<Event> :=
    [Login("u", "s", "j", "", ""), StartRevokeAll(1, "u"), Login("u", "t", "k", "", ""), FinishRevokeAll(1)] + []

  // A login between the two commands of a logout-everywhere survives it and is in no index.
  lemma LoginSlipsThroughRevokeAll()
    ensures var s := Run(INIT, 60, SLIPPED);
      Owned(s.store, "t") && s.store.sessions["t"].uid == Some("u") && MembersOf(s.store, "u") == {}
  {
    RunFour(INIT, 60, SLIPPED[0], SLIPPED[1], SLIPPED[2], SLIPPED[3], []);
    FirstLogin();
  }
}
