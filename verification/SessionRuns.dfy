/**
 Logins, refreshes and logouts one call at a time: the refresh tokens of a session form a chain in which
 every token is accepted at most once, and a token presented again ends the session.
 */
module SessionRuns {
  import opened Common
  import opened Sessions
  import opened SessionIndex

  datatype Call =
    | Login(user: Uid, sid: Sid, jti: Jti, ip: string, agent: string)
    | Refresh(sid: Sid, jti: Jti, user: Uid, newJti: Jti, active: bool)  // active: the user still exists and may log in
    | Logout(sid: Sid)
    | LogoutAll(user: Uid)
    | LogoutOthers(user: Uid, keep: Sid)
    | Tick(d: nat)

  // The store, and the history: what was drawn, and per session the tokens issued and accepted.
  datatype Auth = Auth(
    store: Store, used: set<Sid>, drawn: set<Jti>,
    issued: map<Sid, seq<Jti>>, accepted: map<Sid, seq<Jti>>)

  const NOBODY := Auth(EMPTY, {}, {}, map[], map[])

  datatype Refreshing = Refreshing(store: Store, rotated: bool, granted: bool)

  // AuthService.refresh: a token that does not validate revokes the whole session.
  function RefreshStore(st: Store, ttl: nat, sid: Sid, jti: Jti, user: Uid, newJti: Jti, active: bool): Refreshing {
    if sid == "" || jti == "" || !Validates(st, sid, jti, user) then Refreshing(Revoke(st, sid), false, false)
    else
      var rotated := Rotate(st, ttl, sid, user, newJti);
      if active then Refreshing(rotated, true, true) else Refreshing(Revoke(rotated, sid), true, false)
  }

  // AuthService.logout_others: without a session of one's own, everything goes.
  function LogoutOthersStore(st: Store, user: Uid, keep: Sid): Store {
    if keep == "" then RevokeAll(st, user) else RevokeOthers(st, user, keep)
  }

  function Serve(a: Auth, ttl: nat, call: Call): Auth {
    match call
    case Login(user, sid, jti, ip, agent) =>
      if sid in a.used || sid == "" || jti in a.drawn || jti == "" || user == "" then a
      else a.(store := Create(a.store, ttl, user, sid, jti, ip, agent), used := a.used + {sid},
              drawn := a.drawn + {jti}, issued := a.issued[sid := [jti]], accepted := a.accepted[sid := []])
    case Refresh(sid, jti, user, newJti, active) =>
      if newJti in a.drawn || newJti == "" then a
      else
        var r := RefreshStore(a.store, ttl, sid, jti, user, newJti, active);
        if r.rotated && sid in a.issued && sid in a.accepted then
          a.(store := r.store, drawn := a.drawn + {newJti},
             issued := a.issued[sid := a.issued[sid] + [newJti]],
             accepted := a.accepted[sid := a.accepted[sid] + [jti]])
        else a.(store := r.store)
    case Logout(sid) => a.(store := Revoke(a.store, sid))
    case LogoutAll(user) => a.(store := RevokeAll(a.store, user))
    case LogoutOthers(user, keep) => a.(store := LogoutOthersStore(a.store, user, keep))
    case Tick(d) => a.(store := Wait(a.store, d))
  }

  function Run(a: Auth, ttl: nat, calls: seq<Call>): Auth
    decreases |calls|
  {
    if calls == [] then a else Run(Serve(a, ttl, calls[0]), ttl, calls[1..])
  }

  // ----- one refresh -----

  // A pair is granted exactly for the newest token of a live session of a user that may still log in; the
  // new token is valid from then on and the old one is not; without a grant the session has ended. No
  // other session changes.
  lemma RefreshExactly(st: Store, ttl: nat, sid: Sid, jti: Jti, user: Uid, newJti: Jti, active: bool)
    requires 0 < ttl && user != "" && newJti != jti
    ensures var r := RefreshStore(st, ttl, sid, jti, user, newJti, active);
      && r.rotated == (sid != "" && jti != "" && Live(st, sid)
                       && st.sessions[sid].uid == Some(user) && st.sessions[sid].jti == Some(jti))
      && r.granted == (r.rotated && active)
      && (r.granted ==> Validates(r.store, sid, newJti, user) && !Validates(r.store, sid, jti, user))
      && (!r.granted && sid != "" ==> forall j :: !Validates(r.store, sid, j, user))
      && r.store.sessions - {sid} == st.sessions - {sid}
  {
  }

  // ----- the invariant -----

  ghost predicate Known(a: Auth) {
    && a.store.sessions.Keys <= a.used
    && (forall user | user in a.store.indexes :: a.store.indexes[user].sids <= a.used)
    && "" !in a.used
  }

  predicate Distinct(js: seq<Jti>) {
    forall i, j | 0 <= i < j < |js| :: js[i] != js[j]
  }

  // The accepted tokens are the issued ones in order, all but the newest.
  ghost predicate Chained(a: Auth, sid: Sid) {
    && sid in a.issued && sid in a.accepted
    && a.issued[sid] != []
    && Distinct(a.issued[sid])
    && (forall j | j in a.issued[sid] :: j in a.drawn && j != "")
    && a.accepted[sid] == a.issued[sid][..|a.issued[sid]| - 1]
    && (Live(a.store, sid) ==> a.store.sessions[sid].jti == Some(a.issued[sid][|a.issued[sid]| - 1]))
  }

  ghost predicate ChainsOk(a: Auth) {
    forall sid | sid in a.used :: Chained(a, sid)
  }

  ghost predicate Inv(a: Auth, ttl: nat) {
    IndexOk(a.store, ttl) && Known(a) && ChainsOk(a)
  }

  // ----- every call keeps the invariant -----

  lemma LoginKeeps(a: Auth, ttl: nat, user: Uid, sid: Sid, jti: Jti, ip: string, agent: string)
    requires Inv(a, ttl)
    ensures Inv(Serve(a, ttl, Login(user, sid, jti, ip, agent)), ttl)
  {
    var b := Serve(a, ttl, Login(user, sid, jti, ip, agent));
    if b != a {
      CreateKeepsIndex(a.store, ttl, user, sid, jti, ip, agent);
      forall other | other in b.used ensures Chained(b, other) {
        if other != sid {
          assert Chained(a, other);
        } else {
          assert [jti][..0] == [];
        }
      }
    }
  }

  lemma RotationKeeps(a: Auth, ttl: nat, sid: Sid, jti: Jti, user: Uid, newJti: Jti)
    requires Inv(a, ttl) && newJti !in a.drawn && newJti != "" && sid != "" && jti != ""
    requires Validates(a.store, sid, jti, user)
    ensures sid in a.issued && sid in a.accepted
    ensures Inv(a.(store := Rotate(a.store, ttl, sid, user, newJti), drawn := a.drawn + {newJti},
                   issued := a.issued[sid := a.issued[sid] + [newJti]],
                   accepted := a.accepted[sid := a.accepted[sid] + [jti]]), ttl)
  {
    assert Chained(a, sid);
    assert Indexed(a.store, ttl, sid);
    RotateKeepsIndex(a.store, ttl, sid, user, newJti);
    var b := a.(store := Rotate(a.store, ttl, sid, user, newJti), drawn := a.drawn + {newJti},
                issued := a.issued[sid := a.issued[sid] + [newJti]],
                accepted := a.accepted[sid := a.accepted[sid] + [jti]]);
    forall other | other in b.used ensures Chained(b, other) {
      assert Chained(a, other);
      if other == sid {
        var old_, now := a.issued[sid], b.issued[sid];
        assert now[..|now| - 1] == old_;
        assert old_ == old_[..|old_| - 1] + [jti];
        forall j | j in now ensures j in b.drawn && j != "" {
          assert j in old_ || j == newJti;
        }
      }
    }
  }

  lemma RefreshKeeps(a: Auth, ttl: nat, sid: Sid, jti: Jti, user: Uid, newJti: Jti, active: bool)
    requires Inv(a, ttl)
    ensures Inv(Serve(a, ttl, Refresh(sid, jti, user, newJti, active)), ttl)
  {
    if newJti !in a.drawn && newJti != "" {
      if sid == "" || jti == "" || !Validates(a.store, sid, jti, user) {
        RevokeKeepsIndex(a.store, ttl, sid);
      } else {
        RotationKeeps(a, ttl, sid, jti, user, newJti);
        if !active {
          var b := Serve(a, ttl, Refresh(sid, jti, user, newJti, true));
          RevokeKeepsIndex(b.store, ttl, sid);
        }
      }
    }
  }

  lemma ServeKeeps(a: Auth, ttl: nat, call: Call)
    requires Inv(a, ttl)
    ensures Inv(Serve(a, ttl, call), ttl)
  {
    var st := a.store;
    match call
    case Login(user, sid, jti, ip, agent) => LoginKeeps(a, ttl, user, sid, jti, ip, agent);
    case Refresh(sid, jti, user, newJti, active) => RefreshKeeps(a, ttl, sid, jti, user, newJti, active);
    case Logout(sid) => RevokeKeepsIndex(st, ttl, sid);
    case LogoutAll(user) => RevokeAllEndsExactly(st, ttl, user);
    case LogoutOthers(user, keep) =>
      RevokeAllEndsExactly(st, ttl, user);
      RevokeOthersEndsExactly(st, ttl, user, keep);
    case Tick(d) => WaitKeepsIndex(st, ttl, d);
  }

  lemma {:induction false} RunKeeps(a: Auth, ttl: nat, calls: seq<Call>)
    requires Inv(a, ttl)
    ensures Inv(Run(a, ttl, calls), ttl)
    decreases |calls|
  {
    if calls != [] {
      ServeKeeps(a, ttl, calls[0]);
      RunKeeps(Serve(a, ttl, calls[0]), ttl, calls[1..]);
    }
  }

  ghost predicate Reachable(a: Auth, ttl: nat) {
    exists calls :: a == Run(NOBODY, ttl, calls)
  }

  lemma ReachableInv(a: Auth, ttl: nat)
    requires Reachable(a, ttl)
    ensures Inv(a, ttl)
  {
    var calls :| a == Run(NOBODY, ttl, calls);
    RunKeeps(NOBODY, ttl, calls);
  }

  // ----- the promises -----

  // The store methods a call sends that change the store.
  function MethodsOf(a: Auth, call: Call): seq<SessionIndex.Step> {
    match call
    case Login(user, sid, jti, ip, agent) =>
      if sid in a.used || sid == "" || jti in a.drawn || jti == "" || user == "" then []
      else [DoCreate(user, sid, jti, ip, agent)]
    case Refresh(sid, jti, user, newJti, active) =>
      if newJti in a.drawn || newJti == "" then []
      else if sid == "" || jti == "" || !Validates(a.store, sid, jti, user) then [DoRevoke(sid)]
      else if active then [DoRotate(sid, user, newJti)]
      else [DoRotate(sid, user, newJti), DoRevoke(sid)]
    case Logout(sid) => [DoRevoke(sid)]
    case LogoutAll(user) => [DoRevokeAll(user)]
    case LogoutOthers(user, keep) => if keep == "" then [DoRevokeAll(user)] else [DoRevokeOthers(user, keep)]
    case Tick(d) => [Pass(d)]
  }

  // A call is the run of its store methods.
  lemma CallIsItsMethods(a: Auth, ttl: nat, call: Call)
    ensures SessionIndex.Run(SessionIndex.State(a.store, a.used), ttl, MethodsOf(a, call))
         == SessionIndex.State(Serve(a, ttl, call).store, Serve(a, ttl, call).used)
  {
    var ms := MethodsOf(a, call);
    if |ms| == 1 {
      assert ms[1..] == [];
    } else if |ms| == 2 {
      var s := SessionIndex.State(a.store, a.used);
      var t := SessionIndex.Do(s, ttl, ms[0]);
      assert ms[1..] == [ms[1]] && [ms[1]][1..] == [];
      assert SessionIndex.Run(t, ttl, [ms[1]]) == SessionIndex.Do(t, ttl, ms[1]);
    }
  }

  // So every run of calls is a run of store methods, and what every run of those keeps holds here too.
  lemma {:induction false} RunIsMethods(a: Auth, ttl: nat, calls: seq<Call>) returns (steps: seq<SessionIndex.Step>)
    ensures SessionIndex.Run(SessionIndex.State(a.store, a.used), ttl, steps)
         == SessionIndex.State(Run(a, ttl, calls).store, Run(a, ttl, calls).used)
    decreases |calls|
  {
    if calls == [] {
      steps := [];
    } else {
      var rest := RunIsMethods(Serve(a, ttl, calls[0]), ttl, calls[1..]);
      CallIsItsMethods(a, ttl, calls[0]);
      steps := MethodsOf(a, calls[0]) + rest;
      SessionIndex.RunAppend(SessionIndex.State(a.store, a.used), ttl, MethodsOf(a, calls[0]), rest);
    }
  }

  // The accepted tokens of a session are exactly its issued ones in order, without the newest, and
  // none is accepted twice.
  lemma TokensFormAChain(a: Auth, ttl: nat, sid: Sid)
    requires Reachable(a, ttl) && sid in a.used
    ensures sid in a.issued && sid in a.accepted && a.issued[sid] != []
    ensures a.accepted[sid] == a.issued[sid][..|a.issued[sid]| - 1]
    ensures Distinct(a.accepted[sid])
    ensures Live(a.store, sid) ==> a.store.sessions[sid].jti == Some(a.issued[sid][|a.issued[sid]| - 1])
  {
    ReachableInv(a, ttl);
    assert Chained(a, sid);
  }

  predicate Dead(a: Auth, sid: Sid) {
    sid in a.used && !Live(a.store, sid)
  }

  lemma DeadStaysDeadOneCall(a: Auth, ttl: nat, call: Call, sid: Sid)
    requires Dead(a, sid)
    ensures Dead(Serve(a, ttl, call), sid)
  {
  }

  lemma {:induction false} DeadStaysDead(a: Auth, ttl: nat, calls: seq<Call>, sid: Sid)
    requires Dead(a, sid)
    ensures Dead(Run(a, ttl, calls), sid)
    decreases |calls|
  {
    if calls != [] {
      DeadStaysDeadOneCall(a, ttl, calls[0], sid);
      DeadStaysDead(Serve(a, ttl, calls[0]), ttl, calls[1..], sid);
    }
  }

  // Presenting a token that has been accepted before ends the session, and from then on no token of
  // that session is ever granted again.
  lemma ReuseEndsTheSession(a: Auth, ttl: nat, sid: Sid, old_: Jti, user: Uid, fresh_: Jti, active: bool,
                            calls: seq<Call>, jti: Jti, anyUser: Uid)
    requires Reachable(a, ttl) && sid in a.used && sid in a.accepted && old_ in a.accepted[sid]
    requires fresh_ !in a.drawn && fresh_ != ""
    ensures var b := Serve(a, ttl, Refresh(sid, old_, user, fresh_, active));
      Dead(b, sid) && b.accepted == a.accepted
      && !Validates(Run(b, ttl, calls).store, sid, jti, anyUser)
  {
    ReachableInv(a, ttl);
    assert Chained(a, sid);
    var b := Serve(a, ttl, Refresh(sid, old_, user, fresh_, active));
    RevokeKeepsIndex(a.store, ttl, sid);
    assert !Validates(a.store, sid, old_, user);
    DeadStaysDead(b, ttl, calls, sid);
  }
}
