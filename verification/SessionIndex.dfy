/**
 The per-user index of sessions under atomic store methods, called with any arguments in any order by
 any number of callers: it misses no live session, so the revokes end exactly what they name.
 */
module SessionIndex {
  import opened Common
  import opened Sessions

  // One call of a store method, or time passing.
  datatype Step =
    | DoCreate(user: Uid, sid: Sid, jti: Jti, ip: string, agent: string)
    | DoRotate(sid: Sid, user: Uid, jti: Jti)
    | DoRevoke(sid: Sid)
    | DoRevokeAll(user: Uid)
    | DoRevokeOthers(user: Uid, keep: Sid)
    | Pass(d: nat)

  // used: the session ids drawn so far.
  datatype State = State(store: Store, used: set<Sid>)

  function Do(s: State, ttl: nat, step: Step): State {
    match step
    case DoCreate(user, sid, jti, ip, agent) =>
      // a session id is drawn afresh, and the user id is that of a stored user
      if sid in s.used || user == "" then s
      else State(Create(s.store, ttl, user, sid, jti, ip, agent), s.used + {sid})
    case DoRotate(sid, user, jti) => s.(store := Rotate(s.store, ttl, sid, user, jti))
    case DoRevoke(sid) => s.(store := Revoke(s.store, sid))
    case DoRevokeAll(user) => s.(store := RevokeAll(s.store, user))
    case DoRevokeOthers(user, keep) => s.(store := RevokeOthers(s.store, user, keep))
    case Pass(d) => s.(store := Wait(s.store, d))
  }

  function Run(s: State, ttl: nat, steps: seq<Step>): State
    decreases |steps|
  {
    if steps == [] then s else Run(Do(s, ttl, steps[0]), ttl, steps[1..])
  }

  // ----- the invariant -----

  // A live session is indexed under its user, and the index outlives it.
  ghost predicate Indexed(st: Store, ttl: nat, sid: Sid)
    requires Live(st, sid)
  {
    var s := st.sessions[sid];
    && s.uid.Some? && s.uid.value != ""
    && LiveIndex(st, s.uid.value)
    && sid in st.indexes[s.uid.value].sids
    && s.expires <= st.indexes[s.uid.value].expires
    && s.expires <= st.now + ttl
  }

  ghost predicate IndexComplete(st: Store, ttl: nat) {
    forall sid | Live(st, sid) :: Indexed(st, ttl, sid)
  }

  // An index names no other user's session.
  ghost predicate IndexSound(st: Store) {
    forall user, sid | sid in MembersOf(st, user) && Live(st, sid) :: st.sessions[sid].uid == Some(user)
  }

  // ----- what each store method keeps -----

  ghost predicate IndexOk(st: Store, ttl: nat) {
    IndexComplete(st, ttl) && IndexSound(st)
  }

  // Only sessions disappear, and with them only their own index entries.
  ghost predicate Shrinks(st: Store, t: Store) {
    && t.now == st.now
    && (forall sid | sid in t.sessions :: sid in st.sessions && t.sessions[sid] == st.sessions[sid])
    && (forall user | user in t.indexes ::
          user in st.indexes && t.indexes[user].sids <= st.indexes[user].sids
          && t.indexes[user].expires == st.indexes[user].expires)
  }

  lemma RevokeKeepsIndex(st: Store, ttl: nat, sid: Sid)
    requires IndexOk(st, ttl)
    ensures IndexOk(Revoke(st, sid), ttl) && Shrinks(st, Revoke(st, sid))
    ensures !Live(Revoke(st, sid), sid) || sid == ""
    ensures forall other | other != sid :: Live(Revoke(st, sid), other) == Live(st, other)
  {
    var t := Revoke(st, sid);
    forall other | Live(t, other) ensures Indexed(t, ttl, other) {
      assert Indexed(st, ttl, other);
    }
    if sid != "" && Live(st, sid) {
      assert Indexed(st, ttl, sid);
    }
  }

  // Logging out everywhere ends exactly the user's live sessions.
  lemma RevokeAllEndsExactly(st: Store, ttl: nat, user: Uid)
    requires IndexOk(st, ttl)
    ensures IndexOk(RevokeAll(st, user), ttl) && Shrinks(st, RevokeAll(st, user))
    ensures forall sid :: Live(RevokeAll(st, user), sid) <==> Live(st, sid) && st.sessions[sid].uid != Some(user)
  {
    var t := RevokeAll(st, user);
    forall sid ensures Live(t, sid) <==> Live(st, sid) && st.sessions[sid].uid != Some(user) {
      if Live(st, sid) {
        assert Indexed(st, ttl, sid);
      }
    }
    forall sid | Live(t, sid) ensures Indexed(t, ttl, sid) {
      assert Indexed(st, ttl, sid);
    }
  }

  // Logging out the other devices ends exactly the user's live sessions but the kept one.
  lemma RevokeOthersEndsExactly(st: Store, ttl: nat, user: Uid, keep: Sid)
    requires IndexOk(st, ttl)
    ensures IndexOk(RevokeOthers(st, user, keep), ttl) && Shrinks(st, RevokeOthers(st, user, keep))
    ensures forall sid :: Live(RevokeOthers(st, user, keep), sid)
              <==> Live(st, sid) && (st.sessions[sid].uid != Some(user) || sid == keep)
  {
    var t := RevokeOthers(st, user, keep);
    var others := MembersOf(st, user) - {keep};
    forall sid
      ensures Live(t, sid) <==> Live(st, sid) && (st.sessions[sid].uid != Some(user) || sid == keep)
    {
      assert sid in others <==> sid in MembersOf(st, user) && sid != keep;
      if Live(st, sid) {
        assert Indexed(st, ttl, sid);
      }
    }
    forall sid | Live(t, sid) ensures Indexed(t, ttl, sid) {
      assert Indexed(st, ttl, sid);
    }
  }

  lemma CreateKeepsIndex(st: Store, ttl: nat, user: Uid, sid: Sid, jti: Jti, ip: string, agent: string)
    requires IndexOk(st, ttl) && user != "" && sid !in st.sessions
    requires forall u | u in st.indexes :: sid !in st.indexes[u].sids
    ensures IndexOk(Create(st, ttl, user, sid, jti, ip, agent), ttl)
  {
    var t := Create(st, ttl, user, sid, jti, ip, agent);
    forall other | Live(t, other) ensures Indexed(t, ttl, other) {
      if other != sid {
        assert Indexed(st, ttl, other);
      }
    }
  }

  lemma RotateKeepsIndex(st: Store, ttl: nat, sid: Sid, user: Uid, jti: Jti)
    requires IndexOk(st, ttl)
    ensures IndexOk(Rotate(st, ttl, sid, user, jti), ttl)
  {
    var t := Rotate(st, ttl, sid, user, jti);
    if Live(st, sid) {
      assert Indexed(st, ttl, sid);
    }
    forall other | Live(t, other) ensures Indexed(t, ttl, other) {
      assert Live(st, other) && Indexed(st, ttl, other);
    }
  }

  lemma WaitKeepsIndex(st: Store, ttl: nat, d: nat)
    requires IndexOk(st, ttl)
    ensures IndexOk(Wait(st, d), ttl)
  {
    var t := Wait(st, d);
    forall sid | Live(t, sid) ensures Indexed(t, ttl, sid) {
      assert Live(st, sid) && Indexed(st, ttl, sid);
    }
  }

  // ----- every run of store methods -----

  ghost predicate Inv(s: State, ttl: nat) {
    && IndexOk(s.store, ttl)
    && s.store.sessions.Keys <= s.used
    && (forall user | user in s.store.indexes :: s.store.indexes[user].sids <= s.used)
  }

  lemma DoKeeps(s: State, ttl: nat, step: Step)
    requires Inv(s, ttl)
    ensures Inv(Do(s, ttl, step), ttl)
  {
    match step
    case DoCreate(user, sid, jti, ip, agent) =>
      if sid !in s.used && user != "" {
        CreateKeepsIndex(s.store, ttl, user, sid, jti, ip, agent);
      }
    case DoRotate(sid, user, jti) => RotateKeepsIndex(s.store, ttl, sid, user, jti);
    case DoRevoke(sid) => RevokeKeepsIndex(s.store, ttl, sid);
    case DoRevokeAll(user) => RevokeAllEndsExactly(s.store, ttl, user);
    case DoRevokeOthers(user, keep) => RevokeOthersEndsExactly(s.store, ttl, user, keep);
    case Pass(d) => WaitKeepsIndex(s.store, ttl, d);
  }

  lemma {:induction false} RunKeeps(s: State, ttl: nat, steps: seq<Step>)
    requires Inv(s, ttl)
    ensures Inv(Run(s, ttl, steps), ttl)
    decreases |steps|
  {
    if steps != [] {
      DoKeeps(s, ttl, steps[0]);
      RunKeeps(Do(s, ttl, steps[0]), ttl, steps[1..]);
    }
  }

  lemma {:induction false} RunAppend(s: State, ttl: nat, a: seq<Step>, b: seq<Step>)
    ensures Run(s, ttl, a + b) == Run(Run(s, ttl, a), ttl, b)
    decreases |a|
  {
    if a == [] {
      assert a + b == b;
    } else {
      assert (a + b)[1..] == a[1..] + b;
      RunAppend(Do(s, ttl, a[0]), ttl, a[1..], b);
    }
  }

  const START := State(EMPTY, {})

  // After any store methods: revoke_all ends exactly this user's sessions, revoke_others keeps exactly
  // one of them, and every session that lives on is unchanged.
  lemma LogoutsEndExactly(ttl: nat, steps: seq<Step>, user: Uid, keep: Sid, sid: Sid)
    ensures var st := Run(START, ttl, steps).store;
      var all, others := RevokeAll(st, user), RevokeOthers(st, user, keep);
      && (Live(all, sid) <==> Live(st, sid) && st.sessions[sid].uid != Some(user))
      && (Live(all, sid) ==> all.sessions[sid] == st.sessions[sid])
      && (Live(others, sid) <==> Live(st, sid) && (st.sessions[sid].uid != Some(user) || sid == keep))
      && (Live(others, sid) ==> others.sessions[sid] == st.sessions[sid])
  {
    RunKeeps(START, ttl, steps);
    var st := Run(START, ttl, steps).store;
    RevokeAllEndsExactly(st, ttl, user);
    RevokeOthersEndsExactly(st, ttl, user, keep);
  }

  // After any store methods the index of a user holds every live session of that user, and no one
  // else's, and expires no earlier than any of them.
  lemma IndexIsExact(ttl: nat, steps: seq<Step>, user: Uid)
    requires user != ""
    ensures var st := Run(START, ttl, steps).store;
      && (set sid | sid in MembersOf(st, user) && Live(st, sid))
         == (set sid | sid in st.sessions && Live(st, sid) && st.sessions[sid].uid == Some(user))
      && (forall sid | sid in st.sessions && Live(st, sid) && st.sessions[sid].uid == Some(user) ::
            user in st.indexes && st.sessions[sid].expires <= st.indexes[user].expires)
  {
    RunKeeps(START, ttl, steps);
    var st := Run(START, ttl, steps).store;
    forall sid | sid in st.sessions && Live(st, sid) && st.sessions[sid].uid == Some(user)
      ensures sid in MembersOf(st, user) && st.sessions[sid].expires <= st.indexes[user].expires
    {
      assert Indexed(st, ttl, sid);
    }
  }
}
