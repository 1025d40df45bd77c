/** How long sessions live, and what the commands write into them and leave alone. */
module SessionLives {
  import opened Common
  import opened Sessions
  import opened SessionIndex
  import opened SessionStore

  // ----- creation -----

  // A new session is valid, with its own token and for its own user, for exactly the time to live, and
  // listed exactly as long.
  lemma CreateLives(st: Store, ttl: nat, user: Uid, sid: Sid, jti: Jti, ip: string, agent: string, d: nat)
    ensures var t := Wait(Create(st, ttl, user, sid, jti, ip, agent), d);
      && (forall j, u :: Validates(t, sid, j, u) <==> d < ttl && j == jti && u == user)
      && (sid in MembersOf(t, user) <==> d < ttl)
      && (forall other | other != sid :: Live(t, other) == Live(Wait(st, d), other))
  {
  }

  // It is listed with the time it was created and last used, and the address and agent it came from.
  lemma CreatedLine(st: Store, ttl: nat, user: Uid, sid: Sid, jti: Jti, ip: string, agent: string)
    requires 0 < ttl
    ensures var t := Create(st, ttl, user, sid, jti, ip, agent);
      Listed(sid, Some(st.now), Some(st.now), if ip == "" then None else Some(ip), if agent == "" then None else Some(agent))
      in LinesOf(t, MembersOf(t, user))
  {
    var t := Create(st, ttl, user, sid, jti, ip, agent);
    assert sid in MembersOf(t, user) && Live(t, sid);
  }

  // ----- rotation -----

  // A rotation starts the time to live anew: from then on the new token is valid for exactly that long,
  // and no other token is.
  lemma RotateRenews(st: Store, ttl: nat, sid: Sid, user: Uid, jti: Jti, d: nat)
    requires RotateRead(st, sid, user)
    ensures var t := Wait(Rotate(st, ttl, sid, user, jti), d);
      && (forall j, u :: Validates(t, sid, j, u) <==> d < ttl && j == jti && u == user)
      && (forall other | other != sid :: Live(t, other) == Live(Wait(st, d), other))
  {
  }

  // It renews the user's index as well, with the members it had.
  lemma RotateRenewsTheIndex(st: Store, ttl: nat, sid: Sid, user: Uid, jti: Jti, d: nat)
    requires RotateRead(st, sid, user) && LiveIndex(st, user)
    ensures var t := Wait(Rotate(st, ttl, sid, user, jti), d);
      && (LiveIndex(t, user) <==> d < ttl)
      && (d < ttl ==> MembersOf(t, user) == MembersOf(st, user))
      && (forall u | u != user :: MembersOf(t, u) == MembersOf(Wait(st, d), u))
  {
  }

  // And it changes nothing of the session but its token, the time it was last used and its expiry.
  lemma RotateKeepsTheRest(st: Store, ttl: nat, sid: Sid, user: Uid, jti: Jti)
    requires RotateRead(st, sid, user)
    ensures var before, after := st.sessions[sid], Rotate(st, ttl, sid, user, jti).sessions[sid];
      && after.uid == before.uid && after.created == before.created && after.ip == before.ip
      && after.agent == before.agent && after.lastUsed == Some(st.now)
    ensures forall other | other in st.sessions && other != sid ::
      other in Rotate(st, ttl, sid, user, jti).sessions
      && Rotate(st, ttl, sid, user, jti).sessions[other] == st.sessions[other]
  {
  }

  // Exactly the live sessions of that user are rotated; for any other, nothing changes.
  lemma RotateOnlyOwn(st: Store, ttl: nat, sid: Sid, user: Uid, jti: Jti)
    requires user != ""
    ensures (Live(st, sid) && st.sessions[sid].uid == Some(user)) <==> RotateRead(st, sid, user)
    ensures !RotateRead(st, sid, user) ==> Rotate(st, ttl, sid, user, jti) == st
  {
  }

  // ----- revocation -----

  // Each revocation takes what it ends out of the user's index, leaves the other members there, and
  // touches no other user's.
  lemma RevokedAreForgotten(st: Store, sid: Sid, user: Uid, keep: Sid)
    requires user != ""
    ensures RevokeRead(st, sid) == user ==> MembersOf(Revoke(st, sid), user) == MembersOf(st, user) - {sid}
    ensures MembersOf(RevokeAll(st, user), user) == {}
    ensures MembersOf(RevokeOthers(st, user, keep), user) == MembersOf(st, user) * {keep}
    ensures forall u | u != user ::
      && (RevokeRead(st, sid) == user ==> MembersOf(Revoke(st, sid), u) == MembersOf(st, u))
      && MembersOf(RevokeAll(st, user), u) == MembersOf(st, u)
      && MembersOf(RevokeOthers(st, user, keep), u) == MembersOf(st, u)
  {
  }

  // And it leaves the hashes of all other sessions as they were.
  lemma RevokedAlone(st: Store, sid: Sid, user: Uid, keep: Sid, other: Sid)
    requires other in st.sessions
    ensures other != sid ==> other in Revoke(st, sid).sessions && Revoke(st, sid).sessions[other] == st.sessions[other]
    ensures other !in MembersOf(st, user) ==>
      other in RevokeAll(st, user).sessions && RevokeAll(st, user).sessions[other] == st.sessions[other]
    ensures other !in MembersOf(st, user) || other == keep ==>
      other in RevokeOthers(st, user, keep).sessions && RevokeOthers(st, user, keep).sessions[other] == st.sessions[other]
  {
  }

  // ----- in every run -----

  // The step is neither a rotation nor a revocation of the session, which is `user`'s.
  predicate LeavesAlone(step: Step, sid: Sid, user: Uid) {
    match step
    case DoCreate(_, other, _, _, _) => other != sid
    case DoRotate(other, _, _) => other != sid
    case DoRevoke(other) => other != sid
    case DoRevokeAll(u) => u != user
    case DoRevokeOthers(u, keep) => u != user || keep == sid
    case Pass(_) => true
  }

  predicate AllLeaveAlone(steps: seq<Step>, sid: Sid, user: Uid) {
    forall i | 0 <= i < |steps| :: LeavesAlone(steps[i], sid, user)
  }

  function Passed(steps: seq<Step>): nat {
    if steps == [] then 0 else (if steps[0].Pass? then steps[0].d else 0) + Passed(steps[1..])
  }

  // A session that nobody rotates or revokes lives exactly until the time to live since it was last
  // created or rotated has passed, whatever happens to others meanwhile.
  lemma {:induction false} LeftAloneLives(s: State, ttl: nat, steps: seq<Step>, sid: Sid, user: Uid)
    requires Inv(s, ttl) && Live(s.store, sid) && s.store.sessions[sid].uid == Some(user)
    requires AllLeaveAlone(steps, sid, user)
    ensures Live(Run(s, ttl, steps).store, sid) <==> s.store.now + Passed(steps) < s.store.sessions[sid].expires
    decreases |steps|
  {
    if steps != [] {
      var t := Do(s, ttl, steps[0]);
      DoKeeps(s, ttl, steps[0]);
      assert forall i | 0 <= i < |steps[1..]| :: steps[1..][i] == steps[i + 1];
      if Live(t.store, sid) {
        LeftAloneLives(t, ttl, steps[1..], sid, user);
      } else {
        ExpiredStays(t, ttl, steps[1..], sid);
      }
    }
  }

  lemma {:induction false} ExpiredStays(s: State, ttl: nat, steps: seq<Step>, sid: Sid)
    requires sid in s.used && !Live(s.store, sid)
    ensures !Live(Run(s, ttl, steps).store, sid)
    decreases |steps|
  {
    if steps != [] {
      assert sid in Do(s, ttl, steps[0]).used && !Live(Do(s, ttl, steps[0]).store, sid);
      ExpiredStays(Do(s, ttl, steps[0]), ttl, steps[1..], sid);
    }
  }

  // So a refresh keeps its user logged in for exactly the time to live, if nobody rotates or revokes the
  // session, and the new token stays the valid one.
  lemma RefreshKeepsLoggedIn(s: State, ttl: nat, sid: Sid, user: Uid, jti: Jti, steps: seq<Step>)
    requires Inv(s, ttl) && RotateRead(s.store, sid, user) && user != "" && 0 < ttl
    requires AllLeaveAlone(steps, sid, user)
    ensures var t := Run(Do(s, ttl, DoRotate(sid, user, jti)), ttl, steps).store;
      Live(t, sid) <==> Passed(steps) < ttl
  {
    var t := Do(s, ttl, DoRotate(sid, user, jti));
    DoKeeps(s, ttl, DoRotate(sid, user, jti));
    LeftAloneLives(t, ttl, steps, sid, user);
  }
}
