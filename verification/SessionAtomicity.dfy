/** How whole session calls relate to their commands, and what is lost when the commands interleave. */
module SessionAtomicity {
  import opened Common
  import opened Sessions
  import opened SessionIndex
  import SessionRaces
  import SessionRuns

  // The commands of one refresh, in order; the branch not taken finds its commands disabled.
  function WholeRefresh(c: Id, sid: Sid, jti: Jti, user: Uid, newJti: Jti, active: bool): seq<SessionRaces.Event> {
    [SessionRaces.Validate(c, sid, jti, user), SessionRaces.StartRotate(c)]
    + ([SessionRaces.FinishRotate(c, newJti), SessionRaces.CheckUser(c, active)]
       + ([SessionRaces.StartRevoke(c), SessionRaces.FinishRevoke(c)] + []))
  }

  // A refresh that nothing interrupts leaves the store and grants the pair as the whole call does.
  lemma RefreshAlone(s: SessionRaces.State, ttl: nat, c: Id, sid: Sid, jti: Jti, user: Uid, newJti: Jti, active: bool)
    requires c !in s.clients && sid != "" && jti != "" && SessionRaces.Fresh(s, newJti)
    ensures var r := SessionRuns.RefreshStore(s.store, ttl, sid, jti, user, newJti, active);
      SessionRaces.Run(s, ttl, WholeRefresh(c, sid, jti, user, newJti, active))
      == s.(store := r.store, drawn := if r.rotated then s.drawn + {newJti} else s.drawn,
            clients := if r.granted then s.clients[c := SessionRaces.Refreshed(sid, newJti)] else s.clients)
  {
    var last := [SessionRaces.StartRevoke(c), SessionRaces.FinishRevoke(c)] + [];
    var middle := [SessionRaces.FinishRotate(c, newJti), SessionRaces.CheckUser(c, active)] + last;
    SessionRaces.RunTwo(s, ttl, SessionRaces.Validate(c, sid, jti, user), SessionRaces.StartRotate(c), middle);
    var valid := Validates(s.store, sid, jti, user);
    var s2 := s.(clients := s.clients[c := if valid then SessionRaces.ReadyToRotate(sid, user)
                                           else SessionRaces.WantsRevoke(sid)]);
    assert SessionRaces.Next(SessionRaces.Next(s, ttl, SessionRaces.Validate(c, sid, jti, user)), ttl,
                             SessionRaces.StartRotate(c)).clients == s2.clients;
    SessionRaces.RunTwo(s2, ttl, SessionRaces.FinishRotate(c, newJti), SessionRaces.CheckUser(c, active), last);
    var s4 := SessionRaces.Next(SessionRaces.Next(s2, ttl, SessionRaces.FinishRotate(c, newJti)), ttl,
                                SessionRaces.CheckUser(c, active));
    SessionRaces.RunTwo(s4, ttl, SessionRaces.StartRevoke(c), SessionRaces.FinishRevoke(c), []);
    RefreshEnds(s, s4, ttl, c, sid, jti, user, newJti, active);
  }

  lemma RefreshEnds(s: SessionRaces.State, s4: SessionRaces.State, ttl: nat, c: Id, sid: Sid, jti: Jti, user: Uid,
                    newJti: Jti, active: bool)
    requires c !in s.clients && sid != "" && jti != ""
    requires var valid := Validates(s.store, sid, jti, user);
      && s4.used == s.used && s4.drawn == (if valid then s.drawn + {newJti} else s.drawn)
      && s4.store == (if valid then Rotate(s.store, ttl, sid, user, newJti) else s.store)
      && s4.clients == s.clients[c := if valid && active then SessionRaces.Refreshed(sid, newJti)
                                      else SessionRaces.WantsRevoke(sid)]
    ensures var r := SessionRuns.RefreshStore(s.store, ttl, sid, jti, user, newJti, active);
      SessionRaces.Next(SessionRaces.Next(s4, ttl, SessionRaces.StartRevoke(c)), ttl, SessionRaces.FinishRevoke(c))
      == s.(store := r.store, drawn := if r.rotated then s.drawn + {newJti} else s.drawn,
            clients := if r.granted then s.clients[c := SessionRaces.Refreshed(sid, newJti)] else s.clients)
  {
    var t := SessionRaces.Next(SessionRaces.Next(s4, ttl, SessionRaces.StartRevoke(c)), ttl, SessionRaces.FinishRevoke(c));
    if s4.clients[c].WantsRevoke? {
      assert t.clients == s.clients;
    }
  }

  // A logout, of whatever kind, that nothing interrupts leaves the store as the whole call does, and
  // its client is done.
  lemma LogoutAlone(s: SessionRaces.State, ttl: nat, c: Id, sid: Sid)
    requires c !in s.clients
    ensures SessionRaces.Run(s, ttl, [SessionRaces.Logout(c, sid), SessionRaces.StartRevoke(c)]
                                     + ([SessionRaces.FinishRevoke(c), SessionRaces.Tick(0)] + []))
         == s.(store := Revoke(s.store, sid))
  {
    var last := [SessionRaces.FinishRevoke(c), SessionRaces.Tick(0)] + [];
    SessionRaces.RunTwo(s, ttl, SessionRaces.Logout(c, sid), SessionRaces.StartRevoke(c), last);
    var t := SessionRaces.Next(SessionRaces.Next(s, ttl, SessionRaces.Logout(c, sid)), ttl, SessionRaces.StartRevoke(c));
    SessionRaces.RunTwo(t, ttl, SessionRaces.FinishRevoke(c), SessionRaces.Tick(0), []);
    assert RevokeRead(s.store, sid) == "" ==> t.clients == s.clients;
    assert RevokeRead(s.store, sid) != "" ==> SessionRaces.Next(t, ttl, SessionRaces.FinishRevoke(c)).clients == s.clients;
  }

  lemma LogoutEverywhereAlone(s: SessionRaces.State, ttl: nat, c: Id, user: Uid, keep: Sid)
    requires c !in s.clients
    ensures SessionRaces.Run(s, ttl, [SessionRaces.StartRevokeAll(c, user), SessionRaces.FinishRevokeAll(c)] + [])
         == s.(store := RevokeAll(s.store, user))
    ensures SessionRaces.Run(s, ttl, [SessionRaces.StartRevokeOthers(c, user, keep), SessionRaces.FinishRevokeOthers(c)] + [])
         == s.(store := RevokeOthers(s.store, user, keep))
  {
    SessionRaces.RunTwo(s, ttl, SessionRaces.StartRevokeAll(c, user), SessionRaces.FinishRevokeAll(c), []);
    SessionRaces.RunTwo(s, ttl, SessionRaces.StartRevokeOthers(c, user, keep), SessionRaces.FinishRevokeOthers(c), []);
    assert s.clients[c := SessionRaces.ReadyToRevokeAll(user, MembersOf(s.store, user))] - {c} == s.clients;
    assert s.clients[c := SessionRaces.ReadyToRevokeOthers(user, MembersOf(s.store, user) - {keep})] - {c} == s.clients;
  }

  // A login, with identifiers not drawn before, is there at once; a client that crashes is gone, and what
  // it had written stays.
  lemma LoginAndCrash(s: SessionRaces.State, ttl: nat, user: Uid, sid: Sid, jti: Jti, ip: string, agent: string, c: Id)
    requires sid !in s.used && sid != "" && SessionRaces.Fresh(s, jti) && user != ""
    ensures var t := SessionRaces.Next(s, ttl, SessionRaces.Login(user, sid, jti, ip, agent));
      && t.store == Create(s.store, ttl, user, sid, jti, ip, agent) && t.clients == s.clients
      && sid in t.used && !SessionRaces.Fresh(t, jti)
    ensures SessionRaces.Next(s, ttl, SessionRaces.Crash(c)) == s.(clients := s.clients - {c})
  {
    assert c !in s.clients ==> s.clients - {c} == s.clients;
  }

  // A token that validates goes on validating until exactly its session's time has come.
  lemma ExpiresExactly(s: SessionRaces.State, ttl: nat, d: nat, sid: Sid, jti: Jti, user: Uid)
    requires Validates(s.store, sid, jti, user)
    ensures Validates(SessionRaces.Next(s, ttl, SessionRaces.Tick(d)).store, sid, jti, user)
            <==> s.store.now + d < s.store.sessions[sid].expires
  {
  }

  // A refresh whose session has gone since it validated ends there and writes nothing.
  lemma RotatesOnlyLive(s: SessionRaces.State, ttl: nat, c: Id, sid: Sid, user: Uid)
    requires c in s.clients && s.clients[c] == SessionRaces.Validated(sid, user) && user != ""
    ensures var t := SessionRaces.Next(s, ttl, SessionRaces.StartRotate(c));
      && t == s.(clients := t.clients) && t.clients - {c} == s.clients - {c}
      && (c in t.clients <==> Live(s.store, sid) && s.store.sessions[sid].uid == Some(user))
      && (c in t.clients ==> t.clients[c].ReadyToRotate?)
  {
  }

  // ----- the index when the commands interleave -----

  // Every live session with an owner is in the owner's index.
  ghost predicate Complete(st: Store) {
    forall sid | Owned(st, sid) :: sid in MembersOf(st, st.sessions[sid].uid.value)
  }

  // The step is the write of a revoke_all whose list, read before, lacks a live session of the user.
  ghost predicate Misses(s: SessionRaces.State, e: SessionRaces.Event) {
    && e.FinishRevokeAll? && e.c in s.clients && s.clients[e.c].ReadyToRevokeAll?
    && s.clients[e.c].sids != {}
    && exists sid :: Missed(s.store, s.clients[e.c].user, s.clients[e.c].sids, sid)
  }

  predicate Missed(st: Store, user: Uid, sids: set<Sid>, sid: Sid) {
    Owned(st, sid) && st.sessions[sid].uid == Some(user) && sid !in sids
  }

  ghost predicate IndexInv(s: SessionRaces.State, ttl: nat) {
    && (forall sid | Owned(s.store, sid) :: sid in s.used && Indexed(s.store, ttl, sid))
    && (forall c | c in s.clients && s.clients[c].ReadyToRotate? ::
          && s.clients[c].sid in s.used
          && (Owned(s.store, s.clients[c].sid) ==>
                s.store.sessions[s.clients[c].sid].uid == Some(s.clients[c].user)))
    && (forall sid | Live(s.store, sid) :: sid in s.used)
  }

  lemma InvIsComplete(s: SessionRaces.State, ttl: nat)
    requires IndexInv(s, ttl)
    ensures Complete(s.store)
  {
    forall sid | Owned(s.store, sid) ensures sid in MembersOf(s.store, s.store.sessions[sid].uid.value) {
      assert Indexed(s.store, ttl, sid);
    }
  }

  // A session keeps its owner while it has one.
  lemma OwnerStays(s: SessionRaces.State, ttl: nat, e: SessionRaces.Event, sid: Sid)
    requires sid in s.used && Owned(SessionRaces.Next(s, ttl, e).store, sid)
    ensures Owned(s.store, sid)
    ensures SessionRaces.Next(s, ttl, e).store.sessions[sid].uid == s.store.sessions[sid].uid
  {
  }

  lemma LoginKeepsInv(s: SessionRaces.State, ttl: nat, e: SessionRaces.Event)
    requires IndexInv(s, ttl) && e.Login?
    ensures IndexInv(SessionRaces.Next(s, ttl, e), ttl)
  {
    var t := SessionRaces.Next(s, ttl, e);
    forall sid | Owned(t.store, sid) ensures sid in t.used && Indexed(t.store, ttl, sid) {
      if sid in s.used {
        OwnerStays(s, ttl, e, sid);
        assert Indexed(s.store, ttl, sid);
      }
    }
  }

  lemma RotateKeepsInv(s: SessionRaces.State, ttl: nat, e: SessionRaces.Event)
    requires IndexInv(s, ttl) && e.FinishRotate?
    ensures IndexInv(SessionRaces.Next(s, ttl, e), ttl)
  {
    var t := SessionRaces.Next(s, ttl, e);
    forall sid | Owned(t.store, sid) ensures sid in t.used && Indexed(t.store, ttl, sid) {
      assert Owned(s.store, sid) && Indexed(s.store, ttl, sid);
    }
  }

  lemma RevokeKeepsInv(s: SessionRaces.State, ttl: nat, e: SessionRaces.Event)
    requires IndexInv(s, ttl) && (e.FinishRevoke? || e.FinishRevokeOthers?)
    ensures IndexInv(SessionRaces.Next(s, ttl, e), ttl)
  {
    var t := SessionRaces.Next(s, ttl, e);
    forall sid | Owned(t.store, sid) ensures sid in t.used && Indexed(t.store, ttl, sid) {
      assert Owned(s.store, sid) && Indexed(s.store, ttl, sid);
    }
  }

  lemma RevokeAllKeepsInv(s: SessionRaces.State, ttl: nat, e: SessionRaces.Event)
    requires IndexInv(s, ttl) && e.FinishRevokeAll? && !Misses(s, e)
    ensures IndexInv(SessionRaces.Next(s, ttl, e), ttl)
  {
    var t := SessionRaces.Next(s, ttl, e);
    if t != s {
      var user, sids := s.clients[e.c].user, s.clients[e.c].sids;
      forall sid | Owned(t.store, sid) ensures sid in t.used && Indexed(t.store, ttl, sid) {
        assert Owned(s.store, sid) && Indexed(s.store, ttl, sid);
        assert sids == {} || !Missed(s.store, user, sids, sid);
      }
    }
  }

  // Every other step reads, waits or gives up.
  lemma QuietKeepsInv(s: SessionRaces.State, ttl: nat, e: SessionRaces.Event)
    requires IndexInv(s, ttl)
    requires !e.Login? && !e.FinishRotate? && !e.FinishRevoke? && !e.FinishRevokeOthers? && !e.FinishRevokeAll?
    ensures IndexInv(SessionRaces.Next(s, ttl, e), ttl)
  {
    var t := SessionRaces.Next(s, ttl, e);
    forall sid | Owned(t.store, sid) ensures sid in t.used && Indexed(t.store, ttl, sid) {
      assert Owned(s.store, sid) && Indexed(s.store, ttl, sid);
    }
  }

  lemma StepKeepsInv(s: SessionRaces.State, ttl: nat, e: SessionRaces.Event)
    requires IndexInv(s, ttl) && !Misses(s, e)
    ensures IndexInv(SessionRaces.Next(s, ttl, e), ttl)
  {
    match e
    case Login(_, _, _, _, _) => LoginKeepsInv(s, ttl, e);
    case FinishRotate(_, _) => RotateKeepsInv(s, ttl, e);
    case FinishRevoke(_) => RevokeKeepsInv(s, ttl, e);
    case FinishRevokeOthers(_) => RevokeKeepsInv(s, ttl, e);
    case FinishRevokeAll(_) => RevokeAllKeepsInv(s, ttl, e);
    case _ => QuietKeepsInv(s, ttl, e);
  }

  ghost predicate CompleteThroughout(s: SessionRaces.State, ttl: nat, events: seq<SessionRaces.Event>)
    decreases |events|
  {
    Complete(s.store) && (events == [] || CompleteThroughout(SessionRaces.Next(s, ttl, events[0]), ttl, events[1..]))
  }

  ghost predicate NeverMisses(s: SessionRaces.State, ttl: nat, events: seq<SessionRaces.Event>)
    decreases |events|
  {
    events == [] || (!Misses(s, events[0]) && NeverMisses(SessionRaces.Next(s, ttl, events[0]), ttl, events[1..]))
  }

  lemma {:induction false} CompleteFrom(s: SessionRaces.State, ttl: nat, events: seq<SessionRaces.Event>)
    requires IndexInv(s, ttl)
    ensures CompleteThroughout(s, ttl, events) <==> NeverMisses(s, ttl, events)
    decreases |events|
  {
    InvIsComplete(s, ttl);
    if events != [] {
      var t := SessionRaces.Next(s, ttl, events[0]);
      if Misses(s, events[0]) {
        var c := events[0].c;
        var sid :| Missed(s.store, s.clients[c].user, s.clients[c].sids, sid);
        assert Owned(t.store, sid) && MembersOf(t.store, s.clients[c].user) == {};
      } else {
        StepKeepsInv(s, ttl, events[0]);
        CompleteFrom(t, ttl, events[1..]);
      }
    }
  }

  // However the commands of logins, refreshes and logouts interleave, the index misses no live session
  // at any point of the run exactly when no revoke_all writes from a list that lacks one.
  lemma CompleteExactly(ttl: nat, events: seq<SessionRaces.Event>)
    ensures CompleteThroughout(SessionRaces.INIT, ttl, events) <==> NeverMisses(SessionRaces.INIT, ttl, events)
  {
    CompleteFrom(SessionRaces.INIT, ttl, events);
  }

  lemma {:induction false} OwnerSince(s: SessionRaces.State, ttl: nat, events: seq<SessionRaces.Event>, sid: Sid)
    requires sid in s.used && Owned(SessionRaces.Run(s, ttl, events).store, sid)
    ensures Owned(s.store, sid)
    ensures SessionRaces.Run(s, ttl, events).store.sessions[sid].uid == s.store.sessions[sid].uid
    decreases |events|
  {
    if events != [] {
      OwnerSince(SessionRaces.Next(s, ttl, events[0]), ttl, events[1..], sid);
      OwnerStays(s, ttl, events[0], sid);
    }
  }

  // And a list can only come to lack a session that was created after it was read: refreshes, logouts
  // of other kinds and the passing of time never do it.
  lemma MissedLoggedInSince(ttl: nat, before: seq<SessionRaces.Event>, since: seq<SessionRaces.Event>, user: Uid, sid: Sid)
    requires NeverMisses(SessionRaces.INIT, ttl, before)
    requires var s := SessionRaces.Run(SessionRaces.INIT, ttl, before);
      Missed(SessionRaces.Run(s, ttl, since).store, user, MembersOf(s.store, user), sid)
    ensures sid !in SessionRaces.Run(SessionRaces.INIT, ttl, before).used
  {
    var s := SessionRaces.Run(SessionRaces.INIT, ttl, before);
    CompleteAtEnd(SessionRaces.INIT, ttl, before);
    if sid in s.used {
      OwnerSince(s, ttl, since, sid);
    }
  }

  lemma {:induction false} CompleteAtEnd(s: SessionRaces.State, ttl: nat, events: seq<SessionRaces.Event>)
    requires IndexInv(s, ttl) && NeverMisses(s, ttl, events)
    ensures Complete(SessionRaces.Run(s, ttl, events).store)
    decreases |events|
  {
    InvIsComplete(s, ttl);
    if events != [] {
      StepKeepsInv(s, ttl, events[0]);
      CompleteAtEnd(SessionRaces.Next(s, ttl, events[0]), ttl, events[1..]);
    }
  }

  // It does happen: a login between the read and the write.
  lemma SlippedMisses()
    ensures !NeverMisses(SessionRaces.INIT, 60, SessionRaces.SLIPPED)
  {
    if NeverMisses(SessionRaces.INIT, 60, SessionRaces.SLIPPED) {
      CompleteAtEnd(SessionRaces.INIT, 60, SessionRaces.SLIPPED);
      SessionRaces.LoginSlipsThroughRevokeAll();
      assert false;
    }
  }
}
