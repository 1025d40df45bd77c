/** The authentication service as an object over the session store, one call at a time. */
module AuthService {
  import opened Common
  import opened Sessions
  import opened SessionRuns
  import SessionStore
  import Tables

  // What a refresh token says once its signature has been checked.
  datatype Payload = Payload(sub: Uid, sid: Option<Sid>, jti: Option<Jti>)

  // What both tokens of a new pair say.
  datatype Pair = Pair(user: Uid, role: string, sid: Sid, jti: Jti)

  // The refusals, and the exception on a subject that is not a uuid.
  datatype AuthError = BadToken | RevokedOrUsed | SessionGone | UserGone | BadCredentials | Inactive | NotUuid

  datatype Device = Device(line: SessionStore.Listed, current: bool)

  // The token names a live session of its subject and is its newest.
  predicate Accepts(st: Store, p: Payload) {
    Decoded(p.sid) != "" && Decoded(p.jti) != "" && Validates(st, Decoded(p.sid), Decoded(p.jti), p.sub)
  }

  class AuthService {
    const sessions: SessionStore.SessionStore
    const isUuid: Uid -> bool
    var users: map<Uid, Tables.User>  // the committed rows

    constructor (sessions: SessionStore.SessionStore, isUuid: Uid -> bool, users: map<Uid, Tables.User>)
      ensures this.sessions == sessions && this.isUuid == isUuid && this.users == users
    {
      this.sessions, this.isUuid, this.users := sessions, isUuid, users;
    }

    predicate MayLogIn(user: Uid)
      reads this
    {
      user in users && users[user].active
    }

    predicate Credentials(user: Uid, email: string, matches: string -> bool)
      reads this
    {
      && user in users && users[user].email == email
      && users[user].password.Some? && matches(users[user].password.value)
    }

    // Email addresses are unique in the table. `matches` compares a stored hash with the given password;
    // `sid` and `jti` are drawn by the session store.
    method Login(email: string, matches: string -> bool, ip: Option<string>, agent: Option<string>, sid: Sid, jti: Jti)
      returns (r: Result<Pair, AuthError>)
      requires forall u, v | u in users && v in users && users[u].email == users[v].email :: u == v
      modifies sessions
      ensures forall u | u in users && Credentials(u, email, matches) ::
                if users[u].active then r == Ok(Pair(u, users[u].role, sid, jti)) else r == Err(Inactive)
      ensures (forall u | u in users :: !Credentials(u, email, matches)) ==> r == Err(BadCredentials)
      ensures r.Err? ==> sessions.client == old(sessions.client)
      ensures r.Ok? ==> sessions.client == Sessions.Create(old(sessions.client), sessions.ttl, r.value.user, sid, jti,
                          Decoded(ip), SessionStore.SessionStore.Clipped(Decoded(agent)))
    {
      if user :| user in users && users[user].email == email {
        if users[user].password.None? || !matches(users[user].password.value) {
          return Err(BadCredentials);
        }
        if !users[user].active {
          return Err(Inactive);
        }
        var drawn := sessions.Create(user, sid, jti, ip, agent);
        return Ok(Pair(user, users[user].role, drawn.0, drawn.1));
      }
      return Err(BadCredentials);
    }

    // `token` is None when it does not decode.
    method Refresh(token: Option<Payload>, newJti: Jti) returns (r: Result<Pair, AuthError>)
      modifies sessions
      ensures token.None? ==> r == Err(BadToken) && sessions.client == old(sessions.client)
      ensures token.Some? && Accepts(old(sessions.client), token.value) && !isUuid(token.value.sub) ==>
                && r == Err(NotUuid)
                && sessions.client == Sessions.Rotate(old(sessions.client), sessions.ttl, Decoded(token.value.sid),
                                                      token.value.sub, newJti)
      ensures token.Some? && (Accepts(old(sessions.client), token.value) ==> isUuid(token.value.sub)) ==>
                var Payload(user, sid, jti) := token.value;
                var end := RefreshStore(old(sessions.client), sessions.ttl, Decoded(sid), Decoded(jti), user, newJti,
                                        MayLogIn(user));
                && sessions.client == end.store
                && (r.Ok? <==> end.granted)
                && (r.Ok? ==> r.value == Pair(user, users[user].role, Decoded(sid), newJti))
                && (r.Err? ==> r.error == if end.rotated then UserGone else RevokedOrUsed)
    {
      if token.None? {
        return Err(BadToken);
      }
      var Payload(user, sid, jti) := token.value;
      var valid := false;
      if Decoded(sid) != "" && Decoded(jti) != "" {
        valid := sessions.Validate(Decoded(sid), Decoded(jti), user);
      }
      if !valid {
        if Decoded(sid) != "" {
          var _ := sessions.Revoke(Decoded(sid));
        }
        return Err(RevokedOrUsed);
      }
      var rotated := sessions.Rotate(Decoded(sid), user, newJti);
      if rotated.None? {
        return Err(SessionGone);
      }
      if !isUuid(user) {
        return Err(NotUuid);  // the session has been rotated, and nobody has the new token
      }
      if user !in users || !users[user].active {
        var _ := sessions.Revoke(Decoded(sid));
        return Err(UserGone);
      }
      return Ok(Pair(user, users[user].role, Decoded(sid), rotated.value));
    }

    method LogoutCurrent(sid: Option<Sid>) returns (n: nat)
      modifies sessions
      ensures sessions.client == Revoke(old(sessions.client), Decoded(sid))
      ensures n == if RevokeRead(old(sessions.client), Decoded(sid)) == "" then 0 else 1
    {
      if Decoded(sid) == "" {
        return 0;
      }
      n := sessions.Revoke(Decoded(sid));
    }

    method LogoutAll(user: Uid) returns (n: nat)
      modifies sessions
      ensures sessions.client == RevokeAll(old(sessions.client), user)
      ensures n == |MembersOf(old(sessions.client), user)|
    {
      n := sessions.RevokeAll(user);
    }

    method LogoutOthers(user: Uid, keep: Option<Sid>) returns (n: nat)
      modifies sessions
      ensures sessions.client == LogoutOthersStore(old(sessions.client), user, Decoded(keep))
      ensures Decoded(keep) == "" ==> n == |MembersOf(old(sessions.client), user)|
      ensures Decoded(keep) != "" ==> n == |MembersOf(old(sessions.client), user) - {Decoded(keep)}|
    {
      if Decoded(keep) == "" {
        n := sessions.RevokeAll(user);
      } else {
        n := sessions.RevokeOthers(user, Decoded(keep));
      }
    }

    // The user's live sessions by age, the caller's own marked.
    method ListSessions(user: Uid, current: Option<Sid>) returns (devices: seq<Device>)
      ensures SessionStore.Sorted(seq(|devices|, i requires 0 <= i < |devices| => devices[i].line))
      ensures multiset(seq(|devices|, i requires 0 <= i < |devices| => devices[i].line))
           == multiset(SessionStore.LinesOf(sessions.client, MembersOf(sessions.client, user)))
      ensures forall d | d in devices :: d.current <==> current == Some(d.line.sid)
    {
      var lines := sessions.ListSessions(user);
      devices := seq(|lines|, i requires 0 <= i < |lines| => Device(lines[i], current == Some(lines[i].sid)));
      assert seq(|devices|, i requires 0 <= i < |devices| => devices[i].line) == lines;
    }
  }

  // Two calls of Refresh with the same token: the first is granted, the second ends the session.
  method PresentTwice(auth: AuthService, p: Payload, first: Jti, second: Jti)
    returns (a: Result<Pair, AuthError>, b: Result<Pair, AuthError>)
    requires Accepts(auth.sessions.client, p) && auth.MayLogIn(p.sub) && auth.isUuid(p.sub) && p.sub != ""
    requires first != Decoded(p.jti) && auth.sessions.ttl > 0
    modifies auth.sessions
    ensures a.Ok? && b == Err(RevokedOrUsed)
    ensures !Live(auth.sessions.client, Decoded(p.sid))
  {
    a := auth.Refresh(Some(p), first);
    b := auth.Refresh(Some(p), second);
  }
}
