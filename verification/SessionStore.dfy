/** The session store as an object: its methods send the commands of Sessions one call at a time. */
module SessionStore {
  import opened Common
  import opened Sessions

  // One line of "my devices".
  datatype Listed = Listed(
    sid: Sid, created: Option<nat>, lastUsed: Option<nat>, ip: Option<string>, agent: Option<string>)

  function Line(sid: Sid, s: Session): Listed {
    Listed(sid, s.created, s.lastUsed, NonEmpty(s.ip), NonEmpty(s.agent))
  }

  // An empty field is shown as absent.
  function NonEmpty(field: Option<string>): Option<string> {
    if field == Some("") then None else field
  }

  function LinesOf(st: Store, sids: set<Sid>): set<Listed> {
    set sid | sid in sids && Live(st, sid) :: Line(sid, st.sessions[sid])
  }

  // A missing creation time sorts first.
  function SortKey(l: Listed): nat {
    if l.created.Some? then l.created.value else 0
  }

  predicate Sorted(ls: seq<Listed>) {
    |ls| <= 1 || (SortKey(ls[0]) <= SortKey(ls[1]) && Sorted(ls[1..]))
  }

  function Insert(l: Listed, ls: seq<Listed>): (r: seq<Listed>)
    requires Sorted(ls)
    ensures Sorted(r) && r != [] && (r[0] == l || (ls != [] && r[0] == ls[0]))
    ensures multiset(r) == multiset(ls) + multiset{l}
  {
    if ls == [] then [l]
    else
      assert ls == [ls[0]] + ls[1..];
      if SortKey(l) <= SortKey(ls[0]) then [l] + ls else [ls[0]] + Insert(l, ls[1..])
  }

  function Ordered(ls: seq<Listed>): (r: seq<Listed>)
    ensures Sorted(r) && multiset(r) == multiset(ls)
  {
    if ls == [] then []
    else
      assert ls == [ls[0]] + ls[1..];
      Insert(ls[0], Ordered(ls[1..]))
  }

  lemma {:induction false} SortedThroughout(ls: seq<Listed>, i: nat, j: nat)
    requires Sorted(ls) && i < j < |ls|
    ensures SortKey(ls[i]) <= SortKey(ls[j])
    decreases |ls|
  {
    if i > 0 {
      SortedThroughout(ls[1..], i - 1, j - 1);
    } else if j > 1 {
      SortedThroughout(ls[1..], 0, j - 1);
    }
  }

  lemma LinesGrow(st: Store, done: set<Sid>, sid: Sid, lines: seq<Listed>)
    requires sid !in done && multiset(lines) == multiset(LinesOf(st, done))
    ensures Live(st, sid) ==>
      multiset(lines + [Line(sid, st.sessions[sid])]) == multiset(LinesOf(st, done + {sid}))
    ensures !Live(st, sid) ==> LinesOf(st, done + {sid}) == LinesOf(st, done)
  {
    if Live(st, sid) {
      var line := Line(sid, st.sessions[sid]);
      assert LinesOf(st, done + {sid}) == LinesOf(st, done) + {line};
      assert line !in LinesOf(st, done);
      assert multiset(LinesOf(st, done) + {line}) == multiset(LinesOf(st, done)) + multiset{line};
    }
  }

  class SessionStore {
    var client: Store
    const ttl: nat

    constructor (client: Store, ttl: nat)
      ensures this.client == client && this.ttl == ttl
    {
      this.client, this.ttl := client, ttl;
    }

    // `sid` and `jti` are the two fresh identifiers the method draws.
    method Create(user: Uid, sid: Sid, jti: Jti, ip: Option<string>, agent: Option<string>) returns (r: (Sid, Jti))
      modifies this
      ensures r == (sid, jti)
      ensures client == Sessions.Create(old(client), ttl, user, sid, jti, Decoded(ip), Clipped(Decoded(agent)))
      ensures 0 < ttl ==>
                && Owned(client, sid) && sid in MembersOf(client, user)
                && (forall j, u :: Validates(client, sid, j, u) <==> j == jti && u == user)
                && client.sessions[sid].expires == client.indexes[user].expires == client.now + ttl
      ensures forall other | other != sid :: Live(client, other) == Live(old(client), other)
      ensures forall u | u != user :: MembersOf(client, u) == MembersOf(old(client), u)
    {
      client := Sessions.Create(client, ttl, user, sid, jti, Decoded(ip), Clipped(Decoded(agent)));
      return (sid, jti);
    }

    static function Clipped(agent: string): (r: string)
      ensures r <= agent && |r| == if 256 < |agent| then 256 else |agent|
    {
      if |agent| <= 256 then agent else agent[..256]
    }

    method Validate(sid: Sid, jti: Jti, user: Uid) returns (ok: bool)
      ensures ok == Validates(client, sid, jti, user)
    {
      if !Live(client, sid) {
        return false;
      }
      var data := client.sessions[sid];
      return Decoded(data.uid) == user && Decoded(data.jti) == jti;
    }

    method Rotate(sid: Sid, user: Uid, newJti: Jti) returns (r: Option<Jti>)
      modifies this
      ensures r == if RotateRead(old(client), sid, user) then Some(newJti) else None
      ensures client == Sessions.Rotate(old(client), ttl, sid, user, newJti)
    {
      if !Live(client, sid) || Decoded(client.sessions[sid].uid) != user {
        return None;
      }
      client := RotateWrite(client, ttl, sid, user, newJti);
      return Some(newJti);
    }

    method Exists(sid: Sid) returns (b: bool)
      ensures b == Live(client, sid)
    {
      return Live(client, sid);
    }

    method Revoke(sid: Sid) returns (n: nat)
      modifies this
      ensures client == Sessions.Revoke(old(client), sid)
      ensures n == if RevokeRead(old(client), sid) == "" then 0 else 1
    {
      if sid == "" {
        return 0;
      }
      var user := RevokeRead(client, sid);
      if user == "" {
        return 0;
      }
      client := RevokeWrite(client, sid, user);
      return 1;
    }

    method ListSessions(user: Uid) returns (lines: seq<Listed>)
      ensures multiset(lines) == multiset(LinesOf(client, MembersOf(client, user)))
      ensures Sorted(lines)
    {
      var left, done := MembersOf(client, user), {};
      lines := [];
      while left != {}
        invariant left !! done && left + done == MembersOf(client, user)
        invariant multiset(lines) == multiset(LinesOf(client, done))
        decreases left
      {
        var sid :| sid in left;
        LinesGrow(client, done, sid, lines);
        if Live(client, sid) {
          lines := lines + [Line(sid, client.sessions[sid])];
        }
        left, done := left - {sid}, done + {sid};
      }
      assert done == MembersOf(client, user);
      lines := Ordered(lines);
    }

    method RevokeAll(user: Uid) returns (n: nat)
      modifies this
      ensures client == Sessions.RevokeAll(old(client), user)
      ensures n == |MembersOf(old(client), user)|
    {
      var sids := MembersOf(client, user);
      if sids == {} {
        return 0;
      }
      var sessions := DeleteEach(sids);
      client := client.(sessions := sessions, indexes := client.indexes - {user});
      return |sids|;
    }

    method RevokeOthers(user: Uid, keep: Sid) returns (n: nat)
      modifies this
      ensures client == Sessions.RevokeOthers(old(client), user, keep)
      ensures n == |MembersOf(old(client), user) - {keep}|
    {
      var others := set sid | sid in MembersOf(client, user) && sid != keep;
      assert others == MembersOf(client, user) - {keep};
      if others == {} {
        return 0;
      }
      var sessions := DeleteEach(others);
      client := client.(sessions := sessions, indexes := WithoutMembers(client, user, others));
      return |others|;
    }

    // The deletions queued in one pipeline.
    method DeleteEach(sids: set<Sid>) returns (sessions: map<Sid, Session>)
      ensures sessions == client.sessions - sids
    {
      var left := sids;
      sessions := client.sessions;
      while left != {}
        invariant left <= sids && sessions == client.sessions - (sids - left)
        decreases left
      {
        var sid :| sid in left;
        sessions := sessions - {sid};
        left := left - {sid};
      }
    }
  }
}
