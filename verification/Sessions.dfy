/**
 Refresh sessions in Redis: a hash per session, an index of session ids per user, each with its own
 expiry. Every function is one command or one MULTI pipeline; the methods that need two of them are
 split into the part that reads and the part that writes.
 */
module Sessions {
  import opened Common

  type Sid = string
  type Uid = string
  type Jti = string

  // A hash; a field that was never written, or went with the hash, is None.
  datatype Session = Session(
    uid: Option<Uid>, jti: Option<Jti>, created: Option<nat>, lastUsed: Option<nat>,
    ip: Option<string>, agent: Option<string>, expires: nat)

  datatype Index = Index(sids: set<Sid>, expires: nat)

  // Entries past their expiry are as good as absent.
  datatype Store = Store(now: nat, sessions: map<Sid, Session>, indexes: map<Uid, Index>)

  const EMPTY := Store(0, map[], map[])

  predicate Live(st: Store, sid: Sid) {
    sid in st.sessions && st.now < st.sessions[sid].expires
  }

  predicate LiveIndex(st: Store, user: Uid) {
    user in st.indexes && st.now < st.indexes[user].expires
  }

  // A live session that still says whose it is.
  predicate Owned(st: Store, sid: Sid) {
    Live(st, sid) && st.sessions[sid].uid.Some?
  }

  // Absent fields decode to the empty string.
  function Decoded(field: Option<string>): string {
    if field.Some? then field.value else ""
  }

  function MembersOf(st: Store, user: Uid): set<Sid> {
    if LiveIndex(st, user) then st.indexes[user].sids else {}
  }

  // ----- commands and pipelines -----

  function Wait(st: Store, d: nat): Store {
    st.(now := st.now + d)
  }

  function Create(st: Store, ttl: nat, user: Uid, sid: Sid, jti: Jti, ip: string, agent: string): Store {
    st.(sessions := st.sessions[sid := Session(Some(user), Some(jti), Some(st.now), Some(st.now),
                                               Some(ip), Some(agent), st.now + ttl)],
        indexes := st.indexes[user := Index(MembersOf(st, user) + {sid}, st.now + ttl)])
  }

  predicate Validates(st: Store, sid: Sid, jti: Jti, user: Uid) {
    Live(st, sid) && Decoded(st.sessions[sid].uid) == user && Decoded(st.sessions[sid].jti) == jti
  }

  predicate RotateRead(st: Store, sid: Sid, user: Uid) {
    Live(st, sid) && Decoded(st.sessions[sid].uid) == user
  }

  // HSET on an absent hash makes a new one that holds only the fields written here.
  function RotateWrite(st: Store, ttl: nat, sid: Sid, user: Uid, jti: Jti): Store {
    var base := if Live(st, sid) then st.sessions[sid] else Session(None, None, None, None, None, None, 0);
    st.(sessions := st.sessions[sid := base.(jti := Some(jti), lastUsed := Some(st.now), expires := st.now + ttl)],
        indexes := if LiveIndex(st, user)
                   then st.indexes[user := st.indexes[user].(expires := st.now + ttl)]
                   else st.indexes)
  }

  function RevokeRead(st: Store, sid: Sid): Uid {
    if sid != "" && Live(st, sid) then Decoded(st.sessions[sid].uid) else ""
  }

  // A set that loses its last member disappears.
  function WithoutMembers(st: Store, user: Uid, sids: set<Sid>): map<Uid, Index> {
    if !LiveIndex(st, user) then st.indexes
    else if st.indexes[user].sids <= sids then st.indexes - {user}
    else st.indexes[user := st.indexes[user].(sids := st.indexes[user].sids - sids)]
  }

  function RevokeWrite(st: Store, sid: Sid, user: Uid): Store {
    st.(sessions := st.sessions - {sid}, indexes := WithoutMembers(st, user, {sid}))
  }

  function RevokeAllWrite(st: Store, user: Uid, sids: set<Sid>): Store {
    if sids == {} then st else st.(sessions := st.sessions - sids, indexes := st.indexes - {user})
  }

  function RevokeOthersWrite(st: Store, user: Uid, sids: set<Sid>): Store {
    if sids == {} then st else st.(sessions := st.sessions - sids, indexes := WithoutMembers(st, user, sids))
  }

  // ----- whole methods, when nothing comes between their parts -----

  function Rotate(st: Store, ttl: nat, sid: Sid, user: Uid, jti: Jti): Store {
    if RotateRead(st, sid, user) then RotateWrite(st, ttl, sid, user, jti) else st
  }

  function Revoke(st: Store, sid: Sid): Store {
    if RevokeRead(st, sid) == "" then st else RevokeWrite(st, sid, RevokeRead(st, sid))
  }

  function RevokeAll(st: Store, user: Uid): Store {
    RevokeAllWrite(st, user, MembersOf(st, user))
  }

  function RevokeOthers(st: Store, user: Uid, keep: Sid): Store {
    RevokeOthersWrite(st, user, MembersOf(st, user) - {keep})
  }
}
