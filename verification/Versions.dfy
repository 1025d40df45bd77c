/**
 The optimistic lock on a user row: load, mutate and commit by any number of update and
 change-password calls, interleaved, with deletes and crashes.
 */
module Versions {
  import opened Common
  import opened Tables
  import Services

  // The assignments a call makes to the loaded object.
  datatype Change = Change(newName: Option<string>, newActive: Option<bool>, newPassword: Option<string>)

  datatype Working = Working(copy: User, change: Change)

  // Unknown: the call was killed, or an exception that tells nothing reached its client.
  datatype Outcome = Succeeded | Stale | NotFound | Unknown

  // A committed UPDATE: whose, what it set, the row it was computed from and the row it left.
  datatype Write = Write(call: Id, change: Change, from: User, left: User)

  datatype State = State(row: Option<User>, working: map<Id, Working>, outcomes: map<Id, Outcome>, writes: seq<Write>)

  datatype Event =
    | Load(c: Id, change: Change)
    | Commit(c: Id)
    | CommitReplyLost(c: Id)  // done, and the caller killed while it waits, or told of an error
    | Crash(c: Id)            // killed, or the database fails, before the commit is done
    | Delete

  function Assigned(u: User, ch: Change): User {
    u.(name := if ch.newName.Some? then ch.newName.value else u.name,
       active := if ch.newActive.Some? then ch.newActive.value else u.active,
       password := if ch.newPassword.Some? then ch.newPassword else u.password)
  }

  // UPDATE ... SET the columns that differ from the loaded ones, version_id = version + 1.
  function Updated(row: User, loaded: User, edited: User): User {
    User(row.email,
         if edited.name != loaded.name then edited.name else row.name,
         if edited.active != loaded.active then edited.active else row.active,
         row.role,
         if edited.password != loaded.password then edited.password else row.password,
         loaded.version + 1)
  }

  function Finished(s: State, c: Id, o: Outcome): State {
    s.(working := s.working - {c}, outcomes := s.outcomes[c := o])
  }

  // A stale call learns it from its UPDATE, before any commit.
  function AfterCommit(s: State, c: Id, answered: bool): State
    requires c in s.working
  {
    var Working(copy, ch) := s.working[c];
    var edited := Assigned(copy, ch);
    var done := if answered then Succeeded else Unknown;
    if edited == copy then Finished(s, c, done)  // nothing changed: no UPDATE is issued
    else if s.row.None? || s.row.value.version != copy.version then Finished(s, c, Stale)  // WHERE matched no row
    else
      var left := Updated(s.row.value, copy, edited);
      Finished(s.(row := Some(left), writes := s.writes + [Write(c, ch, copy, left)]), c, done)
  }

  function Next(s: State, e: Event): State {
    match e
    case Load(c, change) =>
      if c in s.working || c in s.outcomes then s
      else if s.row.None? then s.(outcomes := s.outcomes[c := NotFound])
      else s.(working := s.working[c := Working(s.row.value, change)])
    case Commit(c) => if c in s.working then AfterCommit(s, c, true) else s
    case CommitReplyLost(c) => if c in s.working then AfterCommit(s, c, false) else s
    case Crash(c) => if c in s.working then Finished(s, c, Unknown) else s
    case Delete => s.(row := None)
  }

  function Run(s: State, events: seq<Event>): State
    decreases |events|
  {
    if events == [] then s else Run(Next(s, events[0]), events[1..])
  }

  function Start(u: User): State {
    State(Some(u), map[], map[], [])
  }

  // The successful writes run one after another on the first row, in commit order.
  function Serial(u: User, writes: seq<Write>): User {
    if writes == [] then u
    else
      var before := Serial(u, writes[..|writes| - 1]);
      Assigned(before, writes[|writes| - 1].change).(version := before.version + 1)
  }

  ghost predicate WriteOk(u: User, writes: seq<Write>, i: nat)
    requires i < |writes|
  {
    && writes[i].from == Serial(u, writes[..i])
    && writes[i].left == Serial(u, writes[..i + 1])
    && Assigned(writes[i].from, writes[i].change) != writes[i].from
  }

  // A loaded object is the row at its version, which some prefix of the writes had left.
  ghost predicate CopyOk(u: User, writes: seq<Write>, copy: User) {
    u.version <= copy.version <= u.version + |writes|
    && copy == Serial(u, writes[..copy.version - u.version])
  }

  predicate Written(writes: seq<Write>, c: Id) {
    exists w | w in writes :: w.call == c
  }

  // Each call wrote at most once, and no writer was told of a conflict or a missing user.
  ghost predicate CallsOk(s: State) {
    && (forall w | w in s.writes :: w.call in s.outcomes && (s.outcomes[w.call].Succeeded? || s.outcomes[w.call].Unknown?))
    && (forall i, j | 0 <= i < j < |s.writes| :: s.writes[i].call != s.writes[j].call)
    && (forall c | c in s.working :: c !in s.outcomes)
  }

  ghost predicate RowOk(u: User, s: State) {
    && (s.row.Some? ==> s.row.value == Serial(u, s.writes))
    && (forall i | 0 <= i < |s.writes| :: WriteOk(u, s.writes, i))
    && (forall c | c in s.working :: CopyOk(u, s.writes, s.working[c].copy))
  }

  ghost predicate Inv(u: User, s: State) {
    RowOk(u, s) && CallsOk(s)
  }

  lemma {:induction false} SerialVersion(u: User, writes: seq<Write>)
    ensures Serial(u, writes).version == u.version + |writes|
  {
    if writes != [] {
      SerialVersion(u, writes[..|writes| - 1]);
    }
  }

  lemma OneMoreWrite(u: User, writes: seq<Write>, w: Write)
    requires forall i | 0 <= i < |writes| :: WriteOk(u, writes, i)
    requires w.from == Serial(u, writes) && Assigned(w.from, w.change) != w.from
    requires w.left == Assigned(w.from, w.change).(version := w.from.version + 1)
    ensures forall i | 0 <= i < |writes + [w]| :: WriteOk(u, writes + [w], i)
    ensures Serial(u, writes + [w]) == w.left
  {
    var n, all := |writes|, writes + [w];
    assert all[..n] == writes && all[..n + 1] == all;
    forall i | 0 <= i < |all| ensures WriteOk(u, all, i) {
      if i < n {
        assert WriteOk(u, writes, i);
        assert all[..i] == writes[..i] && all[..i + 1] == writes[..i + 1];
      }
    }
  }

  lemma CopyStaysOk(u: User, writes: seq<Write>, w: Write, copy: User)
    requires CopyOk(u, writes, copy)
    ensures CopyOk(u, writes + [w], copy)
  {
    var k := copy.version - u.version;
    assert (writes + [w])[..k] == writes[..k];
  }

  lemma CommitKeepsCalls(s: State, c: Id, answered: bool)
    requires CallsOk(s) && c in s.working
    ensures CallsOk(AfterCommit(s, c, answered))
  {
    var t := AfterCommit(s, c, answered);
    forall i, j | 0 <= i < j < |t.writes| ensures t.writes[i].call != t.writes[j].call {
      assert t.writes[i] in s.writes;
    }
  }

  lemma CommitKeepsRow(u: User, s: State, c: Id, answered: bool)
    requires RowOk(u, s) && c in s.working
    ensures RowOk(u, AfterCommit(s, c, answered))
  {
    var t := AfterCommit(s, c, answered);
    if t.writes != s.writes {
      SerialVersion(u, s.writes);
      assert s.writes[..|s.writes|] == s.writes;
      assert CopyOk(u, s.writes, s.working[c].copy);
      assert s.row.value == s.working[c].copy;
      var w := t.writes[|s.writes|];
      OneMoreWrite(u, s.writes, w);
      forall d | d in t.working ensures CopyOk(u, t.writes, t.working[d].copy) {
        CopyStaysOk(u, s.writes, w, t.working[d].copy);
      }
    }
  }

  lemma NextKeeps(u: User, s: State, e: Event)
    requires Inv(u, s)
    ensures Inv(u, Next(s, e))
  {
    match e
    case Commit(c) => if c in s.working { CommitKeepsRow(u, s, c, true); CommitKeepsCalls(s, c, true); }
    case CommitReplyLost(c) => if c in s.working { CommitKeepsRow(u, s, c, false); CommitKeepsCalls(s, c, false); }
    case Load(c, change) =>
      SerialVersion(u, s.writes);
      assert s.writes[..|s.writes|] == s.writes;
    case _ =>
  }

  lemma {:induction false} RunKeeps(u: User, s: State, events: seq<Event>)
    requires Inv(u, s)
    ensures Inv(u, Run(s, events))
    decreases |events|
  {
    if events != [] {
      NextKeeps(u, s, events[0]);
      RunKeeps(u, Next(s, events[0]), events[1..]);
    }
  }

  // In every run: the row is the successful effective updates applied in commit order, each computed
  // from exactly the row it replaced, and the version has grown by their number.
  lemma NoLostUpdate(u: User, events: seq<Event>)
    ensures var s := Run(Start(u), events);
      && (s.row.Some? ==> s.row.value == Serial(u, s.writes) && s.row.value.version == u.version + |s.writes|)
      && (forall i | 0 <= i < |s.writes| ::
            s.writes[i].from == Serial(u, s.writes[..i]) && s.writes[i].left == Serial(u, s.writes[..i + 1]))
  {
    var s := Run(Start(u), events);
    RunKeeps(u, Start(u), events);
    SerialVersion(u, s.writes);
    forall i | 0 <= i < |s.writes|
      ensures s.writes[i].from == Serial(u, s.writes[..i]) && s.writes[i].left == Serial(u, s.writes[..i + 1])
    {
      assert WriteOk(u, s.writes, i);
    }
  }

  // A call told of a conflict or a missing user wrote nothing, nor did one that is not over, and no
  // call wrote twice.
  lemma RefusedWroteNothing(u: User, events: seq<Event>, c: Id)
    ensures var s := Run(Start(u), events);
      && (c in s.outcomes && (s.outcomes[c] == Stale || s.outcomes[c] == NotFound) ==> !Written(s.writes, c))
      && (c !in s.outcomes ==> !Written(s.writes, c))
      && (forall i, j | 0 <= i < j < |s.writes| :: s.writes[i].call != s.writes[j].call)
  {
    RunKeeps(u, Start(u), events);
  }

  // The call changes a column of the very row it loaded.
  predicate Effective(s: State, c: Id)
    requires c in s.working
  {
    Assigned(s.working[c].copy, s.working[c].change) != s.working[c].copy && s.row == Some(s.working[c].copy)
  }

  // The step is a commit, answered or not, of such a call.
  predicate Writes(s: State, e: Event, c: Id) {
    (e == Commit(c) || e == CommitReplyLost(c)) && c in s.working && Effective(s, c)
  }

  predicate WritesIn(s: State, events: seq<Event>, c: Id)
    decreases |events|
  {
    events != [] && (Writes(s, events[0], c) || WritesIn(Next(s, events[0]), events[1..], c))
  }

  lemma CommitWrites(u: User, s: State, c: Id, answered: bool)
    requires Inv(u, s) && c in s.working
    ensures AfterCommit(s, c, answered).writes ==
      if Effective(s, c)
      then s.writes + [Write(c, s.working[c].change, s.working[c].copy,
                             Updated(s.row.value, s.working[c].copy, Assigned(s.working[c].copy, s.working[c].change)))]
      else s.writes
  {
    CurrentCopy(u, s, c);
  }

  lemma CommitWritten(u: User, s: State, d: Id, answered: bool, c: Id)
    requires Inv(u, s) && d in s.working
    ensures Written(AfterCommit(s, d, answered).writes, c) <==> Written(s.writes, c) || (d == c && Effective(s, c))
  {
    CommitWrites(u, s, d, answered);
    if Effective(s, d) {
      var working, row := s.working[d], s.row.value;
      OneMoreWritten(s.writes, Write(d, working.change, working.copy,
                                     Updated(row, working.copy, Assigned(working.copy, working.change))), c);
    }
  }

  lemma WrittenByStep(u: User, s: State, e: Event, c: Id)
    requires Inv(u, s)
    ensures Written(Next(s, e).writes, c) <==> Written(s.writes, c) || Writes(s, e, c)
  {
    if e.Commit? && e.c in s.working {
      CommitWritten(u, s, e.c, true, c);
    } else if e.CommitReplyLost? && e.c in s.working {
      CommitWritten(u, s, e.c, false, c);
    }
  }

  lemma OneMoreWritten(writes: seq<Write>, w: Write, c: Id)
    ensures Written(writes + [w], c) <==> Written(writes, c) || w.call == c
  {
    assert w in writes + [w];
    if Written(writes, c) {
      var v :| v in writes && v.call == c;
      assert v in writes + [w];
    }
  }

  // A loaded object of the row's version is the row.
  lemma CurrentCopy(u: User, s: State, c: Id)
    requires Inv(u, s) && c in s.working
    ensures s.row.Some? && s.row.value.version == s.working[c].copy.version ==> s.row.value == s.working[c].copy
  {
    SerialVersion(u, s.writes);
    assert CopyOk(u, s.writes, s.working[c].copy);
    assert s.writes[..|s.writes|] == s.writes;
  }

  lemma {:induction false} WrittenByEvents(u: User, s: State, events: seq<Event>, c: Id)
    requires Inv(u, s)
    ensures Written(Run(s, events).writes, c) <==> Written(s.writes, c) || WritesIn(s, events, c)
    decreases |events|
  {
    if events != [] {
      WrittenByStep(u, s, events[0], c);
      NextKeeps(u, s, events[0]);
      WrittenByEvents(u, Next(s, events[0]), events[1..], c);
    }
  }

  // Which calls wrote, whatever their clients were told: those one of whose commits was done, answered
  // or not, when they changed a column and the row was still the one they had loaded.
  lemma WroteExactly(u: User, events: seq<Event>, c: Id)
    ensures Written(Run(Start(u), events).writes, c) <==> WritesIn(Start(u), events, c)
  {
    WrittenByEvents(u, Start(u), events, c);
  }

  // Exactly when a commit is refused: it changes a column, and the row is gone or was written since the load.
  lemma StaleExactly(u: User, events: seq<Event>, c: Id, answered: bool)
    requires c in Run(Start(u), events).working
    ensures var s := Run(Start(u), events);
      var w := s.working[c];
      AfterCommit(s, c, answered).outcomes[c] == Stale
      <==> Assigned(w.copy, w.change) != w.copy && s.row != Some(w.copy)
  {
    RunKeeps(u, Start(u), events);
    CurrentCopy(u, Run(Start(u), events), c);
  }

  // With nothing in between, load and commit leave the row the update service leaves.
  lemma UpdateAlone(s: State, c: Id, newName: Option<string>, newActive: Option<bool>)
    requires s.row.Some? && c !in s.working && c !in s.outcomes
    ensures var t := Next(Next(s, Load(c, Change(newName, newActive, None))), Commit(c));
      t.row == Some(Services.Edited(s.row.value, newName, newActive)) && t.outcomes[c] == Succeeded
  {
  }

  // And a password change the row the password service leaves.
  lemma PasswordAlone(s: State, c: Id, hash: string)
    requires s.row.Some? && c !in s.working && c !in s.outcomes
    ensures var t := Next(Next(s, Load(c, Change(None, None, Some(hash)))), Commit(c));
      var before := s.row.value;
      && t.outcomes[c] == Succeeded
      && t.row == Some(before.(password := Some(hash),
                               version := before.version + if before.password == Some(hash) then 0 else 1))
  {
  }

  // What each event tells the client, and leaves behind, besides a write.
  lemma EventsTell(s: State, c: Id, change: Change)
    requires c !in s.working && c !in s.outcomes
    ensures s.row.None? ==> Next(s, Load(c, change)) == s.(outcomes := s.outcomes[c := NotFound])
    ensures s.row.Some? ==>
      var t := Next(s, Load(c, change));
      && t == s.(working := s.working[c := Working(s.row.value, change)])
      && Next(t, Crash(c)) == s.(outcomes := s.outcomes[c := Unknown])
      && (var lost := Next(t, CommitReplyLost(c)); var done := Next(t, Commit(c));
          && lost.outcomes[c] == Unknown && done.outcomes[c] == Succeeded
          && lost.row == done.row && lost.writes == done.writes)
    ensures Next(s, Delete) == s.(row := None)
  {
    if s.row.Some? {
      assert s.working[c := Working(s.row.value, change)] - {c} == s.working;
    }
  }

  // The first state is the row nobody has touched.
  lemma StartsUntouched(u: User)
    ensures Start(u).row == Some(u) && Start(u).working == map[] && Start(u).outcomes == map[] && Start(u).writes == []
  {
  }
}
