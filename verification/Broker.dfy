/** The in-memory broker: fan-out to every group of a topic, round-robin inside a group. */
module Broker {
  import opened Common

  // A handler is known by its qualified name; that is also its default group.
  datatype Handler = Handler(qualname: string)

  datatype Message = Message(topic: string, payload: string)

  // A consumer group, with its handlers in subscription order.
  datatype Group = Group(name: string, handlers: seq<Handler>)

  datatype RrKey = RrKey(topic: string, group: string)

  // One scheduled delivery; topic, group and position say how it was chosen.
  datatype Dispatch = Dispatch(topic: string, group: string, position: nat, handler: Handler, message: Message)

  datatype Routing = Routing(groups: map<string, seq<Group>>, turns: map<RrKey, nat>)

  function GroupsOf(r: Routing, topic: string): seq<Group> {
    if topic in r.groups then r.groups[topic] else []
  }

  function Turn(turns: map<RrKey, nat>, k: RrKey): nat {
    if k in turns then turns[k] else 0
  }

  predicate NamesDistinct(gs: seq<Group>) {
    forall i, j | 0 <= i < j < |gs| :: gs[i].name != gs[j].name
  }

  ghost predicate Valid(r: Routing) {
    forall t | t in r.groups :: NamesDistinct(r.groups[t])
  }

  // What a publish schedules, group by group, and the turns it leaves.
  datatype Published = Published(turns: map<RrKey, nat>, log: seq<Dispatch>)

  function PublishTo(gs: seq<Group>, turns: map<RrKey, nat>, m: Message): Published {
    if gs == [] then Published(turns, [])
    else
      var before, g := PublishTo(gs[..|gs| - 1], turns, m), gs[|gs| - 1];
      if g.handlers == [] then before
      else
        var k := RrKey(m.topic, g.name);
        var i := Turn(before.turns, k) % |g.handlers|;
        Published(before.turns[k := i + 1], before.log + [Dispatch(m.topic, g.name, i, g.handlers[i], m)])
  }

  function Routed(r: Routing, m: Message): Published {
    PublishTo(GroupsOf(r, m.topic), r.turns, m)
  }

  function Joined(gs: seq<Group>, name: string, h: Handler): seq<Group> {
    if gs == [] then [Group(name, [h])]
    else if gs[0].name == name then [Group(name, gs[0].handlers + [h])] + gs[1..]
    else [gs[0]] + Joined(gs[1..], name, h)
  }

  function GroupName(h: Handler, group: Option<string>): string {
    if group.Some? && group.value != "" then group.value else h.qualname
  }

  function Subscribed(r: Routing, topic: string, h: Handler, group: Option<string>): Routing {
    r.(groups := r.groups[topic := Joined(GroupsOf(r, topic), GroupName(h, group), h)])
  }

  class InMemoryBroker {
    var routing: Routing
    var scheduled: seq<Dispatch>

    constructor ()
      ensures routing == Routing(map[], map[]) && scheduled == []
    {
      routing, scheduled := Routing(map[], map[]), [];
    }

    method Publish(m: Message)
      modifies this
      ensures var p := Routed(old(routing), m);
        routing == old(routing).(turns := p.turns) && scheduled == old(scheduled) + p.log
    {
      var gs := GroupsOf(routing, m.topic);
      var turns := routing.turns;
      for n := 0 to |gs|
        invariant turns == PublishTo(gs[..n], routing.turns, m).turns
        invariant routing == old(routing)
        invariant scheduled == old(scheduled) + PublishTo(gs[..n], routing.turns, m).log
      {
        assert gs[..n + 1][..n] == gs[..n];
        var handlers := gs[n].handlers;
        if handlers == [] {
          continue;
        }
        var k := RrKey(m.topic, gs[n].name);
        var i := Turn(turns, k) % |handlers|;
        turns := turns[k := i + 1];
        scheduled := scheduled + [Dispatch(m.topic, gs[n].name, i, handlers[i], m)];
      }
      assert gs[..|gs|] == gs;
      routing := routing.(turns := turns);
    }

    method Subscribe(topic: string, h: Handler, group: Option<string>)
      modifies this`routing
      ensures routing == Subscribed(old(routing), topic, h, group)
    {
      var name := if group.Some? && group.value != "" then group.value else h.qualname;
      routing := routing.(groups := routing.groups[topic := Joined(GroupsOf(routing, topic), name, h)]);
    }
  }

  // ----- subscriptions -----

  lemma {:induction false} JoinedMeans(gs: seq<Group>, name: string, h: Handler)
    requires NamesDistinct(gs)
    ensures var js := Joined(gs, name, h);
      && NamesDistinct(js)
      && |gs| <= |js| <= |gs| + 1
      && (forall i | 0 <= i < |gs| && gs[i].name != name :: js[i] == gs[i])
      && (forall i | 0 <= i < |gs| && gs[i].name == name :: js[i] == Group(name, gs[i].handlers + [h]))
      && (|js| == |gs| + 1 <==> forall i | 0 <= i < |gs| :: gs[i].name != name)
      && (|js| == |gs| + 1 ==> js[|gs|] == Group(name, [h]))
  {
    if gs != [] && gs[0].name != name {
      var rest := gs[1..];
      assert forall i | 0 <= i < |rest| :: rest[i] == gs[i + 1];
      JoinedMeans(rest, name, h);
      var js, tail := Joined(gs, name, h), Joined(rest, name, h);
      assert forall i | 0 < i < |js| :: js[i] == tail[i - 1];
      forall i | 0 <= i < |tail| ensures tail[i].name != gs[0].name {
        if i < |rest| {
          assert rest[i].name != gs[0].name;
        }
      }
      forall i | 0 <= i < |gs| && gs[i].name != name ensures js[i] == gs[i] {
        if i > 0 { assert rest[i - 1] == gs[i]; }
      }
      forall i | 0 <= i < |gs| && gs[i].name == name ensures js[i] == Group(name, gs[i].handlers + [h]) {
        assert rest[i - 1] == gs[i];
      }
    }
  }

  // ----- one publish -----

  lemma {:induction false} OtherTurnsStay(gs: seq<Group>, turns: map<RrKey, nat>, m: Message, k: RrKey)
    requires k.topic != m.topic || forall i | 0 <= i < |gs| :: gs[i].name != k.group
    ensures Turn(PublishTo(gs, turns, m).turns, k) == Turn(turns, k)
  {
    if gs != [] {
      OtherTurnsStay(gs[..|gs| - 1], turns, m, k);
    }
  }

  // Dispatches to one position of one group.
  function Given(log: seq<Dispatch>, topic: string, group: string, position: nat): nat {
    if log == [] then 0
    else
      var last := log[|log| - 1];
      Given(log[..|log| - 1], topic, group, position)
      + (if last.topic == topic && last.group == group && last.position == position then 1 else 0)
  }

  lemma {:induction false} GivenAppend(a: seq<Dispatch>, b: seq<Dispatch>, topic: string, group: string, position: nat)
    ensures Given(a + b, topic, group, position)
         == Given(a, topic, group, position) + Given(b, topic, group, position)
  {
    if b == [] {
      assert a + b == a;
    } else {
      assert (a + b)[..|a + b| - 1] == a + b[..|b| - 1];
      GivenAppend(a, b[..|b| - 1], topic, group, position);
    }
  }

  predicate Named(gs: seq<Group>, i: nat, name: string) {
    i < |gs| && gs[i].name == name
  }

  lemma {:induction false} NothingElsewhere(gs: seq<Group>, turns: map<RrKey, nat>, m: Message,
                                            topic: string, group: string, position: nat)
    requires topic != m.topic || forall i | 0 <= i < |gs| :: gs[i].name != group
    ensures Given(PublishTo(gs, turns, m).log, topic, group, position) == 0
  {
    if gs != [] {
      var before := PublishTo(gs[..|gs| - 1], turns, m);
      NothingElsewhere(gs[..|gs| - 1], turns, m, topic, group, position);
      var all := PublishTo(gs, turns, m).log;
      if gs[|gs| - 1].handlers != [] {
        assert all[..|all| - 1] == before.log;
      }
    }
  }

  // A publish gives the message to exactly one handler of each non-empty group of its topic: the one
  // whose turn it is, which then moves on by one.
  lemma {:induction false} OneOfEachGroup(gs: seq<Group>, turns: map<RrKey, nat>, m: Message, i: nat, position: nat)
    requires NamesDistinct(gs) && i < |gs| && gs[i].handlers != []
    ensures var p, k := PublishTo(gs, turns, m), RrKey(m.topic, gs[i].name);
      var turn := Turn(turns, k) % |gs[i].handlers|;
      && Given(p.log, m.topic, gs[i].name, position) == (if position == turn then 1 else 0)
      && Turn(p.turns, k) == turn + 1
  {
    var n := |gs| - 1;
    var init := gs[..n];
    var before, p := PublishTo(init, turns, m), PublishTo(gs, turns, m);
    if gs[n].handlers != [] {
      assert p.log[..|p.log| - 1] == before.log;
    }
    if i == n {
      NothingElsewhere(init, turns, m, m.topic, gs[n].name, position);
      OtherTurnsStay(init, turns, m, RrKey(m.topic, gs[n].name));
    } else {
      OneOfEachGroup(init, turns, m, i, position);
    }
  }

  // Nothing is dispatched to anybody but a handler of a group of the topic, at its own position.
  lemma {:induction false} OnlyToSubscribers(gs: seq<Group>, turns: map<RrKey, nat>, m: Message)
    ensures forall d | d in PublishTo(gs, turns, m).log ::
      d.topic == m.topic && d.message == m
      && exists i: nat :: Named(gs, i, d.group) && d.position < |gs[i].handlers| && gs[i].handlers[d.position] == d.handler
  {
    if gs != [] {
      var init := gs[..|gs| - 1];
      OnlyToSubscribers(init, turns, m);
      forall d | d in PublishTo(gs, turns, m).log
        ensures d.topic == m.topic && d.message == m
        ensures exists i: nat :: Named(gs, i, d.group) && d.position < |gs[i].handlers| && gs[i].handlers[d.position] == d.handler
      {
        if d in PublishTo(init, turns, m).log {
          var i: nat :| Named(init, i, d.group) && d.position < |init[i].handlers| && init[i].handlers[d.position] == d.handler;
          assert Named(gs, i, d.group);
        } else {
          assert Named(gs, |gs| - 1, d.group);
        }
      }
    }
  }

  // ----- many publishes -----

  function PublishAll(r: Routing, ms: seq<Message>): Published
    decreases |ms|
  {
    if ms == [] then Published(r.turns, [])
    else
      var rest := PublishAll(AfterPublish(r, ms[0]), ms[1..]);
      Published(rest.turns, Routed(r, ms[0]).log + rest.log)
  }

  function Count(ms: seq<Message>, topic: string): nat {
    if ms == [] then 0 else (if ms[0].topic == topic then 1 else 0) + Count(ms[1..], topic)
  }

  // How many of n turns starting at `first` fall on `position` when k handlers take turns.
  function Share(first: nat, n: nat, k: nat, position: nat): nat
    requires k > 0
    decreases n
  {
    if n == 0 then 0 else (if first % k == position then 1 else 0) + Share(first % k + 1, n - 1, k, position)
  }

  lemma NextTurn(turn: nat, k: nat)
    requires turn < k
    ensures (turn + 1) % k == if turn + 1 == k then 0 else turn + 1
    ensures turn % k == turn
  {
    if turn + 1 == k {
      assert k % k == 0;
    }
  }

  // Whether `position` is among n <= k turns that start at turn `start`.
  predicate InRound(start: nat, n: nat, k: nat, position: nat) {
    start <= position < start + n || position + k < start + n
  }

  lemma {:induction false} ShareOfARound(first: nat, n: nat, k: nat, position: nat)
    requires k > 0 && position < k && n <= k
    ensures Share(first, n, k, position) == if InRound(first % k, n, k, position) then 1 else 0
    decreases n
  {
    if n > 0 {
      var start := first % k;
      ShareOfARound(start + 1, n - 1, k, position);
      NextTurn(start, k);
      var next := (start + 1) % k;
      assert InRound(start, n, k, position) <==> position == start || InRound(next, n - 1, k, position);
      assert position == start ==> !InRound(next, n - 1, k, position);
    }
  }

  function AfterPublish(r: Routing, m: Message): Routing {
    r.(turns := Routed(r, m).turns)
  }

  lemma FirstOfMany(r: Routing, ms: seq<Message>, topic: string, group: string, position: nat)
    requires ms != []
    ensures Given(PublishAll(r, ms).log, topic, group, position)
         == Given(Routed(r, ms[0]).log, topic, group, position)
            + Given(PublishAll(AfterPublish(r, ms[0]), ms[1..]).log, topic, group, position)
  {
    GivenAppend(Routed(r, ms[0]).log, PublishAll(AfterPublish(r, ms[0]), ms[1..]).log, topic, group, position);
  }

  // One publish, seen from one position of one group.
  lemma OnePublish(r: Routing, m: Message, topic: string, i: nat, position: nat)
    requires Valid(r) && i < |GroupsOf(r, topic)| && GroupsOf(r, topic)[i].handlers != []
    ensures var g := GroupsOf(r, topic)[i];
      var p, k := Routed(r, m), RrKey(topic, g.name);
      var turn := Turn(r.turns, k) % |g.handlers|;
      && Given(p.log, topic, g.name, position) == (if m.topic == topic && position == turn then 1 else 0)
      && Turn(p.turns, k) == (if m.topic == topic then turn + 1 else Turn(r.turns, k))
  {
    var g := GroupsOf(r, topic)[i];
    if m.topic == topic {
      OneOfEachGroup(GroupsOf(r, topic), r.turns, m, i, position);
    } else {
      NothingElsewhere(GroupsOf(r, m.topic), r.turns, m, topic, g.name, position);
      OtherTurnsStay(GroupsOf(r, m.topic), r.turns, m, RrKey(topic, g.name));
    }
  }

  lemma {:induction false} TurnsAreShared(r: Routing, ms: seq<Message>, topic: string, i: nat, position: nat)
    requires Valid(r) && i < |GroupsOf(r, topic)| && GroupsOf(r, topic)[i].handlers != []
    ensures var g := GroupsOf(r, topic)[i];
      Given(PublishAll(r, ms).log, topic, g.name, position)
      == Share(Turn(r.turns, RrKey(topic, g.name)), Count(ms, topic), |g.handlers|, position)
    decreases |ms|
  {
    var g := GroupsOf(r, topic)[i];
    if ms != [] {
      var next := AfterPublish(r, ms[0]);
      assert GroupsOf(next, topic) == GroupsOf(r, topic);
      TurnsAreShared(next, ms[1..], topic, i, position);
      FirstOfMany(r, ms, topic, g.name, position);
      OnePublish(r, ms[0], topic, i, position);
      if ms[0].topic == topic {
        ShareOfTurn(Turn(r.turns, RrKey(topic, g.name)), Count(ms[1..], topic), |g.handlers|, position);
      }
    }
  }

  lemma ShareOfTurn(first: nat, n: nat, k: nat, position: nat)
    requires k > 0
    ensures Share(first, n + 1, k, position)
         == (if position == first % k then 1 else 0) + Share(first % k + 1, n, k, position)
  {
  }

  // Among any publishes with no subscribe in between, exactly k of them to a topic give each of the k
  // handlers of a group exactly one message, whatever earlier subscribes left in the counter.
  lemma RoundRobin(r: Routing, ms: seq<Message>, topic: string, i: nat, position: nat)
    requires Valid(r) && i < |GroupsOf(r, topic)|
    requires Count(ms, topic) == |GroupsOf(r, topic)[i].handlers| && position < Count(ms, topic)
    ensures Given(PublishAll(r, ms).log, topic, GroupsOf(r, topic)[i].name, position) == 1
  {
    TurnsAreShared(r, ms, topic, i, position);
    var g := GroupsOf(r, topic)[i];
    ShareOfARound(Turn(r.turns, RrKey(topic, g.name)), Count(ms, topic), |g.handlers|, position);
  }

  // Group i has this name, and the handler came to it last.
  predicate LastIn(gs: seq<Group>, i: nat, name: string, h: Handler) {
    Named(gs, i, name) && gs[i].handlers != [] && gs[i].handlers[|gs[i].handlers| - 1] == h
  }

  lemma JoinedLast(gs: seq<Group>, name: string, h: Handler) returns (i: nat)
    requires NamesDistinct(gs)
    ensures LastIn(Joined(gs, name, h), i, name, h)
  {
    JoinedMeans(gs, name, h);
    if |Joined(gs, name, h)| == |gs| + 1 {
      i := |gs|;
    } else {
      i :| 0 <= i < |gs| && gs[i].name == name;
    }
  }

  // Subscriptions keep the routing well formed, and leave no group of theirs empty.
  lemma SubscribeKeeps(r: Routing, topic: string, h: Handler, group: Option<string>)
    requires Valid(r)
    ensures var s := Subscribed(r, topic, h, group);
      && Valid(s) && s.turns == r.turns
      && (forall t | t != topic :: GroupsOf(s, t) == GroupsOf(r, t))
      && exists i: nat :: LastIn(GroupsOf(s, topic), i, GroupName(h, group), h)
  {
    var gs, name := GroupsOf(r, topic), GroupName(h, group);
    var i := JoinedLast(gs, name, h);
    assert GroupsOf(Subscribed(r, topic, h, group), topic) == Joined(gs, name, h);
    assert LastIn(GroupsOf(Subscribed(r, topic, h, group), topic), i, name, h);
    assert NamesDistinct(Joined(gs, name, h)) by {
      JoinedMeans(gs, name, h);
    }
  }
}
