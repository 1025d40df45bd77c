/** What the statements of the outbox repository mean: which rows are fetched, and what an insert keeps. */
module OutboxTable {
  import opened Common
  import opened Outbox

  // The places in creation order, from `from` on, of the rows still to publish.
  function Places(t: Table, from: nat): seq<nat>
    requires from <= |t.order|
    decreases |t.order| - from
  {
    if from == |t.order| then []
    else (if Pending(t, t.order[from]) then [from] else []) + Places(t, from + 1)
  }

  // Every pending place, each once, in order.
  lemma {:induction false} PlacesMean(t: Table, from: nat)
    requires from <= |t.order|
    ensures forall i | 0 <= i < |Places(t, from)| ::
      from <= Places(t, from)[i] < |t.order| && Pending(t, t.order[Places(t, from)[i]])
    ensures forall i, j | 0 <= i < j < |Places(t, from)| :: Places(t, from)[i] < Places(t, from)[j]
    ensures forall p | from <= p < |t.order| && Pending(t, t.order[p]) :: p in Places(t, from)
    decreases |t.order| - from
  {
    if from < |t.order| {
      PlacesMean(t, from + 1);
    }
  }

  lemma {:induction false} PlacesList(t: Table, from: nat)
    requires from <= |t.order|
    ensures |Places(t, from)| == |Unpublished(t.order[from..], t)|
    ensures forall i | 0 <= i < |Places(t, from)| ::
      Places(t, from)[i] < |t.order| && t.order[Places(t, from)[i]] == Unpublished(t.order[from..], t)[i]
    decreases |t.order| - from
  {
    if from < |t.order| {
      PlacesList(t, from + 1);
      assert t.order[from..][1..] == t.order[from + 1..];
    }
  }

  // `rows` are the first of the pending rows, at most `limit` of them: row i is the one at places[i].
  ghost predicate OldestPending(t: Table, limit: nat, rows: seq<Delivery>, places: seq<nat>) {
    && |rows| == |places| <= limit
    && (forall i | 0 <= i < |rows| ::
          places[i] < |t.order| && rows[i].id == t.order[places[i]]
          && Pending(t, rows[i].id) && rows[i].message == t.rows[rows[i].id].message)
    && (forall i, j | 0 <= i < j < |places| :: places[i] < places[j])
    && (forall p | 0 <= p < |t.order| && Pending(t, t.order[p]) && p !in places ::
          |rows| == limit && forall i | 0 <= i < |places| :: places[i] < p)
  }

  lemma {:induction false} DeliveriesMessages(t: Table, ids: seq<Id>)
    requires forall id | id in ids :: id in t.rows
    ensures |Deliveries(t, ids)| == |ids|
    ensures forall i | 0 <= i < |ids| :: Deliveries(t, ids)[i] == Delivery(ids[i], t.rows[ids[i]].message)
  {
    if ids != [] {
      DeliveriesMessages(t, ids[1..]);
    }
  }

  lemma FetchedRows(t: Table, limit: nat)
    ensures var places, rows := Take(Places(t, 0), limit), Batch(t, limit);
      && |rows| == |places| <= limit
      && forall i | 0 <= i < |rows| ::
           places[i] < |t.order| && rows[i].id == t.order[places[i]]
           && Pending(t, rows[i].id) && rows[i].message == t.rows[rows[i].id].message
  {
    var all, ids := Places(t, 0), Fetch(t, limit);
    PlacesMean(t, 0);
    PlacesList(t, 0);
    assert t.order[0..] == t.order;
    forall i | 0 <= i < |ids| ensures all[i] < |t.order| && ids[i] == t.order[all[i]] && Pending(t, ids[i]) {
      assert ids[i] == Unpublished(t.order, t)[i];
    }
    DeliveriesMessages(t, ids);
  }

  lemma LeftOut(all: seq<nat>, n: nat, p: nat)
    requires p in all && p !in Take(all, n)
    requires forall i, j | 0 <= i < j < |all| :: all[i] < all[j]
    ensures |Take(all, n)| == n && forall i | 0 <= i < n :: Take(all, n)[i] < p
  {
    assert forall i | 0 <= i < |Take(all, n)| :: all[i] == Take(all, n)[i] && all[i] in Take(all, n);
    var k :| 0 <= k < |all| && all[k] == p;
    assert k >= |Take(all, n)|;
  }

  lemma FetchMeans(t: Table, limit: nat)
    ensures OldestPending(t, limit, Batch(t, limit), Take(Places(t, 0), limit))
  {
    var all := Places(t, 0);
    PlacesMean(t, 0);
    FetchedRows(t, limit);
    forall p | 0 <= p < |t.order| && Pending(t, t.order[p]) && p !in Take(all, limit)
      ensures |Take(all, limit)| == limit && forall i | 0 <= i < limit :: Take(all, limit)[i] < p
    {
      LeftOut(all, limit, p);
    }
  }

  // The rows still to publish, in creation order.
  function Pend(t: Table): seq<Id> {
    Unpublished(t.order, t)
  }

  lemma {:induction false} UnpublishedAppend(a: seq<Id>, b: seq<Id>, t: Table)
    ensures Unpublished(a + b, t) == Unpublished(a, t) + Unpublished(b, t)
  {
    if a == [] {
      assert a + b == b;
    } else {
      assert (a + b)[1..] == a[1..] + b;
      UnpublishedAppend(a[1..], b, t);
    }
  }

  lemma {:induction false} UnpublishedSame(order: seq<Id>, t: Table, u: Table)
    requires forall id | id in order :: Pending(t, id) == Pending(u, id)
    ensures Unpublished(order, t) == Unpublished(order, u)
  {
    if order != [] {
      UnpublishedSame(order[1..], t, u);
    }
  }

  // A new event joins the rows still to publish somewhere in their order, and disturbs none of them.
  lemma InsertMeans(t: Table, at: nat, id: Id, m: Message) returns (k: nat)
    requires id !in t.order
    ensures var u := Insert(t, at, id, m);
      k <= |Pend(t)| && Pend(u) == Pend(t)[..k] + [id] + Pend(t)[k..]
  {
    var u, i := Insert(t, at, id, m), Min(at, |t.order|);
    var front, back := t.order[..i], t.order[i..];
    assert t.order == front + back && u.order == front + ([id] + back);
    UnpublishedAppend(front, back, t);
    UnpublishedAppend(front, [id] + back, u);
    UnpublishedAppend([id], back, u);
    UnpublishedSame(front, t, u);
    UnpublishedSame(back, t, u);
    assert [id][1..] == [];
    k := |Unpublished(front, t)|;
  }
}
