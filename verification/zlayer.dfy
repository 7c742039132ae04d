/** The z-layer derivation of src/scripts/stores/ticket.js (the
    `_calculateZLayers` routine, kept there in commented-out form): the
    tickets are stable-sorted by `updatedAt`, an id-to-rank map is filled in
    from the sorted list, and each ticket's `z` is its id's rank. */
module ZLayer {
  import opened Records

  /** The order a stable sort by `updatedAt` puts positions of `ts` in:
      earlier update first, and among equal updates the earlier position. */
  predicate Before(ts: seq<Ticket>, i: int, j: int) {
    && 0 <= i < |ts| && 0 <= j < |ts|
    && (ts[i].updatedAt < ts[j].updatedAt || (ts[i].updatedAt == ts[j].updatedAt && i < j))
  }

  /** Every entry of `order` is a position of `ts`. */
  predicate InRange(ts: seq<Ticket>, order: seq<int>) {
    forall a :: 0 <= a < |order| ==> 0 <= order[a] < |ts|
  }

  /** The positions in `order` go strictly up in the stable order. */
  predicate Ascending(ts: seq<Ticket>, order: seq<int>) {
    forall a, b :: 0 <= a < b < |order| ==> Before(ts, order[a], order[b])
  }

  /** Insert position `x` into an ascending list of positions. */
  function Insert(ts: seq<Ticket>, x: int, order: seq<int>): (r: seq<int>)
    requires 0 <= x < |ts| && x !in order
    requires InRange(ts, order) && Ascending(ts, order)
    ensures |r| == |order| + 1
    ensures forall y :: y in r <==> y == x || y in order
    ensures InRange(ts, r) && Ascending(ts, r)
  {
    if |order| == 0 then [x]
    else if Before(ts, x, order[0]) then [x] + order
    else
      var rest := Insert(ts, x, order[1..]);
      assert Before(ts, order[0], x);
      assert forall y :: y in rest ==> Before(ts, order[0], y);
      [order[0]] + rest
  }

  /** Positions `0 .. n-1` of `ts` in stable `updatedAt` order (insertion
      sort). The order is strict and total, so any stable sort, Immutable's
      `sortBy` among them, lists them the same way. */
  function SortedOrder(ts: seq<Ticket>, n: int): (r: seq<int>)
    requires 0 <= n <= |ts|
    ensures |r| == n
    ensures forall y :: y in r <==> 0 <= y < n
    ensures InRange(ts, r) && Ascending(ts, r)
  {
    if n == 0 then [] else Insert(ts, n - 1, SortedOrder(ts, n - 1))
  }

  /** `sortBy(t => t.updatedAt)`: the tickets rearranged, each exactly once,
      in the stable order, so that `updatedAt` never decreases. */
  function SortByUpdatedAt(ts: seq<Ticket>): (r: seq<Ticket>)
    ensures |r| == |ts|
    ensures forall p :: 0 <= p < |r| ==>
      0 <= SortedOrder(ts, |ts|)[p] < |ts| && r[p] == ts[SortedOrder(ts, |ts|)[p]]
    ensures forall a, b :: 0 <= a < b < |r| ==> r[a].updatedAt <= r[b].updatedAt
  {
    var order := SortedOrder(ts, |ts|);
    seq(|ts|, p requires 0 <= p < |ts| => ts[order[p]])
  }

  /** The sorted list holds the ticket that sat at position `k`. */
  lemma SortedHoldsEveryTicket(ts: seq<Ticket>, k: int)
    requires 0 <= k < |ts|
    ensures ts[k] in SortByUpdatedAt(ts)
    ensures ts[k].id in TicketIds(SortByUpdatedAt(ts))
  {
    var order := SortedOrder(ts, |ts|);
    assert k in order;
    var p :| 0 <= p < |order| && order[p] == k;
    assert SortByUpdatedAt(ts)[p] == ts[k];
    assert TicketIds(SortByUpdatedAt(ts))[p] == ts[k].id;
  }

  /** The map `_calculateZLayers` fills from the sorted list: each id goes to
      an index that holds it (the last one: see `ZMapKeepsLastIndex`). */
  function ZMap(sorted: seq<Ticket>): (m: map<string, int>)
    ensures forall id :: id in m <==> id in TicketIds(sorted)
    ensures forall id :: id in m ==> 0 <= m[id] < |sorted| && sorted[m[id]].id == id
  {
    if |sorted| == 0 then map[]
    else
      var n := |sorted| - 1;
      assert TicketIds(sorted) == TicketIds(sorted[..n]) + [sorted[n].id];
      ZMap(sorted[..n])[sorted[n].id := n]
  }

  /** Later writes win: an id's entry is the last index that holds it. */
  lemma {:induction false} ZMapKeepsLastIndex(sorted: seq<Ticket>, id: string, q: int)
    requires id in ZMap(sorted)
    requires ZMap(sorted)[id] < q < |sorted|
    ensures sorted[q].id != id
  {
    var n := |sorted| - 1;
    if q < n {
      assert sorted[n].id != id;
      assert TicketIds(sorted) == TicketIds(sorted[..n]) + [sorted[n].id];
      ZMapKeepsLastIndex(sorted[..n], id, q);
    }
  }

  /** Each ticket's z: the rank of its id in the sorted list. */
  function ZLayers(ts: seq<Ticket>): (z: seq<int>)
    ensures |z| == |ts|
  {
    var m := ZMap(SortByUpdatedAt(ts));
    seq(|ts|, k requires 0 <= k < |ts| => SortedHoldsEveryTicket(ts, k); m[ts[k].id])
  }

  /** A ticket's z is a place in the sorted list, and a ticket with the same
      id sits there. */
  lemma ZLayerIsSortedPlaceOfId(ts: seq<Ticket>, k: int)
    requires 0 <= k < |ts|
    ensures 0 <= ZLayers(ts)[k] < |ts|
    ensures SortByUpdatedAt(ts)[ZLayers(ts)[k]].id == ts[k].id
  {
    SortedHoldsEveryTicket(ts, k);
  }

  /** With distinct ids, a ticket is identified by its id. */
  lemma SameIdSamePlace(ts: seq<Ticket>, j: int, k: int)
    requires UniqueTicketIds(ts)
    requires 0 <= j < |ts| && 0 <= k < |ts| && ts[j].id == ts[k].id
    ensures j == k
  {
  }

  /** Every z is a place in the list. */
  lemma ZLayersInRange(ts: seq<Ticket>)
    ensures forall k :: 0 <= k < |ts| ==> 0 <= ZLayers(ts)[k] < |ts|
  {
    forall k | 0 <= k < |ts|
      ensures 0 <= ZLayers(ts)[k] < |ts|
    {
      ZLayerIsSortedPlaceOfId(ts, k);
    }
  }

  /** With distinct ids, a ticket's z is the place the stable sort gives its
      position. */
  lemma ZLayersAreSortedPlaces(ts: seq<Ticket>, k: int)
    requires UniqueTicketIds(ts)
    requires 0 <= k < |ts|
    ensures 0 <= ZLayers(ts)[k] < |ts|
    ensures SortedOrder(ts, |ts|)[ZLayers(ts)[k]] == k
  {
    ZLayerIsSortedPlaceOfId(ts, k);
    var q := ZLayers(ts)[k];
    SameIdSamePlace(ts, SortedOrder(ts, |ts|)[q], k);
  }

  /** With distinct ids the z-layers are a permutation of `0 .. N-1`: no
      two tickets share a z, and every layer is taken. */
  lemma ZLayersPermutation(ts: seq<Ticket>)
    requires UniqueTicketIds(ts)
    ensures forall a, b :: 0 <= a < b < |ts| ==> ZLayers(ts)[a] != ZLayers(ts)[b]
    ensures forall p :: 0 <= p < |ts| ==> p in ZLayers(ts)
  {
    var z := ZLayers(ts);
    var order := SortedOrder(ts, |ts|);
    forall a, b | 0 <= a < b < |ts|
      ensures z[a] != z[b]
    {
      ZLayersAreSortedPlaces(ts, a);
      ZLayersAreSortedPlaces(ts, b);
    }
    forall p | 0 <= p < |ts|
      ensures p in z
    {
      var k := order[p];
      ZLayersAreSortedPlaces(ts, k);
    }
  }

  /** With distinct ids, a ticket that comes first in the stable order gets
      the lower z. */
  lemma ZLayersRespectOrder(ts: seq<Ticket>, a: int, b: int)
    requires UniqueTicketIds(ts)
    requires Before(ts, a, b)
    ensures ZLayers(ts)[a] < ZLayers(ts)[b]
  {
    ZLayersAreSortedPlaces(ts, a);
    ZLayersAreSortedPlaces(ts, b);
  }

  /** With distinct ids the z-layers follow `updatedAt`, and tickets with
      equal `updatedAt` keep their relative order. */
  lemma ZLayersFollowUpdatedAt(ts: seq<Ticket>)
    requires UniqueTicketIds(ts)
    ensures forall a, b :: 0 <= a < |ts| && 0 <= b < |ts| && ts[a].updatedAt < ts[b].updatedAt ==>
      ZLayers(ts)[a] < ZLayers(ts)[b]
    ensures forall a, b :: 0 <= a < b < |ts| && ts[a].updatedAt == ts[b].updatedAt ==>
      ZLayers(ts)[a] < ZLayers(ts)[b]
  {
    forall a, b | 0 <= a < |ts| && 0 <= b < |ts| && ts[a].updatedAt < ts[b].updatedAt
      ensures ZLayers(ts)[a] < ZLayers(ts)[b]
    {
      ZLayersRespectOrder(ts, a, b);
    }
    forall a, b | 0 <= a < b < |ts| && ts[a].updatedAt == ts[b].updatedAt
      ensures ZLayers(ts)[a] < ZLayers(ts)[b]
    {
      ZLayersRespectOrder(ts, a, b);
    }
  }

  /** A strictly increasing list of `n` values below `n` counts 0, 1, 2, … */
  lemma {:induction false} IncreasingFillsRange(z: seq<int>, k: int)
    requires forall a :: 0 <= a < |z| ==> 0 <= z[a] < |z|
    requires forall a, b :: 0 <= a < b < |z| ==> z[a] < z[b]
    requires 0 <= k < |z|
    ensures z[k] == k
  {
    LowerBound(z, k);
    UpperBound(z, k);
  }

  lemma {:induction false} LowerBound(z: seq<int>, k: int)
    requires forall a :: 0 <= a < |z| ==> 0 <= z[a]
    requires forall a, b :: 0 <= a < b < |z| ==> z[a] < z[b]
    requires 0 <= k < |z|
    ensures z[k] >= k
  {
    if k > 0 {
      LowerBound(z, k - 1);
    }
  }

  lemma {:induction false} UpperBound(z: seq<int>, k: int)
    requires forall a :: 0 <= a < |z| ==> z[a] < |z|
    requires forall a, b :: 0 <= a < b < |z| ==> z[a] < z[b]
    requires 0 <= k < |z|
    ensures z[k] <= k
    decreases |z| - k
  {
    if k < |z| - 1 {
      UpperBound(z, k + 1);
    }
  }

  /** Tickets already in `updatedAt` order, ties included, get z equal to
      their position: recomputing never reshuffles them. In particular three
      tickets all updated at the same time get z = 0, 1, 2 in list order. */
  lemma ZLayersOfOrderedTickets(ts: seq<Ticket>)
    requires UniqueTicketIds(ts)
    requires forall a, b :: 0 <= a < b < |ts| ==> ts[a].updatedAt <= ts[b].updatedAt
    ensures forall k :: 0 <= k < |ts| ==> ZLayers(ts)[k] == k
  {
    ZLayersFollowUpdatedAt(ts);
    ZLayersInRange(ts);
    forall k | 0 <= k < |ts|
      ensures ZLayers(ts)[k] == k
    {
      IncreasingFillsRange(ZLayers(ts), k);
    }
  }
}
