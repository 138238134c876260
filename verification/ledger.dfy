/**
 * The order ledger: looking an order up by id, the order listing, the
 * status change, and the shape every stored order keeps.
 */
module Ledger {
  import opened Wrappers
  import opened Sequences
  import opened Records
  import opened Placement

  /** Position of the first order with this id, as orders.findIndex(o => o.id === id). */
  function OrderIndex(os: seq<Order>, id: int): (r: Option<nat>)
    ensures r.Some? ==> r.value < |os| && os[r.value].id == id
    ensures r.Some? ==> forall i :: 0 <= i < r.value ==> os[i].id != id
    ensures r.None? <==> forall i :: 0 <= i < |os| ==> os[i].id != id
  {
    FindIndex(os, (o: Order) => o.id == id)
  }

  /** The order with this id, as orders.find(o => o.id === id). */
  function FindOrder(os: seq<Order>, id: int): (r: Option<Order>)
    ensures r.None? <==> forall i :: 0 <= i < |os| ==> os[i].id != id
    ensures r.Some? ==> r.value in os && r.value.id == id
  {
    match OrderIndex(os, id)
    case None => None
    case Some(k) => Some(os[k])
  }

  /** Orders appear in the ledger by strictly increasing id. */
  predicate IdsIncreasing(os: seq<Order>) {
    forall i, j :: 0 <= i < j < |os| ==> os[i].id < os[j].id
  }

  predicate IdsDecreasing(os: seq<Order>) {
    forall i, j :: 0 <= i < j < |os| ==> os[i].id > os[j].id
  }

  /** With increasing ids no id occurs twice, so a lookup by id finds the one order with it. */
  lemma IncreasingIdsUnique(os: seq<Order>, k: nat)
    requires IdsIncreasing(os)
    requires k < |os|
    ensures OrderIndex(os, os[k].id) == Some(k)
    ensures FindOrder(os, os[k].id) == Some(os[k])
  {
  }

  /** An order as placement builds it and status changes keep it. */
  predicate WellFormed(o: Order) {
    && o.totalAmount == LineSum(o.items)
    && (forall l :: l in o.items ==> l.total == l.price * l.quantity)
    && o.status in ValidStatuses
  }

  /**
   * The ledger invariant: ids strictly increase along the ledger and all lie
   * below the next id to hand out, and every order is well formed.
   */
  predicate LedgerValid(os: seq<Order>, nextId: int) {
    && IdsIncreasing(os)
    && (forall i :: 0 <= i < |os| ==> os[i].id < nextId)
    && (forall i :: 0 <= i < |os| ==> WellFormed(os[i]))
  }

  /** Appending a well-formed order that takes the next id, and advancing the id, keeps the invariant. */
  lemma AppendKeepsLedgerValid(os: seq<Order>, nextId: int, o: Order)
    requires LedgerValid(os, nextId)
    requires o.id == nextId && WellFormed(o)
    ensures LedgerValid(os + [o], nextId + 1)
  {
  }

  /** A status change to one of the valid statuses keeps the invariant. */
  lemma StatusChangeKeepsLedgerValid(os: seq<Order>, nextId: int, k: nat, status: string, now: Timestamp)
    requires LedgerValid(os, nextId)
    requires k < |os| && status in ValidStatuses
    ensures LedgerValid(os[k := WithStatus(os[k], status, now)], nextId)
  {
  }

  /** The order after a status change at time now. */
  function WithStatus(o: Order, status: string, now: Timestamp): (r: Order)
    ensures r.id == o.id && r.items == o.items && r.totalAmount == o.totalAmount
    ensures r.customerInfo == o.customerInfo && r.createdAt == o.createdAt
    ensures r.status == status && r.updatedAt == now
  {
    o.(status := status, updatedAt := now)
  }

  /** The status filter of the listing, applied when a status is given. */
  function ByStatus(os: seq<Order>, status: string): (r: seq<Order>)
    ensures IsSubseq(r, os)
    ensures forall k :: 0 <= k < |r| ==> r[k] in os && (status != "" ==> r[k].status == status)
    ensures forall i :: 0 <= i < |os| && (status != "" ==> os[i].status == status) ==> os[i] in r
    ensures forall x :: multiset(r)[x] == if status != "" ==> x.status == status then multiset(os)[x] else 0
  {
    if status == "" then SubseqReflexive(os); os
    else Filter(os, (o: Order) => o.status == status)
  }

  /**
   * The listing: the orders with the given status, cut to the first `limit`
   * of them with the rules of slice(0, limit), newest first.
   */
  function ListOrders(os: seq<Order>, status: string, limit: Option<int>): (r: seq<Order>)
    ensures var matching := ByStatus(os, status);
      && |r| == (if limit.Some? then SliceEnd(|matching|, limit.value) else |matching|)
      && forall k :: 0 <= k < |r| ==> r[k] == matching[|r| - 1 - k]
  {
    var matching := ByStatus(os, status);
    var kept := if limit.Some? then matching[..SliceEnd(|matching|, limit.value)] else matching;
    Reverse(kept)
  }

  /** Dropping orders from a ledger keeps its ids increasing. */
  lemma {:induction false} SubseqKeepsIdsIncreasing(a: seq<Order>, b: seq<Order>)
    requires IsSubseq(a, b) && IdsIncreasing(b)
    ensures IdsIncreasing(a)
    decreases |b|
  {
    if b != [] {
      assert IdsIncreasing(b[1..]);
      if a != [] && a[0] == b[0] && IsSubseq(a[1..], b[1..]) {
        SubseqKeepsIdsIncreasing(a[1..], b[1..]);
        SubseqMembers(a[1..], b[1..]);
        forall j | 1 <= j < |a| ensures a[0].id < a[j].id {
          assert a[j] == a[1..][j - 1];
          var m :| 0 <= m < |b[1..]| && b[1..][m] == a[j];
          assert b[m + 1] == a[j];
        }
      } else {
        SubseqKeepsIdsIncreasing(a, b[1..]);
      }
    }
  }

  /** Over a ledger with increasing ids, the listing shows the newest order first. */
  lemma ListOrdersNewestFirst(os: seq<Order>, status: string, limit: Option<int>)
    requires IdsIncreasing(os)
    ensures IdsDecreasing(ListOrders(os, status, limit))
  {
    SubseqKeepsIdsIncreasing(ByStatus(os, status), os);
  }
}
