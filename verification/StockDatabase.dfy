/** The repositories as an object: committed rows, and the rows each open session has
    written. Every method is the step of the same name on the value of the object. */
module StockDatabase {
  import opened Stock
  import opened StockCounts

  class Database {
    var committed: Slots
    var open: map<TxnId, Slots>

    ghost function Now(): World
      reads this
    {
      World(committed, open)
    }

    constructor (rows: Slots)
      ensures Now() == World(rows, map[])
    {
      committed, open := rows, map[];
    }

    method BeginSession(t: TxnId)
      requires Enabled(Now(), Begin(t))
      modifies this
      ensures Now() == Apply(old(Now()), Begin(t))
    {
      open := open[t := map[]];
    }

    /** What the session sees of one item. */
    method Read(t: TxnId, item: ItemId) returns (slot: Slot)
      requires t in open && item in committed
      ensures slot == View(Now(), t, item)
    {
      slot := if item in open[t] then open[t][item] else committed[item];
    }

    /** The oldest of some rows. */
    method Oldest(t: TxnId, rows: set<ItemId>) returns (oldest: ItemId)
      requires t in open && rows != {} && forall i :: i in rows ==> i in committed
      ensures oldest in rows
      ensures forall i :: i in rows ==> View(Now(), t, oldest).createdAt <= View(Now(), t, i).createdAt
    {
      oldest :| oldest in rows;
      var rest := rows - {oldest};
      while rest != {}
        invariant oldest in rows && rest <= rows
        invariant forall i :: i in rows && i !in rest ==>
                    View(Now(), t, oldest).createdAt <= View(Now(), t, i).createdAt
        decreases rest
      {
        var i :| i in rest;
        var best := Read(t, oldest);
        var other := Read(t, i);
        if other.createdAt < best.createdAt {
          oldest := i;
        }
        rest := rest - {i};
      }
    }

    /** `claim_available`: the oldest available rows no other session has locked, as many as
        asked for or as there are. */
    method ClaimAvailable(t: TxnId, product: ProductId, quantity: nat) returns (claimed: seq<ItemId>)
      requires t in open
      ensures IsClaim(Now(), t, product, quantity, claimed)
    {
      var w := World(committed, open);
      var rest := set i | i in committed && Candidate(w, t, product, i);
      claimed := [];
      while |claimed| < quantity && rest != {}
        invariant |claimed| <= quantity
        invariant forall i :: i in rest <==> i in committed && Candidate(w, t, product, i) && i !in claimed
        invariant forall k :: 0 <= k < |claimed| ==> Candidate(w, t, product, claimed[k])
        invariant forall j, k :: 0 <= j < k < |claimed| ==>
                    claimed[j] != claimed[k] && View(w, t, claimed[j]).createdAt <= View(w, t, claimed[k]).createdAt
        invariant forall k, i :: 0 <= k < |claimed| && i in rest ==>
                    View(w, t, claimed[k]).createdAt <= View(w, t, i).createdAt
        decreases rest
      {
        var next := Oldest(t, rest);
        claimed, rest := claimed + [next], rest - {next};
      }
    }

    /** The loop of `reserve`: every claimed item is marked and given its reservation. */
    method MarkReserved(t: TxnId, order: OrderId, claimed: seq<ItemId>, ids: map<ItemId, HoldId>)
      returns (mine: Slots, conflict: bool)
      requires t in open && forall i :: i in claimed ==> i in committed && i in ids
      ensures mine == Reservations(Now(), t, order, claimed, ids)
      ensures conflict <==> ClaimConflict(Now(), t, claimed)
    {
      conflict, mine := false, map[];
      for k := 0 to |claimed|
        invariant forall i :: i in mine <==> i in claimed[..k]
        invariant forall i :: i in mine ==> mine[i] == ReserveSlot(View(Now(), t, i), ids[i], order)
        invariant conflict <==> exists i :: i in claimed[..k] && Has(View(Now(), t, i), Active)
      {
        var slot := Read(t, claimed[k]);
        assert forall i :: i in claimed[..k + 1] <==> i in claimed[..k] || i == claimed[k];
        conflict := conflict || Has(slot, Active);
        mine := mine[claimed[k] := ReserveSlot(slot, ids[claimed[k]], order)];
      }
      assert claimed[..|claimed|] == claimed;
    }

    /** `reserve`: mark every claimed item and add its reservation, then flush. Too few
        items, or a constraint refusing one of the rows, rolls the session back. */
    method ReserveStock(t: TxnId, product: ProductId, quantity: nat, order: OrderId, claimed: seq<ItemId>,
                        ids: map<ItemId, HoldId>)
      returns (ok: bool)
      requires Enabled(Now(), Reserve(t, product, quantity, order, claimed, ids))
      modifies this
      ensures Now() == Apply(old(Now()), Reserve(t, product, quantity, order, claimed, ids))
      ensures ok <==> t in open
    {
      if |claimed| < quantity {
        open := open - {t};
        return false;
      }
      var mine, conflict := MarkReserved(t, order, claimed, ids);
      if conflict {
        open := open - {t};
        return false;
      }
      open := open[t := open[t] + mine];
      return true;
    }

    /** The write shared by `release`, `expire` and `consume`: the item row, then the
        flush of the reservation, which the database may refuse. */
    method SetStatus(t: TxnId, item: ItemId, hold: HoldId, target: HoldStatus) returns (ok: bool)
      requires Enabled(Now(), SetHold(t, item, hold, target))
      modifies this
      ensures Now() == Apply(old(Now()), SetHold(t, item, hold, target))
      ensures ok <==> t in open
    {
      var slot := Read(t, item);
      if hold !in slot.holds || Conflict(slot, hold, target) {
        open := open - {t};
        return false;
      }
      open := open[t := open[t] + map[item := SetHoldSlot(slot, hold, target)]];
      return true;
    }

    method Release(t: TxnId, item: ItemId, hold: HoldId) returns (ok: bool)
      requires Enabled(Now(), SetHold(t, item, hold, Released))
      modifies this
      ensures Now() == Apply(old(Now()), SetHold(t, item, hold, Released)) && (ok <==> t in open)
    {
      ok := SetStatus(t, item, hold, Released);
    }

    method Expire(t: TxnId, item: ItemId, hold: HoldId) returns (ok: bool)
      requires Enabled(Now(), SetHold(t, item, hold, Lapsed))
      modifies this
      ensures Now() == Apply(old(Now()), SetHold(t, item, hold, Lapsed)) && (ok <==> t in open)
    {
      ok := SetStatus(t, item, hold, Lapsed);
    }

    method Consume(t: TxnId, item: ItemId, hold: HoldId) returns (ok: bool)
      requires Enabled(Now(), SetHold(t, item, hold, Consumed))
      modifies this
      ensures Now() == Apply(old(Now()), SetHold(t, item, hold, Consumed)) && (ok <==> t in open)
    {
      ok := SetStatus(t, item, hold, Consumed);
    }

    /** `purge_for_order`. */
    method PurgeForOrder(t: TxnId, order: OrderId)
      requires Enabled(Now(), Purge(t, order))
      modifies this
      ensures Now() == Apply(old(Now()), Purge(t, order))
    {
      var items := PurgedItems(World(committed, open), t, order);
      open := open[t := open[t] + map i | i in items :: PurgeSlot(View(World(committed, open), t, i), order)];
    }

    /** The loop shared by `reap_expired` and `release_for_order`. The first error ends it. */
    method SetBatch(t: TxnId, batch: Batch, target: HoldStatus) returns (ok: bool)
      requires BatchEnabled(Now(), t, batch) && target != Active
      modifies this
      ensures Now() == SetAll(old(Now()), t, batch, target)
      ensures ok <==> t in open
    {
      ghost var before := Now();
      var k := 0;
      while k < |batch|
        invariant 0 <= k <= |batch| && BatchEnabled(Now(), t, batch[k..])
        invariant SetAll(Now(), t, batch[k..], target) == SetAll(before, t, batch, target)
      {
        assert batch[k..][0] == batch[k] && batch[k..][1..] == batch[k + 1..];
        ghost var now := Now();
        ok := SetStatus(t, batch[k].0, batch[k].1, target);
        if !ok {
          return false;
        }
        SetOneLeavesOthers(now, t, batch[k..], target);
        k := k + 1;
      }
      return true;
    }

    method ReapExpired(t: TxnId, due: Batch) returns (expired: nat)
      requires ReaperEnabled(Now(), t, due)
      modifies this
      ensures Now() == ReaperPass(old(Now()), t, due)
      ensures (exists k :: 0 <= k < |due| && due[k].0 in old(committed) && Stuck(old(Now()), due[k])) ==>
                expired == 0 && Now() == old(Now())
      ensures (forall k :: 0 <= k < |due| ==> due[k].0 in old(committed) && !Stuck(old(Now()), due[k])) ==>
                expired == |due|
    {
      ghost var before := Now();
      BeginSession(t);
      PassStarts(before, t, due);
      BatchIsAllOrNothing(Now(), t, due, Lapsed);
      var ok := SetBatch(t, due, Lapsed);
      if ok {
        CommitSession(t);
        expired := |due|;
      } else {
        expired := 0;
      }
    }

    method CommitSession(t: TxnId)
      requires Enabled(Now(), Commit(t))
      modifies this
      ensures Now() == Apply(old(Now()), Commit(t))
    {
      committed, open := committed + open[t], open - {t};
    }

    method RollbackSession(t: TxnId)
      requires Enabled(Now(), Rollback(t))
      modifies this
      ensures Now() == Apply(old(Now()), Rollback(t))
    {
      open := open - {t};
    }
  }
}
