/** Stock items, their reservations and the transactions that move them
    (app/db/repositories/catalog.py, app/domain/inventory/service.py), as functions
    on values.

    A slot is an inventory row together with the reservation rows that refer to it.
    A transaction works on its own copies of the slots it has written; writing a slot
    locks it until the transaction ends. Nothing makes a transaction re-read a
    reservation before it changes it, so every step below also covers a session that
    acts on a reservation it loaded long ago. */
module Stock {

  type ItemId = nat
  type HoldId = nat
  type OrderId = nat
  type ProductId = nat
  type TxnId = nat

  datatype ItemStatus = Available | Reserved | Sold | Invalid

  datatype HoldStatus = Active | Consumed | Released | Lapsed

  /** A reservation row; `Lapsed` is the status EXPIRED. */
  datatype Hold = Hold(order: OrderId, status: HoldStatus)

  datatype Slot = Slot(product: ProductId, createdAt: nat, status: ItemStatus, holds: map<HoldId, Hold>)

  type Slots = map<ItemId, Slot>

  datatype World = World(committed: Slots, open: map<TxnId, Slots>)

  // ------------------------------------------------------------ one slot

  predicate Has(slot: Slot, status: HoldStatus) {
    exists h :: h in slot.holds && slot.holds[h].status == status
  }

  /** UNIQUE (inventory_item_id, status): no two reservations of an item share a status. */
  predicate Unique(slot: Slot) {
    forall g, h :: g in slot.holds && h in slot.holds && slot.holds[g].status == slot.holds[h].status ==> g == h
  }

  /** The constraint would be broken by giving reservation `h` this status. */
  predicate Conflict(slot: Slot, h: HoldId, status: HoldStatus) {
    exists g :: g in slot.holds && g != h && slot.holds[g].status == status
  }

  function ReserveSlot(slot: Slot, h: HoldId, order: OrderId): Slot {
    slot.(status := Reserved, holds := slot.holds[h := Hold(order, Active)])
  }

  /** `consume` sells the item whatever its status; `release` and `expire` free it
      only while it is reserved. None of the three looks at the reservation's status. */
  function SetHoldSlot(slot: Slot, h: HoldId, target: HoldStatus): Slot
    requires h in slot.holds
  {
    var holds := slot.holds[h := slot.holds[h].(status := target)];
    if target == Consumed then slot.(status := Sold, holds := holds)
    else if slot.status == Reserved then slot.(status := Available, holds := holds)
    else slot.(holds := holds)
  }

  /** `purge_for_order` deletes the active reservations and leaves the item alone. */
  function PurgeSlot(slot: Slot, order: OrderId): Slot {
    slot.(holds := slot.holds - (set h | h in slot.holds && slot.holds[h] == Hold(order, Active)))
  }

  /** Every reservation agrees with its item, in both directions. */
  ghost predicate Settled(slot: Slot) {
    && Backed(slot)
    && (slot.status == Reserved ==> Has(slot, Active))
  }

  /** The item of an active reservation is reserved, the item of a consumed one is sold,
      and an item is only sold by a consumed reservation. */
  ghost predicate Backed(slot: Slot) {
    && Unique(slot)
    && (forall h :: h in slot.holds && slot.holds[h].status == Active ==> slot.status == Reserved)
    && (forall h :: h in slot.holds && slot.holds[h].status == Consumed ==> slot.status == Sold)
    && (slot.status == Sold ==> Has(slot, Consumed))
  }

  lemma ReserveKeeps(slot: Slot, h: HoldId, order: OrderId)
    requires slot.status == Available && h !in slot.holds && !Conflict(slot, h, Active)
    ensures Unique(slot) ==> Unique(ReserveSlot(slot, h, order))
    ensures Backed(slot) ==> Settled(ReserveSlot(slot, h, order))
  {
    var after := ReserveSlot(slot, h, order);
    assert h in after.holds && after.holds[h].status == Active;
  }

  lemma SetHoldKeepsUnique(slot: Slot, h: HoldId, target: HoldStatus)
    requires Unique(slot) && h in slot.holds && !Conflict(slot, h, target)
    ensures Unique(SetHoldSlot(slot, h, target))
  {
  }

  /** When release, expire or consume may run: the reservation is active, or no other
      one is and a consumed one is not given another status. */
  ghost predicate SafeToSet(slot: Slot, h: HoldId, target: HoldStatus)
    requires h in slot.holds
  {
    slot.holds[h].status == Active || (!Has(slot, Active) && (slot.holds[h].status == Consumed ==> target == Consumed))
  }

  lemma HasAfterSet(slot: Slot, h: HoldId, target: HoldStatus, status: HoldStatus)
    requires h in slot.holds && Unique(slot)
    ensures status == target ==> Has(SetHoldSlot(slot, h, target), status)
    ensures status != target && status != slot.holds[h].status ==>
              (Has(SetHoldSlot(slot, h, target), status) <==> Has(slot, status))
    ensures status != target && status == slot.holds[h].status ==> !Has(SetHoldSlot(slot, h, target), status)
  {
    var after := SetHoldSlot(slot, h, target);
    assert h in after.holds && after.holds[h].status == target;
    if Has(slot, status) {
      var g :| g in slot.holds && slot.holds[g].status == status;
      assert g in after.holds && (g != h ==> after.holds[g].status == status);
    }
    if Has(after, status) {
      var g :| g in after.holds && after.holds[g].status == status;
      assert g in slot.holds && (g != h ==> slot.holds[g].status == status);
    }
  }

  /** The three repository calls re-check nothing. Called on a settled slot, and not
      refused by the constraint, they keep it settled exactly when the reservation is
      active, or when nobody else holds the item and no sale is taken back. */
  lemma SetHoldExactlyWhenSafe(slot: Slot, h: HoldId, target: HoldStatus)
    requires Settled(slot) && h in slot.holds && target != Active && !Conflict(slot, h, target)
    ensures Settled(SetHoldSlot(slot, h, target)) <==> SafeToSet(slot, h, target)
  {
    HasAfterSet(slot, h, target, Active);
    HasAfterSet(slot, h, target, Consumed);
  }

  /** Only the other reservations of an item stand in the way: releasing, expiring or consuming
      a reservation once more is not refused, and changes nothing. */
  lemma OnceMoreChangesNothing(slot: Slot, h: HoldId, target: HoldStatus)
    requires h in slot.holds && target != Active && !Conflict(slot, h, target)
    ensures !Conflict(SetHoldSlot(slot, h, target), h, target)
    ensures SetHoldSlot(SetHoldSlot(slot, h, target), h, target) == SetHoldSlot(slot, h, target)
  {
    assert SetHoldSlot(slot, h, target).holds[h].status == target;
  }

  lemma SetActiveKeepsBacked(slot: Slot, h: HoldId, target: HoldStatus)
    requires Backed(slot) && h in slot.holds && slot.holds[h].status == Active
    requires target != Active && !Conflict(slot, h, target)
    ensures Backed(SetHoldSlot(slot, h, target))
  {
    HasAfterSet(slot, h, target, Active);
    HasAfterSet(slot, h, target, Consumed);
  }

  lemma PurgeKeepsBacked(slot: Slot, order: OrderId)
    ensures Unique(slot) ==> Unique(PurgeSlot(slot, order))
    ensures Backed(slot) ==> Backed(PurgeSlot(slot, order))
  {
    if Has(slot, Consumed) {
      var h :| h in slot.holds && slot.holds[h].status == Consumed;
      assert h in PurgeSlot(slot, order).holds;
    }
  }

  // ------------------------------------------------------- transactions

  datatype Step =
    | Begin(t: TxnId)
    | Reserve(t: TxnId, product: ProductId, quantity: nat, order: OrderId, claimed: seq<ItemId>,
              ids: map<ItemId, HoldId>)
    | SetHold(t: TxnId, item: ItemId, hold: HoldId, target: HoldStatus)
    | Purge(t: TxnId, order: OrderId)
    | Commit(t: TxnId)
    | Rollback(t: TxnId)

  predicate LockedByOther(w: World, t: TxnId, item: ItemId) {
    exists u :: u in w.open && u != t && item in w.open[u]
  }

  /** What a transaction reads: its own version of a slot, else the committed one. */
  function View(w: World, t: TxnId, item: ItemId): Slot
    requires t in w.open && (item in w.committed || item in w.open[t])
  {
    if item in w.open[t] then w.open[t][item] else w.committed[item]
  }

  predicate Candidate(w: World, t: TxnId, product: ProductId, item: ItemId)
    requires t in w.open
  {
    && item in w.committed
    && !LockedByOther(w, t, item)
    && View(w, t, item).product == product
    && View(w, t, item).status == Available
  }

  /** The rows `claim_available` may return: available, not locked by another
      transaction (SKIP LOCKED), the oldest first, and as many as asked for if there
      are that many. Rows of equal age come in any order. */
  ghost predicate IsClaim(w: World, t: TxnId, product: ProductId, quantity: nat, claimed: seq<ItemId>)
    requires t in w.open
  {
    && |claimed| <= quantity
    && (forall k :: 0 <= k < |claimed| ==> Candidate(w, t, product, claimed[k]))
    && (forall j, k :: 0 <= j < k < |claimed| ==>
          claimed[j] != claimed[k] && View(w, t, claimed[j]).createdAt <= View(w, t, claimed[k]).createdAt)
    && (forall i :: Candidate(w, t, product, i) && i !in claimed ==>
          |claimed| == quantity && forall k :: 0 <= k < |claimed| ==>
            View(w, t, claimed[k]).createdAt <= View(w, t, i).createdAt)
  }

  /** The slots whose active reservations of `order` a purge deletes. */
  function PurgedItems(w: World, t: TxnId, order: OrderId): set<ItemId>
    requires t in w.open
  {
    set i | i in w.committed && exists h :: h in View(w, t, i).holds && View(w, t, i).holds[h] == Hold(order, Active)
  }

  /** A step waits until the locks it needs are free. */
  ghost predicate Enabled(w: World, step: Step) {
    match step
    case Begin(t) => t !in w.open
    case Reserve(t, product, quantity, order, claimed, ids) =>
      t in w.open && IsClaim(w, t, product, quantity, claimed)
      && forall i :: i in claimed ==> i in w.committed && i in ids && ids[i] !in View(w, t, i).holds
    case SetHold(t, item, hold, target) =>
      t in w.open && item in w.committed && !LockedByOther(w, t, item) && target != Active
    case Purge(t, order) =>
      t in w.open && forall i :: i in PurgedItems(w, t, order) ==> !LockedByOther(w, t, i)
    case Commit(t) => t in w.open
    case Rollback(t) => t in w.open
  }

  /** An error anywhere in a transaction rolls the whole of it back. */
  function Abort(w: World, t: TxnId): World {
    w.(open := w.open - {t})
  }

  function Write(w: World, t: TxnId, written: Slots): World
    requires t in w.open
  {
    w.(open := w.open[t := w.open[t] + written])
  }

  /** The claimed items, each marked reserved and given a new active reservation. */
  function Reservations(w: World, t: TxnId, order: OrderId, claimed: seq<ItemId>, ids: map<ItemId, HoldId>): Slots
    requires t in w.open && forall i :: i in claimed ==> i in w.committed && i in ids
  {
    map i | i in claimed :: ReserveSlot(View(w, t, i), ids[i], order)
  }

  /** One of the claimed items still carries an active reservation. */
  predicate ClaimConflict(w: World, t: TxnId, claimed: seq<ItemId>)
    requires t in w.open && forall i :: i in claimed ==> i in w.committed
  {
    exists i :: i in claimed && Has(View(w, t, i), Active)
  }

  ghost function Apply(w: World, step: Step): World
    requires Enabled(w, step)
  {
    match step
    case Begin(t) => w.(open := w.open[t := map[]])
    case Reserve(t, product, quantity, order, claimed, ids) =>
      if |claimed| < quantity || ClaimConflict(w, t, claimed) then Abort(w, t)
      else Write(w, t, Reservations(w, t, order, claimed, ids))
    case SetHold(t, item, hold, target) =>
      var slot := View(w, t, item);
      if hold !in slot.holds || Conflict(slot, hold, target) then Abort(w, t)
      else Write(w, t, map[item := SetHoldSlot(slot, hold, target)])
    case Purge(t, order) =>
      Write(w, t, map i | i in PurgedItems(w, t, order) :: PurgeSlot(View(w, t, i), order))
    case Commit(t) => World(w.committed + w.open[t], w.open - {t})
    case Rollback(t) => Abort(w, t)
  }

  ghost predicate LegalRun(w: World, steps: seq<Step>)
    decreases |steps|
  {
    steps == [] || (Enabled(w, steps[0]) && LegalRun(Apply(w, steps[0]), steps[1..]))
  }

  ghost function After(w: World, steps: seq<Step>): World
    requires LegalRun(w, steps)
    decreases |steps|
  {
    if steps == [] then w else After(Apply(w, steps[0]), steps[1..])
  }

  /** The reservation a release, expire or consume acts on is active at that moment. */
  ghost predicate Fresh(w: World, step: Step)
    requires Enabled(w, step)
  {
    match step
    case SetHold(t, item, hold, target) =>
      hold in View(w, t, item).holds ==> View(w, t, item).holds[hold].status == Active
    case _ => true
  }

  ghost predicate FreshRun(w: World, steps: seq<Step>)
    requires LegalRun(w, steps)
    decreases |steps|
  {
    steps == [] || (Fresh(w, steps[0]) && FreshRun(Apply(w, steps[0]), steps[1..]))
  }

  // ------------------------------------------------- every interleaving

  /** No two open transactions have written the same slot, and what a transaction has
      written is a version of a committed slot that keeps its product and its age. */
  ghost predicate Locked(w: World) {
    && (forall t, u :: t in w.open && u in w.open && t != u ==> w.open[t].Keys !! w.open[u].Keys)
    && (forall t, i :: t in w.open && i in w.open[t] ==>
          && i in w.committed
          && w.open[t][i].product == w.committed[i].product
          && w.open[t][i].createdAt == w.committed[i].createdAt)
  }

  ghost predicate AllSlots(w: World, good: Slot -> bool) {
    && (forall i :: i in w.committed ==> good(w.committed[i]))
    && (forall t, i :: t in w.open && i in w.open[t] ==> good(w.open[t][i]))
  }

  /** Writing unlocked slots without moving or ageing them keeps the locks apart. */
  lemma WriteKeepsLocked(w: World, t: TxnId, written: Slots)
    requires Locked(w) && t in w.open
    requires forall i :: i in written ==>
               && i in w.committed && !LockedByOther(w, t, i)
               && written[i].product == View(w, t, i).product && written[i].createdAt == View(w, t, i).createdAt
    ensures Locked(Write(w, t, written))
  {
    var after := Write(w, t, written);
    forall u, v | u in after.open && v in after.open && u != v
      ensures after.open[u].Keys !! after.open[v].Keys
    {
      assert w.open[u].Keys !! w.open[v].Keys;
    }
  }

  lemma LockedStep(w: World, step: Step)
    requires Locked(w) && Enabled(w, step)
    ensures Locked(Apply(w, step))
  {
    match step
    case Reserve(t, product, quantity, order, claimed, ids) =>
      if |claimed| == quantity && !ClaimConflict(w, t, claimed) {
        CandidatesAreFree(w, t, product, quantity, claimed);
        WriteKeepsLocked(w, t, Reservations(w, t, order, claimed, ids));
      }
    case SetHold(t, item, hold, target) =>
      var slot := View(w, t, item);
      if hold in slot.holds && !Conflict(slot, hold, target) {
        WriteKeepsLocked(w, t, map[item := SetHoldSlot(slot, hold, target)]);
      }
    case Purge(t, order) =>
      WriteKeepsLocked(w, t, map i | i in PurgedItems(w, t, order) :: PurgeSlot(View(w, t, i), order));
    case Commit(t) =>
      CommitKeepsLocked(w, t);
    case _ =>
  }

  lemma CandidatesAreFree(w: World, t: TxnId, product: ProductId, quantity: nat, claimed: seq<ItemId>)
    requires t in w.open && IsClaim(w, t, product, quantity, claimed)
    ensures forall i :: i in claimed ==> Candidate(w, t, product, i)
  {
  }

  lemma CommitKeepsLocked(w: World, t: TxnId)
    requires Locked(w) && t in w.open
    ensures Locked(World(w.committed + w.open[t], w.open - {t}))
  {
    forall u, i | u in w.open && u != t && i in w.open[u]
      ensures i !in w.open[t]
    {
      assert w.open[u].Keys !! w.open[t].Keys;
    }
  }

  lemma WriteKeepsAll(w: World, t: TxnId, written: Slots, good: Slot -> bool)
    requires t in w.open && AllSlots(w, good) && forall i :: i in written ==> good(written[i])
    ensures AllSlots(Write(w, t, written), good)
  {
  }

  lemma UniqueStep(w: World, step: Step)
    requires AllSlots(w, Unique) && Enabled(w, step)
    ensures AllSlots(Apply(w, step), Unique)
  {
    match step
    case Reserve(t, product, quantity, order, claimed, ids) =>
      if |claimed| == quantity && !ClaimConflict(w, t, claimed) {
        CandidatesAreFree(w, t, product, quantity, claimed);
        forall i | i in claimed
          ensures Unique(ReserveSlot(View(w, t, i), ids[i], order))
        {
          ReserveKeeps(View(w, t, i), ids[i], order);
        }
        WriteKeepsAll(w, t, Reservations(w, t, order, claimed, ids), Unique);
      }
    case SetHold(t, item, hold, target) =>
      var slot := View(w, t, item);
      if hold in slot.holds && !Conflict(slot, hold, target) {
        SetHoldKeepsUnique(slot, hold, target);
        WriteKeepsAll(w, t, map[item := SetHoldSlot(slot, hold, target)], Unique);
      }
    case Purge(t, order) =>
      forall i | i in PurgedItems(w, t, order)
        ensures Unique(PurgeSlot(View(w, t, i), order))
      {
        PurgeKeepsBacked(View(w, t, i), order);
      }
    case _ =>
  }

  /** In every interleaving, stale sessions and purges included, the slots written by
      different open transactions are disjoint, so no item is claimed twice, and no
      version of an item ever has two active or two consumed reservations. */
  lemma {:induction false} NoDoubleBooking(w: World, steps: seq<Step>)
    requires Locked(w) && AllSlots(w, Unique) && LegalRun(w, steps)
    ensures Locked(After(w, steps)) && AllSlots(After(w, steps), Unique)
    decreases |steps|
  {
    if steps != [] {
      LockedStep(w, steps[0]);
      UniqueStep(w, steps[0]);
      NoDoubleBooking(Apply(w, steps[0]), steps[1..]);
    }
  }

  lemma BackedStep(w: World, step: Step)
    requires AllSlots(w, Backed) && Enabled(w, step) && Fresh(w, step)
    ensures AllSlots(Apply(w, step), Backed)
  {
    match step
    case Reserve(t, product, quantity, order, claimed, ids) =>
      if |claimed| == quantity && !ClaimConflict(w, t, claimed) {
        CandidatesAreFree(w, t, product, quantity, claimed);
        forall i | i in claimed
          ensures Backed(ReserveSlot(View(w, t, i), ids[i], order))
        {
          ReserveKeeps(View(w, t, i), ids[i], order);
        }
        WriteKeepsAll(w, t, Reservations(w, t, order, claimed, ids), Backed);
      }
    case SetHold(t, item, hold, target) =>
      var slot := View(w, t, item);
      if hold in slot.holds && !Conflict(slot, hold, target) {
        SetActiveKeepsBacked(slot, hold, target);
        WriteKeepsAll(w, t, map[item := SetHoldSlot(slot, hold, target)], Backed);
      }
    case Purge(t, order) =>
      forall i | i in PurgedItems(w, t, order)
        ensures Backed(PurgeSlot(View(w, t, i), order))
      {
        PurgeKeepsBacked(View(w, t, i), order);
      }
    case _ =>
  }

  /** While every session acts on active reservations only, every active reservation
      keeps its item reserved and every consumed one keeps it sold, purges included. */
  lemma {:induction false} FreshRunsStayBacked(w: World, steps: seq<Step>)
    requires AllSlots(w, Backed) && LegalRun(w, steps) && FreshRun(w, steps)
    ensures AllSlots(After(w, steps), Backed)
    decreases |steps|
  {
    if steps != [] {
      BackedStep(w, steps[0]);
      FreshRunsStayBacked(Apply(w, steps[0]), steps[1..]);
    }
  }

  lemma SettledStep(w: World, step: Step)
    requires AllSlots(w, Settled) && Enabled(w, step) && Fresh(w, step) && !step.Purge?
    ensures AllSlots(Apply(w, step), Settled)
  {
    match step
    case Reserve(t, product, quantity, order, claimed, ids) =>
      if |claimed| == quantity && !ClaimConflict(w, t, claimed) {
        CandidatesAreFree(w, t, product, quantity, claimed);
        forall i | i in claimed
          ensures Settled(ReserveSlot(View(w, t, i), ids[i], order))
        {
          ReserveKeeps(View(w, t, i), ids[i], order);
        }
        WriteKeepsAll(w, t, Reservations(w, t, order, claimed, ids), Settled);
      }
    case SetHold(t, item, hold, target) =>
      var slot := View(w, t, item);
      if hold in slot.holds && !Conflict(slot, hold, target) {
        SetHoldExactlyWhenSafe(slot, hold, target);
        WriteKeepsAll(w, t, map[item := SetHoldSlot(slot, hold, target)], Settled);
      }
    case _ =>
  }

  /** Without purges the agreement holds both ways: an item is reserved exactly while
      one reservation of it is active, and sold exactly when one is consumed. */
  lemma {:induction false} FreshRunsStaySettled(w: World, steps: seq<Step>)
    requires AllSlots(w, Settled) && LegalRun(w, steps) && FreshRun(w, steps)
    requires forall k :: 0 <= k < |steps| ==> !steps[k].Purge?
    ensures AllSlots(After(w, steps), Settled)
    decreases |steps|
  {
    if steps != [] {
      SettledStep(w, steps[0]);
      FreshRunsStaySettled(Apply(w, steps[0]), steps[1..]);
    }
  }

  // ------------------------------------------------------- sold for good

  ghost predicate SoldKept(w: World) {
    forall t, i :: t in w.open && i in w.open[t] && i in w.committed && w.committed[i].status == Sold ==>
      w.open[t][i].status == Sold
  }

  lemma SoldStep(w: World, step: Step)
    requires Locked(w) && SoldKept(w) && Enabled(w, step)
    ensures SoldKept(Apply(w, step))
    ensures forall i :: i in w.committed && w.committed[i].status == Sold ==>
              i in Apply(w, step).committed && Apply(w, step).committed[i].status == Sold
  {
    match step
    case Reserve(t, product, quantity, order, claimed, ids) =>
      if |claimed| == quantity && !ClaimConflict(w, t, claimed) {
        CandidatesAreFree(w, t, product, quantity, claimed);
      }
    case _ =>
  }

  /** A sold item stays sold in every run, whatever stale reservations are released,
      expired, consumed or purged. */
  lemma {:induction false} SoldIsFinal(w: World, steps: seq<Step>, item: ItemId)
    requires Locked(w) && SoldKept(w) && LegalRun(w, steps)
    requires item in w.committed && w.committed[item].status == Sold
    ensures item in After(w, steps).committed && After(w, steps).committed[item].status == Sold
    decreases |steps|
  {
    if steps != [] {
      LockedStep(w, steps[0]);
      SoldStep(w, steps[0]);
      SoldIsFinal(Apply(w, steps[0]), steps[1..], item);
    }
  }

  // -------------------------------------- ended reservations, returned items

  /** The reservations of `old` that have ended are unchanged in `now`. */
  ghost predicate EndedKept(earlier: Slot, now: Slot) {
    forall h :: h in earlier.holds && earlier.holds[h].status != Active ==>
                  h in now.holds && now.holds[h] == earlier.holds[h]
  }

  /** How many of the two ways back to stock the item has used up. */
  function UsedReturns(slot: Slot): nat {
    (if Has(slot, Released) then 1 else 0) + (if Has(slot, Lapsed) then 1 else 0)
  }

  function Returned(earlier: Slot, now: Slot): nat {
    if earlier.status == Reserved && now.status == Available then 1 else 0
  }

  ghost predicate Evolves(earlier: Slot, now: Slot) {
    EndedKept(earlier, now) && UsedReturns(earlier) + Returned(earlier, now) <= UsedReturns(now)
  }

  lemma EvolvesByReserve(earlier: Slot, slot: Slot, h: HoldId, order: OrderId)
    requires Evolves(earlier, slot) && h !in slot.holds
    ensures Evolves(earlier, ReserveSlot(slot, h, order))
  {
    var now := ReserveSlot(slot, h, order);
    forall status | status != Active && Has(slot, status)
      ensures Has(now, status)
    {
      var g :| g in slot.holds && slot.holds[g].status == status;
      assert g in now.holds && now.holds[g].status == status;
    }
  }

  lemma EvolvesBySet(earlier: Slot, slot: Slot, h: HoldId, target: HoldStatus)
    requires Evolves(earlier, slot) && Unique(slot) && h in slot.holds && slot.holds[h].status == Active
    requires target != Active && !Conflict(slot, h, target)
    ensures Evolves(earlier, SetHoldSlot(slot, h, target))
  {
    HasAfterSet(slot, h, target, Released);
    HasAfterSet(slot, h, target, Lapsed);
    assert !Has(slot, target) by {
      assert forall g :: g in slot.holds && slot.holds[g].status == target ==> g != h;
    }
    forall g | g in earlier.holds && earlier.holds[g].status != Active
      ensures g in SetHoldSlot(slot, h, target).holds && SetHoldSlot(slot, h, target).holds[g] == earlier.holds[g]
    {
      assert g != h;
    }
  }

  lemma EvolvesByPurge(earlier: Slot, slot: Slot, order: OrderId)
    requires Evolves(earlier, slot)
    ensures Evolves(earlier, PurgeSlot(slot, order))
  {
    var now := PurgeSlot(slot, order);
    forall status | status != Active && Has(slot, status)
      ensures Has(now, status)
    {
      var g :| g in slot.holds && slot.holds[g].status == status;
      assert g in now.holds && now.holds[g].status == status;
    }
  }

  ghost predicate AllEvolve(w: World) {
    forall t, i :: t in w.open && i in w.open[t] && i in w.committed ==> Evolves(w.committed[i], w.open[t][i])
  }

  lemma WriteEvolves(w: World, t: TxnId, written: Slots)
    requires AllEvolve(w) && t in w.open
    requires forall i :: i in written && i in w.committed ==> Evolves(w.committed[i], written[i])
    ensures AllEvolve(Write(w, t, written))
    ensures forall i :: i in w.committed ==> Evolves(w.committed[i], w.committed[i])
  {
  }

  lemma CommitEvolves(w: World, t: TxnId)
    requires Locked(w) && AllEvolve(w) && t in w.open
    ensures var next := World(w.committed + w.open[t], w.open - {t});
            && AllEvolve(next)
            && forall i :: i in w.committed ==> i in next.committed && Evolves(w.committed[i], next.committed[i])
  {
    forall u, i | u in w.open && u != t && i in w.open[u]
      ensures i !in w.open[t]
    {
      assert w.open[u].Keys !! w.open[t].Keys;
    }
  }

  lemma EvolveStep(w: World, step: Step)
    requires Locked(w) && AllSlots(w, Unique) && AllEvolve(w) && Enabled(w, step) && Fresh(w, step)
    ensures AllEvolve(Apply(w, step))
    ensures forall i :: i in w.committed ==>
              i in Apply(w, step).committed && Evolves(w.committed[i], Apply(w, step).committed[i])
  {
    match step
    case Reserve(t, product, quantity, order, claimed, ids) =>
      if |claimed| == quantity && !ClaimConflict(w, t, claimed) {
        CandidatesAreFree(w, t, product, quantity, claimed);
        forall i | i in claimed
          ensures Evolves(w.committed[i], ReserveSlot(View(w, t, i), ids[i], order))
        {
          EvolvesByReserve(w.committed[i], View(w, t, i), ids[i], order);
        }
        WriteEvolves(w, t, Reservations(w, t, order, claimed, ids));
      }
    case SetHold(t, item, hold, target) =>
      var slot := View(w, t, item);
      if hold in slot.holds && !Conflict(slot, hold, target) {
        EvolvesBySet(w.committed[item], slot, hold, target);
        WriteEvolves(w, t, map[item := SetHoldSlot(slot, hold, target)]);
      }
    case Purge(t, order) =>
      forall i | i in PurgedItems(w, t, order)
        ensures Evolves(w.committed[i], PurgeSlot(View(w, t, i), order))
      {
        EvolvesByPurge(w.committed[i], View(w, t, i), order);
      }
      WriteEvolves(w, t, map i | i in PurgedItems(w, t, order) :: PurgeSlot(View(w, t, i), order));
    case Commit(t) =>
      CommitEvolves(w, t);
    case _ =>
  }

  /** How many commits of a run put the item back on sale. */
  ghost function Returns(w: World, steps: seq<Step>, item: ItemId): nat
    requires LegalRun(w, steps)
    decreases |steps|
  {
    if steps == [] then 0
    else
      var next := Apply(w, steps[0]);
      (if item in w.committed && item in next.committed then Returned(w.committed[item], next.committed[item]) else 0)
      + Returns(next, steps[1..], item)
  }

  /** Over every fresh run the ended reservations of an item are final, so a sold item
      keeps its one buyer, and an item comes back from a reservation to the stock at
      most twice in its life: once released and once expired. */
  lemma {:induction false} EndedReservationsAreFinal(w: World, steps: seq<Step>, item: ItemId)
    requires Locked(w) && AllSlots(w, Unique) && AllEvolve(w) && LegalRun(w, steps) && FreshRun(w, steps)
    requires item in w.committed
    ensures item in After(w, steps).committed
    ensures EndedKept(w.committed[item], After(w, steps).committed[item])
    ensures UsedReturns(w.committed[item]) + Returns(w, steps, item)
         <= UsedReturns(After(w, steps).committed[item]) <= 2
    decreases |steps|
  {
    if steps != [] {
      LockedStep(w, steps[0]);
      UniqueStep(w, steps[0]);
      EvolveStep(w, steps[0]);
      EndedReservationsAreFinal(Apply(w, steps[0]), steps[1..], item);
    }
  }
}
