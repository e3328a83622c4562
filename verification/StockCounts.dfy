/** Counting stock, the batches of the reservation reaper, and what stale sessions and
    the uniqueness constraint do to them. */
module StockCounts {
  import opened Sets
  import opened Stock

  // ------------------------------------------------------------- counts

  function ItemsOf(slots: Slots, product: ProductId): set<ItemId> {
    set i | i in slots && slots[i].product == product
  }

  function ItemsWith(slots: Slots, product: ProductId, status: ItemStatus): set<ItemId> {
    set i | i in slots && slots[i].product == product && slots[i].status == status
  }

  function AvailableCount(slots: Slots, product: ProductId): nat {
    |ItemsWith(slots, product, Available)|
  }

  /** `counts_by_status`: every status has an entry, also with no items. */
  function CountsByStatus(slots: Slots, product: ProductId): map<ItemStatus, nat> {
    map status: ItemStatus | status in {Available, Reserved, Sold, Invalid} :: |ItemsWith(slots, product, status)|
  }

  lemma CountsAddUp(slots: Slots, product: ProductId)
    ensures var c := CountsByStatus(slots, product);
            c[Available] + c[Reserved] + c[Sold] + c[Invalid] == |ItemsOf(slots, product)|
  {
    var a, r := ItemsWith(slots, product, Available), ItemsWith(slots, product, Reserved);
    var s, v := ItemsWith(slots, product, Sold), ItemsWith(slots, product, Invalid);
    assert ItemsOf(slots, product) == a + r + s + v;
    DisjointSum(a, r, s, v);
  }

  lemma DisjointSum(a: set<ItemId>, b: set<ItemId>, c: set<ItemId>, d: set<ItemId>)
    requires a !! b !! c !! d
    ensures |a + b + c + d| == |a| + |b| + |c| + |d|
  {
    assert |a + b| == |a| + |b|;
    assert |a + b + c| == |a + b| + |c|;
  }

  /** No step of any run creates, drops or moves an item: the counts of a product
      always add up to the same number. */
  lemma {:induction false} CountsAreConserved(w: World, steps: seq<Step>, product: ProductId)
    requires Locked(w) && LegalRun(w, steps)
    ensures ItemsOf(After(w, steps).committed, product) == ItemsOf(w.committed, product)
    ensures var c := CountsByStatus(After(w, steps).committed, product);
            c[Available] + c[Reserved] + c[Sold] + c[Invalid] == |ItemsOf(w.committed, product)|
    decreases |steps|
  {
    if steps != [] {
      LockedStep(w, steps[0]);
      CountsAreConserved(Apply(w, steps[0]), steps[1..], product);
      assert ItemsOf(Apply(w, steps[0]).committed, product) == ItemsOf(w.committed, product);
    }
    CountsAddUp(After(w, steps).committed, product);
  }

  // ------------------------------------------------- reserving items

  /** The items as they were if the session committed now. */
  ghost function Seen(w: World, t: TxnId): Slots
    requires t in w.open
  {
    Apply(w, Commit(t)).committed
  }

  /** The available items of a product that no other session has locked. */
  ghost function FreeItems(w: World, t: TxnId, product: ProductId): set<ItemId>
    requires t in w.open
  {
    set i | i in ItemsWith(Seen(w, t), product, Available) && forall u :: u in w.open && u != t ==> i !in w.open[u]
  }

  lemma FreeItemsAreCandidates(w: World, t: TxnId, product: ProductId, i: ItemId)
    requires Locked(w) && t in w.open
    ensures i in FreeItems(w, t, product) <==> Candidate(w, t, product, i)
  {
    if Candidate(w, t, product, i) {
      assert View(w, t, i) == Seen(w, t)[i];
      forall u | u in w.open && u != t
        ensures i !in w.open[u]
      {
        assert !LockedByOther(w, t, i);
      }
    }
  }

  function Items(claimed: seq<ItemId>): set<ItemId> {
    set i | i in claimed
  }

  lemma {:induction false} DistinctItems(claimed: seq<ItemId>)
    requires forall j, k :: 0 <= j < k < |claimed| ==> claimed[j] != claimed[k]
    ensures |Items(claimed)| == |claimed|
    decreases |claimed|
  {
    if claimed != [] {
      DistinctItems(claimed[1..]);
      assert claimed[0] !in Items(claimed[1..]);
      assert Items(claimed) == Items(claimed[1..]) + {claimed[0]};
    }
  }

  /** A claim takes free items of the product only, each once, the oldest first, none that is
      younger than one left behind, and as many as were asked for or as there are. */
  lemma ClaimTakesFreeItems(w: World, t: TxnId, product: ProductId, quantity: nat, claimed: seq<ItemId>)
    requires Locked(w) && t in w.open && IsClaim(w, t, product, quantity, claimed)
    ensures Items(claimed) <= FreeItems(w, t, product) && |Items(claimed)| == |claimed|
    ensures |claimed| == if quantity <= |FreeItems(w, t, product)| then quantity else |FreeItems(w, t, product)|
    ensures forall j, k :: 0 <= j < k < |claimed| ==>
              Seen(w, t)[claimed[j]].createdAt <= Seen(w, t)[claimed[k]].createdAt
    ensures forall i, j :: i in claimed && j in FreeItems(w, t, product) && j !in claimed ==>
              Seen(w, t)[i].createdAt <= Seen(w, t)[j].createdAt
  {
    var free := FreeItems(w, t, product);
    DistinctItems(claimed);
    forall i
      ensures i in free <==> Candidate(w, t, product, i)
    {
      FreeItemsAreCandidates(w, t, product, i);
    }
    SubsetIsNoLarger(Items(claimed), free);
    if |claimed| < quantity {
      assert free == Items(claimed);
    }
    forall i | i in claimed || i in free
      ensures i in w.committed && Seen(w, t)[i] == View(w, t, i)
    {
    }
  }

  /** `quantity` items of one product went from available to reserved, and no other item
      changed its status. */
  ghost predicate Moved(before: Slots, after: Slots, product: ProductId, quantity: nat) {
    var was, now := CountsByStatus(before, product), CountsByStatus(after, product);
    && now[Available] == was[Available] - quantity && AvailableCount(after, product) == now[Available]
    && now[Reserved] == was[Reserved] + quantity && now[Sold] == was[Sold] && now[Invalid] == was[Invalid]
    && forall other, status :: other != product ==> ItemsWith(after, other, status) == ItemsWith(before, other, status)
  }

  /** The items of `marked`, all available, have become reserved, and nothing else changed. */
  ghost predicate Marked(before: Slots, after: Slots, product: ProductId, marked: set<ItemId>) {
    && marked <= ItemsWith(before, product, Available) && after.Keys == before.Keys
    && (forall i :: i in marked ==> after[i].product == product && after[i].status == Reserved)
    && (forall i :: i in before && i !in marked ==> after[i] == before[i])
  }

  lemma MarkingMoves(before: Slots, after: Slots, product: ProductId, marked: set<ItemId>)
    requires Marked(before, after, product, marked)
    ensures Moved(before, after, product, |marked|)
  {
    var was := ItemsWith(before, product, Reserved);
    MarkedItems(before, after, product, marked);
    assert |was + marked| == |was| + |marked|;
    forall other, status | other != product || status in {Sold, Invalid}
      ensures ItemsWith(after, other, status) == ItemsWith(before, other, status)
    {
      OthersKeepTheirStatus(before, after, product, marked, other, status);
    }
  }

  lemma MarkedItems(before: Slots, after: Slots, product: ProductId, marked: set<ItemId>)
    requires Marked(before, after, product, marked)
    ensures ItemsWith(after, product, Available) == ItemsWith(before, product, Available) - marked
    ensures ItemsWith(after, product, Reserved) == ItemsWith(before, product, Reserved) + marked
    ensures ItemsWith(before, product, Reserved) !! marked
  {
    assert forall i :: i in marked ==> before[i].product == product && before[i].status == Available;
  }

  lemma OthersKeepTheirStatus(before: Slots, after: Slots, product: ProductId, marked: set<ItemId>,
                              other: ProductId, status: ItemStatus)
    requires Marked(before, after, product, marked) && (other != product || status in {Sold, Invalid})
    ensures ItemsWith(after, other, status) == ItemsWith(before, other, status)
  {
    assert forall i :: i in marked ==> before[i].product == product && before[i].status == Available;
  }

  /** A reservation that goes through, once committed, moves exactly as many items of the
      product from available to reserved as were asked for, and no item of another one.
      It goes through exactly when there are enough free items and none of those it claimed
      still carries an active reservation; a refused one changes nothing. */
  lemma ReserveMovesCounts(w: World, t: TxnId, product: ProductId, quantity: nat, order: OrderId,
                           claimed: seq<ItemId>, ids: map<ItemId, HoldId>)
    requires Locked(w) && Enabled(w, Reserve(t, product, quantity, order, claimed, ids))
    ensures var now := Apply(w, Reserve(t, product, quantity, order, claimed, ids));
            && now.committed == w.committed
            && (t in now.open <==>
                  quantity <= |FreeItems(w, t, product)| && forall i :: i in claimed ==> !Has(Seen(w, t)[i], Active))
            && (t in now.open ==> Moved(Seen(w, t), Seen(now, t), product, quantity))
  {
    ClaimTakesFreeItems(w, t, product, quantity, claimed);
    ReserveIs(w, t, product, quantity, order, claimed, ids);
    if |claimed| == quantity && forall i :: i in claimed ==> !Has(Seen(w, t)[i], Active) {
      ReservationsMark(w, t, order, claimed, ids);
      MarkingMoves(Seen(w, t), Seen(Write(w, t, Reservations(w, t, order, claimed, ids)), t), product, Items(claimed));
    }
  }

  lemma ReserveIs(w: World, t: TxnId, product: ProductId, quantity: nat, order: OrderId,
                  claimed: seq<ItemId>, ids: map<ItemId, HoldId>)
    requires Locked(w) && Enabled(w, Reserve(t, product, quantity, order, claimed, ids))
    ensures Apply(w, Reserve(t, product, quantity, order, claimed, ids))
         == if |claimed| == quantity && forall i :: i in claimed ==> !Has(Seen(w, t)[i], Active)
            then Write(w, t, Reservations(w, t, order, claimed, ids))
            else Abort(w, t)
  {
    assert forall i :: i in claimed ==> Seen(w, t)[i] == View(w, t, i);
  }

  lemma ReservationsMark(w: World, t: TxnId, order: OrderId, claimed: seq<ItemId>, ids: map<ItemId, HoldId>)
    requires t in w.open && forall i :: i in claimed ==> i in w.committed && i in ids
    ensures var before, after := Seen(w, t), Seen(Write(w, t, Reservations(w, t, order, claimed, ids)), t);
            && after.Keys == before.Keys
            && (forall i :: i in Items(claimed) ==>
                  && i in before && after[i].product == before[i].product && after[i].status == Reserved)
            && (forall i :: i in before && i !in Items(claimed) ==> after[i] == before[i])
  {
    assert forall i :: i in claimed ==> Seen(w, t)[i] == View(w, t, i);
  }

  /** A purge leaves no active reservation of the order on any item, touches neither the
      other reservations nor the items, and writes no item without such a reservation. */
  lemma PurgeTakesOnlyItsOrder(w: World, t: TxnId, order: OrderId, i: ItemId)
    requires Enabled(w, Purge(t, order)) && i in w.committed
    ensures var was, now := Seen(w, t)[i], Seen(Apply(w, Purge(t, order)), t)[i];
            && now.holds.Keys <= was.holds.Keys && now == was.(holds := now.holds)
            && (forall h :: h in was.holds ==> (h in now.holds <==> was.holds[h] != Hold(order, Active)))
            && forall h :: h in now.holds ==> now.holds[h] == was.holds[h]
    ensures i in Apply(w, Purge(t, order)).open[t] && i !in w.open[t] ==>
              exists h :: h in Seen(w, t)[i].holds && Seen(w, t)[i].holds[h] == Hold(order, Active)
  {
    assert Seen(w, t)[i] == View(w, t, i);
    if i !in PurgedItems(w, t, order) {
      assert Seen(Apply(w, Purge(t, order)), t)[i] == View(w, t, i);
    }
  }

  /** What the grouped query returns: one row for each listed product that has
      available items, in any order. */
  ghost predicate IsGrouped(slots: Slots, products: seq<ProductId>, rows: seq<(ProductId, nat)>) {
    && (forall k :: 0 <= k < |rows| ==> rows[k].0 in products && rows[k].1 == AvailableCount(slots, rows[k].0) > 0)
    && (forall p :: p in products && AvailableCount(slots, p) > 0 ==> exists k :: 0 <= k < |rows| && rows[k].0 == p)
  }

  /** `available_counts_for`: zero for every listed product, then the rows. It agrees
      with a separate `available_count` for each of them. */
  method AvailableCountsFor(ghost slots: Slots, products: seq<ProductId>, rows: seq<(ProductId, nat)>)
    returns (counts: map<ProductId, nat>)
    requires IsGrouped(slots, products, rows)
    ensures forall p :: p in counts <==> p in products
    ensures forall p :: p in products ==> counts[p] == AvailableCount(slots, p)
  {
    counts := map p | p in products :: 0;
    for k := 0 to |rows|
      invariant forall p :: p in counts <==> p in products
      invariant forall j :: 0 <= j < k ==> counts[rows[j].0] == AvailableCount(slots, rows[j].0)
      invariant forall p :: p in products ==> counts[p] == AvailableCount(slots, p) || counts[p] == 0
    {
      counts := counts[rows[k].0 := rows[k].1];
    }
  }

  // --------------------------------------------------- batches of holds

  type Batch = seq<(ItemId, HoldId)>

  /** The transaction may write every item of the batch. */
  ghost predicate BatchEnabled(w: World, t: TxnId, batch: Batch) {
    && t in w.open
    && (forall k :: 0 <= k < |batch| ==> batch[k].0 in w.committed && !LockedByOther(w, t, batch[k].0))
    && (forall j, k :: 0 <= j < k < |batch| ==> batch[j].0 != batch[k].0)
  }

  /** One after another, all in one transaction; an error ends it. */
  ghost function SetAll(w: World, t: TxnId, batch: Batch, target: HoldStatus): World
    requires BatchEnabled(w, t, batch) && target != Active
    decreases |batch|
  {
    if batch == [] then w
    else
      var next := Apply(w, SetHold(t, batch[0].0, batch[0].1, target));
      if t !in next.open then next else SetAll(next, t, batch[1..], target)
  }

  ghost predicate Blocked(w: World, t: TxnId, entry: (ItemId, HoldId), target: HoldStatus)
    requires t in w.open && entry.0 in w.committed
  {
    entry.1 !in View(w, t, entry.0).holds || Conflict(View(w, t, entry.0), entry.1, target)
  }

  /** Setting one reservation leaves the entries of other items as they were. */
  lemma SetOneLeavesOthers(w: World, t: TxnId, batch: Batch, target: HoldStatus)
    requires BatchEnabled(w, t, batch) && target != Active && batch != []
    requires !Blocked(w, t, batch[0], target)
    ensures var next := Apply(w, SetHold(t, batch[0].0, batch[0].1, target));
            && BatchEnabled(next, t, batch[1..]) && next.committed == w.committed
            && next == Write(w, t, map[batch[0].0 := SetHoldSlot(View(w, t, batch[0].0), batch[0].1, target)])
            && forall k :: 0 < k < |batch| ==> View(next, t, batch[k].0) == View(w, t, batch[k].0)
  {
    var next := Apply(w, SetHold(t, batch[0].0, batch[0].1, target));
    forall k | 0 <= k < |batch[1..]|
      ensures batch[1..][k].0 in next.committed && !LockedByOther(next, t, batch[1..][k].0)
    {
      assert batch[1..][k] == batch[k + 1];
      assert !LockedByOther(w, t, batch[k + 1].0);
    }
  }

  /** A batch that meets a blocked entry is gone, and its whole transaction with it. */
  lemma {:induction false} BatchIsAllOrNothing(w: World, t: TxnId, batch: Batch, target: HoldStatus)
    requires BatchEnabled(w, t, batch) && target != Active
    ensures if exists k :: 0 <= k < |batch| && Blocked(w, t, batch[k], target)
            then SetAll(w, t, batch, target) == Abort(w, t)
            else t in SetAll(w, t, batch, target).open
    decreases |batch|
  {
    if batch != [] && !Blocked(w, t, batch[0], target) {
      SetOneLeavesOthers(w, t, batch, target);
      var next := Apply(w, SetHold(t, batch[0].0, batch[0].1, target));
      assert forall k :: 0 < k < |batch| ==> batch[k] == batch[1..][k - 1];
      BatchIsAllOrNothing(next, t, batch[1..], target);
      assert Abort(next, t) == Abort(w, t);
    }
  }

  lemma {:induction false} BatchLeavesOthers(w: World, t: TxnId, batch: Batch, target: HoldStatus, i: ItemId)
    requires BatchEnabled(w, t, batch) && target != Active && i in w.committed
    requires forall k :: 0 <= k < |batch| ==> !Blocked(w, t, batch[k], target) && batch[k].0 != i
    ensures var done := SetAll(w, t, batch, target);
            t in done.open && done.committed == w.committed && View(done, t, i) == View(w, t, i)
    decreases |batch|
  {
    if batch != [] {
      SetOneLeavesOthers(w, t, batch, target);
      assert forall k :: 0 <= k < |batch[1..]| ==> batch[1..][k] == batch[k + 1];
      BatchLeavesOthers(Apply(w, SetHold(t, batch[0].0, batch[0].1, target)), t, batch[1..], target, i);
    }
  }

  /** A batch that goes through sets every one of its reservations. */
  lemma {:induction false} BatchSetsEveryEntry(w: World, t: TxnId, batch: Batch, target: HoldStatus, n: nat)
    requires BatchEnabled(w, t, batch) && target != Active && n < |batch|
    requires forall k :: 0 <= k < |batch| ==> !Blocked(w, t, batch[k], target)
    ensures batch[n].1 in View(w, t, batch[n].0).holds
    ensures var done := SetAll(w, t, batch, target);
            && t in done.open && done.committed == w.committed
            && View(done, t, batch[n].0) == SetHoldSlot(View(w, t, batch[n].0), batch[n].1, target)
    decreases |batch|
  {
    SetOneLeavesOthers(w, t, batch, target);
    var next := Apply(w, SetHold(t, batch[0].0, batch[0].1, target));
    assert forall k :: 0 <= k < |batch[1..]| ==> batch[1..][k] == batch[k + 1];
    if n == 0 {
      BatchLeavesOthers(next, t, batch[1..], target, batch[0].0);
    } else {
      BatchSetsEveryEntry(next, t, batch[1..], target, n - 1);
    }
  }

  // --------------------------------------------------------- the reaper

  ghost predicate ReaperEnabled(w: World, t: TxnId, due: Batch) {
    t !in w.open && BatchEnabled(Apply(w, Begin(t)), t, due)
  }

  /** One pass of `reap_expired`: every reservation the query found is expired, in one
      transaction, which commits unless an error ended it. */
  ghost function ReaperPass(w: World, t: TxnId, due: Batch): World
    requires ReaperEnabled(w, t, due)
  {
    var done := SetAll(Apply(w, Begin(t)), t, due, Lapsed);
    if t in done.open then Apply(done, Commit(t)) else done
  }

  /** A due reservation that is gone, or whose item had another one expire before. */
  ghost predicate Stuck(w: World, entry: (ItemId, HoldId))
    requires entry.0 in w.committed
  {
    entry.1 !in w.committed[entry.0].holds || Conflict(w.committed[entry.0], entry.1, Lapsed)
  }

  lemma PassStarts(w: World, t: TxnId, due: Batch)
    requires ReaperEnabled(w, t, due)
    ensures var begun := Apply(w, Begin(t));
            && Abort(begun, t) == w
            && forall k :: 0 <= k < |due| ==>
                 && due[k].0 in w.committed && View(begun, t, due[k].0) == w.committed[due[k].0]
                 && (Blocked(begun, t, due[k], Lapsed) <==> Stuck(w, due[k]))
  {
  }

  /** One stuck reservation makes a whole pass change nothing, and so the next pass
      meets the same batch again. */
  lemma StuckPassDoesNothing(w: World, t: TxnId, due: Batch, n: nat)
    requires ReaperEnabled(w, t, due) && n < |due| && due[n].0 in w.committed && Stuck(w, due[n])
    ensures ReaperPass(w, t, due) == w
  {
    PassStarts(w, t, due);
    assert Blocked(Apply(w, Begin(t)), t, due[n], Lapsed);
    BatchIsAllOrNothing(Apply(w, Begin(t)), t, due, Lapsed);
  }

  /** Without a stuck reservation the pass expires every due one and commits. */
  lemma PassReturnsAll(w: World, t: TxnId, due: Batch, n: nat)
    requires ReaperEnabled(w, t, due) && n < |due|
    requires forall k :: 0 <= k < |due| ==> due[k].0 in w.committed && !Stuck(w, due[k])
    ensures due[n].1 in w.committed[due[n].0].holds
    ensures var done := ReaperPass(w, t, due);
            && due[n].0 in done.committed && t !in done.open
            && done.committed[due[n].0] == SetHoldSlot(w.committed[due[n].0], due[n].1, Lapsed)
  {
    PassStarts(w, t, due);
    BatchSetsEveryEntry(Apply(w, Begin(t)), t, due, Lapsed, n);
  }

  // ------------------------------------------------ two runs worth seeing

  /** A shop with one item, nothing in flight. */
  function Shop(slot: Slot): World {
    World(map[0 := slot], map[])
  }

  lemma {:induction false} AfterJoined(w: World, first: seq<Step>, second: seq<Step>)
    requires LegalRun(w, first) && LegalRun(After(w, first), second)
    ensures LegalRun(w, first + second) && After(w, first + second) == After(After(w, first), second)
    decreases |first|
  {
    if first == [] {
      assert first + second == second;
    } else {
      AfterJoined(Apply(w, first[0]), first[1..], second);
      assert (first + second)[1..] == first[1..] + second;
    }
  }

  function ReserveTxn(t: TxnId, slot: Slot, order: OrderId, h: HoldId): seq<Step> {
    [Begin(t), Reserve(t, slot.product, 1, order, [0], map[0 := h]), Commit(t)]
  }

  function SetTxn(t: TxnId, h: HoldId, target: HoldStatus): seq<Step> {
    [Begin(t), SetHold(t, 0, h, target), Commit(t)]
  }

  lemma ThreeSteps(w: World, a: Step, b: Step, c: Step)
    requires Enabled(w, a) && Enabled(Apply(w, a), b) && Enabled(Apply(Apply(w, a), b), c)
    ensures LegalRun(w, [a, b, c]) && After(w, [a, b, c]) == Apply(Apply(Apply(w, a), b), c)
  {
    var w1, w2 := Apply(w, a), Apply(Apply(w, a), b);
    assert [a, b, c][1..] == [b, c] && [b, c][1..] == [c] && [c][1..] == [];
    assert LegalRun(Apply(w2, c), []);
    assert LegalRun(w2, [c]) && After(w2, [c]) == After(Apply(w2, c), []);
    assert LegalRun(w1, [b, c]) && After(w1, [b, c]) == After(w2, [c]);
  }

  lemma ReserveInShop(slot: Slot, t: TxnId, order: OrderId, h: HoldId)
    requires slot.status == Available && h !in slot.holds && !Has(slot, Active)
    ensures LegalRun(Shop(slot), ReserveTxn(t, slot, order, h))
    ensures After(Shop(slot), ReserveTxn(t, slot, order, h)) == Shop(ReserveSlot(slot, h, order))
  {
    var w := Shop(slot);
    var begun := Apply(w, Begin(t));
    var step := Reserve(t, slot.product, 1, order, [0], map[0 := h]);
    assert Candidate(begun, t, slot.product, 0);
    assert forall i :: Candidate(begun, t, slot.product, i) ==> i == 0;
    assert IsClaim(begun, t, slot.product, 1, [0]);
    ThreeSteps(w, Begin(t), step, Commit(t));
    assert Apply(begun, step).open[t] == map[0 := ReserveSlot(slot, h, order)];
  }

  lemma SetInShop(slot: Slot, t: TxnId, h: HoldId, target: HoldStatus)
    requires h in slot.holds && target != Active && !Conflict(slot, h, target)
    ensures LegalRun(Shop(slot), SetTxn(t, h, target))
    ensures After(Shop(slot), SetTxn(t, h, target)) == Shop(SetHoldSlot(slot, h, target))
  {
    var begun := Apply(Shop(slot), Begin(t));
    ThreeSteps(Shop(slot), Begin(t), SetHold(t, 0, h, target), Commit(t));
    assert Apply(begun, SetHold(t, 0, h, target)).open[t] == map[0 := SetHoldSlot(slot, h, target)];
  }

  function NewItem(product: ProductId): Slot {
    Slot(product, 0, Available, map[])
  }

  /** How a reservation ends and puts its item back into stock. */
  predicate Returns(ended: HoldStatus) {
    ended == Released || ended == Lapsed
  }

  /** Reserved for order 1, returned, then reserved again for order 2. */
  function SecondHold(product: ProductId, ended: HoldStatus): Slot {
    Slot(product, 0, Reserved, map[1 := Hold(1, ended), 2 := Hold(2, Active)])
  }

  lemma SlotsOfTheRun(product: ProductId, ended: HoldStatus)
    requires Returns(ended)
    ensures var s1 := ReserveSlot(NewItem(product), 1, 1);
            var s2 := SetHoldSlot(s1, 1, ended);
            && !Conflict(s1, 1, ended)
            && s2.status == Available && 2 !in s2.holds && !Has(s2, Active)
            && ReserveSlot(s2, 2, 2) == SecondHold(product, ended)
  {
  }

  lemma SecondHoldIsSettled(product: ProductId, ended: HoldStatus)
    requires Returns(ended)
    ensures Settled(SecondHold(product, ended)) && Conflict(SecondHold(product, ended), 2, ended)
  {
    var slot := SecondHold(product, ended);
    assert 1 in slot.holds && slot.holds[1].status == ended;
    assert 2 in slot.holds && slot.holds[2].status == Active;
  }

  lemma ReturnedItemIsReached(product: ProductId, ended: HoldStatus)
    requires Returns(ended)
    ensures var s0 := NewItem(product);
            var s1 := ReserveSlot(s0, 1, 1);
            var steps := ReserveTxn(1, s0, 1, 1) + SetTxn(2, 1, ended);
            LegalRun(Shop(s0), steps) && After(Shop(s0), steps) == Shop(SetHoldSlot(s1, 1, ended))
  {
    var s0 := NewItem(product);
    var s1 := ReserveSlot(s0, 1, 1);
    SlotsOfTheRun(product, ended);
    ReserveInShop(s0, 1, 1, 1);
    SetInShop(s1, 2, 1, ended);
    AfterJoined(Shop(s0), ReserveTxn(1, s0, 1, 1), SetTxn(2, 1, ended));
  }

  /** The shop gets from a new item to this one. */
  ghost predicate Reached(product: ProductId, slot: Slot) {
    exists steps :: LegalRun(Shop(NewItem(product)), steps) && After(Shop(NewItem(product)), steps) == Shop(slot)
  }

  lemma SecondHoldIsReached(product: ProductId, ended: HoldStatus)
    requires Returns(ended)
    ensures Reached(product, SecondHold(product, ended))
  {
    var s0 := NewItem(product);
    var s2 := SetHoldSlot(ReserveSlot(s0, 1, 1), 1, ended);
    SlotsOfTheRun(product, ended);
    ReturnedItemIsReached(product, ended);
    ReserveInShop(s2, 3, 2, 2);
    AfterJoined(Shop(s0), ReserveTxn(1, s0, 1, 1) + SetTxn(2, 1, ended), ReserveTxn(3, s2, 2, 2));
  }

  /** After one buyer reserved an item and gave it back, and a second one reserved it, the
      second cannot give it back in the same way: the constraint covers ended reservations
      as well, so the transaction is rolled back and the item stays reserved. */
  lemma SecondReturnIsRefused(product: ProductId, ended: HoldStatus, t: TxnId)
    requires Returns(ended)
    ensures Settled(SecondHold(product, ended)) && Reached(product, SecondHold(product, ended))
    ensures var w := Apply(Shop(SecondHold(product, ended)), Begin(t));
            && Enabled(w, SetHold(t, 0, 2, ended))
            && Apply(w, SetHold(t, 0, 2, ended)) == Shop(SecondHold(product, ended))
  {
    var slot := SecondHold(product, ended);
    SecondHoldIsSettled(product, ended);
    SecondHoldIsReached(product, ended);
    assert Abort(Apply(Shop(slot), Begin(t)), t) == Shop(slot);
  }

  /** The reaper meets such an item: a first reservation expired, the second one is active
      and due. Its pass changes nothing, however often it comes back. */
  lemma ReaperGetsStuck(product: ProductId, t: TxnId)
    ensures Reached(product, SecondHold(product, Lapsed))
    ensures SecondHold(product, Lapsed).holds[2].status == Active
    ensures var w := Shop(SecondHold(product, Lapsed)); ReaperEnabled(w, t, [(0, 2)]) && ReaperPass(w, t, [(0, 2)]) == w
  {
    SecondHoldIsReached(product, Lapsed);
    SecondHoldIsSettled(product, Lapsed);
    StuckPassDoesNothing(Shop(SecondHold(product, Lapsed)), t, [(0, 2)], 0);
  }

  /** A session that loaded the first reservation while it was active and consumes it
      now sells the item under the second buyer, whose reservation stays active: a state
      the shop reaches. The uniqueness constraint then refuses to sell it a second time. */
  lemma StaleConsumeSellsAnothersItem(product: ProductId, ended: HoldStatus, t: TxnId, u: TxnId)
    requires Returns(ended)
    ensures Reached(product, SetHoldSlot(SecondHold(product, ended), 1, Consumed))
    ensures var slot := SetHoldSlot(SecondHold(product, ended), 1, Consumed);
            && slot.status == Sold && slot.holds[2] == Hold(2, Active) && !Backed(slot)
            && Enabled(Apply(Shop(slot), Begin(u)), SetHold(u, 0, 2, Consumed))
            && Apply(Apply(Shop(slot), Begin(u)), SetHold(u, 0, 2, Consumed)) == Shop(slot)
  {
    var slot := SetHoldSlot(SecondHold(product, ended), 1, Consumed);
    SecondHoldIsReached(product, ended);
    var steps :| LegalRun(Shop(NewItem(product)), steps)
              && After(Shop(NewItem(product)), steps) == Shop(SecondHold(product, ended));
    SetInShop(SecondHold(product, ended), t, 1, Consumed);
    AfterJoined(Shop(NewItem(product)), steps, SetTxn(t, 1, Consumed));
    StaleSlot(product, ended, slot);
    assert Abort(Apply(Shop(slot), Begin(u)), u) == Shop(slot);
  }

  lemma StaleSlot(product: ProductId, ended: HoldStatus, slot: Slot)
    requires Returns(ended) && slot == SetHoldSlot(SecondHold(product, ended), 1, Consumed)
    ensures slot.status == Sold && 2 in slot.holds && slot.holds[2] == Hold(2, Active) && !Backed(slot)
    ensures Conflict(slot, 2, Consumed)
  {
    assert 2 in slot.holds && slot.holds[2].status == Active;
    assert 1 in slot.holds && slot.holds[1].status == Consumed;
  }
}
