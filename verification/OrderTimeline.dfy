/** The timeline shown for an order: workflow steps in causal order with the retries woven in. */
module OrderTimeline {
  import opened Contracts
  import OrderStatus
  import OrderStore

  /** An event whose type is not a workflow event has type None. */
  datatype Kind = Accepted | Replayed | Published | PublicationPending | Event(eventType: Option<OrderStatus.EventType>)

  datatype TimelineEntry = TimelineEntry(kind: Kind, at: Time, eventId: Option<Id>, deliveries: nat)

  // Entries -------------------------------------------------------------------------------

  function ToEntry(row: OrderStore.Entry): TimelineEntry {
    match row.kind
    case Accepted => TimelineEntry(Accepted, row.occurredAt, None, 1)
    case Replayed => TimelineEntry(Replayed, row.occurredAt, None, 1)
    case Recorded(eventId, eventType) =>
      TimelineEntry(Event(Some(eventType)), row.recordedAt, Some(eventId), row.deliveries)
  }

  function ToEntries(rows: seq<OrderStore.Entry>): (entries: seq<TimelineEntry>)
    ensures |entries| == |rows| && forall i :: 0 <= i < |rows| ==> entries[i] == ToEntry(rows[i])
  {
    if rows == [] then [] else ToEntries(rows[..|rows| - 1]) + [ToEntry(rows[|rows| - 1])]
  }

  function PublicationEntry(publication: OrderStore.Publication): TimelineEntry {
    if publication.publishedAt.Some?
    then TimelineEntry(Published, publication.publishedAt.value, Some(publication.eventId), 1)
    else TimelineEntry(PublicationPending, publication.createdAt, Some(publication.eventId), 1)
  }

  function Stage(entry: TimelineEntry): int {
    match entry.kind
    case Accepted => 0
    case Published => 1
    case PublicationPending => 1
    case Event(eventType) =>
      (match eventType
       case None => 5
       case Some(PaymentAuthorized) => 2
       case Some(InventoryReserved) => 3
       case Some(InventoryReservationFailed) => 3
       case Some(DeliveryBooked) => 4)
    case Replayed => -1
  }

  // Sorting -------------------------------------------------------------------------------

  /** By stage, then by time; retries all have the same stage. */
  predicate Before(left: TimelineEntry, right: TimelineEntry) {
    Stage(left) < Stage(right) || (Stage(left) == Stage(right) && left.at < right.at)
  }

  function Insert(sorted: seq<TimelineEntry>, entry: TimelineEntry): seq<TimelineEntry> {
    if sorted == [] || !Before(entry, sorted[|sorted| - 1]) then sorted + [entry]
    else Insert(sorted[..|sorted| - 1], entry) + [sorted[|sorted| - 1]]
  }

  /** Array.prototype.sort, which is stable. */
  function Sort(entries: seq<TimelineEntry>): seq<TimelineEntry> {
    if entries == [] then [] else Insert(Sort(entries[..|entries| - 1]), entries[|entries| - 1])
  }

  predicate Sorted(entries: seq<TimelineEntry>) {
    forall i, j :: 0 <= i < j < |entries| ==> !Before(entries[j], entries[i])
  }

  predicate Alike(left: TimelineEntry, right: TimelineEntry) {
    Stage(left) == Stage(right) && left.at == right.at
  }

  function AlikeTo(entries: seq<TimelineEntry>, entry: TimelineEntry): seq<TimelineEntry> {
    if entries == [] then [] else
    var last := entries[|entries| - 1];
    AlikeTo(entries[..|entries| - 1], entry) + if Alike(last, entry) then [last] else []
  }

  lemma {:induction false} InsertAdds(sorted: seq<TimelineEntry>, entry: TimelineEntry)
    ensures multiset(Insert(sorted, entry)) == multiset(sorted) + multiset{entry}
    ensures forall e :: e in Insert(sorted, entry) <==> e in sorted || e == entry
  {
    if sorted != [] && Before(entry, sorted[|sorted| - 1]) {
      var init, last := sorted[..|sorted| - 1], sorted[|sorted| - 1];
      InsertAdds(init, entry);
      assert sorted == init + [last];
    }
  }

  lemma SortedByOneMore(sorted: seq<TimelineEntry>, last: TimelineEntry)
    requires Sorted(sorted) && forall e :: e in sorted ==> !Before(last, e)
    ensures Sorted(sorted + [last])
  {
  }

  lemma {:induction false} InsertSorts(sorted: seq<TimelineEntry>, entry: TimelineEntry)
    requires Sorted(sorted)
    ensures Sorted(Insert(sorted, entry))
  {
    if sorted != [] && Before(entry, sorted[|sorted| - 1]) {
      var init, last := sorted[..|sorted| - 1], sorted[|sorted| - 1];
      InsertSorts(init, entry);
      InsertAdds(init, entry);
      SortedByOneMore(Insert(init, entry), last);
    } else {
      forall e | e in sorted
        ensures !Before(entry, e)
      {
        var i :| 0 <= i < |sorted| && sorted[i] == e;
        assert i < |sorted| - 1 ==> !Before(sorted[|sorted| - 1], sorted[i]);
      }
      SortedByOneMore(sorted, entry);
    }
  }

  lemma {:induction false} InsertIsStable(sorted: seq<TimelineEntry>, entry: TimelineEntry, key: TimelineEntry)
    requires Sorted(sorted)
    ensures AlikeTo(Insert(sorted, entry), key) == AlikeTo(sorted + [entry], key)
  {
    assert (sorted + [entry])[..|sorted|] == sorted;
    if sorted != [] && Before(entry, sorted[|sorted| - 1]) {
      var init, last := sorted[..|sorted| - 1], sorted[|sorted| - 1];
      InsertIsStable(init, entry, key);
      assert (init + [entry])[..|init|] == init;
      var inserted := Insert(init, entry) + [last];
      assert inserted[..|inserted| - 1] == Insert(init, entry);
    }
  }

  lemma {:induction false} SortKeepsEntries(entries: seq<TimelineEntry>)
    ensures multiset(Sort(entries)) == multiset(entries)
  {
    if entries != [] {
      var init, last := entries[..|entries| - 1], entries[|entries| - 1];
      SortKeepsEntries(init);
      InsertAdds(Sort(init), last);
      assert entries == init + [last];
    }
  }

  lemma {:induction false} SortIsStable(entries: seq<TimelineEntry>, key: TimelineEntry)
    ensures Sorted(Sort(entries))
    ensures AlikeTo(Sort(entries), key) == AlikeTo(entries, key)
  {
    if entries != [] {
      var init, last := entries[..|entries| - 1], entries[|entries| - 1];
      SortIsStable(init, key);
      InsertSorts(Sort(init), last);
      InsertIsStable(Sort(init), last, key);
      assert (Sort(init) + [last])[..|Sort(init)|] == Sort(init);
    }
  }

  /** The sorted entries are the same entries; entries that compare equal keep their order. */
  lemma SortSorts(entries: seq<TimelineEntry>, key: TimelineEntry)
    ensures Sorted(Sort(entries))
    ensures multiset(Sort(entries)) == multiset(entries)
    ensures AlikeTo(Sort(entries), key) == AlikeTo(entries, key)
  {
    SortKeepsEntries(entries);
    SortIsStable(entries, key);
  }

  // Weaving -------------------------------------------------------------------------------

  function OfKind(entries: seq<TimelineEntry>, replayed: bool): seq<TimelineEntry> {
    if entries == [] then [] else
    var last := entries[|entries| - 1];
    OfKind(entries[..|entries| - 1], replayed) + if last.kind.Replayed? == replayed then [last] else []
  }

  /** The first step from `i` on, other than step 0, that was observed strictly after `at`; else their number. */
  function Slot(steps: seq<TimelineEntry>, at: Time, i: nat): nat
    requires i <= |steps|
    decreases |steps| - i
  {
    if i == |steps| || (i > 0 && at < steps[i].at) then i else Slot(steps, at, i + 1)
  }

  function SlotOf(steps: seq<TimelineEntry>, retry: TimelineEntry): nat {
    Slot(steps, retry.at, 0)
  }

  /** The retries whose place is just before step `i`. */
  function InSlot(steps: seq<TimelineEntry>, retries: seq<TimelineEntry>, i: nat): seq<TimelineEntry> {
    if retries == [] then [] else
    var last := retries[|retries| - 1];
    InSlot(steps, retries[..|retries| - 1], i) + if SlotOf(steps, last) == i then [last] else []
  }

  /** The first `count` steps, each with its retries before it. */
  function Woven(steps: seq<TimelineEntry>, retries: seq<TimelineEntry>, count: nat): seq<TimelineEntry>
    requires count <= |steps|
  {
    if count == 0 then []
    else Woven(steps, retries, count - 1) + InSlot(steps, retries, count - 1) + [steps[count - 1]]
  }

  function Causally(entries: seq<TimelineEntry>): seq<TimelineEntry> {
    var steps, retries := Sort(OfKind(entries, false)), Sort(OfKind(entries, true));
    Woven(steps, retries, |steps|) + InSlot(steps, retries, |steps|)
  }

  lemma {:induction false} SlotIsFirst(steps: seq<TimelineEntry>, at: Time, i: nat)
    requires i <= |steps|
    ensures i <= Slot(steps, at, i) <= |steps|
    ensures Slot(steps, at, i) < |steps| ==> Slot(steps, at, i) > 0 && at < steps[Slot(steps, at, i)].at
    ensures forall k :: i <= k < Slot(steps, at, i) && k > 0 ==> steps[k].at <= at
    decreases |steps| - i
  {
    if i < |steps| && !(i > 0 && at < steps[i].at) {
      SlotIsFirst(steps, at, i + 1);
    }
  }

  /** Of the retries that belong at step `i` or later, those for step `i` are the ones before it in time. */
  lemma SlotIsNow(steps: seq<TimelineEntry>, retry: TimelineEntry, i: nat)
    requires i < |steps| && SlotOf(steps, retry) >= i
    ensures SlotOf(steps, retry) == i <==> i > 0 && retry.at < steps[i].at
  {
    SlotIsFirst(steps, retry.at, 0);
  }

  lemma LaterRetriesLaterSlots(steps: seq<TimelineEntry>, early: TimelineEntry, late: TimelineEntry)
    requires early.at <= late.at
    ensures SlotOf(steps, early) <= SlotOf(steps, late)
  {
    SlotIsFirst(steps, early.at, 0);
    SlotIsFirst(steps, late.at, 0);
    var slot := SlotOf(steps, late);
    assert slot < |steps| ==> late.at < steps[slot].at;
  }

  lemma {:induction false} SliceOfShorter(entries: seq<TimelineEntry>, from: nat, to: nat)
    requires from <= to < |entries|
    ensures entries[..|entries| - 1][from..to] == entries[from..to]
    ensures entries[from..to] + [entries[to]] == entries[from..to + 1]
  {
  }

  /** Retries sorted by time are grouped by slot. */
  lemma {:induction false} SlotIsSlice(steps: seq<TimelineEntry>, retries: seq<TimelineEntry>, i: nat, from: nat, to: nat)
    requires from <= to <= |retries|
    requires forall k :: 0 <= k < |retries| ==> (SlotOf(steps, retries[k]) == i <==> from <= k < to)
    ensures InSlot(steps, retries, i) == retries[from..to]
  {
    if retries != [] {
      var init := retries[..|retries| - 1];
      if to == |retries| && from < to {
        SlotIsSlice(steps, init, i, from, to - 1);
        SliceOfShorter(retries, from, to - 1);
      } else if to == |retries| {
        SlotIsSlice(steps, init, i, from - 1, to - 1);
      } else {
        SlotIsSlice(steps, init, i, from, to);
        SliceOfShorter(retries, from, to);
      }
    }
  }

  method Partition(entries: seq<TimelineEntry>, replayed: bool) returns (part: seq<TimelineEntry>)
    ensures part == OfKind(entries, replayed)
  {
    part := [];
    for i := 0 to |entries|
      invariant part == OfKind(entries[..i], replayed)
    {
      assert entries[..i + 1][..i] == entries[..i];
      if entries[i].kind.Replayed? == replayed {
        part := part + [entries[i]];
      }
    }
    assert entries[..|entries|] == entries;
  }

  /** Shifts out the retries that are due before step `i`. */
  method ShiftDue(
    steps: seq<TimelineEntry>, i: nat, retries: seq<TimelineEntry>, ghost all: seq<TimelineEntry>, ghost from: nat)
    returns (due: seq<TimelineEntry>, rest: seq<TimelineEntry>, ghost shifted: nat)
    requires i < |steps| && from <= |all| && retries == all[from..]
    requires ByTime(all) && SlotsSplit(steps, all, i, from)
    ensures shifted <= |all| && rest == all[shifted..]
    ensures due == InSlot(steps, all, i)
    ensures SlotsSplit(steps, all, i + 1, shifted)
  {
    due, rest, shifted := [], retries, from;
    while i > 0 && |rest| > 0 && rest[0].at < steps[i].at
      invariant from <= shifted <= |all| && rest == all[shifted..]
      invariant due == all[from..shifted]
      invariant forall k :: from <= k < shifted ==> SlotOf(steps, all[k]) == i
      decreases |rest|
    {
      SlotIsNow(steps, all[shifted], i);
      due, rest := due + [rest[0]], rest[1..];
      shifted := shifted + 1;
    }
    SlotEndsHere(steps, all, i, from, shifted);
  }

  /** Exactly the first `split` retries belong before step `i`. */
  predicate SlotsSplit(steps: seq<TimelineEntry>, all: seq<TimelineEntry>, i: nat, split: nat)
    requires split <= |all|
  {
    && (forall k :: 0 <= k < split ==> SlotOf(steps, all[k]) < i)
    && (forall k :: split <= k < |all| ==> SlotOf(steps, all[k]) >= i)
  }

  predicate ByTime(entries: seq<TimelineEntry>) {
    forall k, l :: 0 <= k < l < |entries| ==> entries[k].at <= entries[l].at
  }

  /** The first `i` steps are emitted, with the first `split` retries before them; the others are left. */
  predicate Emitted(
    steps: seq<TimelineEntry>, all: seq<TimelineEntry>, i: nat, split: nat, ordered: seq<TimelineEntry>,
    left: seq<TimelineEntry>)
  {
    && i <= |steps| && split <= |all|
    && left == all[split..]
    && ordered == Woven(steps, all, i)
    && SlotsSplit(steps, all, i, split)
  }

  lemma EmitStep(
    steps: seq<TimelineEntry>, all: seq<TimelineEntry>, i: nat, split: nat, ordered: seq<TimelineEntry>,
    left: seq<TimelineEntry>, due: seq<TimelineEntry>)
    requires i < |steps| && ordered == Woven(steps, all, i) && due == InSlot(steps, all, i)
    requires split <= |all| && left == all[split..] && SlotsSplit(steps, all, i + 1, split)
    ensures Emitted(steps, all, i + 1, split, ordered + due + [steps[i]], left)
  {
  }

  /** Emits the steps in order, shifting out before each step the retries that are due. */
  method OrderCausally(entries: seq<TimelineEntry>) returns (ordered: seq<TimelineEntry>)
    ensures ordered == Causally(entries)
  {
    var steps := Partition(entries, false);
    steps := Sort(steps);
    var retries := Partition(entries, true);
    retries := Sort(retries);
    ghost var all := retries;
    RetriesAreRetries(entries);
    ordered := [];
    ghost var shifted: nat := 0;
    for i := 0 to |steps|
      invariant Emitted(steps, all, i, shifted, ordered, retries)
    {
      var due;
      due, retries, shifted := ShiftDue(steps, i, retries, all, shifted);
      EmitStep(steps, all, i, shifted, ordered, retries, due);
      ordered := ordered + due + [steps[i]];
    }
    LastSlot(steps, all, shifted);
    ordered := ordered + retries;
  }

  /** When the next retry is not due, no later one is: the shifted ones are the whole slot. */
  lemma SlotEndsHere(steps: seq<TimelineEntry>, all: seq<TimelineEntry>, i: nat, from: nat, shifted: nat)
    requires i < |steps| && from <= shifted <= |all|
    requires ByTime(all) && SlotsSplit(steps, all, i, from)
    requires forall k :: from <= k < shifted ==> SlotOf(steps, all[k]) == i
    requires shifted < |all| ==> !(i > 0 && all[shifted].at < steps[i].at)
    ensures InSlot(steps, all, i) == all[from..shifted]
    ensures SlotsSplit(steps, all, i + 1, shifted)
  {
    if shifted < |all| {
      SlotIsNow(steps, all[shifted], i);
      forall k | shifted <= k < |all|
        ensures SlotOf(steps, all[k]) >= i + 1
      {
        LaterRetriesLaterSlots(steps, all[shifted], all[k]);
      }
    }
    SlotIsSlice(steps, all, i, from, shifted);
  }

  lemma LastSlot(steps: seq<TimelineEntry>, all: seq<TimelineEntry>, shifted: nat)
    requires shifted <= |all| && SlotsSplit(steps, all, |steps|, shifted)
    ensures InSlot(steps, all, |steps|) == all[shifted..]
  {
    forall k | 0 <= k < |all|
      ensures SlotOf(steps, all[k]) <= |steps|
    {
      SlotIsFirst(steps, all[k].at, 0);
    }
    SlotIsSlice(steps, all, |steps|, shifted, |all|);
  }

  lemma {:induction false} OfKindMembers(entries: seq<TimelineEntry>, replayed: bool)
    ensures forall e :: e in OfKind(entries, replayed) ==> e in entries && e.kind.Replayed? == replayed
  {
    if entries != [] {
      OfKindMembers(entries[..|entries| - 1], replayed);
    }
  }

  lemma OneMoreOfEither(init: seq<TimelineEntry>, last: TimelineEntry)
    ensures multiset(OfKind(init + [last], true)) + multiset(OfKind(init + [last], false))
            == multiset(OfKind(init, true)) + multiset(OfKind(init, false)) + multiset{last}
  {
    var retries, steps := OfKind(init, true), OfKind(init, false);
    OneMoreOfKind(init, last, true);
    OneMoreOfKind(init, last, false);
    if last.kind.Replayed? {
      assert steps + [] == steps;
      MultisetOfOneMore(retries, last);
    } else {
      assert retries + [] == retries;
      MultisetOfOneMore(steps, last);
    }
  }

  lemma MultisetOfOneMore(entries: seq<TimelineEntry>, entry: TimelineEntry)
    ensures multiset(entries + [entry]) == multiset(entries) + multiset{entry}
  {
  }

  /** Retries and steps together are all entries. */
  lemma {:induction false} KindsMakeAll(entries: seq<TimelineEntry>)
    ensures multiset(OfKind(entries, true)) + multiset(OfKind(entries, false)) == multiset(entries)
  {
    if entries != [] {
      var init, last := entries[..|entries| - 1], entries[|entries| - 1];
      KindsMakeAll(init);
      assert entries == init + [last];
      OneMoreOfEither(init, last);
    }
  }

  // What the timeline promises --------------------------------------------------------------

  lemma {:induction false} OfKindOfSum(left: seq<TimelineEntry>, right: seq<TimelineEntry>, replayed: bool)
    ensures OfKind(left + right, replayed) == OfKind(left, replayed) + OfKind(right, replayed)
  {
    if right == [] {
      assert left + right == left;
    } else {
      assert (left + right)[..|left + right| - 1] == left + right[..|right| - 1];
      OfKindOfSum(left, right[..|right| - 1], replayed);
    }
  }

  lemma {:induction false} OfKindOfAll(entries: seq<TimelineEntry>, replayed: bool)
    requires forall e :: e in entries ==> e.kind.Replayed? == replayed
    ensures OfKind(entries, replayed) == entries && OfKind(entries, !replayed) == []
  {
    if entries != [] {
      assert entries[|entries| - 1] in entries;
      OfKindOfAll(entries[..|entries| - 1], replayed);
    }
  }

  /** The retries whose slot lies before `count`. */
  function SlotsBelow(steps: seq<TimelineEntry>, retries: seq<TimelineEntry>, count: nat): seq<TimelineEntry> {
    if retries == [] then [] else
    var last := retries[|retries| - 1];
    SlotsBelow(steps, retries[..|retries| - 1], count) + if SlotOf(steps, last) < count then [last] else []
  }

  lemma {:induction false} EmptySlot(steps: seq<TimelineEntry>, retries: seq<TimelineEntry>, count: nat)
    requires forall k :: 0 <= k < |retries| ==> SlotOf(steps, retries[k]) < count
    ensures InSlot(steps, retries, count) == []
  {
    if retries != [] {
      EmptySlot(steps, retries[..|retries| - 1], count);
    }
  }

  lemma {:induction false} NextSlotFollows(steps: seq<TimelineEntry>, retries: seq<TimelineEntry>, count: nat)
    requires ByTime(retries)
    ensures SlotsBelow(steps, retries, count + 1) == SlotsBelow(steps, retries, count) + InSlot(steps, retries, count)
  {
    if retries != [] {
      var init, last := retries[..|retries| - 1], retries[|retries| - 1];
      NextSlotFollows(steps, init, count);
      if SlotOf(steps, last) < count {
        forall k | 0 <= k < |init|
          ensures SlotOf(steps, init[k]) < count
        {
          LaterRetriesLaterSlots(steps, init[k], last);
        }
        EmptySlot(steps, init, count);
      }
    }
  }

  lemma {:induction false} AllSlotsAreBelow(steps: seq<TimelineEntry>, retries: seq<TimelineEntry>)
    ensures SlotsBelow(steps, retries, |steps| + 1) == retries
  {
    if retries != [] {
      AllSlotsAreBelow(steps, retries[..|retries| - 1]);
      SlotIsFirst(steps, retries[|retries| - 1].at, 0);
    }
  }

  lemma {:induction false} NoSlotIsBelow(steps: seq<TimelineEntry>, retries: seq<TimelineEntry>)
    ensures SlotsBelow(steps, retries, 0) == []
  {
    if retries != [] {
      NoSlotIsBelow(steps, retries[..|retries| - 1]);
    }
  }

  lemma {:induction false} InSlotMembers(steps: seq<TimelineEntry>, retries: seq<TimelineEntry>, i: nat)
    ensures forall e :: e in InSlot(steps, retries, i) <==> e in retries && SlotOf(steps, e) == i
  {
    if retries != [] {
      InSlotMembers(steps, retries[..|retries| - 1], i);
      assert retries == retries[..|retries| - 1] + [retries[|retries| - 1]];
    }
  }

  /** The steps of what was woven are the steps, and its retries the retries that belong there. */
  predicate AreParts(steps: seq<TimelineEntry>, retries: seq<TimelineEntry>, count: nat)
    requires count <= |steps|
  {
    && OfKind(Woven(steps, retries, count), false) == steps[..count]
    && OfKind(Woven(steps, retries, count), true) == SlotsBelow(steps, retries, count)
  }

  /** All retries, or all of them workflow steps. */
  predicate AllOfKind(entries: seq<TimelineEntry>, replayed: bool) {
    forall k :: 0 <= k < |entries| ==> entries[k].kind.Replayed? == replayed
  }

  lemma InSlotOfKind(steps: seq<TimelineEntry>, retries: seq<TimelineEntry>, i: nat)
    requires AllOfKind(retries, true)
    ensures forall e :: e in InSlot(steps, retries, i) ==> e.kind.Replayed?
  {
    InSlotMembers(steps, retries, i);
  }

  lemma NextWoven(steps: seq<TimelineEntry>, retries: seq<TimelineEntry>, count: nat)
    requires 0 < count <= |steps| && ByTime(retries)
    ensures Woven(steps, retries, count)
            == Woven(steps, retries, count - 1) + InSlot(steps, retries, count - 1) + [steps[count - 1]]
    ensures SlotsBelow(steps, retries, count) == SlotsBelow(steps, retries, count - 1) + InSlot(steps, retries, count - 1)
    ensures steps[..count] == steps[..count - 1] + [steps[count - 1]]
  {
    NextSlotFollows(steps, retries, count - 1);
  }

  lemma WovenOneMore(steps: seq<TimelineEntry>, retries: seq<TimelineEntry>, count: nat)
    requires 0 < count <= |steps| && !steps[count - 1].kind.Replayed?
    requires AllOfKind(retries, true) && ByTime(retries)
    requires AreParts(steps, retries, count - 1)
    ensures AreParts(steps, retries, count)
  {
    InSlotOfKind(steps, retries, count - 1);
    PartsOfSum(Woven(steps, retries, count - 1), InSlot(steps, retries, count - 1), steps[count - 1]);
    NextWoven(steps, retries, count);
  }

  lemma NothingWoven(steps: seq<TimelineEntry>, retries: seq<TimelineEntry>)
    ensures AreParts(steps, retries, 0)
  {
    NoSlotIsBelow(steps, retries);
    assert steps[..0] == [];
  }

  lemma {:induction false} WovenParts(steps: seq<TimelineEntry>, retries: seq<TimelineEntry>, count: nat)
    requires count <= |steps|
    requires AllOfKind(steps, false) && AllOfKind(retries, true) && ByTime(retries)
    ensures AreParts(steps, retries, count)
  {
    if count == 0 {
      NothingWoven(steps, retries);
    } else {
      WovenParts(steps, retries, count - 1);
      WovenOneMore(steps, retries, count);
    }
  }

  lemma PartsOfSum(before: seq<TimelineEntry>, slot: seq<TimelineEntry>, step: TimelineEntry)
    requires (forall e :: e in slot ==> e.kind.Replayed?) && !step.kind.Replayed?
    ensures OfKind(before + slot + [step], false) == OfKind(before, false) + [step]
    ensures OfKind(before + slot + [step], true) == OfKind(before, true) + slot
  {
    OfKindOfAll(slot, true);
    OfKindOfSum(before, slot, false);
    OfKindOfSum(before, slot, true);
    OneMoreOfKind(before + slot, step, false);
    OneMoreOfKind(before + slot, step, true);
  }

  lemma OneMoreOfKind(before: seq<TimelineEntry>, step: TimelineEntry, replayed: bool)
    ensures OfKind(before + [step], replayed)
            == OfKind(before, replayed) + if step.kind.Replayed? == replayed then [step] else []
  {
    assert (before + [step])[..|before|] == before;
  }

  lemma SortedPart(entries: seq<TimelineEntry>, replayed: bool)
    ensures var part := Sort(OfKind(entries, replayed));
            && Sorted(part) && AllOfKind(part, replayed)
            && multiset(part) == multiset(OfKind(entries, replayed))
            && forall e :: e in part ==> e in entries
  {
    var part := OfKind(entries, replayed);
    OfKindMembers(entries, replayed);
    SortSorts(part, TimelineEntry(Accepted, 0, None, 1));
    forall e | e in Sort(part)
      ensures e in part
    {
      assert e in multiset(Sort(part)) && e in multiset(part);
    }
  }

  lemma SortedRetriesAreByTime(retries: seq<TimelineEntry>)
    requires Sorted(retries) && AllOfKind(retries, true)
    ensures ByTime(retries)
  {
  }

  lemma RetriesAreRetries(entries: seq<TimelineEntry>)
    ensures ByTime(Sort(OfKind(entries, true))) && AllOfKind(Sort(OfKind(entries, true)), true)
  {
    SortedPart(entries, true);
    SortedRetriesAreByTime(Sort(OfKind(entries, true)));
  }

  /** After the last step come the retries that are left: all parts together. */
  lemma WovenAndRest(steps: seq<TimelineEntry>, retries: seq<TimelineEntry>)
    requires AllOfKind(steps, false) && AllOfKind(retries, true) && ByTime(retries)
    ensures var all := Woven(steps, retries, |steps|) + InSlot(steps, retries, |steps|);
            OfKind(all, false) == steps && OfKind(all, true) == retries
  {
    var woven, rest := Woven(steps, retries, |steps|), InSlot(steps, retries, |steps|);
    WovenParts(steps, retries, |steps|);
    InSlotOfKind(steps, retries, |steps|);
    OfKindOfAll(rest, true);
    OfKindOfSum(woven, rest, false);
    OfKindOfSum(woven, rest, true);
    NextSlotFollows(steps, retries, |steps|);
    AllSlotsAreBelow(steps, retries);
    assert steps[..|steps|] == steps;
  }

  lemma CausallyParts(entries: seq<TimelineEntry>)
    ensures OfKind(Causally(entries), false) == Sort(OfKind(entries, false))
    ensures OfKind(Causally(entries), true) == Sort(OfKind(entries, true))
  {
    SortedPart(entries, false);
    RetriesAreRetries(entries);
    WovenAndRest(Sort(OfKind(entries, false)), Sort(OfKind(entries, true)));
  }

  lemma TimelineIsPermutation(entries: seq<TimelineEntry>)
    ensures multiset(Causally(entries)) == multiset(entries)
  {
    CausallyParts(entries);
    SortedPart(entries, false);
    SortedPart(entries, true);
    KindsMakeAll(Causally(entries));
    KindsMakeAll(entries);
  }

  /**
   * The timeline is a permutation of the entries; its workflow steps appear sorted by stage and
   * time, and its retries appear sorted by time.
   */
  lemma {:induction false} TimelineIsOrdered(entries: seq<TimelineEntry>)
    ensures multiset(Causally(entries)) == multiset(entries)
    ensures OfKind(Causally(entries), false) == Sort(OfKind(entries, false))
    ensures OfKind(Causally(entries), true) == Sort(OfKind(entries, true))
    ensures Sorted(OfKind(Causally(entries), false)) && ByTime(OfKind(Causally(entries), true))
  {
    CausallyParts(entries);
    TimelineIsPermutation(entries);
    SortedPart(entries, false);
    RetriesAreRetries(entries);
  }

  /** How far along the order is at a step: accepted, published, then the stages of its status. */
  function Progress(step: TimelineEntry): nat {
    match step.kind
    case Accepted => 0
    case Published => 1
    case PublicationPending => 1
    case Event(eventType) => if eventType.Some? then 1 + OrderStatus.Stage(eventType.value) else 5
    case Replayed => 0
  }

  lemma ProgressIsStage(left: TimelineEntry, right: TimelineEntry)
    requires !left.kind.Replayed? && !right.kind.Replayed? && !Before(right, left)
    ensures Progress(left) <= Progress(right)
    ensures Progress(left) == Progress(right) ==> left.at <= right.at
  {
    assert Progress(left) == Stage(left) && Progress(right) == Stage(right);
  }

  lemma SortedSteps(entries: seq<TimelineEntry>) returns (steps: seq<TimelineEntry>)
    ensures steps == OfKind(Causally(entries), false)
    ensures Sorted(steps) && AllOfKind(steps, false)
  {
    steps := Sort(OfKind(entries, false));
    CausallyParts(entries);
    SortedPart(entries, false);
  }

  /** The steps are shown in the order in which the workflow takes them, and within a stage by time. */
  lemma {:induction false} StepsFollowTheWorkflow(entries: seq<TimelineEntry>, i: nat, j: nat)
    requires i < j < |OfKind(Causally(entries), false)|
    ensures var steps := OfKind(Causally(entries), false);
            && Progress(steps[i]) <= Progress(steps[j])
            && (Progress(steps[i]) == Progress(steps[j]) ==> steps[i].at <= steps[j].at)
  {
    var steps := SortedSteps(entries);
    ProgressIsStage(steps[i], steps[j]);
  }

  lemma {:induction false} PrefixOfWoven(steps: seq<TimelineEntry>, retries: seq<TimelineEntry>, i: nat, count: nat)
    requires i <= count <= |steps|
    ensures Woven(steps, retries, i) <= Woven(steps, retries, count)
  {
    if i < count {
      PrefixOfWoven(steps, retries, i, count - 1);
    }
  }

  /** A retry belongs just before step `i` when that is the first step, not step 0, seen after it. */
  lemma SlotMeaning(steps: seq<TimelineEntry>, retry: TimelineEntry, i: nat)
    requires i <= |steps|
    ensures SlotOf(steps, retry) == i <==>
            (i < |steps| ==> i > 0 && retry.at < steps[i].at) && (forall k :: 0 < k < i ==> steps[k].at <= retry.at)
  {
    SlotIsFirst(steps, retry.at, 0);
    var slot := SlotOf(steps, retry);
    assert slot < |steps| ==> retry.at < steps[slot].at;
  }

  /**
   * Each retry stands in the run of retries just before the first step, other than step 0,
   * observed strictly after it, or at the very end if there is none.
   */
  lemma {:induction false} RetriesPrecedeTheirStep(entries: seq<TimelineEntry>, i: nat)
    requires i <= |Sort(OfKind(entries, false))|
    ensures var steps, retries := Sort(OfKind(entries, false)), Sort(OfKind(entries, true));
            var before, slot := Woven(steps, retries, i), InSlot(steps, retries, i);
            && (if i < |steps| then before + slot + [steps[i]] <= Causally(entries) else before + slot == Causally(entries))
            && (forall r :: r in slot <==> r in retries && SlotOf(steps, r) == i)
  {
    var steps, retries := Sort(OfKind(entries, false)), Sort(OfKind(entries, true));
    InSlotMembers(steps, retries, i);
    if i < |steps| {
      PrefixOfWoven(steps, retries, i + 1, |steps|);
    }
  }

  lemma AcceptedSortsFirst(steps: seq<TimelineEntry>, accepted: TimelineEntry)
    requires Sorted(steps) && AllOfKind(steps, false) && accepted in steps && accepted.kind.Accepted?
    ensures steps[0].kind.Accepted?
  {
    var j :| 0 <= j < |steps| && steps[j] == accepted;
    assert !Before(accepted, steps[0]);
  }

  lemma StepsKeepMembers(part: seq<TimelineEntry>, steps: seq<TimelineEntry>, entry: TimelineEntry)
    requires multiset(part) == multiset(steps) && entry in part
    ensures entry in steps
  {
    assert entry in multiset(part);
  }

  lemma {:induction false} OfKindKeeps(entries: seq<TimelineEntry>, entry: TimelineEntry)
    requires entry in entries
    ensures entry in OfKind(entries, entry.kind.Replayed?)
  {
    if entry != entries[|entries| - 1] {
      OfKindKeeps(entries[..|entries| - 1], entry);
    }
  }

  /** An order that was accepted starts its timeline with that. */
  lemma AcceptedComesFirst(entries: seq<TimelineEntry>, accepted: TimelineEntry)
    requires accepted in entries && accepted.kind.Accepted?
    ensures Causally(entries) != [] && Causally(entries)[0].kind.Accepted?
  {
    var steps, retries := Sort(OfKind(entries, false)), Sort(OfKind(entries, true));
    OfKindKeeps(entries, accepted);
    SortedPart(entries, false);
    StepsKeepMembers(OfKind(entries, false), steps, accepted);
    AcceptedSortsFirst(steps, accepted);
    FirstStepFirst(steps, retries);
    PrefixFirst([steps[0]], Woven(steps, retries, |steps|), InSlot(steps, retries, |steps|));
  }

  lemma PrefixFirst(first: seq<TimelineEntry>, middle: seq<TimelineEntry>, rest: seq<TimelineEntry>)
    requires first != [] && first <= middle
    ensures middle + rest != [] && (middle + rest)[0] == first[0]
  {
  }

  lemma FirstStepFirst(steps: seq<TimelineEntry>, retries: seq<TimelineEntry>)
    requires steps != []
    ensures [steps[0]] <= Woven(steps, retries, |steps|)
  {
    NothingBeforeFirst(steps, retries);
    PrefixOfWoven(steps, retries, 1, |steps|);
    assert Woven(steps, retries, 0) == [];
    assert Woven(steps, retries, 1) == Woven(steps, retries, 0) + InSlot(steps, retries, 0) + [steps[0]];
  }

  lemma {:induction false} NothingBeforeFirst(steps: seq<TimelineEntry>, retries: seq<TimelineEntry>)
    requires steps != []
    ensures InSlot(steps, retries, 0) == []
  {
    if retries != [] {
      NothingBeforeFirst(steps, retries[..|retries| - 1]);
      SlotIsFirst(steps, retries[|retries| - 1].at, 0);
    }
  }

  function EntriesFor(rows: seq<OrderStore.Entry>, publication: Option<OrderStore.Publication>): seq<TimelineEntry> {
    ToEntries(rows) + if publication.Some? then [PublicationEntry(publication.value)] else []
  }

  /** The entry shows the row: submissions when they came in, events when they were recorded, with their deliveries. */
  predicate Shows(entry: TimelineEntry, row: OrderStore.Entry) {
    match row.kind
    case Accepted => entry.kind.Accepted? && entry.at == row.occurredAt && entry.eventId.None?
    case Replayed => entry.kind.Replayed? && entry.at == row.occurredAt && entry.eventId.None?
    case Recorded(eventId, eventType) =>
      && entry.kind == Event(Some(eventType)) && entry.at == row.recordedAt
      && entry.eventId == Some(eventId) && entry.deliveries == row.deliveries
  }

  /** The entry shows the publication: when it was published, or that it waits since it was written. */
  predicate ShowsPublication(entry: TimelineEntry, publication: OrderStore.Publication) {
    && entry.eventId == Some(publication.eventId)
    && (publication.publishedAt.Some? ==> entry.kind.Published? && entry.at == publication.publishedAt.value)
    && (publication.publishedAt.None? ==> entry.kind.PublicationPending? && entry.at == publication.createdAt)
  }

  lemma {:induction false} EntriesShow(rows: seq<OrderStore.Entry>, publication: Option<OrderStore.Publication>)
    ensures var entries := EntriesFor(rows, publication);
            && |entries| == |rows| + (if publication.Some? then 1 else 0)
            && (forall i :: 0 <= i < |rows| ==> Shows(entries[i], rows[i]))
            && (publication.Some? ==> ShowsPublication(entries[|rows|], publication.value))
  {
    var entries := ToEntries(rows);
    assert forall i :: 0 <= i < |rows| ==> EntriesFor(rows, publication)[i] == entries[i];
  }

  lemma {:induction false} SameMembers(left: seq<TimelineEntry>, right: seq<TimelineEntry>)
    requires multiset(left) == multiset(right)
    ensures |left| == |right| && forall entry :: entry in left <==> entry in right
  {
    assert |multiset(left)| == |left| && |multiset(right)| == |right|;
    forall entry
      ensures entry in left <==> entry in right
    {
      assert entry in left <==> entry in multiset(left);
      assert entry in right <==> entry in multiset(right);
    }
  }

  ghost predicate RowIsShown(timeline: seq<TimelineEntry>, row: OrderStore.Entry) {
    exists entry :: entry in timeline && Shows(entry, row)
  }

  ghost predicate PublicationIsShown(timeline: seq<TimelineEntry>, publication: OrderStore.Publication) {
    exists entry :: entry in timeline && ShowsPublication(entry, publication)
  }

  /** The entry shows one of the rows or the publication. */
  predicate IsOwed(entry: TimelineEntry, rows: seq<OrderStore.Entry>, publication: Option<OrderStore.Publication>) {
    || (exists i :: 0 <= i < |rows| && Shows(entry, rows[i]))
    || (publication.Some? && ShowsPublication(entry, publication.value))
  }

  /** Every row and the publication is shown, and nothing else is. */
  ghost predicate ShowsAll(
    timeline: seq<TimelineEntry>, rows: seq<OrderStore.Entry>, publication: Option<OrderStore.Publication>)
  {
    && |timeline| == |rows| + (if publication.Some? then 1 else 0)
    && (forall i :: 0 <= i < |rows| ==> RowIsShown(timeline, rows[i]))
    && (publication.Some? ==> PublicationIsShown(timeline, publication.value))
    && (forall entry :: entry in timeline ==> IsOwed(entry, rows, publication))
  }

  lemma {:induction false} EntryIsOwed(
    rows: seq<OrderStore.Entry>, publication: Option<OrderStore.Publication>, entry: TimelineEntry)
    requires entry in EntriesFor(rows, publication)
    ensures IsOwed(entry, rows, publication)
  {
    EntriesShow(rows, publication);
    var i :| 0 <= i < |EntriesFor(rows, publication)| && EntriesFor(rows, publication)[i] == entry;
    if i < |rows| {
      assert Shows(entry, rows[i]);
    }
  }

  lemma {:induction false} TimelineShowsAll(
    timeline: seq<TimelineEntry>, rows: seq<OrderStore.Entry>, publication: Option<OrderStore.Publication>)
    requires multiset(timeline) == multiset(EntriesFor(rows, publication))
    ensures ShowsAll(timeline, rows, publication)
  {
    var entries := EntriesFor(rows, publication);
    EntriesShow(rows, publication);
    SameMembers(timeline, entries);
    forall i | 0 <= i < |rows|
      ensures RowIsShown(timeline, rows[i])
    {
      assert entries[i] in timeline;
    }
    if publication.Some? {
      assert entries[|rows|] in timeline;
    }
    forall entry | entry in timeline
      ensures IsOwed(entry, rows, publication)
    {
      EntryIsOwed(rows, publication, entry);
    }
  }

  /** One entry per stored row and one for the state of the publication. */
  method BuildOrderTimeline(rows: seq<OrderStore.Entry>, publication: Option<OrderStore.Publication>)
    returns (timeline: seq<TimelineEntry>)
    ensures timeline == Causally(EntriesFor(rows, publication))
    ensures multiset(timeline) == multiset(EntriesFor(rows, publication))
    ensures ShowsAll(timeline, rows, publication)
  {
    var entries := BuildEntries(rows);
    if publication.Some? {
      entries := entries + [PublicationEntry(publication.value)];
    }
    assert entries == EntriesFor(rows, publication);
    timeline := OrderCausally(entries);
    TimelineIsPermutation(entries);
    TimelineShowsAll(timeline, rows, publication);
  }

  method BuildEntries(rows: seq<OrderStore.Entry>) returns (entries: seq<TimelineEntry>)
    ensures entries == ToEntries(rows)
  {
    entries := [];
    for i := 0 to |rows|
      invariant entries == ToEntries(rows[..i])
    {
      assert rows[..i + 1][..i] == rows[..i];
      entries := entries + [ToEntry(rows[i])];
    }
    assert rows[..|rows|] == rows;
  }
}
