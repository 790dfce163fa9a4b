/**
 * The in-memory store: six `Map<number, Row>` collections, the singleton
 * wedding-details record, and one id counter that every create shares.
 * The collections are updated in place, so the store is a class whose methods
 * reassign its map fields; `Snapshot` captures its whole state, so that each
 * method can say what changes and that nothing else does.
 */
module Storage {
  import opened Wrappers
  import opened OrderedMaps
  import opened Schema

  /** The store's state at one moment. */
  datatype Store = Store(
    guests: OrderedMap<Guest>,
    budgetItems: OrderedMap<BudgetItem>,
    timelineEvents: OrderedMap<TimelineEvent>,
    tasks: OrderedMap<Task>,
    vendors: OrderedMap<Vendor>,
    seatingTables: OrderedMap<SeatingTable>,
    weddingDetails: Option<WeddingDetails>,
    currentId: int)
  {
    /**
     * What the shared counter guarantees: in every collection a row is stored
     * under its own id, ids lie in 1..currentId-1 and increase in insertion
     * order, and no id is used by two collections.
     */
    ghost predicate Inv()
    {
      currentId >= 1 &&
      Keyed(guests, currentId) &&
      Keyed(budgetItems, currentId) &&
      Keyed(timelineEvents, currentId) &&
      Keyed(tasks, currentId) &&
      Keyed(vendors, currentId) &&
      Keyed(seatingTables, currentId) &&
      guests.entries.Keys !! budgetItems.entries.Keys && guests.entries.Keys !! timelineEvents.entries.Keys &&
      guests.entries.Keys !! tasks.entries.Keys && guests.entries.Keys !! vendors.entries.Keys &&
      guests.entries.Keys !! seatingTables.entries.Keys &&
      budgetItems.entries.Keys !! timelineEvents.entries.Keys && budgetItems.entries.Keys !! tasks.entries.Keys &&
      budgetItems.entries.Keys !! vendors.entries.Keys && budgetItems.entries.Keys !! seatingTables.entries.Keys &&
      timelineEvents.entries.Keys !! tasks.entries.Keys && timelineEvents.entries.Keys !! vendors.entries.Keys &&
      timelineEvents.entries.Keys !! seatingTables.entries.Keys &&
      tasks.entries.Keys !! vendors.entries.Keys && tasks.entries.Keys !! seatingTables.entries.Keys &&
      vendors.entries.Keys !! seatingTables.entries.Keys
    }
  }

  /** Rows stored under their own ids, which lie in 1..bound-1 and increase in insertion order. */
  ghost predicate Keyed<F>(m: OrderedMap<WithId<F>>, bound: int)
  {
    m.Valid() &&
    (forall k :: k in m.entries ==> m.entries[k].id == k && 1 <= k < bound) &&
    (forall i, j :: 0 <= i < j < |m.keys| ==> m.keys[i] < m.keys[j])
  }

  /** Adding a row under the next id keeps a collection keyed, one id further on. */
  lemma KeyedAdd<F>(m: OrderedMap<WithId<F>>, bound: int, f: F)
    requires Keyed(m, bound) && bound >= 1
    ensures bound !in m.entries
    ensures Keyed(m.Set(bound, WithId(bound, f)), bound + 1)
    ensures m.Set(bound, WithId(bound, f)).entries.Keys == m.entries.Keys + {bound}
  {
    var m' := m.Set(bound, WithId(bound, f));
    assert m'.keys == m.keys + [bound];
    forall i | 0 <= i < |m.keys| ensures m.keys[i] < bound {
      assert m.keys[i] in m.entries;
    }
  }

  /** A keyed collection stays keyed when the bound moves on, and does not use the old bound. */
  lemma KeyedGrow<F>(m: OrderedMap<WithId<F>>, bound: int)
    requires Keyed(m, bound)
    ensures Keyed(m, bound + 1)
    ensures bound !in m.entries
  {
  }

  /** Replacing the row under a present id, keeping the id, keeps a collection keyed. */
  lemma KeyedReplace<F>(m: OrderedMap<WithId<F>>, bound: int, id: int, f: F)
    requires Keyed(m, bound) && id in m.entries
    ensures Keyed(m.Set(id, WithId(id, f)), bound)
    ensures m.Set(id, WithId(id, f)).entries.Keys == m.entries.Keys
  {
  }

  /** Deleting a row keeps a collection keyed. */
  lemma KeyedDelete<F>(m: OrderedMap<WithId<F>>, bound: int, id: int)
    requires Keyed(m, bound)
    ensures Keyed(m.Delete(id).1, bound)
    ensures m.Delete(id).1.entries.Keys == m.entries.Keys - {id}
  {
    DeleteGet(m, id);
    IncreasingRemove(m.keys, id);
  }

  ghost predicate Increasing(ks: seq<int>)
  {
    forall i, j :: 0 <= i < j < |ks| ==> ks[i] < ks[j]
  }

  lemma {:induction false} IncreasingRemove(ks: seq<int>, k: int)
    requires Increasing(ks)
    ensures Increasing(RemoveKey(ks, k))
  {
    if ks != [] {
      IncreasingRemove(ks[1..], k);
      var rest := RemoveKey(ks[1..], k);
      forall j | 0 <= j < |rest| ensures ks[0] < rest[j] {
        assert rest[j] in ks[1..];
      }
    }
  }

  /** The values of a keyed collection come in increasing id order, each stored under its id. */
  lemma KeyedValues<F>(m: OrderedMap<WithId<F>>, bound: int)
    requires Keyed(m, bound)
    ensures forall i, j :: 0 <= i < j < |m.Values()| ==> m.Values()[i].id < m.Values()[j].id
    ensures forall i :: 0 <= i < |m.Values()| ==> m.Get(m.Values()[i].id) == Some(m.Values()[i])
  {
    forall i | 0 <= i < |m.keys| ensures m.Values()[i].id == m.keys[i] {
      assert m.keys[i] in m.entries;
    }
  }

  /** The record the constructor stores before any request arrives. */
  const SeedDetails := WithId(1, InsertWeddingDetails("Sarah", "Michael", "2024-06-15", "Rosewood Manor", 4000000))

  class MemStorage {
    var guests: OrderedMap<Guest>
    var budgetItems: OrderedMap<BudgetItem>
    var timelineEvents: OrderedMap<TimelineEvent>
    var tasks: OrderedMap<Task>
    var vendors: OrderedMap<Vendor>
    var seatingTables: OrderedMap<SeatingTable>
    var weddingDetails: Option<WeddingDetails>
    var currentId: int

    function Snapshot(): Store
      reads this
    {
      Store(guests, budgetItems, timelineEvents, tasks, vendors, seatingTables,
            weddingDetails, currentId)
    }

    ghost predicate Valid()
      reads this
    {
      Snapshot().Inv()
    }

    /** Empty collections, the seeded wedding details (id 1), and the counter at 1. */
    constructor()
      ensures Valid()
      ensures Snapshot() == Store(Empty(), Empty(), Empty(), Empty(), Empty(), Empty(),
                                  Some(SeedDetails), 1)
    {
      guests := Empty();
      budgetItems := Empty();
      timelineEvents := Empty();
      tasks := Empty();
      vendors := Empty();
      seatingTables := Empty();
      weddingDetails := Some(SeedDetails);
      currentId := 1;
    }

    /** `this.currentId++`: hands out the counter's value and moves it on. */
    method GetNextId() returns (id: int)
      requires Valid()
      modifies this
      ensures Valid()
      ensures id == old(currentId) && currentId == id + 1
      ensures Snapshot() == old(Snapshot()).(currentId := currentId)
      ensures id !in guests.entries && id !in budgetItems.entries && id !in timelineEvents.entries
      ensures id !in tasks.entries && id !in vendors.entries && id !in seatingTables.entries
    {
      KeyedGrow(guests, currentId);
      KeyedGrow(budgetItems, currentId);
      KeyedGrow(timelineEvents, currentId);
      KeyedGrow(tasks, currentId);
      KeyedGrow(vendors, currentId);
      KeyedGrow(seatingTables, currentId);
      id := currentId;
      currentId := currentId + 1;
    }

    // ---------------------------------------------------------------- guests

    /** `Array.from(this.guests.values())`: every row, in creation order. */
    method GetGuests() returns (r: seq<Guest>)
      requires Valid()
      ensures r == guests.Values()
      ensures forall i, j :: 0 <= i < j < |r| ==> r[i].id < r[j].id
      ensures forall i :: 0 <= i < |r| ==> guests.Get(r[i].id) == Some(r[i])
    {
      KeyedValues(guests, currentId);
      r := guests.Values();
    }

    method GetGuest(id: int) returns (r: Option<Guest>)
      requires Valid()
      ensures r == guests.Get(id)
      ensures r.Some? ==> r.value.id == id
    {
      r := guests.Get(id);
    }

    /** Stores `{ ...input, id }` under the next id; the input is stored as given. */
    method CreateGuest(input: InsertGuest) returns (r: Guest)
      requires Valid()
      modifies this
      ensures Valid()
      ensures r == WithId(old(currentId), input)
      ensures old(guests).Get(r.id) == None && guests.Get(r.id) == Some(r)
      ensures Snapshot() == old(Snapshot()).(guests := old(guests).Set(r.id, r), currentId := r.id + 1)
    {
      KeyedAdd(guests, currentId, input);
      var id := GetNextId();
      r := WithId(id, input);
      guests := guests.Set(id, r);
    }

    /** `{ ...existing, ...patch }` for a present id; nothing at all for an absent one. */
    method UpdateGuest(id: int, patch: GuestPatch) returns (r: Option<Guest>)
      requires Valid()
      modifies this
      ensures Valid()
      ensures old(guests).Get(id).None? ==> r.None? && Snapshot() == old(Snapshot())
      ensures old(guests).Get(id).Some? ==>
        r == Some(WithId(id, MergeGuest(old(guests).Get(id).value.fields, patch))) &&
        Snapshot() == old(Snapshot()).(guests := old(guests).Set(id, r.value))
    {
      var existing := guests.Get(id);
      if existing.None? {
        return None;
      }
      var updated := WithId(existing.value.id, MergeGuest(existing.value.fields, patch));
      KeyedReplace(guests, currentId, id, updated.fields);
      guests := guests.Set(id, updated);
      r := Some(updated);
    }

    /** `this.guests.delete(id)`: true iff the id was present; only that row goes. */
    method DeleteGuest(id: int) returns (removed: bool)
      requires Valid()
      modifies this
      ensures Valid()
      ensures removed <==> old(guests).Get(id).Some?
      ensures guests.Get(id) == None
      ensures Snapshot() == old(Snapshot()).(guests := old(guests).Delete(id).1)
      ensures !removed ==> Snapshot() == old(Snapshot())
    {
      KeyedDelete(guests, currentId, id);
      DeleteGet(guests, id);
      if id !in guests.entries {
        DeleteAbsent(guests, id);
      }
      removed, guests := guests.Delete(id).0, guests.Delete(id).1;
    }

    // ---------------------------------------------------------------- budgetItems

    /** `Array.from(this.budgetItems.values())`: every row, in creation order. */
    method GetBudgetItems() returns (r: seq<BudgetItem>)
      requires Valid()
      ensures r == budgetItems.Values()
      ensures forall i, j :: 0 <= i < j < |r| ==> r[i].id < r[j].id
      ensures forall i :: 0 <= i < |r| ==> budgetItems.Get(r[i].id) == Some(r[i])
    {
      KeyedValues(budgetItems, currentId);
      r := budgetItems.Values();
    }

    method GetBudgetItem(id: int) returns (r: Option<BudgetItem>)
      requires Valid()
      ensures r == budgetItems.Get(id)
      ensures r.Some? ==> r.value.id == id
    {
      r := budgetItems.Get(id);
    }

    /** Stores `{ ...input, id }` under the next id; the input is stored as given. */
    method CreateBudgetItem(input: InsertBudgetItem) returns (r: BudgetItem)
      requires Valid()
      modifies this
      ensures Valid()
      ensures r == WithId(old(currentId), input)
      ensures old(budgetItems).Get(r.id) == None && budgetItems.Get(r.id) == Some(r)
      ensures Snapshot() == old(Snapshot()).(budgetItems := old(budgetItems).Set(r.id, r), currentId := r.id + 1)
    {
      KeyedAdd(budgetItems, currentId, input);
      var id := GetNextId();
      r := WithId(id, input);
      budgetItems := budgetItems.Set(id, r);
    }

    /** `{ ...existing, ...patch }` for a present id; nothing at all for an absent one. */
    method UpdateBudgetItem(id: int, patch: BudgetItemPatch) returns (r: Option<BudgetItem>)
      requires Valid()
      modifies this
      ensures Valid()
      ensures old(budgetItems).Get(id).None? ==> r.None? && Snapshot() == old(Snapshot())
      ensures old(budgetItems).Get(id).Some? ==>
        r == Some(WithId(id, MergeBudgetItem(old(budgetItems).Get(id).value.fields, patch))) &&
        Snapshot() == old(Snapshot()).(budgetItems := old(budgetItems).Set(id, r.value))
    {
      var existing := budgetItems.Get(id);
      if existing.None? {
        return None;
      }
      var updated := WithId(existing.value.id, MergeBudgetItem(existing.value.fields, patch));
      KeyedReplace(budgetItems, currentId, id, updated.fields);
      budgetItems := budgetItems.Set(id, updated);
      r := Some(updated);
    }

    /** `this.budgetItems.delete(id)`: true iff the id was present; only that row goes. */
    method DeleteBudgetItem(id: int) returns (removed: bool)
      requires Valid()
      modifies this
      ensures Valid()
      ensures removed <==> old(budgetItems).Get(id).Some?
      ensures budgetItems.Get(id) == None
      ensures Snapshot() == old(Snapshot()).(budgetItems := old(budgetItems).Delete(id).1)
      ensures !removed ==> Snapshot() == old(Snapshot())
    {
      KeyedDelete(budgetItems, currentId, id);
      DeleteGet(budgetItems, id);
      if id !in budgetItems.entries {
        DeleteAbsent(budgetItems, id);
      }
      removed, budgetItems := budgetItems.Delete(id).0, budgetItems.Delete(id).1;
    }

    // ---------------------------------------------------------------- timelineEvents

    /** `Array.from(this.timelineEvents.values())`: every row, in creation order. */
    method GetTimelineEvents() returns (r: seq<TimelineEvent>)
      requires Valid()
      ensures r == timelineEvents.Values()
      ensures forall i, j :: 0 <= i < j < |r| ==> r[i].id < r[j].id
      ensures forall i :: 0 <= i < |r| ==> timelineEvents.Get(r[i].id) == Some(r[i])
    {
      KeyedValues(timelineEvents, currentId);
      r := timelineEvents.Values();
    }

    method GetTimelineEvent(id: int) returns (r: Option<TimelineEvent>)
      requires Valid()
      ensures r == timelineEvents.Get(id)
      ensures r.Some? ==> r.value.id == id
    {
      r := timelineEvents.Get(id);
    }

    /** Stores `{ ...input, id }` under the next id; the input is stored as given. */
    method CreateTimelineEvent(input: InsertTimelineEvent) returns (r: TimelineEvent)
      requires Valid()
      modifies this
      ensures Valid()
      ensures r == WithId(old(currentId), input)
      ensures old(timelineEvents).Get(r.id) == None && timelineEvents.Get(r.id) == Some(r)
      ensures Snapshot() == old(Snapshot()).(timelineEvents := old(timelineEvents).Set(r.id, r), currentId := r.id + 1)
    {
      KeyedAdd(timelineEvents, currentId, input);
      var id := GetNextId();
      r := WithId(id, input);
      timelineEvents := timelineEvents.Set(id, r);
    }

    /** `{ ...existing, ...patch }` for a present id; nothing at all for an absent one. */
    method UpdateTimelineEvent(id: int, patch: TimelineEventPatch) returns (r: Option<TimelineEvent>)
      requires Valid()
      modifies this
      ensures Valid()
      ensures old(timelineEvents).Get(id).None? ==> r.None? && Snapshot() == old(Snapshot())
      ensures old(timelineEvents).Get(id).Some? ==>
        r == Some(WithId(id, MergeTimelineEvent(old(timelineEvents).Get(id).value.fields, patch))) &&
        Snapshot() == old(Snapshot()).(timelineEvents := old(timelineEvents).Set(id, r.value))
    {
      var existing := timelineEvents.Get(id);
      if existing.None? {
        return None;
      }
      var updated := WithId(existing.value.id, MergeTimelineEvent(existing.value.fields, patch));
      KeyedReplace(timelineEvents, currentId, id, updated.fields);
      timelineEvents := timelineEvents.Set(id, updated);
      r := Some(updated);
    }

    /** `this.timelineEvents.delete(id)`: true iff the id was present; only that row goes. */
    method DeleteTimelineEvent(id: int) returns (removed: bool)
      requires Valid()
      modifies this
      ensures Valid()
      ensures removed <==> old(timelineEvents).Get(id).Some?
      ensures timelineEvents.Get(id) == None
      ensures Snapshot() == old(Snapshot()).(timelineEvents := old(timelineEvents).Delete(id).1)
      ensures !removed ==> Snapshot() == old(Snapshot())
    {
      KeyedDelete(timelineEvents, currentId, id);
      DeleteGet(timelineEvents, id);
      if id !in timelineEvents.entries {
        DeleteAbsent(timelineEvents, id);
      }
      removed, timelineEvents := timelineEvents.Delete(id).0, timelineEvents.Delete(id).1;
    }

    // ---------------------------------------------------------------- tasks

    /** `Array.from(this.tasks.values())`: every row, in creation order. */
    method GetTasks() returns (r: seq<Task>)
      requires Valid()
      ensures r == tasks.Values()
      ensures forall i, j :: 0 <= i < j < |r| ==> r[i].id < r[j].id
      ensures forall i :: 0 <= i < |r| ==> tasks.Get(r[i].id) == Some(r[i])
    {
      KeyedValues(tasks, currentId);
      r := tasks.Values();
    }

    method GetTask(id: int) returns (r: Option<Task>)
      requires Valid()
      ensures r == tasks.Get(id)
      ensures r.Some? ==> r.value.id == id
    {
      r := tasks.Get(id);
    }

    /** Stores `{ ...input, id }` under the next id; the input is stored as given. */
    method CreateTask(input: InsertTask) returns (r: Task)
      requires Valid()
      modifies this
      ensures Valid()
      ensures r == WithId(old(currentId), input)
      ensures old(tasks).Get(r.id) == None && tasks.Get(r.id) == Some(r)
      ensures Snapshot() == old(Snapshot()).(tasks := old(tasks).Set(r.id, r), currentId := r.id + 1)
    {
      KeyedAdd(tasks, currentId, input);
      var id := GetNextId();
      r := WithId(id, input);
      tasks := tasks.Set(id, r);
    }

    /** `{ ...existing, ...patch }` for a present id; nothing at all for an absent one. */
    method UpdateTask(id: int, patch: TaskPatch) returns (r: Option<Task>)
      requires Valid()
      modifies this
      ensures Valid()
      ensures old(tasks).Get(id).None? ==> r.None? && Snapshot() == old(Snapshot())
      ensures old(tasks).Get(id).Some? ==>
        r == Some(WithId(id, MergeTask(old(tasks).Get(id).value.fields, patch))) &&
        Snapshot() == old(Snapshot()).(tasks := old(tasks).Set(id, r.value))
    {
      var existing := tasks.Get(id);
      if existing.None? {
        return None;
      }
      var updated := WithId(existing.value.id, MergeTask(existing.value.fields, patch));
      KeyedReplace(tasks, currentId, id, updated.fields);
      tasks := tasks.Set(id, updated);
      r := Some(updated);
    }

    /** `this.tasks.delete(id)`: true iff the id was present; only that row goes. */
    method DeleteTask(id: int) returns (removed: bool)
      requires Valid()
      modifies this
      ensures Valid()
      ensures removed <==> old(tasks).Get(id).Some?
      ensures tasks.Get(id) == None
      ensures Snapshot() == old(Snapshot()).(tasks := old(tasks).Delete(id).1)
      ensures !removed ==> Snapshot() == old(Snapshot())
    {
      KeyedDelete(tasks, currentId, id);
      DeleteGet(tasks, id);
      if id !in tasks.entries {
        DeleteAbsent(tasks, id);
      }
      removed, tasks := tasks.Delete(id).0, tasks.Delete(id).1;
    }

    // ---------------------------------------------------------------- vendors

    /** `Array.from(this.vendors.values())`: every row, in creation order. */
    method GetVendors() returns (r: seq<Vendor>)
      requires Valid()
      ensures r == vendors.Values()
      ensures forall i, j :: 0 <= i < j < |r| ==> r[i].id < r[j].id
      ensures forall i :: 0 <= i < |r| ==> vendors.Get(r[i].id) == Some(r[i])
    {
      KeyedValues(vendors, currentId);
      r := vendors.Values();
    }

    method GetVendor(id: int) returns (r: Option<Vendor>)
      requires Valid()
      ensures r == vendors.Get(id)
      ensures r.Some? ==> r.value.id == id
    {
      r := vendors.Get(id);
    }

    /** Stores `{ ...input, id }` under the next id; the input is stored as given. */
    method CreateVendor(input: InsertVendor) returns (r: Vendor)
      requires Valid()
      modifies this
      ensures Valid()
      ensures r == WithId(old(currentId), input)
      ensures old(vendors).Get(r.id) == None && vendors.Get(r.id) == Some(r)
      ensures Snapshot() == old(Snapshot()).(vendors := old(vendors).Set(r.id, r), currentId := r.id + 1)
    {
      KeyedAdd(vendors, currentId, input);
      var id := GetNextId();
      r := WithId(id, input);
      vendors := vendors.Set(id, r);
    }

    /** `{ ...existing, ...patch }` for a present id; nothing at all for an absent one. */
    method UpdateVendor(id: int, patch: VendorPatch) returns (r: Option<Vendor>)
      requires Valid()
      modifies this
      ensures Valid()
      ensures old(vendors).Get(id).None? ==> r.None? && Snapshot() == old(Snapshot())
      ensures old(vendors).Get(id).Some? ==>
        r == Some(WithId(id, MergeVendor(old(vendors).Get(id).value.fields, patch))) &&
        Snapshot() == old(Snapshot()).(vendors := old(vendors).Set(id, r.value))
    {
      var existing := vendors.Get(id);
      if existing.None? {
        return None;
      }
      var updated := WithId(existing.value.id, MergeVendor(existing.value.fields, patch));
      KeyedReplace(vendors, currentId, id, updated.fields);
      vendors := vendors.Set(id, updated);
      r := Some(updated);
    }

    /** `this.vendors.delete(id)`: true iff the id was present; only that row goes. */
    method DeleteVendor(id: int) returns (removed: bool)
      requires Valid()
      modifies this
      ensures Valid()
      ensures removed <==> old(vendors).Get(id).Some?
      ensures vendors.Get(id) == None
      ensures Snapshot() == old(Snapshot()).(vendors := old(vendors).Delete(id).1)
      ensures !removed ==> Snapshot() == old(Snapshot())
    {
      KeyedDelete(vendors, currentId, id);
      DeleteGet(vendors, id);
      if id !in vendors.entries {
        DeleteAbsent(vendors, id);
      }
      removed, vendors := vendors.Delete(id).0, vendors.Delete(id).1;
    }

    // ---------------------------------------------------------------- seatingTables

    /** `Array.from(this.seatingTables.values())`: every row, in creation order. */
    method GetSeatingTables() returns (r: seq<SeatingTable>)
      requires Valid()
      ensures r == seatingTables.Values()
      ensures forall i, j :: 0 <= i < j < |r| ==> r[i].id < r[j].id
      ensures forall i :: 0 <= i < |r| ==> seatingTables.Get(r[i].id) == Some(r[i])
    {
      KeyedValues(seatingTables, currentId);
      r := seatingTables.Values();
    }

    method GetSeatingTable(id: int) returns (r: Option<SeatingTable>)
      requires Valid()
      ensures r == seatingTables.Get(id)
      ensures r.Some? ==> r.value.id == id
    {
      r := seatingTables.Get(id);
    }

    /** Stores `{ ...input, id }` under the next id; the input is stored as given. */
    method CreateSeatingTable(input: InsertSeatingTable) returns (r: SeatingTable)
      requires Valid()
      modifies this
      ensures Valid()
      ensures r == WithId(old(currentId), input)
      ensures old(seatingTables).Get(r.id) == None && seatingTables.Get(r.id) == Some(r)
      ensures Snapshot() == old(Snapshot()).(seatingTables := old(seatingTables).Set(r.id, r), currentId := r.id + 1)
    {
      KeyedAdd(seatingTables, currentId, input);
      var id := GetNextId();
      r := WithId(id, input);
      seatingTables := seatingTables.Set(id, r);
    }

    /** `{ ...existing, ...patch }` for a present id; nothing at all for an absent one. */
    method UpdateSeatingTable(id: int, patch: SeatingTablePatch) returns (r: Option<SeatingTable>)
      requires Valid()
      modifies this
      ensures Valid()
      ensures old(seatingTables).Get(id).None? ==> r.None? && Snapshot() == old(Snapshot())
      ensures old(seatingTables).Get(id).Some? ==>
        r == Some(WithId(id, MergeSeatingTable(old(seatingTables).Get(id).value.fields, patch))) &&
        Snapshot() == old(Snapshot()).(seatingTables := old(seatingTables).Set(id, r.value))
    {
      var existing := seatingTables.Get(id);
      if existing.None? {
        return None;
      }
      var updated := WithId(existing.value.id, MergeSeatingTable(existing.value.fields, patch));
      KeyedReplace(seatingTables, currentId, id, updated.fields);
      seatingTables := seatingTables.Set(id, updated);
      r := Some(updated);
    }

    /** `this.seatingTables.delete(id)`: true iff the id was present; only that row goes. */
    method DeleteSeatingTable(id: int) returns (removed: bool)
      requires Valid()
      modifies this
      ensures Valid()
      ensures removed <==> old(seatingTables).Get(id).Some?
      ensures seatingTables.Get(id) == None
      ensures Snapshot() == old(Snapshot()).(seatingTables := old(seatingTables).Delete(id).1)
      ensures !removed ==> Snapshot() == old(Snapshot())
    {
      KeyedDelete(seatingTables, currentId, id);
      DeleteGet(seatingTables, id);
      if id !in seatingTables.entries {
        DeleteAbsent(seatingTables, id);
      }
      removed, seatingTables := seatingTables.Delete(id).0, seatingTables.Delete(id).1;
    }

    // ---------------------------------------------------------------- wedding details

    method GetWeddingDetails() returns (r: Option<WeddingDetails>)
      ensures r == weddingDetails
    {
      r := weddingDetails;
    }

    /** Replaces the singleton by `{ ...input, id }` under the next id. */
    method CreateWeddingDetails(input: InsertWeddingDetails) returns (r: WeddingDetails)
      requires Valid()
      modifies this
      ensures Valid()
      ensures r == WithId(old(currentId), input)
      ensures Snapshot() == old(Snapshot()).(weddingDetails := Some(r), currentId := r.id + 1)
    {
      var id := GetNextId();
      r := WithId(id, input);
      weddingDetails := Some(r);
    }

    /** Merges the patch into the singleton, keeping its id; nothing at all when there is none. */
    method UpdateWeddingDetails(patch: WeddingDetailsPatch) returns (r: Option<WeddingDetails>)
      requires Valid()
      modifies this
      ensures Valid()
      ensures old(weddingDetails).None? ==> r.None? && Snapshot() == old(Snapshot())
      ensures old(weddingDetails).Some? ==>
        r == Some(WithId(old(weddingDetails).value.id, MergeWeddingDetails(old(weddingDetails).value.fields, patch))) &&
        Snapshot() == old(Snapshot()).(weddingDetails := r)
    {
      if weddingDetails.None? {
        return None;
      }
      var current := weddingDetails.value;
      weddingDetails := Some(WithId(current.id, MergeWeddingDetails(current.fields, patch)));
      r := weddingDetails;
    }
  }
}
