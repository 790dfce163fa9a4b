/**
 * The seating page: tables sorted by number, the unassigned guests, each
 * table's occupancy and free seats, the assignment selector with its
 * disabled options, the "Remove" request and the seating statistics.
 */
module Seating {
  import opened Wrappers
  import opened Seqs
  import opened JsNumbers
  import opened Sorting
  import opened Schema
  import opened Guests

  function TableNumber(t: SeatingTable): int
  {
    t.fields.tableNumber
  }

  function Capacity(t: SeatingTable): int
  {
    t.fields.capacity
  }

  /** `sortedTables`: a sorted copy; the list it was given keeps its order. */
  function SortedTables(tables: seq<SeatingTable>): (r: seq<SeatingTable>)
    ensures multiset(r) == multiset(tables)
    ensures SortedBy(r, TableNumber)
    ensures forall n :: WithKey(r, TableNumber, n) == WithKey(tables, TableNumber, n)
  {
    SortBy(tables, TableNumber)
  }

  /** `!guest.tableAssignment`: no table, or table number 0, which is falsy. */
  predicate IsUnassigned(g: Guest)
  {
    g.fields.tableAssignment.None? || g.fields.tableAssignment == Some(0)
  }

  function UnassignedGuests(guests: seq<Guest>): (r: seq<Guest>)
    ensures IsSubsequence(r, guests)
    ensures forall g :: g in r <==> g in guests && IsUnassigned(g)
  {
    Filter(guests, IsUnassigned)
  }

  /** `guest.tableAssignment === tableNumber`. */
  predicate SeatedAt(g: Guest, tableNumber: int)
  {
    g.fields.tableAssignment == Some(tableNumber)
  }

  /** The guests whose assignment names `tableNumber`, in list order. */
  function AssignedGuests(guests: seq<Guest>, tableNumber: int): (r: seq<Guest>)
    ensures IsSubsequence(r, guests)
    ensures forall g :: g in r <==> g in guests && SeatedAt(g, tableNumber)
  {
    Filter(guests, g => SeatedAt(g, tableNumber))
  }

  /**
   * A guest at table number 0 falls on both sides: it is listed as
   * unassigned and also under a table numbered 0.
   */
  lemma TableZeroIsBoth(guests: seq<Guest>, g: Guest)
    requires g in guests && g.fields.tableAssignment == Some(0)
    ensures g in UnassignedGuests(guests)
    ensures g in AssignedGuests(guests, 0)
  {
  }

  /** One row of `getTableAssignments()`. */
  datatype Assignment = Assignment(table: SeatingTable, guests: seq<Guest>, available: int)

  function AssignmentOf(t: SeatingTable, guests: seq<Guest>): Assignment
  {
    var seated := AssignedGuests(guests, t.fields.tableNumber);
    Assignment(t, seated, t.fields.capacity - |seated|)
  }

  /**
   * `getTableAssignments()`: one row per table in sorted order, with the
   * guests seated there and the seats left, which is negative when the
   * table is over-full.
   */
  function TableAssignments(tables: seq<SeatingTable>, guests: seq<Guest>): (r: seq<Assignment>)
    ensures |r| == |tables|
    ensures forall i :: 0 <= i < |r| ==> r[i].table == SortedTables(tables)[i]
    ensures forall i :: 0 <= i < |r| ==>
      (forall g :: g in r[i].guests <==> g in guests && SeatedAt(g, r[i].table.fields.tableNumber))
    ensures forall i :: 0 <= i < |r| ==> r[i].available == Capacity(r[i].table) - Count(guests, g => SeatedAt(g, r[i].table.fields.tableNumber))
  {
    var sorted := SortedTables(tables);
    seq(|sorted|, i requires 0 <= i < |sorted| => AssignmentOf(sorted[i], guests))
  }

  /** Tables that share a number report the same guests. */
  lemma SharedNumberSharesGuests(tables: seq<SeatingTable>, guests: seq<Guest>, i: nat, j: nat)
    requires i < |tables| && j < |tables|
    requires TableAssignments(tables, guests)[i].table.fields.tableNumber == TableAssignments(tables, guests)[j].table.fields.tableNumber
    ensures TableAssignments(tables, guests)[i].guests == TableAssignments(tables, guests)[j].guests
  {
  }

  /** The text of a table's option in the selector: `tableNumber.toString()`. */
  function OptionValue(t: SeatingTable): string
  {
    IntToDecimal(t.fields.tableNumber)
  }

  /** One option of the selector: its value, the seats left it shows, and whether it is disabled. */
  datatype TableOption = TableOption(value: string, available: int, disabled: bool)

  function TableOptionOf(t: SeatingTable, guests: seq<Guest>): (o: TableOption)
    ensures o.available == t.fields.capacity - |AssignedGuests(guests, t.fields.tableNumber)|
    ensures o.disabled <==> |AssignedGuests(guests, t.fields.tableNumber)| >= t.fields.capacity
  {
    var available := t.fields.capacity - |AssignedGuests(guests, t.fields.tableNumber)|;
    TableOption(OptionValue(t), available, available <= 0)
  }

  /** The options, one per table in sorted order. */
  function TableOptions(tables: seq<SeatingTable>, guests: seq<Guest>): (r: seq<TableOption>)
    ensures |r| == |tables|
    ensures forall i :: 0 <= i < |r| ==> r[i] == TableOptionOf(SortedTables(tables)[i], guests)
  {
    var sorted := SortedTables(tables);
    seq(|sorted|, i requires 0 <= i < |sorted| => TableOptionOf(sorted[i], guests))
  }

  /** The option of a table agrees with its row in the assignments list, and is enabled exactly when a seat is free. */
  lemma OptionsMatchAssignments(tables: seq<SeatingTable>, guests: seq<Guest>, i: nat)
    requires i < |tables|
    ensures TableOptions(tables, guests)[i].available == TableAssignments(tables, guests)[i].available
    ensures !TableOptions(tables, guests)[i].disabled <==> TableAssignments(tables, guests)[i].available > 0
  {
  }

  /**
   * `handleGuestAssignment(id, parseInt(value))`: the request for the chosen
   * option; a value `parseInt` rejects is NaN, which is sent as `null`.
   */
  function AssignRequest(guestId: int, value: string): (r: (int, GuestPatch))
    ensures r.0 == guestId
    ensures r.1.(tableAssignment := None) == NoGuestChanges
    ensures r.1.tableAssignment.Some?
    ensures r.1.tableAssignment.value.Some? <==> ParseInt(value).Int?
  {
    var n := ParseInt(value);
    (guestId, NoGuestChanges.(tableAssignment := Some(if n.Int? then Some(n.value) else None)))
  }

  /** Choosing a table's option seats the guest at exactly that table and changes nothing else. */
  lemma ChosenOptionSeatsGuest(g: Guest, t: SeatingTable)
    ensures AssignRequest(g.id, OptionValue(t)).0 == g.id
    ensures MergeGuest(g.fields, AssignRequest(g.id, OptionValue(t)).1) == g.fields.(tableAssignment := Some(t.fields.tableNumber))
    ensures SeatedAt(WithId(g.id, MergeGuest(g.fields, AssignRequest(g.id, OptionValue(t)).1)), t.fields.tableNumber)
  {
    ParseIntRoundTrip(t.fields.tableNumber);
  }

  /** "Remove": the update that sets this guest's `tableAssignment` to null. */
  function RemoveRequest(guestId: int): (r: (int, GuestPatch))
    ensures r.0 == guestId
    ensures r.1.(tableAssignment := None) == NoGuestChanges
    ensures r.1.tableAssignment == Some(None)
  {
    (guestId, NoGuestChanges.(tableAssignment := Some(None)))
  }

  /** Removing leaves the guest unassigned and every other field as it was. */
  lemma RemoveUnassigns(g: Guest)
    ensures RemoveRequest(g.id).0 == g.id
    ensures MergeGuest(g.fields, RemoveRequest(g.id).1) == g.fields.(tableAssignment := None)
    ensures IsUnassigned(WithId(g.id, MergeGuest(g.fields, RemoveRequest(g.id).1)))
  {
  }

  /**
   * Moving one guest from table `a` to table `b` frees a seat at `a`, takes one
   * at `b`, and leaves every other table's occupancy as it was.
   */
  lemma MoveGuestOccupancy(guests: seq<Guest>, i: nat, b: int, n: int)
    requires i < |guests| && guests[i].fields.tableAssignment.Some?
    requires guests[i].fields.tableAssignment.value != b
    ensures var a := guests[i].fields.tableAssignment.value;
      var moved := guests[i := WithId(guests[i].id, guests[i].fields.(tableAssignment := Some(b)))];
      Count(moved, g => SeatedAt(g, n)) ==
        Count(guests, g => SeatedAt(g, n)) + (if n == b then 1 else 0) - (if n == a then 1 else 0)
  {
    var moved := WithId(guests[i].id, guests[i].fields.(tableAssignment := Some(b)));
    CountUpdate(guests, i, moved, g => SeatedAt(g, n));
  }

  /** "Total Capacity": the capacities of all tables. */
  function TotalCapacity(tables: seq<SeatingTable>): (r: int)
    ensures (forall i :: 0 <= i < |tables| ==> tables[i].fields.capacity >= 0) ==> r >= 0
  {
    SumNonNegative(tables, Capacity);
    Sum(tables, Capacity)
  }

  /** The seating statistics: tables, total capacity, confirmed guests and unassigned guests. */
  function SeatingStats(tables: seq<SeatingTable>, guests: seq<Guest>): (r: (int, int, nat, nat))
    ensures r.0 == |tables|
    ensures r.2 <= |guests| && r.3 <= |guests|
    ensures (forall i :: 0 <= i < |tables| ==> tables[i].fields.capacity >= 0) ==> r.1 >= 0
  {
    (|tables|, TotalCapacity(tables), Count(guests, IsConfirmed), |UnassignedGuests(guests)|)
  }

  /** Sorting does not change the capacity: the sorted list and the stored list hold the same seats. */
  lemma CapacityOfSortedTables(tables: seq<SeatingTable>)
    ensures TotalCapacity(SortedTables(tables)) == TotalCapacity(tables)
    ensures |SortedTables(tables)| == |tables|
  {
    SortSum(tables, TableNumber, Capacity);
  }
}
