/**
 * Short request sequences against the store that show how its contracts
 * combine: the shared id counter, the seeded record's id, repeated
 * deletes, and deleting a table while guests still name it.
 */
module Scenarios {
  import opened Wrappers
  import opened JsNumbers
  import opened OrderedMaps
  import opened Schema
  import opened Storage
  import opened Routes

  /**
   * On a fresh store the first row created, of any kind, gets id 1: the
   * id the seeded wedding details already carry.
   */
  method FirstRowSharesSeedId(input: InsertGuest) returns (guestId: int, detailsId: int)
    ensures guestId == 1 && detailsId == 1
  {
    var s := new MemStorage();
    var guest := s.CreateGuest(input);
    var details := s.GetWeddingDetails();
    guestId, detailsId := guest.id, details.value.id;
  }

  /**
   * Creates in different collections draw on the one counter: a guest and
   * then a table get consecutive ids, and neither id is used by the other
   * collection.
   */
  method CreatesShareCounter(s: MemStorage, g: InsertGuest, t: InsertSeatingTable) returns (guest: Guest, table: SeatingTable)
    requires s.Valid()
    modifies s
    ensures s.Valid()
    ensures guest.id == old(s.currentId) && table.id == guest.id + 1
    ensures s.guests.Get(guest.id) == Some(guest) && s.seatingTables.Get(table.id) == Some(table)
    ensures s.guests.Get(table.id) == None && s.seatingTables.Get(guest.id) == None
  {
    guest := s.CreateGuest(g);
    table := s.CreateSeatingTable(t);
  }

  /** Deleting the same guest twice: the second request always gets 404 and changes nothing. */
  method DeleteGuestTwice(s: MemStorage, segment: string) returns (first: Response<Guest>, second: Response<Guest>)
    requires s.Valid()
    modifies s
    ensures s.Valid()
    ensures second == Response(404, Message("Guest not found"))
    ensures first.status == 200 <==> PathId(segment).Some? && old(s.guests).Get(PathId(segment).value).Some?
  {
    first := HandleDeleteGuest(s, segment);
    if PathId(segment).Some? {
      DeleteGet(old(s.guests), PathId(segment).value);
    }
    second := HandleDeleteGuest(s, segment);
  }

  /**
   * The seating page's delete sends one table DELETE: the table goes, and
   * every guest, including those seated at it, keeps its assignment.
   */
  method DeleteTableKeepsGuests(s: MemStorage, tableId: int) returns (resp: Response<SeatingTable>)
    requires s.Valid()
    modifies s
    ensures s.Valid()
    ensures s.guests == old(s.guests)
    ensures s.seatingTables.Get(tableId) == None
    ensures resp.status == 200 <==> old(s.seatingTables).Get(tableId).Some?
  {
    PathIdOfId(tableId);
    resp := HandleDeleteSeatingTable(s, IntToDecimal(tableId));
    DeleteGet(old(s.seatingTables), tableId);
  }
}
