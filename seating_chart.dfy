/**
 * The seating-chart component: dragging a table and dropping it at a
 * clamped position, the colour and shape classes of a table, and the
 * payload of the "Add Table" form.
 */
module SeatingChartComponent {
  import opened Wrappers
  import opened JsNumbers
  import opened Schema
  import opened Seating

  /** The chart element's bounding box, in pixels. */
  datatype Rect = Rect(left: int, top: int, width: int, height: int)

  /**
   * `Math.max(0, Math.min(p - 50, extent - 100))`: the table's corner is put
   * 50 pixels before the pointer and kept inside the chart.
   */
  function Clamp(p: int, extent: int): (r: int)
    ensures r >= 0
    ensures extent >= 100 ==> r <= extent - 100
    ensures 0 <= p - 50 <= extent - 100 ==> r == p - 50
    ensures extent < 100 ==> r == 0
  {
    var m := if p - 50 < extent - 100 then p - 50 else extent - 100;
    if m < 0 then 0 else m
  }

  /** The update a drop sends: the two positions and nothing else. */
  function DropPatch(clientX: int, clientY: int, rect: Rect): (p: SeatingTablePatch)
    ensures p.(positionX := None, positionY := None) == NoSeatingTableChanges
    ensures p.positionX.Some? && p.positionX.value.Some? && p.positionX.value.value >= 0
    ensures p.positionY.Some? && p.positionY.value.Some? && p.positionY.value.value >= 0
    ensures rect.width >= 100 ==> p.positionX.value.value <= rect.width - 100
    ensures rect.height >= 100 ==> p.positionY.value.value <= rect.height - 100
  {
    NoSeatingTableChanges.(
      positionX := Some(Some(Clamp(clientX - rect.left, rect.width))),
      positionY := Some(Some(Clamp(clientY - rect.top, rect.height))))
  }

  /** A drop moves the table and keeps its number, capacity and shape. */
  lemma DropMovesOnly(t: InsertSeatingTable, clientX: int, clientY: int, rect: Rect)
    ensures var u := MergeSeatingTable(t, DropPatch(clientX, clientY, rect));
      u.tableNumber == t.tableNumber && u.capacity == t.capacity && u.shape == t.shape &&
      u.positionX == Some(Clamp(clientX - rect.left, rect.width)) &&
      u.positionY == Some(Clamp(clientY - rect.top, rect.height))
  {
  }

  /** The component state a drag updates: the table being dragged, if any. */
  class SeatingChart {
    var draggedTable: Option<SeatingTable>

    constructor()
      ensures draggedTable == None
    {
      draggedTable := None;
    }

    /** `handleDragStart`: remember the table. */
    method DragStart(table: SeatingTable)
      modifies this
      ensures draggedTable == Some(table)
    {
      draggedTable := Some(table);
    }

    /**
     * `handleDrop`: without a dragged table or a chart element nothing
     * happens and the drag stays; otherwise the update request for the
     * dragged table's id is produced and the drag is cleared.
     */
    method Drop(clientX: int, clientY: int, chart: Option<Rect>) returns (request: Option<(int, SeatingTablePatch)>)
      modifies this
      ensures old(draggedTable).None? || chart.None? ==> request.None? && draggedTable == old(draggedTable)
      ensures old(draggedTable).Some? && chart.Some? ==>
        request == Some((old(draggedTable).value.id, DropPatch(clientX, clientY, chart.value))) &&
        draggedTable.None?
    {
      if draggedTable.None? || chart.None? {
        return None;
      }
      request := Some((draggedTable.value.id, DropPatch(clientX, clientY, chart.value)));
      draggedTable := None;
    }
  }

  /** The four colour classes, in the order the component lists them. */
  const Colors: seq<string> := [
    "border-rose-gold bg-rose-gold",
    "border-dusty-blue bg-dusty-blue",
    "border-sage-green bg-sage-green",
    "border-champagne-gold bg-yellow-400"]

  /**
   * `colors[tableNumber % 4]`. JavaScript's `%` keeps the sign of the
   * dividend, so a negative number that is not a multiple of 4 indexes
   * outside the list and gets no class (`undefined`, None here).
   */
  function TableColor(tableNumber: int): (r: Option<string>)
    ensures tableNumber >= 0 ==> r == Some(Colors[tableNumber % 4])
    ensures r.None? <==> tableNumber < 0 && tableNumber % 4 != 0
    ensures r.Some? ==> r.value in Colors
  {
    var k := JsRem(tableNumber, 4);
    if 0 <= k then Some(Colors[k]) else None
  }

  /** Table numbers four apart share a colour. */
  lemma TableColorCycles(tableNumber: nat)
    ensures TableColor(tableNumber + 4) == TableColor(tableNumber)
  {
  }

  /** `getTableShape`: "rounded-lg" exactly for a rectangular table; an unset shape is round. */
  function TableShape(shape: Option<string>): (r: string)
    ensures r == "rounded-lg" <==> shape == Some("rectangular")
    ensures r != "rounded-lg" ==> r == "rounded-full"
  {
    if shape == Some("rectangular") then "rounded-lg" else "rounded-full"
  }

  /** `getAssignedGuests(tableNumber)`: the guests whose assignment is exactly this table number. */
  lemma ChartAssignedGuests(guests: seq<Guest>, table: SeatingTable)
    ensures forall g :: g in AssignedGuests(guests, table.fields.tableNumber) <==>
      g in guests && g.fields.tableAssignment == Some(table.fields.tableNumber)
    ensures |AssignedGuests(guests, table.fields.tableNumber)| <= |guests|
  {
  }

  /** What the "Add Table" form holds: three text fields, shape "round" unless changed. */
  datatype AddTableForm = AddTableForm(tableNumber: string, capacity: string, shape: string)

  /** `parseInt(text)` as it reaches the request body: NaN is sent as `null`. */
  function ParsedNumber(text: string): (j: Json)
    ensures j.JNumber? <==> ParseInt(text).Int?
    ensures j.JNumber? ==> j.n == ParseInt(text).value
    ensures !j.JNumber? ==> j == JNull
  {
    match ParseInt(text)
    case Int(n) => JNumber(n)
    case NaN => JNull
  }

  /** The payload `handleAddTable` posts has exactly the five fields, each holding what was put there. */
  lemma PayloadFields(tableNumber: Json, capacity: Json, shape: string)
    ensures var body := map["tableNumber" := tableNumber, "capacity" := capacity,
        "positionX" := JNumber(100), "positionY" := JNumber(100), "shape" := JString(shape)];
      && body.Keys == {"tableNumber", "capacity", "positionX", "positionY", "shape"}
      && body["tableNumber"] == tableNumber && body["capacity"] == capacity
      && body["positionX"] == body["positionY"] == JNumber(100) && body["shape"] == JString(shape)
  {
  }

  /** `handleAddTable` as written: the table number is passed on as the form's text. */
  function AddTablePayloadAsWritten(form: AddTableForm): (r: JsonObject)
    ensures r.Keys == {"tableNumber", "capacity", "positionX", "positionY", "shape"}
    ensures r["positionX"] == r["positionY"] == JNumber(100) && r["shape"] == JString(form.shape)
    ensures r["tableNumber"].JString?
  {
    var body := map["tableNumber" := JString(form.tableNumber), "capacity" := ParsedNumber(form.capacity),
        "positionX" := JNumber(100), "positionY" := JNumber(100), "shape" := JString(form.shape)];
    PayloadFields(JString(form.tableNumber), ParsedNumber(form.capacity), form.shape);
    body
  }

  /** With the number as text, every new table is refused, whatever the form holds. */
  lemma AddTableAsWrittenAlwaysRefused(form: AddTableForm)
    ensures var r := ParseNewSeatingTable(AddTablePayloadAsWritten(form));
      r.ZodError? && Issue("tableNumber", "Expected number, received string") in r.issues
  {
    TextNumberRefused(form.tableNumber, ParsedNumber(form.capacity), form.shape);
  }

  /** A payload whose table number is text is refused, with an issue naming that field. */
  lemma TextNumberRefused(tableNumber: string, capacity: Json, shape: string)
    ensures var body := map["tableNumber" := JString(tableNumber), "capacity" := capacity,
        "positionX" := JNumber(100), "positionY" := JNumber(100), "shape" := JString(shape)];
      var r := ParseNewSeatingTable(body);
      r.ZodError? && Issue("tableNumber", "Expected number, received string") in r.issues
  {
    var body := map["tableNumber" := JString(tableNumber), "capacity" := capacity,
        "positionX" := JNumber(100), "positionY" := JNumber(100), "shape" := JString(shape)];
    assert body["tableNumber"] == JString(tableNumber);
    var tn := RequiredNumber(body, "tableNumber");
    assert tn == Fail(Issue("tableNumber", "Expected number, received string"));
    assert IssueOf(tn) == [tn.issue];
  }

  /** `handleAddTable` with the table number parsed like the capacity, at position (100, 100). */
  function AddTablePayload(form: AddTableForm): (r: JsonObject)
    ensures r.Keys == {"tableNumber", "capacity", "positionX", "positionY", "shape"}
    ensures r["positionX"] == r["positionY"] == JNumber(100) && r["shape"] == JString(form.shape)
    ensures !r["tableNumber"].JString?
  {
    var body := map["tableNumber" := ParsedNumber(form.tableNumber), "capacity" := ParsedNumber(form.capacity),
        "positionX" := JNumber(100), "positionY" := JNumber(100), "shape" := JString(form.shape)];
    PayloadFields(ParsedNumber(form.tableNumber), ParsedNumber(form.capacity), form.shape);
    body
  }

  /**
   * The corrected payload is accepted exactly when both numbers parse, and
   * then it describes the table the form holds, at (100, 100).
   */
  lemma AddTableAccepted(form: AddTableForm)
    ensures ParseNewSeatingTable(AddTablePayload(form)).Ok? <==>
      ParseInt(form.tableNumber).Int? && ParseInt(form.capacity).Int?
    ensures ParseNewSeatingTable(AddTablePayload(form)).Ok? ==>
      ParseNewSeatingTable(AddTablePayload(form)).value ==
        InsertSeatingTable(ParseInt(form.tableNumber).value, ParseInt(form.capacity).value, Some(100), Some(100), Some(form.shape))
  {
    var tn, cap := ParsedNumber(form.tableNumber), ParsedNumber(form.capacity);
    PayloadAccepted(tn, cap, form.shape);
  }

  /**
   * A payload at (100, 100) with a text shape is accepted exactly when both
   * numbers are numbers, and then it carries them.
   */
  lemma PayloadAccepted(tableNumber: Json, capacity: Json, shape: string)
    ensures var body := map["tableNumber" := tableNumber, "capacity" := capacity,
        "positionX" := JNumber(100), "positionY" := JNumber(100), "shape" := JString(shape)];
      (ParseNewSeatingTable(body).Ok? <==> tableNumber.JNumber? && capacity.JNumber?) &&
      (ParseNewSeatingTable(body).Ok? ==>
        ParseNewSeatingTable(body).value == InsertSeatingTable(tableNumber.n, capacity.n, Some(100), Some(100), Some(shape)))
  {
    var body := map["tableNumber" := tableNumber, "capacity" := capacity,
        "positionX" := JNumber(100), "positionY" := JNumber(100), "shape" := JString(shape)];
    assert body["positionX"] == JNumber(100) && body["positionY"] == JNumber(100);
    assert body["shape"] == JString(shape);
  }

  /** A form filled with the decimal texts of two numbers creates exactly that table. */
  lemma AddTableFromNumbers(tableNumber: int, capacity: int, shape: string)
    ensures ParseNewSeatingTable(AddTablePayload(AddTableForm(IntToDecimal(tableNumber), IntToDecimal(capacity), shape))) ==
      Ok(InsertSeatingTable(tableNumber, capacity, Some(100), Some(100), Some(shape)))
  {
    ParseIntRoundTrip(tableNumber);
    ParseIntRoundTrip(capacity);
    AddTableAccepted(AddTableForm(IntToDecimal(tableNumber), IntToDecimal(capacity), shape));
  }
}
