/**
 * The REST handlers of the planner's API. Each handler is a method over the
 * store that returns the HTTP status and the JSON body it sends. The request
 * body arrives already run through the resource's zod schema: the handler is
 * given the outcome of `parse` (a value, a `ZodError`, or another exception).
 * Path ids go through `parseInt`; a NaN id matches no row.
 *
 * Statuses: 200 OK, 201 Created, 400 Bad Request, 404 Not Found and
 * 500 Internal Server Error (sections 15.3.1, 15.3.2, 15.5.1, 15.5.5 and
 * 15.6.1 of RFC 9110).
 */
module Routes {
  import opened Wrappers
  import opened JsNumbers
  import opened OrderedMaps
  import opened Schema
  import opened Storage

  /** The JSON a handler sends: a row, a list of rows, `{ message }`, or `{ message, errors }`. */
  datatype Body<T> = One(row: T) | Many(rows: seq<T>) | Message(text: string) | Invalid(text: string, errors: seq<Issue>)

  datatype Response<T> = Response(status: int, body: Body<T>)

  /** The id a path segment names, or None when `parseInt` gives NaN. */
  function PathId(segment: string): (r: Option<int>)
    ensures r.Some? <==> ParseInt(segment).Int?
  {
    match ParseInt(segment)
    case NaN => None
    case Int(i) => Some(i)
  }

  /** A segment led by an ideographic space, as Express decodes `%E3%80%80` before an id, still names that id. */
  lemma PathIdSkipsUnicodeSpace(id: int)
    ensures PathId(['\U{3000}'] + IntToDecimal(id)) == Some(id)
  {
    ParseIntSkipsUnicodeSpace(IntToDecimal(id));
    ParseIntRoundTrip(id);
  }

  /** A path built from an id names that id. */
  lemma PathIdOfId(id: int)
    ensures PathId(IntToDecimal(id)) == Some(id)
  {
    ParseIntRoundTrip(id);
  }

  /** The row a path segment names in `m`, if any: NaN and absent ids both find nothing. */
  function Lookup<T>(m: OrderedMap<T>, segment: string): (r: Option<T>)
    ensures r.Some? ==> ParseInt(segment).Int? && m.Get(ParseInt(segment).value) == r
    ensures ParseInt(segment).Int? ==> r == m.Get(ParseInt(segment).value)
  {
    match PathId(segment)
    case None => None
    case Some(id) => m.Get(id)
  }

  /**
   * The `catch` of a POST or PUT handler: a `ZodError` becomes 400 with its
   * issues, any other exception 500 with a fixed message.
   */
  function Refused<T, X>(invalidText: string, failureText: string, parsed: Parsed<X>): (resp: Response<T>)
    requires !parsed.Ok?
    ensures resp.status == 400 <==> parsed.ZodError?
    ensures resp.status == 500 <==> parsed.Threw?
    ensures parsed.ZodError? ==> resp.body == Invalid(invalidText, parsed.issues)
    ensures parsed.Threw? ==> resp.body == Message(failureText)
  {
    if parsed.ZodError? then Response(400, Invalid(invalidText, parsed.issues)) else Response(500, Message(failureText))
  }

  // ---------------------------------------------------------------- /api/guests

  /** GET: every row, in creation order. */
  method HandleListGuests(s: MemStorage) returns (resp: Response<Guest>)
    requires s.Valid()
    ensures resp.status == 200
    ensures resp.body == Many(s.guests.Values())
  {
    var rows := s.GetGuests();
    resp := Response(200, Many(rows));
  }

  /** GET by id: the row, or 404 when the id names none. */
  method HandleGetGuest(s: MemStorage, segment: string) returns (resp: Response<Guest>)
    requires s.Valid()
    ensures Lookup(s.guests, segment).None? ==> resp == Response(404, Message("Guest not found"))
    ensures Lookup(s.guests, segment).Some? ==> resp == Response(200, One(Lookup(s.guests, segment).value))
  {
    match PathId(segment)
    case None =>
      resp := Response(404, Message("Guest not found"));
    case Some(id) =>
      var row := s.GetGuest(id);
      if row.None? {
        return Response(404, Message("Guest not found"));
      }
      resp := Response(200, One(row.value));
  }

  /** POST: 201 with the stored row; a rejected body leaves the store untouched. */
  method HandlePostGuest(s: MemStorage, parsed: Parsed<InsertGuest>) returns (resp: Response<Guest>)
    requires s.Valid()
    modifies s
    ensures s.Valid()
    ensures parsed.Ok? ==>
      resp == Response(201, One(WithId(old(s.currentId), parsed.value))) &&
      s.Snapshot() == old(s.Snapshot()).(guests := old(s.guests).Set(resp.body.row.id, resp.body.row), currentId := old(s.currentId) + 1)
    ensures !parsed.Ok? ==>
      resp == Refused("Invalid guest data", "Failed to create guest", parsed) && s.Snapshot() == old(s.Snapshot())
  {
    if !parsed.Ok? {
      return Refused("Invalid guest data", "Failed to create guest", parsed);
    }
    var row := s.CreateGuest(parsed.value);
    resp := Response(201, One(row));
  }

  /**
   * PUT: the body is validated before the id is looked up, so a rejected body
   * gets 400 or 500 whatever the id; a valid body for an id that names no row
   * gets 404; otherwise 200 with the merged row. Only a 200 changes the store.
   */
  method HandlePutGuest(s: MemStorage, segment: string, parsed: Parsed<GuestPatch>) returns (resp: Response<Guest>)
    requires s.Valid()
    modifies s
    ensures s.Valid()
    ensures !parsed.Ok? ==>
      resp == Refused("Invalid guest data", "Failed to update guest", parsed) && s.Snapshot() == old(s.Snapshot())
    ensures parsed.Ok? && (PathId(segment).None? || old(s.guests).Get(PathId(segment).value).None?) ==>
      resp == Response(404, Message("Guest not found")) && s.Snapshot() == old(s.Snapshot())
    ensures parsed.Ok? && PathId(segment).Some? && old(s.guests).Get(PathId(segment).value).Some? ==>
      var id := PathId(segment).value;
      var updated := WithId(id, MergeGuest(old(s.guests).Get(id).value.fields, parsed.value));
      resp == Response(200, One(updated)) && s.Snapshot() == old(s.Snapshot()).(guests := old(s.guests).Set(id, updated))
  {
    var id := PathId(segment);
    if !parsed.Ok? {
      return Refused("Invalid guest data", "Failed to update guest", parsed);
    }
    if id.None? {
      return Response(404, Message("Guest not found"));
    }
    var row := s.UpdateGuest(id.value, parsed.value);
    if row.None? {
      return Response(404, Message("Guest not found"));
    }
    resp := Response(200, One(row.value));
  }

  /** DELETE: a confirmation message when a row went, 404 when the id named none. */
  method HandleDeleteGuest(s: MemStorage, segment: string) returns (resp: Response<Guest>)
    requires s.Valid()
    modifies s
    ensures s.Valid()
    ensures PathId(segment).None? || old(s.guests).Get(PathId(segment).value).None? ==>
      resp == Response(404, Message("Guest not found")) && s.Snapshot() == old(s.Snapshot())
    ensures PathId(segment).Some? && old(s.guests).Get(PathId(segment).value).Some? ==>
      resp == Response(200, Message("Guest deleted successfully")) &&
      s.Snapshot() == old(s.Snapshot()).(guests := old(s.guests).Delete(PathId(segment).value).1)
  {
    var id := PathId(segment);
    if id.None? {
      return Response(404, Message("Guest not found"));
    }
    var removed := s.DeleteGuest(id.value);
    if !removed {
      return Response(404, Message("Guest not found"));
    }
    resp := Response(200, Message("Guest deleted successfully"));
  }

  // ---------------------------------------------------------------- /api/budget

  /** GET: every row, in creation order. */
  method HandleListBudget(s: MemStorage) returns (resp: Response<BudgetItem>)
    requires s.Valid()
    ensures resp.status == 200
    ensures resp.body == Many(s.budgetItems.Values())
  {
    var rows := s.GetBudgetItems();
    resp := Response(200, Many(rows));
  }

  /** POST: 201 with the stored row; a rejected body leaves the store untouched. */
  method HandlePostBudgetItem(s: MemStorage, parsed: Parsed<InsertBudgetItem>) returns (resp: Response<BudgetItem>)
    requires s.Valid()
    modifies s
    ensures s.Valid()
    ensures parsed.Ok? ==>
      resp == Response(201, One(WithId(old(s.currentId), parsed.value))) &&
      s.Snapshot() == old(s.Snapshot()).(budgetItems := old(s.budgetItems).Set(resp.body.row.id, resp.body.row), currentId := old(s.currentId) + 1)
    ensures !parsed.Ok? ==>
      resp == Refused("Invalid budget data", "Failed to create budget item", parsed) && s.Snapshot() == old(s.Snapshot())
  {
    if !parsed.Ok? {
      return Refused("Invalid budget data", "Failed to create budget item", parsed);
    }
    var row := s.CreateBudgetItem(parsed.value);
    resp := Response(201, One(row));
  }

  /**
   * PUT: the body is validated before the id is looked up, so a rejected body
   * gets 400 or 500 whatever the id; a valid body for an id that names no row
   * gets 404; otherwise 200 with the merged row. Only a 200 changes the store.
   */
  method HandlePutBudgetItem(s: MemStorage, segment: string, parsed: Parsed<BudgetItemPatch>) returns (resp: Response<BudgetItem>)
    requires s.Valid()
    modifies s
    ensures s.Valid()
    ensures !parsed.Ok? ==>
      resp == Refused("Invalid budget data", "Failed to update budget item", parsed) && s.Snapshot() == old(s.Snapshot())
    ensures parsed.Ok? && (PathId(segment).None? || old(s.budgetItems).Get(PathId(segment).value).None?) ==>
      resp == Response(404, Message("Budget item not found")) && s.Snapshot() == old(s.Snapshot())
    ensures parsed.Ok? && PathId(segment).Some? && old(s.budgetItems).Get(PathId(segment).value).Some? ==>
      var id := PathId(segment).value;
      var updated := WithId(id, MergeBudgetItem(old(s.budgetItems).Get(id).value.fields, parsed.value));
      resp == Response(200, One(updated)) && s.Snapshot() == old(s.Snapshot()).(budgetItems := old(s.budgetItems).Set(id, updated))
  {
    var id := PathId(segment);
    if !parsed.Ok? {
      return Refused("Invalid budget data", "Failed to update budget item", parsed);
    }
    if id.None? {
      return Response(404, Message("Budget item not found"));
    }
    var row := s.UpdateBudgetItem(id.value, parsed.value);
    if row.None? {
      return Response(404, Message("Budget item not found"));
    }
    resp := Response(200, One(row.value));
  }

  /** DELETE: a confirmation message when a row went, 404 when the id named none. */
  method HandleDeleteBudgetItem(s: MemStorage, segment: string) returns (resp: Response<BudgetItem>)
    requires s.Valid()
    modifies s
    ensures s.Valid()
    ensures PathId(segment).None? || old(s.budgetItems).Get(PathId(segment).value).None? ==>
      resp == Response(404, Message("Budget item not found")) && s.Snapshot() == old(s.Snapshot())
    ensures PathId(segment).Some? && old(s.budgetItems).Get(PathId(segment).value).Some? ==>
      resp == Response(200, Message("Budget item deleted successfully")) &&
      s.Snapshot() == old(s.Snapshot()).(budgetItems := old(s.budgetItems).Delete(PathId(segment).value).1)
  {
    var id := PathId(segment);
    if id.None? {
      return Response(404, Message("Budget item not found"));
    }
    var removed := s.DeleteBudgetItem(id.value);
    if !removed {
      return Response(404, Message("Budget item not found"));
    }
    resp := Response(200, Message("Budget item deleted successfully"));
  }

  // ---------------------------------------------------------------- /api/timeline

  /** GET: every row, in creation order. */
  method HandleListTimeline(s: MemStorage) returns (resp: Response<TimelineEvent>)
    requires s.Valid()
    ensures resp.status == 200
    ensures resp.body == Many(s.timelineEvents.Values())
  {
    var rows := s.GetTimelineEvents();
    resp := Response(200, Many(rows));
  }

  /** POST: 201 with the stored row; a rejected body leaves the store untouched. */
  method HandlePostTimelineEvent(s: MemStorage, parsed: Parsed<InsertTimelineEvent>) returns (resp: Response<TimelineEvent>)
    requires s.Valid()
    modifies s
    ensures s.Valid()
    ensures parsed.Ok? ==>
      resp == Response(201, One(WithId(old(s.currentId), parsed.value))) &&
      s.Snapshot() == old(s.Snapshot()).(timelineEvents := old(s.timelineEvents).Set(resp.body.row.id, resp.body.row), currentId := old(s.currentId) + 1)
    ensures !parsed.Ok? ==>
      resp == Refused("Invalid event data", "Failed to create timeline event", parsed) && s.Snapshot() == old(s.Snapshot())
  {
    if !parsed.Ok? {
      return Refused("Invalid event data", "Failed to create timeline event", parsed);
    }
    var row := s.CreateTimelineEvent(parsed.value);
    resp := Response(201, One(row));
  }

  /**
   * PUT: the body is validated before the id is looked up, so a rejected body
   * gets 400 or 500 whatever the id; a valid body for an id that names no row
   * gets 404; otherwise 200 with the merged row. Only a 200 changes the store.
   */
  method HandlePutTimelineEvent(s: MemStorage, segment: string, parsed: Parsed<TimelineEventPatch>) returns (resp: Response<TimelineEvent>)
    requires s.Valid()
    modifies s
    ensures s.Valid()
    ensures !parsed.Ok? ==>
      resp == Refused("Invalid event data", "Failed to update timeline event", parsed) && s.Snapshot() == old(s.Snapshot())
    ensures parsed.Ok? && (PathId(segment).None? || old(s.timelineEvents).Get(PathId(segment).value).None?) ==>
      resp == Response(404, Message("Timeline event not found")) && s.Snapshot() == old(s.Snapshot())
    ensures parsed.Ok? && PathId(segment).Some? && old(s.timelineEvents).Get(PathId(segment).value).Some? ==>
      var id := PathId(segment).value;
      var updated := WithId(id, MergeTimelineEvent(old(s.timelineEvents).Get(id).value.fields, parsed.value));
      resp == Response(200, One(updated)) && s.Snapshot() == old(s.Snapshot()).(timelineEvents := old(s.timelineEvents).Set(id, updated))
  {
    var id := PathId(segment);
    if !parsed.Ok? {
      return Refused("Invalid event data", "Failed to update timeline event", parsed);
    }
    if id.None? {
      return Response(404, Message("Timeline event not found"));
    }
    var row := s.UpdateTimelineEvent(id.value, parsed.value);
    if row.None? {
      return Response(404, Message("Timeline event not found"));
    }
    resp := Response(200, One(row.value));
  }

  /** DELETE: a confirmation message when a row went, 404 when the id named none. */
  method HandleDeleteTimelineEvent(s: MemStorage, segment: string) returns (resp: Response<TimelineEvent>)
    requires s.Valid()
    modifies s
    ensures s.Valid()
    ensures PathId(segment).None? || old(s.timelineEvents).Get(PathId(segment).value).None? ==>
      resp == Response(404, Message("Timeline event not found")) && s.Snapshot() == old(s.Snapshot())
    ensures PathId(segment).Some? && old(s.timelineEvents).Get(PathId(segment).value).Some? ==>
      resp == Response(200, Message("Timeline event deleted successfully")) &&
      s.Snapshot() == old(s.Snapshot()).(timelineEvents := old(s.timelineEvents).Delete(PathId(segment).value).1)
  {
    var id := PathId(segment);
    if id.None? {
      return Response(404, Message("Timeline event not found"));
    }
    var removed := s.DeleteTimelineEvent(id.value);
    if !removed {
      return Response(404, Message("Timeline event not found"));
    }
    resp := Response(200, Message("Timeline event deleted successfully"));
  }

  // ---------------------------------------------------------------- /api/tasks

  /** GET: every row, in creation order. */
  method HandleListTasks(s: MemStorage) returns (resp: Response<Task>)
    requires s.Valid()
    ensures resp.status == 200
    ensures resp.body == Many(s.tasks.Values())
  {
    var rows := s.GetTasks();
    resp := Response(200, Many(rows));
  }

  /** POST: 201 with the stored row; a rejected body leaves the store untouched. */
  method HandlePostTask(s: MemStorage, parsed: Parsed<InsertTask>) returns (resp: Response<Task>)
    requires s.Valid()
    modifies s
    ensures s.Valid()
    ensures parsed.Ok? ==>
      resp == Response(201, One(WithId(old(s.currentId), parsed.value))) &&
      s.Snapshot() == old(s.Snapshot()).(tasks := old(s.tasks).Set(resp.body.row.id, resp.body.row), currentId := old(s.currentId) + 1)
    ensures !parsed.Ok? ==>
      resp == Refused("Invalid task data", "Failed to create task", parsed) && s.Snapshot() == old(s.Snapshot())
  {
    if !parsed.Ok? {
      return Refused("Invalid task data", "Failed to create task", parsed);
    }
    var row := s.CreateTask(parsed.value);
    resp := Response(201, One(row));
  }

  /**
   * PUT: the body is validated before the id is looked up, so a rejected body
   * gets 400 or 500 whatever the id; a valid body for an id that names no row
   * gets 404; otherwise 200 with the merged row. Only a 200 changes the store.
   */
  method HandlePutTask(s: MemStorage, segment: string, parsed: Parsed<TaskPatch>) returns (resp: Response<Task>)
    requires s.Valid()
    modifies s
    ensures s.Valid()
    ensures !parsed.Ok? ==>
      resp == Refused("Invalid task data", "Failed to update task", parsed) && s.Snapshot() == old(s.Snapshot())
    ensures parsed.Ok? && (PathId(segment).None? || old(s.tasks).Get(PathId(segment).value).None?) ==>
      resp == Response(404, Message("Task not found")) && s.Snapshot() == old(s.Snapshot())
    ensures parsed.Ok? && PathId(segment).Some? && old(s.tasks).Get(PathId(segment).value).Some? ==>
      var id := PathId(segment).value;
      var updated := WithId(id, MergeTask(old(s.tasks).Get(id).value.fields, parsed.value));
      resp == Response(200, One(updated)) && s.Snapshot() == old(s.Snapshot()).(tasks := old(s.tasks).Set(id, updated))
  {
    var id := PathId(segment);
    if !parsed.Ok? {
      return Refused("Invalid task data", "Failed to update task", parsed);
    }
    if id.None? {
      return Response(404, Message("Task not found"));
    }
    var row := s.UpdateTask(id.value, parsed.value);
    if row.None? {
      return Response(404, Message("Task not found"));
    }
    resp := Response(200, One(row.value));
  }

  /** DELETE: a confirmation message when a row went, 404 when the id named none. */
  method HandleDeleteTask(s: MemStorage, segment: string) returns (resp: Response<Task>)
    requires s.Valid()
    modifies s
    ensures s.Valid()
    ensures PathId(segment).None? || old(s.tasks).Get(PathId(segment).value).None? ==>
      resp == Response(404, Message("Task not found")) && s.Snapshot() == old(s.Snapshot())
    ensures PathId(segment).Some? && old(s.tasks).Get(PathId(segment).value).Some? ==>
      resp == Response(200, Message("Task deleted successfully")) &&
      s.Snapshot() == old(s.Snapshot()).(tasks := old(s.tasks).Delete(PathId(segment).value).1)
  {
    var id := PathId(segment);
    if id.None? {
      return Response(404, Message("Task not found"));
    }
    var removed := s.DeleteTask(id.value);
    if !removed {
      return Response(404, Message("Task not found"));
    }
    resp := Response(200, Message("Task deleted successfully"));
  }

  // ---------------------------------------------------------------- /api/vendors

  /** GET: every row, in creation order. */
  method HandleListVendors(s: MemStorage) returns (resp: Response<Vendor>)
    requires s.Valid()
    ensures resp.status == 200
    ensures resp.body == Many(s.vendors.Values())
  {
    var rows := s.GetVendors();
    resp := Response(200, Many(rows));
  }

  /** POST: 201 with the stored row; a rejected body leaves the store untouched. */
  method HandlePostVendor(s: MemStorage, parsed: Parsed<InsertVendor>) returns (resp: Response<Vendor>)
    requires s.Valid()
    modifies s
    ensures s.Valid()
    ensures parsed.Ok? ==>
      resp == Response(201, One(WithId(old(s.currentId), parsed.value))) &&
      s.Snapshot() == old(s.Snapshot()).(vendors := old(s.vendors).Set(resp.body.row.id, resp.body.row), currentId := old(s.currentId) + 1)
    ensures !parsed.Ok? ==>
      resp == Refused("Invalid vendor data", "Failed to create vendor", parsed) && s.Snapshot() == old(s.Snapshot())
  {
    if !parsed.Ok? {
      return Refused("Invalid vendor data", "Failed to create vendor", parsed);
    }
    var row := s.CreateVendor(parsed.value);
    resp := Response(201, One(row));
  }

  /**
   * PUT: the body is validated before the id is looked up, so a rejected body
   * gets 400 or 500 whatever the id; a valid body for an id that names no row
   * gets 404; otherwise 200 with the merged row. Only a 200 changes the store.
   */
  method HandlePutVendor(s: MemStorage, segment: string, parsed: Parsed<VendorPatch>) returns (resp: Response<Vendor>)
    requires s.Valid()
    modifies s
    ensures s.Valid()
    ensures !parsed.Ok? ==>
      resp == Refused("Invalid vendor data", "Failed to update vendor", parsed) && s.Snapshot() == old(s.Snapshot())
    ensures parsed.Ok? && (PathId(segment).None? || old(s.vendors).Get(PathId(segment).value).None?) ==>
      resp == Response(404, Message("Vendor not found")) && s.Snapshot() == old(s.Snapshot())
    ensures parsed.Ok? && PathId(segment).Some? && old(s.vendors).Get(PathId(segment).value).Some? ==>
      var id := PathId(segment).value;
      var updated := WithId(id, MergeVendor(old(s.vendors).Get(id).value.fields, parsed.value));
      resp == Response(200, One(updated)) && s.Snapshot() == old(s.Snapshot()).(vendors := old(s.vendors).Set(id, updated))
  {
    var id := PathId(segment);
    if !parsed.Ok? {
      return Refused("Invalid vendor data", "Failed to update vendor", parsed);
    }
    if id.None? {
      return Response(404, Message("Vendor not found"));
    }
    var row := s.UpdateVendor(id.value, parsed.value);
    if row.None? {
      return Response(404, Message("Vendor not found"));
    }
    resp := Response(200, One(row.value));
  }

  /** DELETE: a confirmation message when a row went, 404 when the id named none. */
  method HandleDeleteVendor(s: MemStorage, segment: string) returns (resp: Response<Vendor>)
    requires s.Valid()
    modifies s
    ensures s.Valid()
    ensures PathId(segment).None? || old(s.vendors).Get(PathId(segment).value).None? ==>
      resp == Response(404, Message("Vendor not found")) && s.Snapshot() == old(s.Snapshot())
    ensures PathId(segment).Some? && old(s.vendors).Get(PathId(segment).value).Some? ==>
      resp == Response(200, Message("Vendor deleted successfully")) &&
      s.Snapshot() == old(s.Snapshot()).(vendors := old(s.vendors).Delete(PathId(segment).value).1)
  {
    var id := PathId(segment);
    if id.None? {
      return Response(404, Message("Vendor not found"));
    }
    var removed := s.DeleteVendor(id.value);
    if !removed {
      return Response(404, Message("Vendor not found"));
    }
    resp := Response(200, Message("Vendor deleted successfully"));
  }

  // ---------------------------------------------------------------- /api/seating

  /** GET: every row, in creation order. */
  method HandleListSeating(s: MemStorage) returns (resp: Response<SeatingTable>)
    requires s.Valid()
    ensures resp.status == 200
    ensures resp.body == Many(s.seatingTables.Values())
  {
    var rows := s.GetSeatingTables();
    resp := Response(200, Many(rows));
  }

  /** POST: 201 with the stored row; a rejected body leaves the store untouched. */
  method HandlePostSeatingTable(s: MemStorage, parsed: Parsed<InsertSeatingTable>) returns (resp: Response<SeatingTable>)
    requires s.Valid()
    modifies s
    ensures s.Valid()
    ensures parsed.Ok? ==>
      resp == Response(201, One(WithId(old(s.currentId), parsed.value))) &&
      s.Snapshot() == old(s.Snapshot()).(seatingTables := old(s.seatingTables).Set(resp.body.row.id, resp.body.row), currentId := old(s.currentId) + 1)
    ensures !parsed.Ok? ==>
      resp == Refused("Invalid table data", "Failed to create seating table", parsed) && s.Snapshot() == old(s.Snapshot())
  {
    if !parsed.Ok? {
      return Refused("Invalid table data", "Failed to create seating table", parsed);
    }
    var row := s.CreateSeatingTable(parsed.value);
    resp := Response(201, One(row));
  }

  /**
   * PUT: the body is validated before the id is looked up, so a rejected body
   * gets 400 or 500 whatever the id; a valid body for an id that names no row
   * gets 404; otherwise 200 with the merged row. Only a 200 changes the store.
   */
  method HandlePutSeatingTable(s: MemStorage, segment: string, parsed: Parsed<SeatingTablePatch>) returns (resp: Response<SeatingTable>)
    requires s.Valid()
    modifies s
    ensures s.Valid()
    ensures !parsed.Ok? ==>
      resp == Refused("Invalid table data", "Failed to update seating table", parsed) && s.Snapshot() == old(s.Snapshot())
    ensures parsed.Ok? && (PathId(segment).None? || old(s.seatingTables).Get(PathId(segment).value).None?) ==>
      resp == Response(404, Message("Seating table not found")) && s.Snapshot() == old(s.Snapshot())
    ensures parsed.Ok? && PathId(segment).Some? && old(s.seatingTables).Get(PathId(segment).value).Some? ==>
      var id := PathId(segment).value;
      var updated := WithId(id, MergeSeatingTable(old(s.seatingTables).Get(id).value.fields, parsed.value));
      resp == Response(200, One(updated)) && s.Snapshot() == old(s.Snapshot()).(seatingTables := old(s.seatingTables).Set(id, updated))
  {
    var id := PathId(segment);
    if !parsed.Ok? {
      return Refused("Invalid table data", "Failed to update seating table", parsed);
    }
    if id.None? {
      return Response(404, Message("Seating table not found"));
    }
    var row := s.UpdateSeatingTable(id.value, parsed.value);
    if row.None? {
      return Response(404, Message("Seating table not found"));
    }
    resp := Response(200, One(row.value));
  }

  /** DELETE: a confirmation message when a row went, 404 when the id named none. */
  method HandleDeleteSeatingTable(s: MemStorage, segment: string) returns (resp: Response<SeatingTable>)
    requires s.Valid()
    modifies s
    ensures s.Valid()
    ensures PathId(segment).None? || old(s.seatingTables).Get(PathId(segment).value).None? ==>
      resp == Response(404, Message("Seating table not found")) && s.Snapshot() == old(s.Snapshot())
    ensures PathId(segment).Some? && old(s.seatingTables).Get(PathId(segment).value).Some? ==>
      resp == Response(200, Message("Seating table deleted successfully")) &&
      s.Snapshot() == old(s.Snapshot()).(seatingTables := old(s.seatingTables).Delete(PathId(segment).value).1)
  {
    var id := PathId(segment);
    if id.None? {
      return Response(404, Message("Seating table not found"));
    }
    var removed := s.DeleteSeatingTable(id.value);
    if !removed {
      return Response(404, Message("Seating table not found"));
    }
    resp := Response(200, Message("Seating table deleted successfully"));
  }

  // ---------------------------------------------------------------- /api/wedding-details

  /** GET: the singleton, or 404 when there is none. */
  method HandleGetWeddingDetails(s: MemStorage) returns (resp: Response<WeddingDetails>)
    ensures s.weddingDetails.None? ==> resp == Response(404, Message("Wedding details not found"))
    ensures s.weddingDetails.Some? ==> resp == Response(200, One(s.weddingDetails.value))
  {
    var details := s.GetWeddingDetails();
    if details.None? {
      return Response(404, Message("Wedding details not found"));
    }
    resp := Response(200, One(details.value));
  }

  /** PUT: the partial merge into the singleton; validated first, 404 only when there is no singleton. */
  method HandlePutWeddingDetails(s: MemStorage, parsed: Parsed<WeddingDetailsPatch>) returns (resp: Response<WeddingDetails>)
    requires s.Valid()
    modifies s
    ensures s.Valid()
    ensures !parsed.Ok? ==>
      resp == Refused("Invalid wedding details data", "Failed to update wedding details", parsed) &&
      s.Snapshot() == old(s.Snapshot())
    ensures parsed.Ok? && old(s.weddingDetails).None? ==>
      resp == Response(404, Message("Wedding details not found")) && s.Snapshot() == old(s.Snapshot())
    ensures parsed.Ok? && old(s.weddingDetails).Some? ==>
      var current := old(s.weddingDetails).value;
      var updated := WithId(current.id, MergeWeddingDetails(current.fields, parsed.value));
      resp == Response(200, One(updated)) && s.Snapshot() == old(s.Snapshot()).(weddingDetails := Some(updated))
  {
    if !parsed.Ok? {
      return Refused("Invalid wedding details data", "Failed to update wedding details", parsed);
    }
    var details := s.UpdateWeddingDetails(parsed.value);
    if details.None? {
      return Response(404, Message("Wedding details not found"));
    }
    resp := Response(200, One(details.value));
  }
}
