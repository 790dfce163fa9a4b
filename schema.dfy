/**
 * The record shapes of the planner's seven tables. A stored row is its insert
 * fields plus an `id`; the insert types carry no `id`, so only the store
 * assigns ids. A nullable column, or one with a column default, is optional
 * in the insert type (`Option`); an absent field and a `null` one are not told
 * apart. Money columns (`decimal(10, 2)`) are integer cents.
 *
 * Updates take a partial record: every field may be left out. For a nullable
 * column the patch may also set the field to `null`, so such a patch field is
 * an `Option<Option<T>>` (None: left out, Some(None): null).
 */
module Schema {
  import opened Wrappers

  /** An amount of money in cents (a `decimal` with scale 2). */
  type Money = int

  /** `{ ...input, id }`: a stored row. */
  datatype WithId<F> = WithId(id: int, fields: F)

  /** The `{ ...existing, ...patch }` rule for one field: a field the patch holds wins. */
  function Override<T>(current: T, given: Option<T>): T
  {
    given.GetOr(current)
  }

  // ---------------------------------------------------------------- guests

  datatype InsertGuest = InsertGuest(
    name: string,
    email: Option<string>,
    phone: Option<string>,
    rsvpStatus: Option<string>,
    plusOne: Option<bool>,
    dietaryRestrictions: Option<string>,
    tableAssignment: Option<int>,
    notes: Option<string>)

  type Guest = WithId<InsertGuest>

  datatype GuestPatch = GuestPatch(
    name: Option<string>,
    email: Option<Option<string>>,
    phone: Option<Option<string>>,
    rsvpStatus: Option<string>,
    plusOne: Option<Option<bool>>,
    dietaryRestrictions: Option<Option<string>>,
    tableAssignment: Option<Option<int>>,
    notes: Option<Option<string>>)

  const NoGuestChanges := GuestPatch(None, None, None, None, None, None, None, None)

  /** Every field of `g`, as a patch. */
  function GuestPatchOf(g: InsertGuest): GuestPatch
  {
    GuestPatch(Some(g.name), Some(g.email), Some(g.phone), g.rsvpStatus, Some(g.plusOne),
               Some(g.dietaryRestrictions), Some(g.tableAssignment), Some(g.notes))
  }

  function MergeGuest(g: InsertGuest, p: GuestPatch): InsertGuest
  {
    InsertGuest(Override(g.name, p.name), Override(g.email, p.email), Override(g.phone, p.phone),
                if p.rsvpStatus.Some? then p.rsvpStatus else g.rsvpStatus,
                Override(g.plusOne, p.plusOne), Override(g.dietaryRestrictions, p.dietaryRestrictions),
                Override(g.tableAssignment, p.tableAssignment), Override(g.notes, p.notes))
  }

  /**
   * An empty patch changes nothing, a patch holding every field replaces the
   * record (`rsvpStatus` cannot be cleared, as the column is not nullable), and
   * a patch applied twice acts once.
   */
  lemma MergeGuestLaws(g: InsertGuest, h: InsertGuest, p: GuestPatch)
    ensures MergeGuest(g, NoGuestChanges) == g
    ensures h.rsvpStatus.Some? ==> MergeGuest(g, GuestPatchOf(h)) == h
    ensures MergeGuest(MergeGuest(g, p), p) == MergeGuest(g, p)
  {
  }

  // ---------------------------------------------------------------- budget

  datatype InsertBudgetItem = InsertBudgetItem(
    category: string,
    description: string,
    budgetAmount: Money,
    actualAmount: Option<Money>,
    isPaid: Option<bool>,
    notes: Option<string>)

  type BudgetItem = WithId<InsertBudgetItem>

  datatype BudgetItemPatch = BudgetItemPatch(
    category: Option<string>,
    description: Option<string>,
    budgetAmount: Option<Money>,
    actualAmount: Option<Option<Money>>,
    isPaid: Option<Option<bool>>,
    notes: Option<Option<string>>)

  const NoBudgetItemChanges := BudgetItemPatch(None, None, None, None, None, None)

  function BudgetItemPatchOf(b: InsertBudgetItem): BudgetItemPatch
  {
    BudgetItemPatch(Some(b.category), Some(b.description), Some(b.budgetAmount),
                    Some(b.actualAmount), Some(b.isPaid), Some(b.notes))
  }

  function MergeBudgetItem(b: InsertBudgetItem, p: BudgetItemPatch): InsertBudgetItem
  {
    InsertBudgetItem(Override(b.category, p.category), Override(b.description, p.description),
                     Override(b.budgetAmount, p.budgetAmount), Override(b.actualAmount, p.actualAmount),
                     Override(b.isPaid, p.isPaid), Override(b.notes, p.notes))
  }

  lemma MergeBudgetItemLaws(b: InsertBudgetItem, c: InsertBudgetItem, p: BudgetItemPatch)
    ensures MergeBudgetItem(b, NoBudgetItemChanges) == b
    ensures MergeBudgetItem(b, BudgetItemPatchOf(c)) == c
    ensures MergeBudgetItem(MergeBudgetItem(b, p), p) == MergeBudgetItem(b, p)
  {
  }

  // ---------------------------------------------------------------- timeline

  datatype InsertTimelineEvent = InsertTimelineEvent(
    title: string,
    description: Option<string>,
    startTime: string,
    endTime: string,
    location: Option<string>,
    eventType: string)

  type TimelineEvent = WithId<InsertTimelineEvent>

  datatype TimelineEventPatch = TimelineEventPatch(
    title: Option<string>,
    description: Option<Option<string>>,
    startTime: Option<string>,
    endTime: Option<string>,
    location: Option<Option<string>>,
    eventType: Option<string>)

  const NoTimelineEventChanges := TimelineEventPatch(None, None, None, None, None, None)

  function TimelineEventPatchOf(e: InsertTimelineEvent): TimelineEventPatch
  {
    TimelineEventPatch(Some(e.title), Some(e.description), Some(e.startTime), Some(e.endTime),
                       Some(e.location), Some(e.eventType))
  }

  function MergeTimelineEvent(e: InsertTimelineEvent, p: TimelineEventPatch): InsertTimelineEvent
  {
    InsertTimelineEvent(Override(e.title, p.title), Override(e.description, p.description),
                        Override(e.startTime, p.startTime), Override(e.endTime, p.endTime),
                        Override(e.location, p.location), Override(e.eventType, p.eventType))
  }

  lemma MergeTimelineEventLaws(e: InsertTimelineEvent, f: InsertTimelineEvent, p: TimelineEventPatch)
    ensures MergeTimelineEvent(e, NoTimelineEventChanges) == e
    ensures MergeTimelineEvent(e, TimelineEventPatchOf(f)) == f
    ensures MergeTimelineEvent(MergeTimelineEvent(e, p), p) == MergeTimelineEvent(e, p)
  {
  }

  // ---------------------------------------------------------------- tasks

  datatype InsertTask = InsertTask(
    title: string,
    description: Option<string>,
    isCompleted: Option<bool>,
    dueDate: Option<string>,
    priority: Option<string>,
    category: Option<string>)

  type Task = WithId<InsertTask>

  /** `priority` is not nullable, so a patch can only leave it out or set it. */
  datatype TaskPatch = TaskPatch(
    title: Option<string>,
    description: Option<Option<string>>,
    isCompleted: Option<Option<bool>>,
    dueDate: Option<Option<string>>,
    priority: Option<string>,
    category: Option<Option<string>>)

  const NoTaskChanges := TaskPatch(None, None, None, None, None, None)

  function TaskPatchOf(t: InsertTask): TaskPatch
  {
    TaskPatch(Some(t.title), Some(t.description), Some(t.isCompleted), Some(t.dueDate),
              t.priority, Some(t.category))
  }

  function MergeTask(t: InsertTask, p: TaskPatch): InsertTask
  {
    InsertTask(Override(t.title, p.title), Override(t.description, p.description),
               Override(t.isCompleted, p.isCompleted), Override(t.dueDate, p.dueDate),
               if p.priority.Some? then p.priority else t.priority, Override(t.category, p.category))
  }

  lemma MergeTaskLaws(t: InsertTask, u: InsertTask, p: TaskPatch)
    ensures MergeTask(t, NoTaskChanges) == t
    ensures u.priority.Some? ==> MergeTask(t, TaskPatchOf(u)) == u
    ensures MergeTask(MergeTask(t, p), p) == MergeTask(t, p)
  {
  }

  // ---------------------------------------------------------------- vendors

  datatype InsertVendor = InsertVendor(
    name: string,
    category: string,
    contactName: Option<string>,
    phone: Option<string>,
    email: Option<string>,
    website: Option<string>,
    address: Option<string>,
    contractAmount: Option<Money>,
    isBooked: Option<bool>,
    notes: Option<string>)

  type Vendor = WithId<InsertVendor>

  datatype VendorPatch = VendorPatch(
    name: Option<string>,
    category: Option<string>,
    contactName: Option<Option<string>>,
    phone: Option<Option<string>>,
    email: Option<Option<string>>,
    website: Option<Option<string>>,
    address: Option<Option<string>>,
    contractAmount: Option<Option<Money>>,
    isBooked: Option<Option<bool>>,
    notes: Option<Option<string>>)

  const NoVendorChanges := VendorPatch(None, None, None, None, None, None, None, None, None, None)

  function VendorPatchOf(v: InsertVendor): VendorPatch
  {
    VendorPatch(Some(v.name), Some(v.category), Some(v.contactName), Some(v.phone), Some(v.email),
                Some(v.website), Some(v.address), Some(v.contractAmount), Some(v.isBooked), Some(v.notes))
  }

  function MergeVendor(v: InsertVendor, p: VendorPatch): InsertVendor
  {
    InsertVendor(Override(v.name, p.name), Override(v.category, p.category),
                 Override(v.contactName, p.contactName), Override(v.phone, p.phone),
                 Override(v.email, p.email), Override(v.website, p.website),
                 Override(v.address, p.address), Override(v.contractAmount, p.contractAmount),
                 Override(v.isBooked, p.isBooked), Override(v.notes, p.notes))
  }

  lemma MergeVendorLaws(v: InsertVendor, w: InsertVendor, p: VendorPatch)
    ensures MergeVendor(v, NoVendorChanges) == v
    ensures MergeVendor(v, VendorPatchOf(w)) == w
    ensures MergeVendor(MergeVendor(v, p), p) == MergeVendor(v, p)
  {
  }

  // ---------------------------------------------------------------- seating

  datatype InsertSeatingTable = InsertSeatingTable(
    tableNumber: int,
    capacity: int,
    positionX: Option<int>,
    positionY: Option<int>,
    shape: Option<string>)

  type SeatingTable = WithId<InsertSeatingTable>

  /** `shape` is not nullable, so a patch can only leave it out or set it. */
  datatype SeatingTablePatch = SeatingTablePatch(
    tableNumber: Option<int>,
    capacity: Option<int>,
    positionX: Option<Option<int>>,
    positionY: Option<Option<int>>,
    shape: Option<string>)

  const NoSeatingTableChanges := SeatingTablePatch(None, None, None, None, None)

  function SeatingTablePatchOf(t: InsertSeatingTable): SeatingTablePatch
  {
    SeatingTablePatch(Some(t.tableNumber), Some(t.capacity), Some(t.positionX), Some(t.positionY), t.shape)
  }

  function MergeSeatingTable(t: InsertSeatingTable, p: SeatingTablePatch): InsertSeatingTable
  {
    InsertSeatingTable(Override(t.tableNumber, p.tableNumber), Override(t.capacity, p.capacity),
                       Override(t.positionX, p.positionX), Override(t.positionY, p.positionY),
                       if p.shape.Some? then p.shape else t.shape)
  }

  lemma MergeSeatingTableLaws(t: InsertSeatingTable, u: InsertSeatingTable, p: SeatingTablePatch)
    ensures MergeSeatingTable(t, NoSeatingTableChanges) == t
    ensures u.shape.Some? ==> MergeSeatingTable(t, SeatingTablePatchOf(u)) == u
    ensures MergeSeatingTable(MergeSeatingTable(t, p), p) == MergeSeatingTable(t, p)
  {
  }

  // ---------------------------------------------------------------- wedding details

  /** All five fields are required. */
  datatype InsertWeddingDetails = InsertWeddingDetails(
    brideName: string,
    groomName: string,
    weddingDate: string,
    venue: string,
    totalBudget: Money)

  type WeddingDetails = WithId<InsertWeddingDetails>

  datatype WeddingDetailsPatch = WeddingDetailsPatch(
    brideName: Option<string>,
    groomName: Option<string>,
    weddingDate: Option<string>,
    venue: Option<string>,
    totalBudget: Option<Money>)

  const NoWeddingDetailsChanges := WeddingDetailsPatch(None, None, None, None, None)

  function WeddingDetailsPatchOf(d: InsertWeddingDetails): WeddingDetailsPatch
  {
    WeddingDetailsPatch(Some(d.brideName), Some(d.groomName), Some(d.weddingDate), Some(d.venue), Some(d.totalBudget))
  }

  function MergeWeddingDetails(d: InsertWeddingDetails, p: WeddingDetailsPatch): InsertWeddingDetails
  {
    InsertWeddingDetails(Override(d.brideName, p.brideName), Override(d.groomName, p.groomName),
                         Override(d.weddingDate, p.weddingDate), Override(d.venue, p.venue),
                         Override(d.totalBudget, p.totalBudget))
  }

  lemma MergeWeddingDetailsLaws(d: InsertWeddingDetails, e: InsertWeddingDetails, p: WeddingDetailsPatch)
    ensures MergeWeddingDetails(d, NoWeddingDetailsChanges) == d
    ensures MergeWeddingDetails(d, WeddingDetailsPatchOf(e)) == e
    ensures MergeWeddingDetails(MergeWeddingDetails(d, p), p) == MergeWeddingDetails(d, p)
  {
  }

  // ---------------------------------------------------------------- validation

  /** One entry of a `ZodError`'s `errors` list. */
  datatype Issue = Issue(path: string, message: string)

  /** The outcome of `schema.parse(body)`: the value, a `ZodError`, or some other exception. */
  datatype Parsed<T> = Ok(value: T) | ZodError(issues: seq<Issue>) | Threw

  /** A JSON value of a request body; numbers are integers here. */
  datatype Json = JNull | JBool(b: bool) | JNumber(n: int) | JString(s: string)

  function TypeName(j: Json): string
  {
    match j
    case JNull => "null"
    case JBool(_) => "boolean"
    case JNumber(_) => "number"
    case JString(_) => "string"
  }

  /** A JSON object; a key that is absent is an `undefined` field. */
  type JsonObject = map<string, Json>

  /** The check of one field: its value, or the issue reported for it. */
  datatype Checked<T> = Pass(value: T) | Fail(issue: Issue)

  /** A required, non-null integer column. */
  function RequiredNumber(body: JsonObject, field: string): (r: Checked<int>)
    ensures r.Pass? <==> field in body && body[field].JNumber?
  {
    if field !in body then Fail(Issue(field, "Required"))
    else match body[field]
      case JNumber(n) => Pass(n)
      case other => Fail(Issue(field, "Expected number, received " + TypeName(other)))
  }

  /** A nullable integer column: it may be left out or be `null`. */
  function NullableNumber(body: JsonObject, field: string): (r: Checked<Option<int>>)
    ensures r.Pass? <==> field !in body || body[field].JNull? || body[field].JNumber?
  {
    if field !in body then Pass(None)
    else match body[field]
      case JNull => Pass(None)
      case JNumber(n) => Pass(Some(n))
      case other => Fail(Issue(field, "Expected number, received " + TypeName(other)))
  }

  /** A non-null text column with a default: it may be left out but not be `null`. */
  function DefaultedString(body: JsonObject, field: string): (r: Checked<Option<string>>)
    ensures r.Pass? <==> field !in body || body[field].JString?
  {
    if field !in body then Pass(None)
    else match body[field]
      case JString(s) => Pass(Some(s))
      case other => Fail(Issue(field, "Expected string, received " + TypeName(other)))
  }

  function IssueOf<T>(c: Checked<T>): seq<Issue>
  {
    if c.Fail? then [c.issue] else []
  }

  /**
   * `insertSeatingTableSchema.parse(body)`: `tableNumber` and `capacity` must be
   * numbers, the positions numbers or null, the shape a string; every failing
   * field contributes one issue. Keys outside the schema are dropped.
   */
  function ParseNewSeatingTable(body: JsonObject): (r: Parsed<InsertSeatingTable>)
    ensures r.Ok? <==>
      "tableNumber" in body && body["tableNumber"].JNumber? &&
      "capacity" in body && body["capacity"].JNumber? &&
      ("positionX" !in body || body["positionX"].JNull? || body["positionX"].JNumber?) &&
      ("positionY" !in body || body["positionY"].JNull? || body["positionY"].JNumber?) &&
      ("shape" !in body || body["shape"].JString?)
    ensures r.Ok? ==> r.value.tableNumber == body["tableNumber"].n && r.value.capacity == body["capacity"].n
    ensures !r.Ok? ==> r.ZodError? && r.issues != []
  {
    var tn := RequiredNumber(body, "tableNumber");
    var cap := RequiredNumber(body, "capacity");
    var px := NullableNumber(body, "positionX");
    var py := NullableNumber(body, "positionY");
    var sh := DefaultedString(body, "shape");
    if tn.Pass? && cap.Pass? && px.Pass? && py.Pass? && sh.Pass? then
      Ok(InsertSeatingTable(tn.value, cap.value, px.value, py.value, sh.value))
    else
      ZodError(IssueOf(tn) + IssueOf(cap) + IssueOf(px) + IssueOf(py) + IssueOf(sh))
  }
}
