/** The appointment router: booking with its two guard checks, and the
    listing query with its optional bounds and its ordering by start time. */
module Appointments {
  import opened Common
  import opened Models

  /** `AppointmentCreate`: the request body of a booking. `price` is in cents. */
  datatype AppointmentCreate = AppointmentCreate(
    clientId: int, staffId: int, serviceName: string,
    startTime: int, endTime: int, notes: Option<string>, price: Option<int>)

  const EndNotAfterStart := "end_time must be after start_time"
  const InvalidIds := "Invalid client or staff id"

  predicate ClientExists(clients: seq<Client>, id: int) {
    exists i :: 0 <= i < |clients| && clients[i].id == id
  }

  predicate UserExists(users: seq<User>, id: int) {
    exists i :: 0 <= i < |users| && users[i].id == id
  }

  // ---- Building the row -------------------------------------------------

  /** The keyword arguments `appt.model_dump()` produces: every field of the
      request schema, `price` included, whether or not it was sent. */
  const DumpedFields: seq<string> :=
    ["client_id", "staff_id", "service_name", "start_time", "end_time", "notes", "price"]

  /** The attributes of the mapped `Appointment` class: its columns and its
      two relationships. */
  const RowAttributes: seq<string> :=
    ["id", "client_id", "staff_id", "service_name", "start_time", "end_time", "notes",
     "created_at", "client", "staff"]

  /** The fields of the request that have a column to go to. */
  const StoredFields: seq<string> :=
    ["client_id", "staff_id", "service_name", "start_time", "end_time", "notes"]

  /** The row a booking stores: every submitted field except `price`, the
      id the table assigns and the creation instant. */
  function RowFromCreate(appt: AppointmentCreate, id: int, now: int): AppointmentRow {
    AppointmentRow(id, appt.clientId, appt.staffId, appt.serviceName,
                   appt.startTime, appt.endTime, appt.notes, now)
  }

  /** The request a stored row came from, given the price that was dropped. */
  function CreateOf(row: AppointmentRow, price: Option<int>): AppointmentCreate {
    AppointmentCreate(row.clientId, row.staffId, row.serviceName,
                      row.startTime, row.endTime, row.notes, price)
  }

  /** Storing a request loses nothing but its price. */
  lemma RowFromCreateRoundTrip(appt: AppointmentCreate, id: int, now: int)
    ensures CreateOf(RowFromCreate(appt, id, now), appt.price) == appt
    ensures RowFromCreate(appt, id, now).id == id && RowFromCreate(appt, id, now).createdAt == now
  {
  }

  /** The declarative constructor `Appointment(**kwargs)`: a keyword that names
      no attribute of the class raises a TypeError; otherwise the row is built. */
  function Construct(kwargs: seq<string>, appt: AppointmentCreate, id: int, now: int): (r: Result<AppointmentRow, string>)
    ensures r.Failure? <==> exists i :: 0 <= i < |kwargs| && kwargs[i] !in RowAttributes
    ensures r.Success? ==> r.value == RowFromCreate(appt, id, now)
  {
    match FirstWhere(kwargs, (k: string) => k !in RowAttributes)
    case Some(k) => Failure("'" + k + "' is an invalid keyword argument for Appointment")
    case None => Success(RowFromCreate(appt, id, now))
  }

  /** As written, the booking passes every dumped field to the constructor,
      and `price` is not an attribute of the row class: no request can be
      stored. */
  lemma ConstructAsWrittenFails(appt: AppointmentCreate, id: int, now: int)
    ensures Construct(DumpedFields, appt, id, now).Failure?
  {
    assert DumpedFields[6] == "price" && "price" !in RowAttributes;
  }

  /** Passing only the fields that have columns builds the row, and the row
      keeps every submitted field except the price. */
  lemma ConstructStoredFields(appt: AppointmentCreate, id: int, now: int)
    ensures Construct(StoredFields, appt, id, now) == Success(RowFromCreate(appt, id, now))
    ensures CreateOf(Construct(StoredFields, appt, id, now).value, appt.price) == appt
  {
    assert StoredFields == RowAttributes[1..7];
    assert forall k :: k in RowAttributes[1..7] ==> k in RowAttributes;
    var r := Construct(StoredFields, appt, id, now);
    assert r.Success?;
    RowFromCreateRoundTrip(appt, id, now);
  }

  /** `models.Appointment(**fields)` with only the fields that have columns:
      it succeeds, and gives the row that keeps every submitted field but
      the price. */
  method ConstructStored(appt: AppointmentCreate, id: int, now: int) returns (row: AppointmentRow)
    ensures row == RowFromCreate(appt, id, now)
  {
    ConstructStoredFields(appt, id, now);
    var built := Construct(StoredFields, appt, id, now);
    row := built.value;
  }

  // ---- create_appointment ----------------------------------------------

  /** `create_appointment` with the row built from the fields that have
      columns (the corrected construction; see `ConstructAsWrittenFails` for
      the call as written): the time check first, then the client and staff
      lookups, then the insert. Nothing changes on a rejection; on success
      exactly one row carrying the submitted fields is appended. */
  method CreateAppointment(db: Database, appt: AppointmentCreate, now: int) returns (r: Result<AppointmentRow, HttpError>)
    requires db.Valid()
    modifies db
    ensures db.Valid()
    ensures db.users == old(db.users) && db.clients == old(db.clients)
    ensures appt.endTime <= appt.startTime ==> r == Failure(HttpError(400, EndNotAfterStart))
    ensures appt.startTime < appt.endTime
            && !(ClientExists(old(db.clients), appt.clientId) && UserExists(old(db.users), appt.staffId))
            ==> r == Failure(HttpError(400, InvalidIds))
    ensures r.Success? <==> appt.startTime < appt.endTime
                            && ClientExists(old(db.clients), appt.clientId) && UserExists(old(db.users), appt.staffId)
    ensures r.Failure? ==> db.appointments == old(db.appointments)
    ensures r.Success? ==>
              r.value == RowFromCreate(appt, NextId(AppointmentIds(old(db.appointments))), now)
              && db.appointments == old(db.appointments) + [r.value]
  {
    if appt.endTime <= appt.startTime {
      return Failure(HttpError(400, EndNotAfterStart));
    }
    var client := FirstWhere(db.clients, (c: Client) => c.id == appt.clientId);
    var staff := FirstWhere(db.users, (u: User) => u.id == appt.staffId);
    if client.None? || staff.None? {
      return Failure(HttpError(400, InvalidIds));
    }
    var id := NextId(AppointmentIds(db.appointments));
    var row := ConstructStored(appt, id, now);
    assert forall i :: 0 <= i < |db.appointments| ==> db.appointments[i].id == AppointmentIds(db.appointments)[i];
    db.appointments := db.appointments + [row];
    r := Success(row);
  }

  // ---- list_appointments -----------------------------------------------

  /** The optional bounds: `start_time >= start` and `end_time <= end`. */
  predicate InRange(row: AppointmentRow, start: Option<int>, end: Option<int>) {
    (start.None? || row.startTime >= start.value) && (end.None? || row.endTime <= end.value)
  }

  /** The rows the two `filter` calls keep, in table order. */
  function Matching(rows: seq<AppointmentRow>, start: Option<int>, end: Option<int>): (r: seq<AppointmentRow>)
    ensures forall x :: multiset(r)[x] == if InRange(x, start, end) then multiset(rows)[x] else 0
  {
    if rows == [] then []
    else
      var p, x := rows[..|rows| - 1], rows[|rows| - 1];
      assert rows == p + [x];
      Matching(p, start, end) + (if InRange(x, start, end) then [x] else [])
  }

  predicate SortedByStart(s: seq<AppointmentRow>) {
    forall i, j :: 0 <= i < j < |s| ==> s[i].startTime <= s[j].startTime
  }

  /** `x` placed before the first row that does not start earlier. */
  function InsertByStart(x: AppointmentRow, s: seq<AppointmentRow>): (r: seq<AppointmentRow>)
    ensures multiset(r) == multiset(s) + multiset{x}
  {
    if s == [] || x.startTime <= s[0].startTime then [x] + s
    else
      assert s == [s[0]] + s[1..];
      [s[0]] + InsertByStart(x, s[1..])
  }

  /** Inserting keeps a lower bound that `x` and every row of `s` meet. */
  lemma {:induction false} InsertByStartBound(x: AppointmentRow, s: seq<AppointmentRow>, b: int)
    requires b <= x.startTime
    requires forall j :: 0 <= j < |s| ==> b <= s[j].startTime
    ensures forall j :: 0 <= j < |InsertByStart(x, s)| ==> b <= InsertByStart(x, s)[j].startTime
  {
    if s != [] && s[0].startTime < x.startTime {
      InsertByStartBound(x, s[1..], b);
      var r := InsertByStart(x, s[1..]);
      assert InsertByStart(x, s) == [s[0]] + r;
    }
  }

  /** Inserting into a list ordered by start time keeps it ordered. */
  lemma {:induction false} InsertByStartSorted(x: AppointmentRow, s: seq<AppointmentRow>)
    requires SortedByStart(s)
    ensures SortedByStart(InsertByStart(x, s))
  {
    if s != [] && s[0].startTime < x.startTime {
      InsertByStartSorted(x, s[1..]);
      InsertByStartBound(x, s[1..], s[0].startTime);
      var r := InsertByStart(x, s[1..]);
      assert InsertByStart(x, s) == [s[0]] + r;
    }
  }

  /** `order_by(start_time.asc())`. */
  function SortByStart(s: seq<AppointmentRow>): (r: seq<AppointmentRow>)
    ensures multiset(r) == multiset(s)
    ensures SortedByStart(r)
  {
    if s == [] then []
    else
      assert s == [s[0]] + s[1..];
      var t := SortByStart(s[1..]);
      InsertByStartSorted(s[0], t);
      InsertByStart(s[0], t)
  }

  /** `list_appointments(start, end)`: exactly the stored rows within the
      bounds, each as often as it is stored, in ascending start order. */
  function ListAppointments(rows: seq<AppointmentRow>, start: Option<int>, end: Option<int>): (r: seq<AppointmentRow>)
    ensures SortedByStart(r)
    ensures forall x :: multiset(r)[x] == if InRange(x, start, end) then multiset(rows)[x] else 0
    ensures forall x :: x in r <==> x in rows && InRange(x, start, end)
  {
    SortByStart(Matching(rows, start, end))
  }

  /** Without bounds the listing is the whole table, reordered. */
  lemma ListWithoutBounds(rows: seq<AppointmentRow>)
    ensures multiset(ListAppointments(rows, None, None)) == multiset(rows)
  {
    var r := ListAppointments(rows, None, None);
    assert forall x :: multiset(r)[x] == multiset(rows)[x];
  }

  /** Listing the rows of a valid database returns only well-ordered rows. */
  lemma ListedRowsWellOrdered(rows: seq<AppointmentRow>, start: Option<int>, end: Option<int>)
    requires WellOrdered(rows)
    ensures WellOrdered(ListAppointments(rows, start, end))
  {
    var r := ListAppointments(rows, start, end);
    forall i | 0 <= i < |r|
      ensures r[i].startTime < r[i].endTime
    {
      assert r[i] in r;
      var j :| 0 <= j < |rows| && rows[j] == r[i];
    }
  }

  /** Narrowing the bounds never adds a row. */
  lemma ListMonotone(rows: seq<AppointmentRow>, start: Option<int>, end: Option<int>, start2: int, end2: int)
    requires start.None? || start.value <= start2
    requires end.None? || end2 <= end.value
    ensures multiset(ListAppointments(rows, Some(start2), Some(end2))) <= multiset(ListAppointments(rows, start, end))
  {
    var narrow, wide := ListAppointments(rows, Some(start2), Some(end2)), ListAppointments(rows, start, end);
    forall x
      ensures multiset(narrow)[x] <= multiset(wide)[x]
    {
      if InRange(x, Some(start2), Some(end2)) {
        assert InRange(x, start, end);
      }
    }
  }
}
