/** The backend's tables as in-memory sequences of rows, and the HTTP error
    the routers raise. Instants (`datetime` values) are whole microseconds on
    a common time line; intervals (`timedelta` values) are microseconds too. */
module Models {
  import opened Common

  /** `RoleEnum`: the value a user's role column holds. */
  datatype Role = Owner | Staff

  function RoleName(r: Role): (s: string)
    ensures s == "owner" <==> r == Owner
    ensures s == "staff" <==> r == Staff
  {
    match r
    case Owner => "owner"
    case Staff => "staff"
  }

  datatype User = User(id: int, email: string, name: string, role: Role, passwordHash: string)

  datatype Client = Client(id: int, firstName: string, lastName: string, phone: Option<string>, email: Option<string>)

  /** A row of the appointments table. It has no price column. */
  datatype AppointmentRow = AppointmentRow(
    id: int, clientId: int, staffId: int, serviceName: string,
    startTime: int, endTime: int, notes: Option<string>, createdAt: int)

  /** `HTTPException(status_code, detail)`. */
  datatype HttpError = HttpError(status: int, detail: string)

  /** The id a new row receives: one above the largest id in the table, 1 in
      an empty table. */
  function NextId(ids: seq<int>): (r: int)
    ensures r >= 1
    ensures forall i :: 0 <= i < |ids| ==> ids[i] < r
  {
    if ids == [] then 1
    else
      var rest := NextId(ids[..|ids| - 1]);
      if ids[|ids| - 1] >= rest then ids[|ids| - 1] + 1 else rest
  }

  function UserIds(users: seq<User>): seq<int> {
    seq(|users|, i requires 0 <= i < |users| => users[i].id)
  }

  function AppointmentIds(rows: seq<AppointmentRow>): seq<int> {
    seq(|rows|, i requires 0 <= i < |rows| => rows[i].id)
  }

  /** The unique constraint on `users.email`. */
  predicate EmailsUnique(users: seq<User>) {
    forall i, j :: 0 <= i < j < |users| ==> users[i].email != users[j].email
  }

  predicate UserIdsUnique(users: seq<User>) {
    forall i, j :: 0 <= i < j < |users| ==> users[i].id != users[j].id
  }

  predicate AppointmentIdsUnique(rows: seq<AppointmentRow>) {
    forall i, j :: 0 <= i < j < |rows| ==> rows[i].id != rows[j].id
  }

  /** Every stored appointment ends after it starts. */
  predicate WellOrdered(rows: seq<AppointmentRow>) {
    forall i :: 0 <= i < |rows| ==> rows[i].startTime < rows[i].endTime
  }

  /** The database session's view of the three tables. */
  class Database {
    var users: seq<User>
    var clients: seq<Client>
    var appointments: seq<AppointmentRow>

    predicate Valid()
      reads this
    {
      EmailsUnique(users) && UserIdsUnique(users)
      && AppointmentIdsUnique(appointments) && WellOrdered(appointments)
    }

    /** A database with empty tables. */
    constructor Empty()
      ensures Valid()
      ensures users == [] && clients == [] && appointments == []
    {
      users, clients, appointments := [], [], [];
    }
  }
}
