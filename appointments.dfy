/** The appointment calendar of `src/pages/Appointments.tsx`: a fixed grid of 35
    cells numbered 1..31 and round again, each listing the appointments of its day
    of the month, and a sidebar with the first three appointments. The day of the
    month of a date (`new Date(date).getDate()`, which depends on the time zone) is
    a parameter; `None` stands for an invalid date. */
module AppointmentsPage {
  import opened Wrappers
  import opened Seqs
  import opened Records

  /** The weekday header row. */
  function WeekdayHeaders(): (r: seq<string>)
    ensures |r| == 7 && Distinct(r)
    ensures r[0] == "Sun" && r[6] == "Sat"
  {
    ["Sun", "Mon", "Tue", "Wed", "Thu", "Fri", "Sat"]
  }

  const CellCount: nat := 35

  /** The number cell `i` shows. */
  function DayNumber(i: nat): (r: int)
    ensures 1 <= r <= 31
    ensures i < 31 ==> r == i + 1
    ensures 31 <= i < 62 ==> r == i - 30
  {
    (i % 31) + 1
  }

  /** The numbers of the whole grid. */
  function DayNumbers(): (r: seq<int>)
    ensures |r| == CellCount
    ensures forall i :: 0 <= i < |r| ==> r[i] == DayNumber(i)
  {
    seq(CellCount, i requires 0 <= i < CellCount => DayNumber(i))
  }

  /** Cells 0..30 show 1..31, each day once; two cells show the same day only when
      they are 31 apart, which happens for days 1 to 4 alone. */
  lemma DayNumbersCoverMonth()
    ensures forall i :: 0 <= i < 31 ==> DayNumbers()[i] == i + 1
    ensures forall i, j :: 0 <= i < j < CellCount && DayNumbers()[i] == DayNumbers()[j] ==> j == i + 31 && DayNumbers()[i] <= 4
  {
  }

  function OnDay(dayOf: string -> Option<int>, dayNum: int): Appointment -> bool {
    (a: Appointment) => dayOf(a.date) == Some(dayNum)
  }

  /** The appointments a cell lists: those whose date falls on its day of the month,
      in list order. */
  function CellAppointments(apps: seq<Appointment>, dayOf: string -> Option<int>, cell: nat): (r: seq<Appointment>)
    ensures forall k :: 0 <= k < |r| ==> dayOf(r[k].date) == Some(DayNumber(cell)) && r[k] in apps
    ensures forall k :: 0 <= k < |apps| && dayOf(apps[k].date) == Some(DayNumber(cell)) ==> apps[k] in r
    ensures multiset(r) <= multiset(apps)
  {
    Filter(apps, OnDay(dayOf, DayNumber(cell)))
  }

  /** A cell takes the appointments one by one, so it keeps their order. */
  lemma CellAppointmentsAppend(a: seq<Appointment>, b: seq<Appointment>, dayOf: string -> Option<int>, cell: nat)
    ensures CellAppointments(a + b, dayOf, cell) == CellAppointments(a, dayOf, cell) + CellAppointments(b, dayOf, cell)
  {
    FilterAppend(a, b, OnDay(dayOf, DayNumber(cell)));
  }

  /** `hasApp`: some appointment falls on the cell's day. */
  predicate HasApp(apps: seq<Appointment>, dayOf: string -> Option<int>, cell: nat) {
    exists k :: 0 <= k < |apps| && dayOf(apps[k].date) == Some(DayNumber(cell))
  }

  /** A cell shows its list exactly when the list is not empty. */
  lemma HasAppIffListed(apps: seq<Appointment>, dayOf: string -> Option<int>, cell: nat)
    ensures HasApp(apps, dayOf, cell) <==> CellAppointments(apps, dayOf, cell) != []
  {
    var r := CellAppointments(apps, dayOf, cell);
    if r != [] {
      assert r[0] in apps;
      var k :| 0 <= k < |apps| && apps[k] == r[0];
    }
  }

  /** Every appointment on a valid day of the month is listed in that day's first cell. */
  lemma AppointmentListedOnItsDay(apps: seq<Appointment>, dayOf: string -> Option<int>, k: nat)
    requires k < |apps|
    requires dayOf(apps[k].date).Some? && 1 <= dayOf(apps[k].date).value <= 31
    ensures apps[k] in CellAppointments(apps, dayOf, dayOf(apps[k].date).value - 1)
  {
  }

  /** An appointment with an invalid date, or one outside 1..31, is in no cell. */
  lemma UnplacedAppointmentInNoCell(apps: seq<Appointment>, dayOf: string -> Option<int>, a: Appointment, cell: nat)
    requires dayOf(a.date).None? || !(1 <= dayOf(a.date).value <= 31)
    ensures a !in CellAppointments(apps, dayOf, cell)
  {
  }

  /** The cells of the repeated days list the same appointments. */
  lemma RepeatedCellsAgree(apps: seq<Appointment>, dayOf: string -> Option<int>, cell: nat)
    requires 31 <= cell < CellCount
    ensures CellAppointments(apps, dayOf, cell) == CellAppointments(apps, dayOf, cell - 31)
  {
    assert DayNumber(cell) == DayNumber(cell - 31);
  }

  /** The sidebar: the first three appointments. */
  function Sidebar(apps: seq<Appointment>): (r: seq<Appointment>)
    ensures |r| <= 3 && r <= apps
    ensures |apps| >= 3 ==> |r| == 3
    ensures |apps| < 3 ==> r == apps
  {
    Take(apps, 3)
  }

  /** "No sessions today." is shown when there are no appointments. */
  predicate ShowsEmptyMessage(apps: seq<Appointment>) {
    |apps| == 0
  }

  /** The empty message shows exactly when the sidebar lists nothing. */
  lemma EmptyMessageIffEmptySidebar(apps: seq<Appointment>)
    ensures ShowsEmptyMessage(apps) <==> Sidebar(apps) == []
  {
  }
}
