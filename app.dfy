/** The application's state and the handlers that change it. Each state variable of
    the top-level component is a field of `AppState`; each handler is a method that
    changes those fields in one step. The ledger is mirrored into browser storage
    after every change: `stored` is that mirror, and `Valid()` says it always equals
    the in-memory ledger. `Date.now()`, ISO timestamps, the random chain hash and the
    staff input box's text are parameters of the handlers. */
module App {
  import opened Collections
  import opened Text
  import opened RoleAuth
  import opened Attendance
  import Csv

  /** The four pages the navigation bar routes between. */
  datatype Page = Home | MarketplacePage | AttendancePage | ProfilePage

  /** A sub-admin of an owner; new ones start unverified. */
  datatype StaffEntry = StaffEntry(id: string, name: string, verified: bool)

  /** A session booked with a trainer. */
  datatype Booking = Booking(id: string, client: string, date: string, trainer: string)

  /** Every field of the state at once, so that a handler can say what it changes and
      that nothing else changes. */
  datatype Snapshot = Snapshot(
    currentUser: Option<User>,
    currentPage: Page,
    attendanceModalOpen: bool,
    selectedGymForScan: string,
    attendance: seq<AttendanceRecord>,
    stored: seq<AttendanceRecord>,
    ownerOffersSent: nat,
    ownerStaff: seq<StaffEntry>,
    trainerBookings: seq<Booking>)

  /** The gym the scan dialog preselects: a member's first subscription, an owner's first
      gym, and otherwise the default gym. */
  function ScanGym(u: User): (g: string)
    ensures u.role == Member && u.subscriptions != [] ==> g == u.subscriptions[0]
    ensures u.role == Owner && u.gyms != [] ==> g == u.gyms[0]
    ensures g == DefaultGym || (u.role == Member && g in u.subscriptions) || (u.role == Owner && g in u.gyms)
  {
    if u.role == Member && u.subscriptions != [] then u.subscriptions[0]
    else if u.role == Owner && u.gyms != [] then u.gyms[0]
    else DefaultGym
  }

  /** Every profile the login form builds preselects the default gym. */
  lemma ScanGymOfNewProfile(form: AuthForm, now: nat)
    ensures ScanGym(Submit(form, now)) == DefaultGym
  {
    var u := Submit(form, now);
    assert u.subscriptions != [] ==> u.subscriptions[0] in u.subscriptions + u.gyms;
    assert u.gyms != [] ==> u.gyms[0] in u.subscriptions + u.gyms;
  }

  /** The profile after subscribing to `gym`: `Array.from(new Set([...subscriptions, gym]))`. */
  function WithSubscription(u: User, gym: string): User {
    u.(subscriptions := Distinct(u.subscriptions + [gym]))
  }

  /** Subscribing puts the gym among the subscriptions, adds nothing else, leaves no
      repeated gym, keeps the earlier subscriptions in their order (appending the gym
      only when it is new), and doing it twice is the same as doing it once. */
  lemma SubscribeSpec(u: User, gym: string, x: string)
    ensures var v := WithSubscription(u, gym);
      v.(subscriptions := u.subscriptions) == u &&
      gym in v.subscriptions &&
      (x in v.subscriptions <==> x in u.subscriptions || x == gym) &&
      NoDuplicates(v.subscriptions)
    ensures NoDuplicates(u.subscriptions) ==>
      WithSubscription(u, gym).subscriptions ==
        if gym in u.subscriptions then u.subscriptions else u.subscriptions + [gym]
    ensures WithSubscription(WithSubscription(u, gym), gym) == WithSubscription(u, gym)
  {
    var once := Distinct(u.subscriptions + [gym]);
    DistinctMembership(u.subscriptions + [gym], x);
    DistinctMembership(u.subscriptions + [gym], gym);
    DistinctNoDuplicates(u.subscriptions + [gym]);
    DistinctSnoc(once, gym);
    DistinctOfNoDuplicates(once);
    if NoDuplicates(u.subscriptions) {
      DistinctOfNoDuplicates(u.subscriptions);
      DistinctSnoc(u.subscriptions, gym);
    }
  }

  class AppState {
    var currentUser: Option<User>
    var currentPage: Page
    var attendanceModalOpen: bool
    var selectedGymForScan: string
    var attendance: seq<AttendanceRecord>
    var stored: seq<AttendanceRecord>
    var ownerOffersSent: nat
    var ownerStaff: seq<StaffEntry>
    var trainerBookings: seq<Booking>

    /** The storage mirror is written through: it always holds the current ledger. */
    ghost predicate Valid()
      reads this
    {
      stored == attendance
    }

    ghost function State(): Snapshot
      reads this
    {
      Snapshot(currentUser, currentPage, attendanceModalOpen, selectedGymForScan, attendance,
               stored, ownerOffersSent, ownerStaff, trainerBookings)
    }

    /** The state when the application starts: nobody logged in, on the home page,
        the dialog closed, the ledger read back from storage (empty when nothing was
        saved), one verified sub-admin and one seed booking dated `date`. */
    constructor (saved: Option<seq<AttendanceRecord>>, date: string)
      ensures Valid()
      ensures currentUser == None && currentPage == Home
      ensures !attendanceModalOpen && selectedGymForScan == ""
      ensures attendance == if saved.Some? then saved.value else []
      ensures ownerOffersSent == 0
      ensures ownerStaff == [StaffEntry("s1", "Sam Manager", true)]
      ensures trainerBookings == [Booking("bk1", "Jordan", date, "You")]
    {
      currentUser := None;
      currentPage := Home;
      attendanceModalOpen := false;
      selectedGymForScan := "";
      attendance := if saved.Some? then saved.value else [];
      stored := attendance;
      ownerOffersSent := 0;
      ownerStaff := [StaffEntry("s1", "Sam Manager", true)];
      trainerBookings := [Booking("bk1", "Jordan", date, "You")];
    }

    /** Logging in replaces the session unconditionally and shows the home page. */
    method OnLogin(user: User)
      modifies this
      requires Valid()
      ensures Valid()
      ensures State() == old(State()).(currentUser := Some(user), currentPage := Home)
    {
      currentUser := Some(user);
      currentPage := Home;
    }

    /** Logging out clears the session and shows the home page. */
    method OnLogout()
      modifies this
      requires Valid()
      ensures Valid()
      ensures State() == old(State()).(currentUser := None, currentPage := Home)
    {
      currentUser := None;
      currentPage := Home;
    }

    /** The navigation bar switches pages. */
    method Navigate(page: Page)
      modifies this
      requires Valid()
      ensures Valid()
      ensures State() == old(State()).(currentPage := page)
    {
      currentPage := page;
    }

    /** Opening the scan dialog preselects a gym for the logged-in person; with nobody
        logged in nothing happens. */
    method OpenScanModal()
      modifies this
      requires Valid()
      ensures Valid()
      ensures old(currentUser).None? ==> State() == old(State())
      ensures old(currentUser).Some? ==>
        State() == old(State()).(selectedGymForScan := ScanGym(old(currentUser).value), attendanceModalOpen := true)
    {
      if currentUser.None? {
        return;
      }
      selectedGymForScan := ScanGym(currentUser.value);
      attendanceModalOpen := true;
    }

    /** The dialog's gym selector. */
    method SelectScanGym(gym: string)
      modifies this
      requires Valid()
      ensures Valid()
      ensures State() == old(State()).(selectedGymForScan := gym)
    {
      selectedGymForScan := gym;
    }

    /** The dialog's close button. */
    method CloseScanModal()
      modifies this
      requires Valid()
      ensures Valid()
      ensures State() == old(State()).(attendanceModalOpen := false)
    {
      attendanceModalOpen := false;
    }

    /** Confirming a scan puts one new record at the front of the ledger, keeps the
        earlier records behind it unchanged, writes the ledger through to storage and
        closes the dialog. */
    method MarkAttendance(now: nat, timestamp: string, chainHash: string)
      modifies this
      requires Valid()
      ensures Valid()
      ensures |attendance| == |old(attendance)| + 1
      ensures attendance[0] == ScanEntry(old(currentUser), old(selectedGymForScan), now, timestamp, chainHash)
      ensures attendance[1..] == old(attendance)
      ensures State() == old(State()).(attendance := attendance, stored := attendance, attendanceModalOpen := false)
    {
      var entry := ScanEntry(currentUser, selectedGymForScan, now, timestamp, chainHash);
      attendance := [entry] + attendance;
      stored := attendance;
      attendanceModalOpen := false;
    }

    /** The file the export button downloads: read back, it gives the fixed header and
        then every record of the ledger, field for field, in ledger order. */
    method ExportAttendanceCsv() returns (csv: string)
      ensures Csv.Parse(csv).Some?
      ensures Csv.Parse(csv).value == CsvRows(attendance)
      ensures |Csv.Parse(csv).value| == |attendance| + 1
    {
      csv := ExportCsv(attendance);
      CsvRowsSpec(attendance);
      Csv.ParseEncode(CsvRows(attendance));
    }

    /** Subscribing works only for a logged-in member, and then adds the gym to the
        member's subscriptions as a set would; otherwise nothing happens. */
    method HandleSubscribe(gymName: string)
      modifies this
      requires Valid()
      ensures Valid()
      ensures old(currentUser).None? || old(currentUser).value.role != Member ==> State() == old(State())
      ensures old(currentUser).Some? && old(currentUser).value.role == Member ==>
        State() == old(State()).(currentUser := Some(WithSubscription(old(currentUser).value, gymName)))
    {
      if currentUser.None? {
        return;
      }
      if currentUser.value.role != Member {
        return;
      }
      currentUser := Some(WithSubscription(currentUser.value, gymName));
    }

    /** Booking a trainer works for anyone logged in and always puts one new booking at
        the front, with no check for an existing one; with nobody logged in nothing happens. */
    method HandleBookTrainer(trainerName: string, now: nat, date: string)
      modifies this
      requires Valid()
      ensures Valid()
      ensures old(currentUser).None? ==> State() == old(State())
      ensures old(currentUser).Some? ==>
        |trainerBookings| == |old(trainerBookings)| + 1 &&
        trainerBookings[1..] == old(trainerBookings) &&
        trainerBookings[0] == Booking("bk_" + DecimalString(now), old(currentUser).value.name, date, trainerName) &&
        State() == old(State()).(trainerBookings := trainerBookings)
    {
      if currentUser.None? {
        return;
      }
      var booking := Booking("bk_" + DecimalString(now), currentUser.value.name, date, trainerName);
      trainerBookings := [booking] + trainerBookings;
    }

    /** The owner's "Add" button: the typed name is trimmed; a blank name is ignored and
        the input keeps its text, otherwise an unverified sub-admin with that name goes
        to the front of the list and the input is cleared. Returns the input's text
        afterwards. */
    method AddStaff(input: string, now: nat) returns (inputAfter: string)
      modifies this
      requires Valid()
      ensures Valid()
      ensures Trim(input) == "" ==> State() == old(State()) && inputAfter == input
      ensures Trim(input) != "" ==>
        ownerStaff == [StaffEntry("s_" + DecimalString(now), Trim(input), false)] + old(ownerStaff) &&
        State() == old(State()).(ownerStaff := ownerStaff) &&
        inputAfter == ""
    {
      var name := Trim(input);
      if name == "" {
        return input;
      }
      ownerStaff := [StaffEntry("s_" + DecimalString(now), name, false)] + ownerStaff;
      inputAfter := "";
    }

    /** The owner's "Send Offer" button counts one more offer. */
    method SendOffer()
      modifies this
      requires Valid()
      ensures Valid()
      ensures State() == old(State()).(ownerOffersSent := old(ownerOffersSent) + 1)
    {
      ownerOffersSent := ownerOffersSent + 1;
    }
  }

  // ---------------------------------------------------------------- scenarios

  /** A member called Jordan logs in and records one visit: the ledger then holds that
      one record, at the default gym, and it is all of Jordan's log; the home page counts
      one visit and the attendance page lists that record. */
  method MemberVisitScenario(now: nat, timestamp: string, chainHash: string)
    returns (ledger: seq<AttendanceRecord>, log: seq<AttendanceRecord>, visits: nat)
    ensures |ledger| == 1 && ledger[0].user == "Jordan" && ledger[0].gym == DefaultGym
    ensures log == ledger && visits == 1
  {
    var app := new AppState(None, timestamp);
    var jordan := Submit(AuthForm("Jordan", "jordan@example.com", Member), now);
    app.OnLogin(jordan);
    app.OpenScanModal();
    assert app.selectedGymForScan == DefaultGym;
    app.MarkAttendance(now, timestamp, chainHash);
    assert app.attendance == [app.attendance[0]];
    MyLogsSpec("Jordan", [], app.attendance[0], app.attendance[0]);
    ledger := app.attendance;
    log := AttendanceLog(app.currentUser, app.attendance);
    visits := TotalVisits("Jordan", app.attendance);
  }

  /** Booking the same trainer twice gives two separate bookings, neither merged nor
      refused. */
  method BookTwiceScenario(now: nat, date: string) returns (bookings: seq<Booking>)
    ensures |bookings| == 3
    ensures bookings[0] == bookings[1] && bookings[0].trainer == "Alex Strong" && bookings[0].client == "Jordan"
    ensures bookings[2] == Booking("bk1", "Jordan", date, "You")
  {
    var app := new AppState(None, date);
    app.OnLogin(Submit(AuthForm("Jordan", "", Member), now));
    app.HandleBookTrainer("Alex Strong", now, date);
    app.HandleBookTrainer("Alex Strong", now, date);
    bookings := app.trainerBookings;
  }
}
