/** The attendance ledger: the record a confirmed scan creates, the views the pages
    derive from the ledger and the logged-in profile, and the CSV export. Every view is
    a function of the profile and the ledger; the clock enters only as parameters
    (`now` for `Date.now()`, `timestamp` for the ISO time, `dayOf` and `today` for the
    local calendar-day strings). */
module Attendance {
  import opened Collections
  import opened Text
  import opened RoleAuth
  import Csv

  /** One visit; `role` is kept as text because the ledger is stored as JSON. */
  datatype AttendanceRecord = AttendanceRecord(
    id: string,
    user: string,
    role: string,
    gym: string,
    timestamp: string,
    chainHash: string)

  /** The record a confirmed scan adds: it names the logged-in person, or Guest when
      nobody is logged in, and the selected gym, or the default gym when none is
      selected. `chainHash` is the placeholder token drawn at random by the caller. */
  function ScanEntry(user: Option<User>, selectedGym: string, now: nat, timestamp: string, chainHash: string)
    : (a: AttendanceRecord)
    ensures a.id == "a_" + DecimalString(now)
    ensures a.user != "" && a.role != "" && a.gym != ""
    ensures user.None? ==> a.user == "Guest" && a.role == "Member"
    ensures user.Some? ==> a.role == RoleName(user.value.role)
    ensures user.Some? && user.value.name != "" ==> a.user == user.value.name
    ensures user.Some? && user.value.name == "" ==> a.user == "Guest"
    ensures selectedGym != "" ==> a.gym == selectedGym
    ensures selectedGym == "" ==> a.gym == DefaultGym
    ensures a.timestamp == timestamp && a.chainHash == chainHash
  {
    AttendanceRecord(
      "a_" + DecimalString(now),
      if user.Some? && user.value.name != "" then user.value.name else "Guest",
      if user.Some? then RoleName(user.value.role) else "Member",
      if selectedGym != "" then selectedGym else DefaultGym,
      timestamp,
      chainHash)
  }

  // ---------------------------------------------------------------- owner views

  /** `ownerAttendance`: for an owner, the records of the gyms the owner holds, in
      ledger order; for everyone else nothing. */
  function OwnerAttendance(user: Option<User>, ledger: seq<AttendanceRecord>): (r: seq<AttendanceRecord>)
    ensures |r| <= |ledger|
  {
    if user.None? || user.value.role != Owner then []
    else Filter(ledger, (a: AttendanceRecord) => a.gym in user.value.gyms)
  }

  /** `todaysAttendanceCount`: how many of `owned` fall on the calendar day `today`,
      `dayOf` giving the calendar day of a timestamp. */
  function TodaysAttendanceCount(owned: seq<AttendanceRecord>, dayOf: string -> string, today: string): nat {
    |Filter(owned, (a: AttendanceRecord) => dayOf(a.timestamp) == today)|
  }

  /** The distinct names among the records. */
  function Users(s: seq<AttendanceRecord>): (r: set<string>)
    ensures |r| <= |s|
  {
    if s == [] then {} else {s[0].user} + Users(s[1..])
  }

  /** `totalMembers`: how many different people the records are about. */
  function TotalMembers(owned: seq<AttendanceRecord>): nat {
    |Users(owned)|
  }

  // ---------------------------------------------------------------- member views

  /** `myLogs`: the records of the person called `name`, most recent first. */
  function MyLogs(name: string, ledger: seq<AttendanceRecord>): seq<AttendanceRecord> {
    Filter(ledger, (a: AttendanceRecord) => a.user == name)
  }

  /** The "Total Visits" figure of a member's home page. */
  function TotalVisits(name: string, ledger: seq<AttendanceRecord>): nat {
    |MyLogs(name, ledger)|
  }

  /** The log the attendance page lists: the owner view for an owner, the person's own
      records for anyone else, and nothing when nobody is logged in. */
  function AttendanceLog(user: Option<User>, ledger: seq<AttendanceRecord>): seq<AttendanceRecord> {
    if user.Some? && user.value.role == Owner then OwnerAttendance(user, ledger)
    else if user.Some? then MyLogs(user.value.name, ledger)
    else []
  }

  // ---------------------------------------------------------------- CSV export

  const CsvHeader: seq<string> := ["id", "user", "role", "gym", "timestamp", "chainHash"]

  function CsvFields(a: AttendanceRecord): seq<string> {
    [a.id, a.user, a.role, a.gym, a.timestamp, a.chainHash]
  }

  /** `attendance.map(toFields)`. */
  function FieldRows(ledger: seq<AttendanceRecord>): (rows: seq<seq<string>>)
    ensures |rows| == |ledger|
  {
    if ledger == [] then [] else [CsvFields(ledger[0])] + FieldRows(ledger[1..])
  }

  /** The header row followed by the rows of the records. */
  function CsvRows(ledger: seq<AttendanceRecord>): seq<seq<string>> {
    [CsvHeader] + FieldRows(ledger)
  }

  /** The text of the exported file: the whole ledger, whoever asks for it. */
  function ExportCsv(ledger: seq<AttendanceRecord>): string {
    Csv.Encode(CsvRows(ledger))
  }

  // ---------------------------------------------------------------- properties

  /** The owner view is empty for anyone who is not an owner; for an owner it holds
      exactly the ledger records of the owner's gyms, in ledger order, and a record
      added to the ledger heads the view exactly when it is at one of those gyms. */
  lemma OwnerAttendanceSpec(user: Option<User>, ledger: seq<AttendanceRecord>, a: AttendanceRecord, b: AttendanceRecord)
    ensures (user.None? || user.value.role != Owner) ==> OwnerAttendance(user, ledger) == []
    ensures user.Some? && user.value.role == Owner ==>
      (a in OwnerAttendance(user, ledger) <==> a in ledger && a.gym in user.value.gyms)
    ensures IsSubsequence(OwnerAttendance(user, ledger), ledger)
    ensures user.Some? && user.value.role == Owner ==>
      OwnerAttendance(user, [b] + ledger) ==
        (if b.gym in user.value.gyms then [b] else []) + OwnerAttendance(user, ledger)
  {
    assert ([b] + ledger)[1..] == ledger;
    if user.Some? && user.value.role == Owner {
      FilterMembership(ledger, (a: AttendanceRecord) => a.gym in user.value.gyms, a);
      FilterIsSubsequence(ledger, (a: AttendanceRecord) => a.gym in user.value.gyms);
    }
  }

  /** Today's count is at most the number of owner records, counts a newly added record
      exactly when it falls on `today`, and is zero when no record falls on `today`
      (a record from another calendar day never counts, however recent). */
  lemma {:induction false} TodaysAttendanceCountSpec(a: AttendanceRecord, owned: seq<AttendanceRecord>,
                                                    dayOf: string -> string, today: string)
    ensures TodaysAttendanceCount(owned, dayOf, today) <= |owned|
    ensures TodaysAttendanceCount([a] + owned, dayOf, today) ==
      TodaysAttendanceCount(owned, dayOf, today) + (if dayOf(a.timestamp) == today then 1 else 0)
    ensures (forall i :: 0 <= i < |owned| ==> dayOf(owned[i].timestamp) != today) ==>
      TodaysAttendanceCount(owned, dayOf, today) == 0
  {
    assert ([a] + owned)[1..] == owned;
    if forall i :: 0 <= i < |owned| ==> dayOf(owned[i].timestamp) != today {
      NoneOnDay(owned, dayOf, today);
    }
  }

  lemma {:induction false} NoneOnDay(owned: seq<AttendanceRecord>, dayOf: string -> string, today: string)
    requires forall i :: 0 <= i < |owned| ==> dayOf(owned[i].timestamp) != today
    ensures TodaysAttendanceCount(owned, dayOf, today) == 0
  {
    if owned != [] {
      NoneOnDay(owned[1..], dayOf, today);
    }
  }

  /** The people counted by `totalMembers` are exactly the names that occur in the
      records, and there are never more of them than records. */
  lemma {:induction false} UsersSpec(s: seq<AttendanceRecord>, name: string)
    ensures name in Users(s) <==> exists i :: 0 <= i < |s| && s[i].user == name
    ensures TotalMembers(s) <= |s|
  {
    if s != [] {
      UsersSpec(s[1..], name);
      if name in Users(s[1..]) {
        var i :| 0 <= i < |s[1..]| && s[1..][i].user == name;
        assert s[i + 1].user == name;
      }
      if exists i :: 0 <= i < |s| && s[i].user == name {
        var i :| 0 <= i < |s| && s[i].user == name;
        if i > 0 {
          assert s[1..][i - 1].user == name;
        }
      }
    }
  }

  /** A member's own log holds exactly the ledger records that carry the member's name,
      in ledger order, and adding a record under that name puts it at the head of the log. */
  lemma MyLogsSpec(name: string, ledger: seq<AttendanceRecord>, a: AttendanceRecord, b: AttendanceRecord)
    ensures a in MyLogs(name, ledger) <==> a in ledger && a.user == name
    ensures IsSubsequence(MyLogs(name, ledger), ledger)
    ensures b.user == name ==> MyLogs(name, [b] + ledger) == [b] + MyLogs(name, ledger)
    ensures b.user != name ==> MyLogs(name, [b] + ledger) == MyLogs(name, ledger)
  {
    FilterMembership(ledger, (a: AttendanceRecord) => a.user == name, a);
    FilterIsSubsequence(ledger, (a: AttendanceRecord) => a.user == name);
    assert ([b] + ledger)[1..] == ledger;
  }

  /** The attendance page lists, in ledger order, the records of the owner's gyms to
      an owner and the person's own records to anyone else logged in; for someone who
      is not an owner, its length is the "Total Visits" figure of their home page. */
  lemma AttendanceLogSpec(user: Option<User>, ledger: seq<AttendanceRecord>, a: AttendanceRecord)
    ensures IsSubsequence(AttendanceLog(user, ledger), ledger)
    ensures user.Some? && user.value.role == Owner ==>
      AttendanceLog(user, ledger) == OwnerAttendance(user, ledger) &&
      (a in AttendanceLog(user, ledger) <==> a in ledger && a.gym in user.value.gyms)
    ensures user.Some? && user.value.role != Owner ==>
      (a in AttendanceLog(user, ledger) <==> a in ledger && a.user == user.value.name) &&
      |AttendanceLog(user, ledger)| == TotalVisits(user.value.name, ledger)
    ensures user.None? ==> AttendanceLog(user, ledger) == []
  {
    if user.Some? && user.value.role == Owner {
      OwnerAttendanceSpec(user, ledger, a, a);
    } else if user.Some? {
      MyLogsSpec(user.value.name, ledger, a, a);
    }
  }

  /** Two members visit the one owned gym once each and another gym once each: the owner
      sees the two owned-gym visits, from two members. */
  lemma TwoMembersScenario(owner: User, m1: string, m2: string, owned: string, other: string,
                           r1: AttendanceRecord, r2: AttendanceRecord, r3: AttendanceRecord, r4: AttendanceRecord)
    requires owner.role == Owner && owner.gyms == [owned] && other != owned && m1 != m2
    requires r1.user == m1 && r1.gym == owned && r2.user == m1 && r2.gym == other
    requires r3.user == m2 && r3.gym == owned && r4.user == m2 && r4.gym == other
    ensures OwnerAttendance(Some(owner), [r1, r2, r3, r4]) == [r1, r3]
    ensures TotalMembers(OwnerAttendance(Some(owner), [r1, r2, r3, r4])) == 2
  {
    var p := (a: AttendanceRecord) => a.gym in owner.gyms;
    var ledger := [r1, r2, r3, r4];
    assert ledger[1..] == [r2, r3, r4] && ledger[1..][1..] == [r3, r4];
    assert ledger[1..][1..][1..] == [r4] && [r4][1..] == [];
    assert Filter([r4], p) == [];
    assert Filter([r3, r4], p) == [r3];
    assert Filter(ledger, p) == [r1, r3];
    assert [r1, r3][1..] == [r3] && [r3][1..] == [];
    assert Users([r1, r3]) == {m1, m2};
  }

  /** The exported file reads back as the fixed six-column header followed by one row
      per ledger record, in ledger order, each row holding that record's fields
      unaltered, whatever quotes, commas or line breaks the fields contain. */
  lemma ExportCsvRoundTrip(ledger: seq<AttendanceRecord>)
    ensures Csv.Parse(ExportCsv(ledger)).Some?
    ensures |Csv.Parse(ExportCsv(ledger)).value| == |ledger| + 1
    ensures Csv.Parse(ExportCsv(ledger)).value[0] == CsvHeader
    ensures forall i :: 0 <= i < |ledger| ==> Csv.Parse(ExportCsv(ledger)).value[i + 1] == CsvFields(ledger[i])
  {
    CsvRowsSpec(ledger);
    Csv.ParseEncode(CsvRows(ledger));
  }

  lemma {:induction false} FieldRowsSpec(ledger: seq<AttendanceRecord>)
    ensures forall i :: 0 <= i < |ledger| ==> FieldRows(ledger)[i] == CsvFields(ledger[i])
  {
    if ledger != [] {
      FieldRowsSpec(ledger[1..]);
    }
  }

  lemma CsvRowsSpec(ledger: seq<AttendanceRecord>)
    ensures |CsvRows(ledger)| == |ledger| + 1
    ensures CsvRows(ledger)[0] == CsvHeader
    ensures forall i :: 0 <= i < |ledger| ==> CsvRows(ledger)[i + 1] == CsvFields(ledger[i])
    ensures forall i :: 0 <= i < |CsvRows(ledger)| ==> CsvRows(ledger)[i] != []
  {
    FieldRowsSpec(ledger);
  }
}
