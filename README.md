# Fitness marketplace core, modelled in Dafny

The application is a single-page fitness marketplace with four roles: members, gym
owners, trainers and brands. This project models its core:

- the login form's `submit`, which builds a role-tagged profile (`role_auth.dfy`,
  module `RoleAuth`);
- the marketplace's case-insensitive search over three fixed catalogs, and the
  Gyms / Sports Centers tab split (`marketplace.dfy`, module `Marketplace`);
- the attendance ledger. This covers the record a confirmed scan creates, the owner
  and member views derived from the ledger (`ownerAttendance`,
  `todaysAttendanceCount`, `totalMembers`, `myLogs`) and the CSV export
  (`attendance.dfy`, module `Attendance`);
- the CSV encoding the export uses, with a decoder proved to be its inverse
  (`csv.dfy`, module `Csv`);
- the top-level component's state and the handlers that change it. The class
  `AppState` has one field per state variable and one method per handler
  (`app.dfy`, module `App`).

Two support modules hold the list and text operations the core uses:

- `collections.dfy`, module `Collections`: `filter`, order-preserving
  de-duplication, and subsequence.
- `text.dfy`, module `Text`: ASCII lower-casing, substring search, JavaScript's
  `trim`, and decimal rendering of the clock value used in identifiers.

The derived views are pure functions of the profile and the ledger, with their
properties proved as lemmas. The handlers are methods on `AppState`. Each method
states its whole new state as an update of a `Snapshot` of the old one, so the
contract also says that nothing else changes.

Browser storage is modelled as the field `stored`. Persistence is write-through:
`Valid()` says `stored` equals the in-memory ledger. It is the class invariant: the
constructor establishes it, and every handler that changes state requires it and
ensures it again. The export changes nothing.

Nondeterministic inputs become parameters of the handlers that use them:

- `now` stands for `Date.now()`;
- `timestamp` and `date` for ISO times;
- `chainHash` for the random hash;
- `dayOf` and `today` for calendar days;
- `input` for the staff name box's text.

Three facts about the code shape the model:

- A member's subscriptions are an ordered list without repeats.
  `Array.from(new Set([...]))` keeps first-occurrence order.
- The default gym association is seeded when the login form builds the profile.
  `onLogin` stores whatever profile it is given.
- The export joins records with a bare line feed. A field that contains a line feed
  stays inside its quotes, so the decoder reads it back intact.

## Model

| member | source | states |
|---|---|---|
| RoleAuth.Submit | src/components/RoleAuth.jsx:16-27 | Any submitted name/email/role gives a profile. Its id is `u_` followed by the clock value. An empty name becomes Guest and an empty email becomes guest@example.com. The role is kept. A Member's subscriptions are exactly the default gym and an Owner's gyms are exactly the default gym. Every other profile has empty lists, so no profile has both |
| RoleAuth.SubmitInitialForm | src/components/RoleAuth.jsx:12-24 | Submitting the untouched form logs in a member called Guest, with email guest@example.com, subscribed only to the default gym |
| Marketplace.SearchGymsSpec | src/components/Marketplace.jsx:25-30 | A gym is listed iff it is in the catalog and both its lower-cased name contains the lower-cased query and its lower-cased location contains the lower-cased location text. Results keep catalog order |
| Marketplace.SearchByNameSpec | src/components/Marketplace.jsx:32-38 | A trainer or product is listed iff its name matches the query, ignoring case. The location text plays no part, and results keep catalog order |
| Marketplace.EmptySearchShowsAll | src/components/Marketplace.jsx:21-38 | An empty query and an empty location (the initial state) show every gym, trainer and product |
| Marketplace.SearchIgnoresCase | src/components/Marketplace.jsx:25-38 | Queries and location texts that differ only in ASCII letter case give identical results in all three catalogs |
| Marketplace.NarrowerQueryFindsLess | src/components/Marketplace.jsx:25-38 | Extending the query can only remove results, never add or reorder them |
| Marketplace.TabsPartitionGyms | src/components/Marketplace.jsx:77-80 | The Gyms and Sports Centers tabs split the gym results by category. Each found gym appears on exactly one of them, with its multiplicity |
| Marketplace.InitialPage | src/components/Marketplace.jsx:4-38 | As the page opens, with both search boxes empty, the filtered lists are the full seed catalogs, and the initial Gyms tab shows the two seed gyms that are not sports centers |
| Attendance.ScanEntry | src/App.jsx:54-62 | A new record has id `a_` followed by the clock value. The user defaults to Guest when nobody is logged in or the logged-in name is empty. The role defaults to Member when nobody is logged in. The gym defaults to Pulse Arena Gym when none is selected. The timestamp and hash are taken as given |
| Attendance.OwnerAttendanceSpec | src/App.jsx:68-71 | Anyone who is not an owner sees nothing. An owner sees exactly the ledger records of the owner's gyms, in ledger order. A record added to the ledger heads the view exactly when it is at one of the owner's gyms, and otherwise leaves the view unchanged, so repeated records are counted as often as they occur |
| Attendance.TodaysAttendanceCountSpec | src/App.jsx:73-79 | Today's count never exceeds the owner's records. A newly added record adds one exactly when it falls on today's calendar day. With no record on that day the count is zero |
| Attendance.NoneOnDay | src/App.jsx:73-79 | Records from other calendar days never count toward today, however recent they are |
| Attendance.UsersSpec | src/App.jsx:144 | The members counted are exactly the names that occur in the owner's records, and there are never more of them than records |
| Attendance.MyLogsSpec | src/App.jsx:115-116 | A member's log holds exactly the ledger records that carry the member's name, in ledger order (most recent first). A new record under that name goes to its head, and one under another name leaves it unchanged |
| Attendance.AttendanceLogSpec | src/App.jsx:232-233 | The attendance page shows an owner the owner view itself (`ownerAttendance`), so it lists, in ledger order and as often as they occur, exactly the records of the owner's gyms. To anyone else logged in it lists exactly their own records, as many as their home page's Total Visits figure (src/App.jsx:116). With nobody logged in it lists nothing |
| Attendance.TwoMembersScenario | src/App.jsx:143-144 | An owner of one gym, with two members each visiting it once and another gym once, sees exactly the two owned-gym visits, from 2 members |
| Attendance.ExportCsvRoundTrip | src/App.jsx:81-86 | The exported text parses back to the six-column header followed by one row per ledger record, in ledger order, each field unaltered whatever quotes, commas or line feeds it contains |
| Attendance.FieldRowsSpec | src/App.jsx:84 | Row i of the mapped ledger is the six fields of record i |
| Attendance.CsvRowsSpec | src/App.jsx:82-85 | The rows to export are the header followed by one non-empty row per record, in ledger order |
| Csv.Escape | src/App.jsx:86 | The escaped cell is longer than the cell by exactly the number of double quotes in it, one added per quote |
| Csv.EscapePlain | src/App.jsx:86 | A cell without double quotes is written unchanged between the enclosing quotes |
| Csv.ParseFieldEscape | src/App.jsx:86 | Doubling every embedded quote is undone by the field reader, which stops exactly at the closing quote |
| Csv.UnquoteQuoteCell | src/App.jsx:86 | Removing the quoting from a written cell gives the original cell |
| Csv.ParseRecordEncode | src/App.jsx:86 | A comma-joined record of quoted cells reads back as exactly its cells and leaves the following text untouched |
| Csv.ParseEncode | src/App.jsx:86 | A file of at least one record, none of them empty, reads back as exactly its records, in order. The export always has the header record |
| Text.Lower | src/components/Marketplace.jsx:27 | Lower-casing keeps the length, folds each character on its own, and leaves no upper-case ASCII letter |
| Text.LowerIgnoresCase | src/components/Marketplace.jsx:27 | Strings equal up to ASCII case lower-case to the same string |
| Text.TrimSpec | src/App.jsx:177 | The trimmed name is the input with a run of whitespace cut from each end: it is a slice `s[k..m]` of the input, everything before `k` and from `m` on is whitespace, and it neither starts nor ends with whitespace. It is empty iff the input is all whitespace |
| Text.DecimalRoundTrip | src/App.jsx:56 | The decimal digits of the clock value read back as that value, so distinct clock values give distinct identifiers |
| Text.TrimBounds | src/App.jsx:177 | Gives the bounds `k` and `m` such that the trimmed text is `s[k..m]` with only whitespace outside them |
| App.ScanGym | src/App.jsx:42-52 | The scan dialog preselects a member's first subscription or an owner's first gym. Otherwise it preselects the default gym, and it never picks a gym outside the person's own list |
| App.ScanGymOfNewProfile | src/App.jsx:44-49 | For every profile the login form builds, the preselected gym is the default gym |
| App.SubscribeSpec | src/App.jsx:97-102 | Subscribing changes only the subscriptions. Afterwards they are exactly the old ones plus the gym, without repeats, with earlier subscriptions in their order and the gym appended only when new. Subscribing twice equals subscribing once |
| App.AppState.constructor | src/App.jsx:11-25 | The start state has nobody logged in, the home page, the dialog closed and no gym selected. The ledger is read back from storage (empty when nothing is saved), storage equals the ledger, no offers have been sent, there is one verified sub-admin and one seed booking |
| App.AppState.OnLogin | src/App.jsx:31-34 | Login replaces the session unconditionally and shows the home page. Nothing else changes |
| App.AppState.OnLogout | src/App.jsx:36-39 | Logout clears the session and shows the home page. Nothing else changes |
| App.AppState.Navigate | src/App.jsx:296 | The navigation bar changes only the current page |
| App.AppState.OpenScanModal | src/App.jsx:42-52 | With nobody logged in nothing changes. Otherwise the dialog opens with the preselected gym, and nothing else changes |
| App.AppState.SelectScanGym | src/App.jsx:351 | The gym selector changes only the selected gym |
| App.AppState.CloseScanModal | src/App.jsx:335 | Closing the dialog changes only its open flag |
| App.AppState.MarkAttendance | src/App.jsx:54-65 | Confirming a scan adds exactly one record at the front of the ledger and keeps every earlier record behind it. It writes the ledger through to storage, so storage equals the ledger, and closes the dialog. Nothing else changes |
| App.AppState.ExportAttendanceCsv | src/App.jsx:81-94 | The downloaded text parses back to exactly the header and the ledger's rows, one more row than there are records |
| App.AppState.HandleSubscribe | src/App.jsx:97-102 | Only a logged-in member's subscriptions change, as SubscribeSpec describes. For anyone else, or nobody, nothing changes |
| App.AppState.HandleBookTrainer | src/App.jsx:104-111 | Anyone logged in gets one new booking at the front, for the logged-in name and the trainer, with the earlier bookings kept and no duplicate check. With nobody logged in nothing changes |
| App.AppState.AddStaff | src/App.jsx:175-181 | A blank (all-whitespace) name changes nothing and leaves the input's text. Otherwise an unverified sub-admin with the trimmed name goes to the front, the input is cleared, and nothing else changes |
| App.AppState.SendOffer | src/App.jsx:162 | Sending an offer adds one to the offer count and changes nothing else |
| App.MemberVisitScenario | src/App.jsx:42-65 | Jordan logs in as a member and records one visit. Afterwards the ledger's only record is Jordan's, at the default gym. The attendance page lists exactly that ledger, and the Total Visits figure is 1 |
| App.BookTwiceScenario | src/App.jsx:104-111 | Booking the same trainer twice gives two identical separate bookings on top of the unchanged seed booking (Jordan with "You"), none merged or refused |

## Left out

- Rendering is not modelled. This covers the JSX, `StatCard`, `Table`, the table slices to 6 and 10 rows, and date formatting with `toLocaleString`. `src/components/Navbar.jsx` and `src/components/Modal.jsx` are not part of this model either; they only show and hide.
- Browser storage is modelled only as the field `stored` and the constructor's `saved` parameter. JSON encoding is not modelled. A stored value that fails to parse throws in the source, while the model only distinguishes "nothing saved" from a saved ledger.
- The Blob, object-URL and anchor-click download is left out. `ExportAttendanceCsv` returns the text that would be downloaded.
- `alert` confirmations and the brands' external links are left out.
- `Date.now()`, `new Date().toISOString()`, `toDateString()` and the `Math.random` hash are parameters, not computed. Nothing is assumed about them, so identifier uniqueness is not modelled: two records created with the same clock value share an id.
- Text.Lower: folds only the ASCII letters A-Z, whereas `toLowerCase` folds all of Unicode.
- Attendance.TodaysAttendanceCount: the local calendar day of a timestamp is the function parameter `dayOf`, so time zones and `Date` parsing are not modelled.
- Attendance.TodaysAttendanceCount: `today` is a free parameter. In the source the count is memoised on the owner's records alone (src/App.jsx:73-79), so "today" is the day of the last recomputation. Past midnight the figure stays stale until the ledger or the logged-in user changes. The model does not capture that memoisation.
- `document.getElementById` is not modelled. `AddStaff` receives the input's text and returns the text the input shows afterwards.
- The staff "verification toggle" is mentioned in the page text, but no handler implements it.
- The scan dialog's list of options (src/App.jsx:354-358) is rendering and is not modelled. The selected gym is whatever `SelectScanGym` last set.
- Marketplace.SearchGymsSpec: ratings are kept as whole tenths (4.7 as 47), because floating point is not modelled. Neither ratings nor prices take part in search.
- RoleAuth.Submit: a profile always has both lists, so the optional chaining on a missing `subscriptions` or `gyms` (`?.length`, `|| []`) has no counterpart.
- React's batching and re-rendering are not modelled: each handler is one atomic step on `AppState`.
- The profile page, the trainer and brand home pages, and the setup inputs that are "for display only" hold no logic and are not modelled.
