# SRMS backend in Dafny

A model of the in-memory backend of the Student Record Management System (SRMS). The backend owns two process-wide stores:

- the **student directory**: an insertion-ordered list of student records. Rolls are not required to be unique. Update, delete and lookup by roll act on the first matching record. Lookup by name either finds the first exact match or adds a name-only record, whose roll is 1 in an empty directory and otherwise the last record's roll plus one.
- the **query ledger**: an append-only list of queries, numbered by a counter that starts at 1. Only accepted submissions advance the counter, and every new query is "Pending".

Modules:

- `Records` (records.dfy): the `Student` and `Query` records, the listing shapes, and the CGPA standing (`Status`). `Status` is checked against an independent "band" definition: how many of the thresholds 5, 6, 7, 8 a value reaches.
- `Directory` (directory.dfy): first-match search (`FirstMatch`) as a recursive function on `seq<Student>`. It takes the per-record test as a parameter: `RollIs` for the lookups by roll, `NameIs` for the exact name comparison. Lemmas cover append, delete and the automatic roll.
- `Ledger` (ledger.dfy): the ledger as a value (`LedgerState`), one submission (`Submit`), a run of submissions (`SubmitAll`), and the numbering invariant (`Numbered`).
- `Srms` (backend.dfy): `class Backend`, with fields `students`, `queries` and `nextQueryId` and one method per backend entry point. Each method's loop follows the source's scan. The directory methods (`AddStudent`, `UpdateStudent`, `DeleteStudent`, `AddStudentNameOnly`, `SearchNameOrAdd`, `GetStudentByRoll`) are proved against `Directory.FirstMatch`, `AcceptsStudent`, `NextAutoRoll` and `NameOnlyRecord`. `AddQuery` is proved equal to `Ledger.Submit`, and the constructor starts at `Ledger.Empty`. Every state-changing method requires and keeps the ledger numbering (`Valid`). The listings `GetAllStudents` and `GetAllQueries` are proved against `Records.Status` and the `Listing` shapes.
- `Scenarios` (scenarios.dfy): end-to-end client methods. Each builds a new `Backend` and proves the expected outcomes from the method contracts alone: insert then list then delete; search for a name twice; duplicate rolls; query numbering with a rejected submission in between.

Rolls are never checked for duplicates (SRMS/srms_gui.cpp:50-61), so the model allows them. As a result, "insert, then look up by roll, finds the new record" holds only when the roll was not already present (`Directory.LookupAfterInsert`). Otherwise the earlier record shadows the new one (`Directory.InsertDuplicateIsShadowed`).

## Model

| member | source | states |
|---|---|---|
| `Records.CountReached` | SRMS/srms_gui.cpp:157-161 | the number of thresholds reached is at most the number of thresholds, and is 0 exactly when the value is below every threshold |
| `Records.Band` | SRMS/srms_gui.cpp:157-161 | the band is always a valid index into the five labels |
| `Records.StatusIsLabelOfBand` | SRMS/srms_gui.cpp:157-161 | the high-to-low if-chain gives the label of the band the CGPA reaches (the independent reference definition) |
| `Records.CountReachedMonotone` | SRMS/srms_gui.cpp:157-161 | a larger value reaches at least as many thresholds |
| `Records.StatusMonotone` | SRMS/srms_gui.cpp:157-161 | a higher CGPA never gets a lower standing |
| `Records.StatusBoundaries` | SRMS/srms_gui.cpp:157-161 | 8, 7, 6 and 5 open Excellent, Very Good, Good and Average; 7.999, 6.999, 5.999 and 4.999 fall in the band below |
| `Directory.FirstMatch` | SRMS/srms_gui.cpp:72-73 | the result is the position of a record that passes the test (same roll, or for `NameIs` the exact same name, as at lines 113-114), and no earlier record passes it; nothing is returned exactly when no record passes |
| `Directory.FirstMatchAt` | SRMS/srms_gui.cpp:87-91 | a passing position with no passing record before it is the first match, which is where each early-return scan stops |
| `Directory.FirstMatchAppend` | SRMS/srms_gui.cpp:61 | appending (here and at line 107) keeps an existing first match; otherwise the new record becomes the first match if it passes the test |
| `Directory.LookupAfterInsert` | SRMS/srms_gui.cpp:44-62 | after inserting under a roll not yet present, lookup by that roll finds exactly the inserted record |
| `Directory.InsertDuplicateIsShadowed` | SRMS/srms_gui.cpp:50-61 | inserting under a roll already present is accepted but invisible to lookup by that roll |
| `Directory.FirstMatchBehind` | SRMS/srms_gui.cpp:87-91 | behind a prefix with no match, the first match is the suffix's first match, shifted by the prefix length |
| `Directory.NoMatchBeforeFirst` | SRMS/srms_gui.cpp:87-91 | the records before the first match contain no match |
| `Directory.DeleteExposesNextDuplicate` | SRMS/srms_gui.cpp:86-94 | after deleting the first match, the next record with that roll, if any, becomes the first match |
| `Directory.AutoRollFreshWhileAscending` | SRMS/srms_gui.cpp:97 | while rolls strictly increase, the automatic roll is not yet taken and keeps them increasing |
| `Directory.AutoRollCanCollide` | SRMS/srms_gui.cpp:97 | there is a directory whose automatic roll is fresh, but after deleting its last record the automatic roll repeats an existing roll |
| `Ledger.EmptyNumbered` | SRMS/srms_gui.cpp:37-38 | the initial ledger (no queries, counter 1) satisfies the numbering invariant |
| `Ledger.SubmitKeepsNumbered` | SRMS/srms_gui.cpp:176-191 | a submission keeps ids equal to 1..n with the counter at n+1; an accepted one gets id n+1 and status Pending; a rejected one changes nothing and returns -1 |
| `Ledger.NumberedIdsIncrease` | SRMS/srms_gui.cpp:183 | in a numbered ledger ids strictly increase in insertion order and lie between 1 and the counter |
| `Ledger.SubmitAllNumbersConsecutively` | SRMS/srms_gui.cpp:176-191 | over any run of submissions, -1 is returned exactly for the rejected ones; the accepted ones get consecutive ids from the counter's starting value; earlier queries stay as a prefix |
| `Srms.Backend.constructor` | SRMS/srms_gui.cpp:36-38 | both stores start empty, the ledger is `Ledger.Empty` (counter at 1), and the numbering invariant holds |
| `Srms.Backend.AddStudent` | SRMS/srms_gui.cpp:44-62 | succeeds exactly when roll > 0 and name and department are non-empty; then appends one record with the given fields at the end; otherwise the directory is unchanged |
| `Srms.Backend.UpdateStudent` | SRMS/srms_gui.cpp:66-83 | succeeds exactly when some record has the roll; overwrites name, dept, sem, cgpa and grade of the first such record, keeps its roll, and leaves the length and every other record unchanged; otherwise nothing changes |
| `Srms.Backend.DeleteStudent` | SRMS/srms_gui.cpp:86-94 | succeeds exactly when some record has the roll; removes exactly the first such record, so the length drops by one and the rest keep their order; otherwise nothing changes |
| `Srms.Backend.AddStudentNameOnly` | SRMS/srms_gui.cpp:96-109 | appends a record with roll 1 (empty directory) or last roll + 1, the given name, dept "N/A", sem 0, cgpa 0 and grade '-', and returns that roll |
| `Srms.Backend.SearchNameOrAdd` | SRMS/srms_gui.cpp:111-120 | with a name match: returns the first match's roll, wasAdded false, directory unchanged; without one: adds the name-only record and returns its roll with wasAdded true; afterwards the first record with that name carries the returned roll, so a repeat call returns the same roll without adding |
| `Srms.Backend.GetStudentByRoll` | SRMS/srms_gui.cpp:122-136 | returns nothing exactly when no record has the roll (the source's "Student not found."); otherwise returns the first record with that roll |
| `Srms.Backend.GetAllStudents` | SRMS/srms_gui.cpp:138-174 | the student column headings, then the placeholder for an empty directory, or one row per record in insertion order carrying the record and its standing |
| `Srms.Backend.AddQuery` | SRMS/srms_gui.cpp:176-191 | equals one `Submit` on the ledger and keeps the numbering invariant; if roll > 0 and name and message are non-empty, returns the old counter, advances it by one and appends a Pending query with that id; otherwise returns -1 and changes neither the ledger nor the counter |
| `Srms.Backend.GetAllQueries` | SRMS/srms_gui.cpp:193-217 | the query column headings, then the placeholder for an empty ledger, or every query in insertion order |

## Left out

- The Win32 user interface: windows, controls, message dispatch, brushes, fonts, message boxes, the login dialog and the header gradient. It is presentation code over a foreign API.
- Reading and converting the input fields (text retrieval, `atoi`, `atof`). These are library calls outside the backend.
- Text rendering of the listings and of one record: fixed-width columns, the divider line, line endings and float printing. The listings are modelled as column headings plus rows or a placeholder line, and a record lookup as an optional record: `None` stands where the source returns the text "Student not found.".
- `backend_init`: its body is empty.
- IEEE single-precision `cgpa`: modelled as a `real`. Rounding of float inputs near a threshold is not captured.
- `int` overflow: rolls, semesters, ids and the counter are unbounded integers. `back().roll + 1` and `gNextQueryId++` cannot overflow in the model. The source does not guard either one.
- Process-wide globals: the stores are fields of one `Backend` object instead.
