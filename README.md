# Patient queue of a clinic: a Dafny model

This project models the queue engine of a small Django application in which
receptionists register patients and put them in a physician's queue, and
physicians call, attend and finish them. Three tables hold the state:
patients (`Paciente`), physicians (`Medico`) and queue entries
(`FilaAtendimento`). A queue entry moves through four statuses. These are
waiting (`AGUARDANDO`), in progress (`EM_ATENDIMENTO`), done (`ATENDIDO`)
and cancelled (`CANCELADO`). Each entry carries an arrival time, a call time
and a finish time.

The project has six modules:

- `Options` (`options.dfy`) holds the `Option` type, used for nullable columns and for lookups that may find nothing.
- `Sorting` (`sorting.dfy`) models the ORM's `filter`, `order_by` and `first()` over a table held as a sequence of rows. Ordering is a stable insertion sort with a comparator.
- `Text` (`text.dfy`) models `str.strip()`, the case-insensitive substring test behind `icontains`, and character order on text columns.
- `Models` (`models.dfy`) holds the schema: entities, status codes and labels, column defaults, unique columns, lookups by key and the orderings the views use.
- `QueueStore` (`queue_store.dfy`) holds the write side.
  - Each change to an entry is first a pure transition on one `Entry` (`CallEntry`, `FinalizeEntry`, `WithClinicalData`).
  - The `Store` class holds the three tables as sequence fields. Its methods perform the same changes field by field, insert new rows and apply the delete rules of the schema.
  - Every method keeps `Valid()`: keys and unique columns, resolving foreign keys, and statuses that fit their timestamps.
  - Every method that writes the queue table preserves `Timely(now)` (`old(Timely(now)) ==> Timely(now)`). That invariant says arrival <= called <= finished <= now, and it holds as long as the clock never goes backwards. The methods that add a patient or a physician leave the queue table untouched, because their `modifies` clauses do not name it.
  - Every method that writes the queue table ensures `Progressed`: a status only moves forward and an entry's arrival and patient never change.
- `Queries` (`queries.dfy`) holds the read side. It covers the physician's polling endpoint, the physician's dashboard summary, the receptionists' waiting list, the physician's queue beside a visit and the patient search. Each is a function of the tables.

The clock (`timezone.now()`) is a `now` parameter. The logged-in user is a `Caller`: a user id and the set of groups ("Atendentes" = `Receptionists`, "Médicos" = `Physicians`) the account belongs to. A view whose group test fails answers `Forbidden` and changes nothing. A view whose `get_object_or_404` fails answers `NotFound`.

The poll and the dashboard disagree when a physician has two visits in progress. The poll orders them by `-data_hora_chamada` and shows the one called last. The dashboard orders them by `data_hora_chamada` and shows the one called first. `Queries.PollAndDashboardDisagree` exhibits this on two concrete entries. `Queries.PollAndDashboardAgree` shows the two agree whenever a physician has at most one visit in progress. Calling does not prevent a second visit in progress, because `CallEntry` only looks at the entry being called.

## Model

| member | source | states |
|---|---|---|
| Models.StatusOfCode | core/models.py:52-57 | a stored code reads back as the status whose code it is; a string that is none of the four codes reads back as no status |
| Models.StatusTable | core/models.py:52-57 | every status round-trips through its code; distinct statuses have distinct codes and distinct labels |
| Models.NewEntry | core/models.py:60-66 | a new entry is waiting, arrives at the creation time, has no call time, no finish time and no clinical data, and is consistent, chronological and not after the clock |
| Models.FindPatient | core/views.py:186 | the lookup by primary key finds a patient with that key exactly when the key is in the table |
| Models.FindPhysician | core/views.py:361 | the lookup by primary key finds a physician with that key exactly when the key is in the table |
| Models.PhysicianOfUser | core/views.py:29 | `request.user.medico` finds a physician bound to that user, or none exists |
| Models.FindEntry | core/views.py:409 | `get_object_or_404` on the queue finds the position of a row with that key, or no row has it |
| Models.OrderingsArePreorders | core/models.py:81 | arrival, call time (both directions), status-then-arrival and name are total preorders, so the sorts the views ask for are well defined |
| Models.InProgressSortsFirst | core/views.py:446 | under `order_by('-status', ...)` an entry in progress comes strictly before a waiting one |
| Models.DefaultListing | core/models.py:81 | the default listing of the queue holds every entry as often as the table does, ordered by arrival |
| Sorting.Filter | core/views.py:278 | `filter` keeps exactly the rows that satisfy the condition, each as often as in the table |
| Sorting.SortBy | core/views.py:296 | `order_by` is a permutation of the rows |
| Sorting.SortBySorted | core/views.py:296 | the result of `order_by` is sorted by its key |
| Sorting.FilterDistinct | core/models.py:16 | removing rows keeps a unique column unique |
| Sorting.FilterSorted | core/views.py:554-563 | narrowing a sorted query keeps it sorted |
| Sorting.FirstBy | core/views.py:32-35 | `filter(...).order_by(...).first()` is nothing exactly when no row matches; otherwise it is a matching row that no matching row precedes |
| Text.Strip | core/views.py:479 | `strip()` gives the empty string exactly when the input is all whitespace |
| Text.StripEnds | core/views.py:479 | the stripped value has no whitespace at either end |
| Text.StripCut | core/views.py:479 | the stripped value is a contiguous piece of the input, and what is cut off on either side is whitespace only |
| Text.StripIdempotent | core/views.py:487-488 | stripping an already stripped value changes nothing |
| Text.Contains | core/views.py:560-563 | the substring test holds exactly when the needle occurs at some position of the text |
| Text.Lower | core/views.py:560-563 | lower-casing keeps the length and maps each character to its lower-case form |
| QueueStore.CallEntry | core/views.py:411-417 | calling succeeds exactly on a waiting entry, which becomes in progress with call time `now` and nothing else changed; any other entry is left as it was with a "not waiting" outcome |
| QueueStore.CallTwice | core/views.py:411-417 | a second call after a successful one changes nothing and reports "not waiting" |
| QueueStore.FinalizeEntry | core/views.py:512-536 | each of the four outcomes happens exactly on its status; a waiting or in-progress entry becomes done with finish time `now`; the call time is filled in only for a waiting entry that had none; a done or cancelled entry is unchanged |
| QueueStore.FinalizeTwice | core/views.py:528-532 | after a successful finalize, a second one changes nothing and reports "already finished" |
| QueueStore.FinishedEntriesAreComplete | core/views.py:512-525 | a finished entry of a sound store has a call time and a finish time, with arrival <= called <= finished <= now |
| QueueStore.WithClinicalData | core/views.py:478-490 | the exam list is stored as given; the typed exam is stored stripped, or absent when blank; evolution and conduct are stored stripped, possibly empty; status and timestamps are untouched |
| QueueStore.RecordTwice | core/views.py:478-490 | saving the same clinical data twice gives the same row as saving it once |
| QueueStore.DetachPhysician | core/models.py:61 | SET_NULL: every entry of the deleted physician gets no physician, no entry points at that physician afterwards, and every other column and every other entry is unchanged |
| QueueStore.CascadePatient | core/models.py:60 | deleting a patient with the patient's entries keeps keys unique, leaves every remaining entry pointing at an existing patient, and removes exactly that patient's key |
| QueueStore.DetachPhysicianRows | core/models.py:61 | deleting a physician and clearing the physician on the physician's entries keeps keys unique and every foreign key resolving |
| QueueStore.Store.constructor | core/models.py:10-81 | an empty store is valid |
| QueueStore.Store.Call | core/views.py:400-417 | only receptionists may call; an unknown key is "not found"; otherwise the row becomes `CallEntry` of itself and the store stays valid and timely |
| QueueStore.Store.Finalize | core/views.py:498-536 | only physicians may finalize; an unknown key is "not found"; otherwise the row becomes `FinalizeEntry` of itself and the store stays valid and timely |
| QueueStore.Store.RecordClinicalData | core/views.py:474-490 | only physicians may save; an unknown key is "not found"; otherwise the row becomes `WithClinicalData` of itself, whatever its status |
| QueueStore.Store.AppendEntry | core/views.py:363-367 | appends one new waiting entry under a key that no entry has |
| QueueStore.Store.Enqueue | core/views.py:184-193 | a receptionist puts an existing patient in the queue of an existing physician (or of none) as a new waiting entry; an unknown patient is "not found"; an unknown physician is rejected; nothing else changes |
| QueueStore.Store.AddPatient | core/views.py:354 | saving the form appends exactly one patient with a fresh key, the form's fields and no clinical history, and the store stays valid (the health card stays unique) |
| QueueStore.Store.RegisterPatient | core/views.py:353-376 | the patient is saved unless the health card is taken; a numeric id of an existing physician also queues the patient; a missing, unknown or unparsable id leaves the queue as it was while the patient stays saved |
| QueueStore.Store.AddPhysician | core/models.py:36-38 | a physician is added exactly when the CRM is unused and the user has no physician yet, and the outcome says which of the two failed |
| QueueStore.Store.DeletePatient | core/views.py:80-99 | only receptionists may delete; the patient and exactly the patient's entries disappear; other patients and entries stay |
| QueueStore.Store.DeletePhysician | core/models.py:61 | the physician disappears; every entry stays in place, with the physician cleared exactly where it was that physician |
| Queries.NextWaiting | core/views.py:50-53 | the oldest waiting entry of the physician, or none when the physician has no waiting entry |
| Queries.PollSelect | core/views.py:32-66 | the poll shows a visit in progress whenever one exists, and then one called no earlier than any other; else the earliest waiting entry; else nothing, exactly when the physician has no open entry |
| Queries.PollPayload | core/views.py:37-66 | the payload names the chosen entry, its patient, the patient's name, the status label and the call time (in progress) or arrival time (waiting); an unreadable patient is a server error |
| Queries.Poll | core/views.py:18-76 | non-physicians are refused; a user without a physician profile gets the distinct "profile not found" answer; otherwise the answer is the payload for the caller's own profile |
| Queries.DashboardNext | core/views.py:222-246 | the card continues the visit in progress called EARLIEST when there is one, else starts the earliest waiting entry, else is empty exactly when the physician has neither |
| Queries.DashboardSelect | core/views.py:219-246 | each count is the number of the physician's entries in that status, so zero exactly when there is no such entry; the card shows a visit in progress exactly when that count is positive, and nothing exactly when both counts are zero |
| Queries.CountSplit | core/views.py:234-235 | the in-progress and waiting counts together never exceed the number of entries |
| Queries.PollAndDashboardAgree | core/views.py:35 | with at most one visit in progress, the poll and the dashboard point at the same entry |
| Queries.PollAndDashboardDisagree | core/views.py:226 | with two visits in progress, the poll shows the one called last and the dashboard the one called first |
| Queries.Dashboard | core/views.py:197-262 | a receptionist (even one who is also a physician) gets the receptionist page; a physician gets the summary for their own profile, or an empty summary with a warning when they have no profile |
| Queries.WaitingList | core/views.py:277-318 | exactly the waiting entries, of the chosen physician when the parameter is an integer, each as often as in the table, by arrival; an absent, empty or unparsable parameter is ignored; the selected physician is shown when the integer names one |
| Queries.PhysicianQueue | core/views.py:438-449 | exactly the waiting and in-progress entries of the visit's physician other than the visit itself; in-progress ones first, each group by arrival; empty when the visit has no physician |
| Queries.SearchPatients | core/views.py:553-569 | with no query or an empty one, every patient; otherwise exactly the patients whose name or health card contains the query ignoring case; always sorted by name |

## Left out

- Django machinery is not modelled. This covers templates, page titles and welcome strings, `messages.*`, redirects, success URLs, pagination, JSON shaping and `strftime` formatting of times. The outcome datatypes stand for the messages and answers.
- Login (`LoginRequiredMixin`) is not modelled: every caller is a logged-in user. The group checks of the list views (waiting list, patient search, the queue beside a visit) are not modelled. Their query functions describe what an allowed caller sees.
- Concurrency is not modelled. Each view does a plain read and then `save()`, and the model runs one request at a time.
- QueueStore.Store.Finalize: the waiting branch reads the clock twice, once for the call time and once for the finish time. The model takes one reading `now` for both, so a waiting entry finished without a call gets equal call and finish times, where the source stores two successive readings (the call time no later than the finish time).
- The catch-all `except Exception` branches are modelled only in part. In the poll, the failure modelled is a patient that cannot be read (`ServerError`). In registration, it is an unparsable physician id (`QueueingFailed`). Other database failures are not modelled.
- The unknown-status branch of finalize cannot be reached, because the status is one of four values.
- The exam vocabulary shown on the visit page is display only. The saving view does not check against it, so it is not modelled.
- Parsing of the `medico_id` parameter is abstracted as `IdParam`. The three cases are absent or empty, not an integer, and an integer.
- Case-insensitive matching uses ASCII lower-casing, and `strip()` uses the ASCII whitespace characters. Unicode case folding and Unicode whitespace are not modelled.
- Form validation other than the unique columns is not modelled. This covers `max_length`, required fields and e-mail format.
- The patient edit views (`PacienteUpdateView`, `PacienteClinicalUpdateView`) are not modelled.
- Cancelling an entry is not modelled. No view sets the cancelled status (it happens only through the admin site). The model handles the status wherever a view reads it.
- Deleting a user account, which cascades to the physician profile, is not modelled. `Store.DeletePhysician` models the physician row being deleted.
- Ties between rows with equal sort keys are not modelled as the database orders them. The stable sort keeps them in table order.
- A missing call time sorts before every call time, as NULL does in SQLite.
- Debug `print` calls are not modelled.
- core/urls.py and core/admin.py are not part of this model.
