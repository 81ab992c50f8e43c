/**
 * The read side of the patient queue: the physician's polling endpoint,
 * the physician's summary on the home dashboard, the receptionists'
 * waiting list, the queue shown beside a visit and the patient search.
 * None of these change a table; each is a function of the tables.
 */
module Queries {
  import opened Options
  import opened Sorting
  import opened Text
  import opened Models
  import opened QueueStore

  /** `filter(medico_destino=m, status=s)`. */
  function Assigned(m: PhysicianId, s: Status): Entry -> bool {
    (e: Entry) => e.physician == Some(m) && e.status == s
  }

  /** Which entry a physician's screen points at, and why. */
  datatype Selection =
    | Current(entry: Entry)   // a visit already in progress ("continue")
    | Next(entry: Entry)      // the next waiting patient ("start next")
    | Nothing

  /** The oldest waiting entry of physician `m`, shared by the poll and the dashboard. */
  function NextWaiting(es: seq<Entry>, m: PhysicianId): (r: Option<Entry>)
    ensures r.None? <==> forall e :: e in es ==> !Assigned(m, Waiting)(e)
    ensures r.Some? ==> r.value in es && Assigned(m, Waiting)(r.value)
    ensures r.Some? ==> forall e :: e in es && Assigned(m, Waiting)(e) ==> r.value.arrival <= e.arrival
  {
    OrderingsArePreorders();
    FirstBy(es, Assigned(m, Waiting), ArrivalLe)
  }

  /**
   * The poll's choice: the most recently called visit in progress, and
   * only when there is none, the oldest waiting entry.
   */
  function PollSelect(es: seq<Entry>, m: PhysicianId): (r: Selection)
    ensures r.Current? <==> exists e :: e in es && Assigned(m, InProgress)(e)
    ensures r.Current? ==> r.entry in es && Assigned(m, InProgress)(r.entry)
    ensures r.Current? ==> forall e :: e in es && Assigned(m, InProgress)(e) ==> CalledLe(e, r.entry)
    ensures r.Next? ==> r.entry in es && Assigned(m, Waiting)(r.entry)
    ensures r.Next? ==> forall e :: e in es && Assigned(m, Waiting)(e) ==> r.entry.arrival <= e.arrival
    ensures r.Nothing? <==> forall e :: e in es && e.physician == Some(m) ==> e.status != InProgress && e.status != Waiting
  {
    OrderingsArePreorders();
    match FirstBy(es, Assigned(m, InProgress), CalledDescLe)
    case Some(e) => Current(e)
    case None =>
      match NextWaiting(es, m)
      case Some(e) => Next(e)
      case None => Nothing
  }

  /** The counts and the "next patient" card of a physician's dashboard. */
  datatype Summary = Summary(inService: nat, waiting: nat, next: Selection)

  /**
   * The dashboard's card: the EARLIEST called visit in progress, and only
   * when there is none, the oldest waiting entry.
   */
  function DashboardNext(es: seq<Entry>, m: PhysicianId): (r: Selection)
    ensures r.Current? <==> exists e :: e in es && Assigned(m, InProgress)(e)
    ensures r.Current? ==> r.entry in es && Assigned(m, InProgress)(r.entry)
    ensures r.Current? ==> forall e :: e in es && Assigned(m, InProgress)(e) ==> CalledLe(r.entry, e)
    ensures r.Next? ==> r.entry in es && Assigned(m, Waiting)(r.entry)
    ensures r.Next? ==> forall e :: e in es && Assigned(m, Waiting)(e) ==> r.entry.arrival <= e.arrival
    ensures r.Nothing? <==> forall e :: e in es ==> !Assigned(m, InProgress)(e) && !Assigned(m, Waiting)(e)
  {
    OrderingsArePreorders();
    match FirstBy(es, Assigned(m, InProgress), CalledLe)
    case Some(e) => Current(e)
    case None =>
      match NextWaiting(es, m)
      case Some(e) => Next(e)
      case None => Nothing
  }

  /** The dashboard's counts of visits in progress and waiting, and its card. */
  function DashboardSelect(es: seq<Entry>, m: PhysicianId): (r: Summary)
    ensures r.inService == |Filter(es, Assigned(m, InProgress))|
    ensures r.waiting == |Filter(es, Assigned(m, Waiting))|
    ensures r.inService == 0 <==> forall e :: e in es ==> !Assigned(m, InProgress)(e)
    ensures r.waiting == 0 <==> forall e :: e in es ==> !Assigned(m, Waiting)(e)
    ensures r.inService + r.waiting <= |es|
    ensures r.next.Current? <==> r.inService > 0
    ensures r.next.Nothing? <==> r.inService == 0 && r.waiting == 0
    ensures r.next == DashboardNext(es, m)
  {
    var inService := Filter(es, Assigned(m, InProgress));
    var waiting := Filter(es, Assigned(m, Waiting));
    assert |inService| + |waiting| <= |es| by { CountSplit(es, m); }
    Summary(|inService|, |waiting|, DashboardNext(es, m))
  }

  /** No entry is both in progress and waiting, so the two counts never exceed the table. */
  lemma {:induction false} CountSplit(es: seq<Entry>, m: PhysicianId)
    ensures |Filter(es, Assigned(m, InProgress))| + |Filter(es, Assigned(m, Waiting))| <= |es|
  {
    if es != [] {
      CountSplit(es[1..], m);
    }
  }

  /** When a physician has at most one visit in progress, the poll and the dashboard point at the same entry. */
  lemma PollAndDashboardAgree(es: seq<Entry>, m: PhysicianId)
    requires forall a, b :: a in es && b in es && Assigned(m, InProgress)(a) && Assigned(m, InProgress)(b) ==> a == b
    ensures PollSelect(es, m) == DashboardSelect(es, m).next
  {
    var p, d := PollSelect(es, m), DashboardSelect(es, m).next;
    if p.Current? {
      assert d.Current?;
      assert p.entry == d.entry;
    }
  }

  /**
   * With two visits in progress for the same physician, the poll shows the
   * one called last and the dashboard the one called first.
   */
  lemma PollAndDashboardDisagree()
    ensures var first := NewEntry(1, 10, Some(7), None, 0).(status := InProgress, called := Some(5));
            var second := NewEntry(2, 11, Some(7), None, 0).(status := InProgress, called := Some(9));
            && PollSelect([first, second], 7) == Current(second)
            && DashboardSelect([first, second], 7).next == Current(first)
  {
    var first := NewEntry(1, 10, Some(7), None, 0).(status := InProgress, called := Some(5));
    var second := NewEntry(2, 11, Some(7), None, 0).(status := InProgress, called := Some(9));
    PollPicksLatest(first, second);
    DashboardPicksEarliest(first, second);
  }

  lemma PollPicksLatest(first: Entry, second: Entry)
    requires first == NewEntry(1, 10, Some(7), None, 0).(status := InProgress, called := Some(5))
    requires second == NewEntry(2, 11, Some(7), None, 0).(status := InProgress, called := Some(9))
    ensures PollSelect([first, second], 7) == Current(second)
  {
    var es := [first, second];
    assert first in es && second in es;
    var p := PollSelect(es, 7);
    assert CalledLe(second, p.entry);
  }

  lemma DashboardPicksEarliest(first: Entry, second: Entry)
    requires first == NewEntry(1, 10, Some(7), None, 0).(status := InProgress, called := Some(5))
    requires second == NewEntry(2, 11, Some(7), None, 0).(status := InProgress, called := Some(9))
    ensures DashboardSelect([first, second], 7).next == Current(first)
  {
    var es := [first, second];
    assert first in es && second in es;
    var d := DashboardSelect(es, 7).next;
    assert CalledLe(d.entry, first);
  }

  // ---- The polling endpoint ----

  /** The payload of a poll that found an entry: the visit's and the patient's keys, the name, the status label and a time. */
  datatype PollView = PollView(entry: EntryId, patient: PatientId, patientName: string, status: string, time: Option<Time>)

  datatype PollResponse =
    | InService(view: PollView)
    | NextInLine(view: PollView)
    | QueueEmpty
    | ProfileNotFound
    | ServerError

  /**
   * The payload built for the poll's choice. The patient is read through
   * the entry's foreign key; a failed read is the catch-all server error.
   */
  function PollPayload(sel: Selection, ps: seq<Patient>): (o: PollResponse)
    ensures o.QueueEmpty? <==> sel.Nothing?
    ensures o.ServerError? <==> !sel.Nothing? && sel.entry.patient !in PatientIds(ps)
    ensures o.InService? <==> sel.Current? && sel.entry.patient in PatientIds(ps)
    ensures o.NextInLine? <==> sel.Next? && sel.entry.patient in PatientIds(ps)
    ensures o.InService? || o.NextInLine? ==>
              && o.view.entry == sel.entry.id && o.view.patient == sel.entry.patient
              && (exists p :: p in ps && p.id == sel.entry.patient && o.view.patientName == p.fullName)
              && o.view.status == Label(sel.entry.status)
    ensures o.InService? ==> o.view.time == sel.entry.called
    ensures o.NextInLine? ==> o.view.time == Some(sel.entry.arrival)
    ensures !o.ProfileNotFound?
  {
    match sel
    case Nothing => QueueEmpty
    case Current(e) =>
      (match FindPatient(ps, e.patient)
       case None => ServerError
       case Some(p) => InService(PollView(e.id, e.patient, p.fullName, Label(e.status), e.called)))
    case Next(e) =>
      match FindPatient(ps, e.patient)
      case None => ServerError
      case Some(p) => NextInLine(PollView(e.id, e.patient, p.fullName, Label(e.status), Some(e.arrival)))
  }

  /**
   * The physician's poll. A caller outside the physicians' group is
   * refused; a user without a physician profile gets the "profile not
   * found" error; otherwise the payload describes the poll's choice for
   * the caller's own physician profile.
   */
  function Poll(caller: Caller, ms: seq<Physician>, ps: seq<Patient>, es: seq<Entry>): (r: Access<PollResponse>)
    ensures Physicians !in caller.groups <==> r.Forbidden?
    ensures !r.NotFound?
    ensures r == Performed(ProfileNotFound) <==> Physicians in caller.groups && PhysicianOfUser(ms, caller.user).None?
    ensures r.Performed? && !r.outcome.ProfileNotFound? ==>
              exists m :: m in ms && m.user == caller.user && r.outcome == PollPayload(PollSelect(es, m.id), ps)
  {
    if Physicians !in caller.groups then Forbidden
    else match PhysicianOfUser(ms, caller.user)
      case None => Performed(ProfileNotFound)
      case Some(m) => Performed(PollPayload(PollSelect(es, m.id), ps))
  }

  // ---- The home dashboard ----

  datatype Home =
    | ReceptionistHome
    | PhysicianHome(summary: Summary, profileFound: bool)
    | OtherUserHome

  /**
   * The dashboard: receptionists first (a user in both groups sees the
   * receptionist page), then physicians, whose summary is empty and comes
   * with a warning when they have no physician profile.
   */
  function Dashboard(caller: Caller, ms: seq<Physician>, es: seq<Entry>): (r: Home)
    ensures Receptionists in caller.groups <==> r.ReceptionistHome?
    ensures r.OtherUserHome? <==> Receptionists !in caller.groups && Physicians !in caller.groups
    ensures r.PhysicianHome? ==> (r.profileFound <==> PhysicianOfUser(ms, caller.user).Some?)
    ensures r.PhysicianHome? && !r.profileFound ==> r.summary == Summary(0, 0, Nothing)
    ensures r.PhysicianHome? && r.profileFound ==>
              exists m :: m in ms && m.user == caller.user && r.summary == DashboardSelect(es, m.id)
  {
    if Receptionists in caller.groups then ReceptionistHome
    else if Physicians in caller.groups then
      match PhysicianOfUser(ms, caller.user)
      case None => PhysicianHome(Summary(0, 0, Nothing), false)
      case Some(m) => PhysicianHome(DashboardSelect(es, m.id), true)
    else OtherUserHome
  }

  // ---- The receptionists' waiting list ----

  /** The filter of the waiting list: waiting entries, and for a numeric `medico_id` only that physician's. */
  function WaitingFilter(param: IdParam): Entry -> bool {
    (e: Entry) => e.status == Waiting && (param.Id? ==> e.physician.Some? && e.physician.value == param.n)
  }

  datatype WaitingPanel = WaitingPanel(rows: seq<Entry>, physicians: seq<Physician>, selected: Option<Physician>)

  /**
   * The waiting list: every waiting entry (of the chosen physician, when
   * the parameter is a number; an absent, empty or non-numeric parameter
   * is ignored), each once, by arrival.
   */
  function WaitingList(ms: seq<Physician>, es: seq<Entry>, param: IdParam): (r: WaitingPanel)
    ensures forall e :: e in r.rows <==> e in es && e.status == Waiting && (param.Id? ==> e.physician.Some? && e.physician.value == param.n)
    ensures forall e :: multiset(r.rows)[e] == if WaitingFilter(param)(e) then multiset(es)[e] else 0
    ensures SortedBy(r.rows, ArrivalLe)
    ensures r.physicians == ms
    ensures r.selected.Some? <==> param.Id? && param.n >= 0 && param.n in PhysicianIds(ms)
    ensures r.selected.Some? ==> r.selected.value in ms && r.selected.value.id == param.n
  {
    var rows := Filter(es, WaitingFilter(param));
    OrderingsArePreorders();
    SortBySorted(rows, ArrivalLe);
    SortByMembers(rows, ArrivalLe);
    var selected := if param.Id? && param.n >= 0 then FindPhysician(ms, param.n) else None;
    WaitingPanel(SortBy(rows, ArrivalLe), ms, selected)
  }

  // ---- The queue shown beside a visit ----

  /** Entries of `current`'s physician that are waiting or in progress, other than `current` itself. */
  function SameQueue(current: Entry): Entry -> bool {
    (e: Entry) => current.physician.Some? && e.physician == current.physician
         && (e.status == Waiting || e.status == InProgress) && e.id != current.id
  }

  /**
   * The physician's queue on a visit page: visits in progress first, then
   * the waiting entries, each group by arrival; empty when the visit has
   * no physician.
   */
  function PhysicianQueue(es: seq<Entry>, current: Entry): (r: seq<Entry>)
    ensures current.physician.None? ==> r == []
    ensures forall e :: e in r <==> e in es && SameQueue(current)(e)
    ensures forall e :: multiset(r)[e] == if SameQueue(current)(e) then multiset(es)[e] else 0
    ensures forall i, j :: 0 <= i < j < |r| ==> !(r[i].status == Waiting && r[j].status == InProgress)
    ensures forall i, j :: 0 <= i < j < |r| && r[i].status == r[j].status ==> r[i].arrival <= r[j].arrival
  {
    if current.physician.None? then []
    else
      var rows := Filter(es, SameQueue(current));
      OrderingsArePreorders();
      SortBySorted(rows, StatusDescArrivalLe);
      SortByMembers(rows, StatusDescArrivalLe);
      var r := SortBy(rows, StatusDescArrivalLe);
      assert forall i, j :: 0 <= i < j < |r| ==> !(r[i].status == Waiting && r[j].status == InProgress) by {
        forall i, j | 0 <= i < j < |r| && r[i].status == Waiting && r[j].status == InProgress
          ensures false
        {
          assert StatusDescArrivalLe(r[i], r[j]);
          InProgressSortsFirst(r[j], r[i]);
        }
      }
      r
  }

  // ---- Patient search ----

  /** `nome_completo__icontains=q | carteira_sus__icontains=q`. */
  function Matches(q: string): Patient -> bool {
    (p: Patient) => ContainsIgnoringCase(p.fullName, q) || ContainsIgnoringCase(p.healthCard, q)
  }

  /**
   * The patient list: all patients by name, narrowed to those whose name
   * or health card contains the query, ignoring case, when a non-empty
   * query is given.
   */
  function SearchPatients(ps: seq<Patient>, q: Option<string>): (r: seq<Patient>)
    ensures q.None? || q.value == [] ==> multiset(r) == multiset(ps)
    ensures q.Some? && q.value != [] ==>
              forall p :: p in r <==> p in ps && (ContainsIgnoringCase(p.fullName, q.value) || ContainsIgnoringCase(p.healthCard, q.value))
    ensures q.Some? && q.value != [] ==>
              forall p :: multiset(r)[p] == if Matches(q.value)(p) then multiset(ps)[p] else 0
    ensures SortedBy(r, NameLe)
  {
    OrderingsArePreorders();
    var all := SortBy(ps, NameLe);
    SortBySorted(ps, NameLe);
    SortByMembers(ps, NameLe);
    if q.Some? && q.value != [] then
      FilterSorted(all, Matches(q.value), NameLe);
      Filter(all, Matches(q.value))
    else all
  }
}
