/**
 * The write side of the patient queue: calling a patient, finalizing a
 * visit, recording the visit's clinical data, putting a patient in a
 * physician's queue (alone or together with registering the patient), and
 * the delete rules of the schema.
 *
 * Each change to a queue entry is first specified as a pure transition on
 * one `Entry` (CallEntry, FinalizeEntry, WithClinicalData); the `Store`
 * class holds the three tables and its methods perform the same change
 * field by field on the stored row, as the views do before `save()`.
 */
module QueueStore {
  import opened Options
  import opened Sorting
  import opened Text
  import opened Models

  // ---- Transitions of one entry ----

  /** The columns that the workflow transitions (call, finalize) never write. */
  predicate SameRecord(a: Entry, b: Entry) {
    && a.id == b.id && a.patient == b.patient && a.physician == b.physician
    && a.arrival == b.arrival && a.notes == b.notes
    && a.exams == b.exams && a.otherExam == b.otherExam
    && a.evolution == b.evolution && a.conduct == b.conduct
  }

  /** The per-entry invariant of the store together with the clock reading it was written at. */
  predicate Sound(e: Entry, now: Time) {
    StatusConsistent(e) && Chronological(e) && NotAfter(e, now)
  }

  datatype CallOutcome = Called | NotWaiting
  datatype CallResult = CallResult(entry: Entry, outcome: CallOutcome)

  /** Calling a patient: only a waiting entry moves, to in service, stamped with the call time. */
  function CallEntry(e: Entry, now: Time): (r: CallResult)
    ensures r.outcome == Called <==> e.status == Waiting
    ensures r.outcome == Called ==>
      && r.entry.status == InProgress && r.entry.called == Some(now)
      && r.entry.finished == e.finished && SameRecord(e, r.entry)
    ensures r.outcome == NotWaiting ==> r.entry == e
    ensures StatusStep(e.status, r.entry.status)
    ensures Sound(e, now) ==> Sound(r.entry, now)
  {
    if e.status == Waiting then
      CallResult(e.(status := InProgress, called := Some(now)), Called)
    else
      CallResult(e, NotWaiting)
  }

  datatype FinalizeOutcome = FinishedFromWaiting | Finished | AlreadyFinished | IsCancelled
  datatype FinalizeResult = FinalizeResult(entry: Entry, outcome: FinalizeOutcome)

  predicate Changed(o: FinalizeOutcome) {
    o == FinishedFromWaiting || o == Finished
  }

  /**
   * Finalizing a visit: the four-way branch on the status. A waiting entry
   * is finished directly and gets a call time if it had none; an entry in
   * service is finished; a finished or cancelled entry is left alone, with
   * two different outcomes.
   */
  function FinalizeEntry(e: Entry, now: Time): (r: FinalizeResult)
    ensures r.outcome == FinishedFromWaiting <==> e.status == Waiting
    ensures r.outcome == Finished <==> e.status == InProgress
    ensures r.outcome == AlreadyFinished <==> e.status == Done
    ensures r.outcome == IsCancelled <==> e.status == Cancelled
    ensures Changed(r.outcome) ==>
      r.entry.status == Done && r.entry.finished == Some(now) && SameRecord(e, r.entry)
    ensures r.outcome == FinishedFromWaiting ==>
      r.entry.called == if e.called.None? then Some(now) else e.called
    ensures r.outcome == Finished ==> r.entry.called == e.called
    ensures !Changed(r.outcome) ==> r.entry == e
    ensures StatusStep(e.status, r.entry.status)
    ensures Sound(e, now) ==> Sound(r.entry, now)
  {
    match e.status
    case Waiting =>
      var called := if e.called.None? then Some(now) else e.called;
      FinalizeResult(e.(status := Done, called := called, finished := Some(now)), FinishedFromWaiting)
    case InProgress =>
      FinalizeResult(e.(status := Done, finished := Some(now)), Finished)
    case Done =>
      FinalizeResult(e, AlreadyFinished)
    case Cancelled =>
      FinalizeResult(e, IsCancelled)
  }

  /** A second call after a successful one changes nothing and reports "not waiting". */
  lemma CallTwice(e: Entry, t1: Time, t2: Time)
    requires CallEntry(e, t1).outcome == Called
    ensures CallEntry(CallEntry(e, t1).entry, t2) == CallResult(CallEntry(e, t1).entry, NotWaiting)
  {
  }

  /** Finalizing is idempotent in effect: after a successful finalize, the next one changes nothing. */
  lemma FinalizeTwice(e: Entry, t1: Time, t2: Time)
    requires Changed(FinalizeEntry(e, t1).outcome)
    ensures FinalizeEntry(FinalizeEntry(e, t1).entry, t2)
         == FinalizeResult(FinalizeEntry(e, t1).entry, AlreadyFinished)
  {
  }

  /** A finished entry of a sound store has both times, with arrival <= called <= finished. */
  lemma FinishedEntriesAreComplete(e: Entry, now: Time)
    requires Sound(e, now) && e.status == Done
    ensures e.called.Some? && e.finished.Some?
    ensures e.arrival <= e.called.value <= e.finished.value <= now
  {
  }

  /** The value of a posted form field, `request.POST.get(name, '')`. */
  function Submitted(v: Option<string>): string {
    if v.Some? then v.value else ""
  }

  /** The columns that recording clinical data never writes. */
  predicate SameWorkflow(a: Entry, b: Entry) {
    && a.id == b.id && a.patient == b.patient && a.physician == b.physician
    && a.status == b.status && a.arrival == b.arrival && a.called == b.called
    && a.finished == b.finished && a.notes == b.notes
  }

  /**
   * Recording the visit's exams and notes, whatever the status. The typed
   * exam is stored stripped, or as absent when it is blank; the evolution
   * and the conduct are stored stripped, possibly empty.
   */
  function WithClinicalData(e: Entry, exams: seq<string>, otherExam: Option<string>,
                            evolution: Option<string>, conduct: Option<string>): (r: Entry)
    ensures r.exams == Some(exams)
    ensures r.otherExam.None? <==> Blank(Submitted(otherExam))
    ensures r.otherExam.Some? ==> r.otherExam.value == Strip(Submitted(otherExam)) && r.otherExam.value != []
    ensures r.evolution == Some(Strip(Submitted(evolution)))
    ensures r.conduct == Some(Strip(Submitted(conduct)))
    ensures SameWorkflow(e, r)
  {
    var typed := Strip(Submitted(otherExam));
    e.(exams := Some(exams),
       otherExam := if typed != [] then Some(typed) else None,
       evolution := Some(Strip(Submitted(evolution))),
       conduct := Some(Strip(Submitted(conduct))))
  }

  /** Recording the same data twice leaves the entry as recording it once. */
  lemma RecordTwice(e: Entry, exams: seq<string>, otherExam: Option<string>,
                    evolution: Option<string>, conduct: Option<string>)
    ensures var once := WithClinicalData(e, exams, otherExam, evolution, conduct);
            WithClinicalData(once, exams, otherExam, evolution, conduct) == once
  {
  }

  // ---- Table-level facts ----

  /** Entry keys are distinct, every entry's foreign keys resolve, and its timestamps fit its status. */
  ghost predicate EntriesValid(es: seq<Entry>, ps: seq<Patient>, ms: seq<Physician>) {
    && DistinctKeys(es, EntryKey)
    && (forall e :: e in es ==> References(e, ps, ms) && StatusConsistent(e))
  }

  /** Between two versions of the queue table, every entry kept its patient and arrival and its status only moved forward. */
  ghost predicate Progressed(before: seq<Entry>, after: seq<Entry>) {
    forall a, b :: a in before && b in after && a.id == b.id ==>
      StatusStep(a.status, b.status) && a.arrival == b.arrival && a.patient == b.patient
  }

  /** Every entry key lies below `n`, the next key to hand out. */
  ghost predicate KeysBelow(es: seq<Entry>, n: nat) {
    forall e :: e in es ==> e.id < n
  }

  /** The invariant of the three tables, with the next key of each. */
  ghost predicate TablesValid(ps: seq<Patient>, ms: seq<Physician>, es: seq<Entry>, np: nat, nm: nat, ne: nat) {
    && PatientsUnique(ps)
    && PhysiciansUnique(ms)
    && EntriesValid(es, ps, ms)
    && (forall p :: p in ps ==> p.id < np)
    && (forall m :: m in ms ==> m.id < nm)
    && KeysBelow(es, ne)
  }

  ghost predicate AllSound(es: seq<Entry>, now: Time) {
    forall e :: e in es ==> Sound(e, now)
  }

  lemma {:induction false} SameKeyIsSameRow(es: seq<Entry>, a: Entry, b: Entry)
    requires DistinctKeys(es, EntryKey)
    requires a in es && b in es && a.id == b.id
    ensures a == b
  {
    var i :| 0 <= i < |es| && es[i] == a;
    var j :| 0 <= j < |es| && es[j] == b;
    assert EntryKey(es[i]) == EntryKey(es[j]);
  }

  /** Replacing one row by a version with the same keys whose status moved forward. */
  lemma {:induction false} UpdateRow(es: seq<Entry>, ps: seq<Patient>, ms: seq<Physician>, n: nat, k: nat, e: Entry)
    requires EntriesValid(es, ps, ms) && KeysBelow(es, n)
    requires k < |es|
    requires e.id == es[k].id && e.patient == es[k].patient && e.physician == es[k].physician
    requires e.arrival == es[k].arrival && StatusStep(es[k].status, e.status)
    requires StatusConsistent(e)
    ensures EntriesValid(es[k := e], ps, ms) && KeysBelow(es[k := e], n)
    ensures Progressed(es, es[k := e])
  {
    var after := es[k := e];
    assert es[k] in es;
    forall x | x in after ensures x.id < n {
      var i :| 0 <= i < |after| && after[i] == x;
      assert es[i] in es;
    }
    forall i, j | 0 <= i < j < |after| ensures EntryKey(after[i]) != EntryKey(after[j]) {
      assert EntryKey(es[i]) != EntryKey(es[j]);
    }
    forall x | x in after ensures References(x, ps, ms) && StatusConsistent(x) {
      var i :| 0 <= i < |after| && after[i] == x;
      if i != k { assert x == es[i] && es[i] in es; }
    }
    forall a, b | a in es && b in after && a.id == b.id
      ensures StatusStep(a.status, b.status) && a.arrival == b.arrival && a.patient == b.patient
    {
      var i :| 0 <= i < |after| && after[i] == b;
      if i == k {
        SameKeyIsSameRow(es, a, es[k]);
      } else {
        SameKeyIsSameRow(es, a, es[i]);
      }
    }
  }

  /** Rewriting columns other than the status and the timestamps keeps every entry sound. */
  lemma {:induction false} UpdateRowSound(es: seq<Entry>, k: nat, e: Entry)
    requires k < |es|
    requires e.status == es[k].status && e.arrival == es[k].arrival
    requires e.called == es[k].called && e.finished == es[k].finished
    ensures forall now :: AllSound(es, now) ==> AllSound(es[k := e], now)
  {
    forall now | AllSound(es, now) ensures AllSound(es[k := e], now) {
      forall x | x in es[k := e] ensures Sound(x, now) {
        var i :| 0 <= i < |es[k := e]| && es[k := e][i] == x;
        assert es[i] in es;
      }
    }
  }

  /** Keeping only some rows: nothing moves, nothing is re-keyed. */
  lemma {:induction false} KeepRows(before: seq<Entry>, after: seq<Entry>)
    requires DistinctKeys(before, EntryKey)
    requires forall b :: b in after ==> b in before
    ensures Progressed(before, after)
  {
    forall a, b | a in before && b in after && a.id == b.id
      ensures StatusStep(a.status, b.status) && a.arrival == b.arrival && a.patient == b.patient
    {
      SameKeyIsSameRow(before, a, b);
    }
  }

  /** ON DELETE SET NULL for the physician column of the queue table. */
  function DetachPhysician(es: seq<Entry>, mid: PhysicianId): (r: seq<Entry>)
    ensures |r| == |es|
    ensures forall i :: 0 <= i < |r| ==> r[i].physician != Some(mid)
    ensures forall i :: 0 <= i < |r| ==> r[i] == es[i].(physician := r[i].physician)
    ensures forall i :: 0 <= i < |r| && es[i].physician != Some(mid) ==> r[i] == es[i]
    ensures forall i :: 0 <= i < |r| && es[i].physician == Some(mid) ==> r[i].physician.None?
  {
    seq(|es|, i requires 0 <= i < |es| =>
      if es[i].physician == Some(mid) then es[i].(physician := None) else es[i])
  }

  function KeepPatient(pid: PatientId): Patient -> bool {
    (p: Patient) => p.id != pid
  }

  function KeepPhysician(mid: PhysicianId): Physician -> bool {
    (m: Physician) => m.id != mid
  }

  function NotOfPatient(pid: PatientId): Entry -> bool {
    (e: Entry) => e.patient != pid
  }

  /** ON DELETE CASCADE: dropping a patient together with the patient's entries keeps the tables valid. */
  lemma {:induction false} CascadePatient(ps: seq<Patient>, ms: seq<Physician>, es: seq<Entry>,
                                           np: nat, nm: nat, ne: nat, pid: PatientId)
    requires TablesValid(ps, ms, es, np, nm, ne)
    ensures TablesValid(Filter(ps, KeepPatient(pid)), ms, Filter(es, NotOfPatient(pid)), np, nm, ne)
    ensures PatientIds(Filter(ps, KeepPatient(pid))) == PatientIds(ps) - {pid}
    ensures Progressed(es, Filter(es, NotOfPatient(pid)))
    ensures forall now :: AllSound(es, now) ==> AllSound(Filter(es, NotOfPatient(pid)), now)
  {
    CascadeKeepsTables(ps, ms, es, np, nm, ne, pid);
    KeepRows(es, Filter(es, NotOfPatient(pid)));
  }

  lemma CascadeKeepsTables(ps: seq<Patient>, ms: seq<Physician>, es: seq<Entry>,
                           np: nat, nm: nat, ne: nat, pid: PatientId)
    requires TablesValid(ps, ms, es, np, nm, ne)
    ensures TablesValid(Filter(ps, KeepPatient(pid)), ms, Filter(es, NotOfPatient(pid)), np, nm, ne)
    ensures PatientIds(Filter(ps, KeepPatient(pid))) == PatientIds(ps) - {pid}
  {
    var ps', es' := Filter(ps, KeepPatient(pid)), Filter(es, NotOfPatient(pid));
    FilterDistinct(ps, KeepPatient(pid), PatientKey);
    FilterDistinct(ps, KeepPatient(pid), HealthCardKey);
    FilterDistinct(es, NotOfPatient(pid), EntryKey);
    assert PatientIds(ps') == PatientIds(ps) - {pid} by {
      forall x | x in PatientIds(ps) - {pid} ensures x in PatientIds(ps') {
        var p :| p in ps && p.id == x;
        assert p in ps';
      }
    }
    forall e | e in es' ensures References(e, ps', ms) && StatusConsistent(e) {
      assert e in es;
    }
  }

  /** ON DELETE SET NULL: dropping a physician and clearing the physician column of its entries keeps the tables valid. */
  lemma {:induction false} DetachPhysicianRows(ps: seq<Patient>, ms: seq<Physician>, es: seq<Entry>,
                                                np: nat, nm: nat, ne: nat, mid: PhysicianId)
    requires TablesValid(ps, ms, es, np, nm, ne)
    ensures TablesValid(ps, Filter(ms, KeepPhysician(mid)), DetachPhysician(es, mid), np, nm, ne)
    ensures PhysicianIds(Filter(ms, KeepPhysician(mid))) == PhysicianIds(ms) - {mid}
    ensures Progressed(es, DetachPhysician(es, mid))
    ensures forall now :: AllSound(es, now) ==> AllSound(DetachPhysician(es, mid), now)
  {
    DetachKeepsTables(ps, ms, es, np, nm, ne, mid);
    DetachKeepsHistory(es, mid);
  }

  lemma DetachKeepsTables(ps: seq<Patient>, ms: seq<Physician>, es: seq<Entry>,
                          np: nat, nm: nat, ne: nat, mid: PhysicianId)
    requires TablesValid(ps, ms, es, np, nm, ne)
    ensures TablesValid(ps, Filter(ms, KeepPhysician(mid)), DetachPhysician(es, mid), np, nm, ne)
    ensures PhysicianIds(Filter(ms, KeepPhysician(mid))) == PhysicianIds(ms) - {mid}
  {
    var ms', es' := Filter(ms, KeepPhysician(mid)), DetachPhysician(es, mid);
    FilterDistinct(ms, KeepPhysician(mid), PhysicianKey);
    FilterDistinct(ms, KeepPhysician(mid), CrmKey);
    FilterDistinct(ms, KeepPhysician(mid), UserKey);
    assert PhysicianIds(ms') == PhysicianIds(ms) - {mid} by {
      forall x | x in PhysicianIds(ms) - {mid} ensures x in PhysicianIds(ms') {
        var m :| m in ms && m.id == x;
        assert m in ms';
      }
    }
    forall i, j | 0 <= i < j < |es'| ensures EntryKey(es'[i]) != EntryKey(es'[j]) {
      assert EntryKey(es[i]) != EntryKey(es[j]);
    }
    forall e | e in es' ensures References(e, ps, ms') && StatusConsistent(e) && e.id < ne {
      var i := IndexIn(es', e);
      assert es[i] in es;
    }
  }

  lemma DetachKeepsHistory(es: seq<Entry>, mid: PhysicianId)
    requires DistinctKeys(es, EntryKey)
    ensures Progressed(es, DetachPhysician(es, mid))
    ensures forall now :: AllSound(es, now) ==> AllSound(DetachPhysician(es, mid), now)
  {
    var es' := DetachPhysician(es, mid);
    forall a, b | a in es && b in es' && a.id == b.id
      ensures StatusStep(a.status, b.status) && a.arrival == b.arrival && a.patient == b.patient
    {
      var i := IndexIn(es', b);
      assert es[i] in es;
      SameKeyIsSameRow(es, a, es[i]);
    }
    forall now | AllSound(es, now) ensures AllSound(es', now) {
      forall e | e in es' ensures Sound(e, now) {
        var i := IndexIn(es', e);
        assert es[i] in es;
      }
    }
  }

  // ---- The store ----

  /** What the caller's account may do: the user groups "Atendentes" and "Médicos". */
  datatype Group = Receptionists | Physicians
  datatype Caller = Caller(user: UserId, groups: set<Group>)

  /** The answer of a view that first checks the caller's group and looks up a row by key. */
  datatype Access<+O> = Forbidden | NotFound | Performed(outcome: O)

  datatype EnqueueOutcome = Enqueued(entry: EntryId) | InvalidPhysician

  /** The `medico_id` query parameter: absent or empty, not an integer, or an integer. */
  datatype IdParam = NoParam | Unparsable | Id(n: int)

  /** What became of the request to queue a patient just registered. */
  datatype QueueAttempt = NotRequested | Queued(entry: EntryId) | UnknownPhysician | QueueingFailed

  datatype RegisterOutcome = DuplicateHealthCard | Registered(patient: PatientId, queue: QueueAttempt)

  datatype AddPhysicianOutcome = PhysicianAdded(physician: PhysicianId) | PhysicianRejected(crmTaken: bool, userTaken: bool)

  /** The demographic fields a receptionist fills in when registering a patient. */
  datatype PatientForm = PatientForm(
    fullName: string, birthDate: int, age: Option<int>, motherName: string,
    healthCard: string, healthPlan: Option<string>)

  const NoClinicalHistory := ClinicalHistory(None, None, None, None, None, None, None)

  class Store {
    var patients: seq<Patient>
    var physicians: seq<Physician>
    var entries: seq<Entry>
    var nextPatientId: nat
    var nextPhysicianId: nat
    var nextEntryId: nat

    /** Keys and unique columns hold, foreign keys resolve, statuses fit their timestamps, and fresh keys are above all used ones. */
    ghost predicate Valid()
      reads this
    {
      TablesValid(patients, physicians, entries, nextPatientId, nextPhysicianId, nextEntryId)
    }

    /** Every entry is chronological and none of its timestamps lies after `now`. */
    ghost predicate Timely(now: Time)
      reads this
    {
      AllSound(entries, now)
    }

    constructor ()
      ensures Valid()
      ensures patients == [] && physicians == [] && entries == []
    {
      patients, physicians, entries := [], [], [];
      nextPatientId, nextPhysicianId, nextEntryId := 1, 1, 1;
    }

    /** `ChamarPacienteView.post`: a receptionist calls the patient of entry `id`. */
    method Call(caller: Caller, id: EntryId, now: Time) returns (r: Access<CallOutcome>)
      requires Valid()
      modifies this`entries
      ensures Valid()
      ensures Receptionists !in caller.groups ==> r == Forbidden && entries == old(entries)
      ensures Receptionists in caller.groups ==>
        match FindEntry(old(entries), id)
        case None => r == NotFound && entries == old(entries)
        case Some(k) =>
          var step := CallEntry(old(entries)[k], now);
          r == Performed(step.outcome) && entries == old(entries)[k := step.entry]
      ensures Progressed(old(entries), entries)
      ensures old(Timely(now)) ==> Timely(now)
    {
      KeepRows(entries, entries);
      if Receptionists !in caller.groups {
        return Forbidden;
      }
      var found := FindEntry(entries, id);
      if found.None? {
        return NotFound;
      }
      var k := found.value;
      var item := entries[k];
      assert item in entries;
      if item.status == Waiting {
        item := item.(status := InProgress);
        item := item.(called := Some(now));
        UpdateRow(entries, patients, physicians, nextEntryId, k, item);
        entries := entries[k := item];
        r := Performed(Called);
      } else {
        r := Performed(NotWaiting);
      }
    }

    /** `FinalizarAtendimentoView.post`: a physician finalizes the visit of entry `id`. */
    method Finalize(caller: Caller, id: EntryId, now: Time) returns (r: Access<FinalizeOutcome>)
      requires Valid()
      modifies this`entries
      ensures Valid()
      ensures Physicians !in caller.groups ==> r == Forbidden && entries == old(entries)
      ensures Physicians in caller.groups ==>
        match FindEntry(old(entries), id)
        case None => r == NotFound && entries == old(entries)
        case Some(k) =>
          var step := FinalizeEntry(old(entries)[k], now);
          r == Performed(step.outcome) && entries == old(entries)[k := step.entry]
      ensures Progressed(old(entries), entries)
      ensures old(Timely(now)) ==> Timely(now)
    {
      KeepRows(entries, entries);
      if Physicians !in caller.groups {
        return Forbidden;
      }
      var found := FindEntry(entries, id);
      if found.None? {
        return NotFound;
      }
      var k := found.value;
      var visit := entries[k];
      assert visit in entries;
      match visit.status {
        case Waiting =>
          visit := visit.(status := Done);
          if visit.called.None? {
            visit := visit.(called := Some(now));
          }
          visit := visit.(finished := Some(now));
          r := Performed(FinishedFromWaiting);
        case InProgress =>
          visit := visit.(status := Done);
          visit := visit.(finished := Some(now));
          r := Performed(Finished);
        case Done =>
          r := Performed(AlreadyFinished);
        case Cancelled =>
          r := Performed(IsCancelled);
      }
      if r.outcome == FinishedFromWaiting || r.outcome == Finished {
        UpdateRow(entries, patients, physicians, nextEntryId, k, visit);
        entries := entries[k := visit];
      }
    }

    /** `AtendimentoDetailView.post`: a physician saves the exams and notes of entry `id`. */
    method RecordClinicalData(caller: Caller, id: EntryId, exams: seq<string>, otherExam: Option<string>,
                              evolution: Option<string>, conduct: Option<string>) returns (r: Access<()>)
      requires Valid()
      modifies this`entries
      ensures Valid()
      ensures Physicians !in caller.groups ==> r == Forbidden && entries == old(entries)
      ensures Physicians in caller.groups ==>
        match FindEntry(old(entries), id)
        case None => r == NotFound && entries == old(entries)
        case Some(k) =>
          r == Performed(()) &&
          entries == old(entries)[k := WithClinicalData(old(entries)[k], exams, otherExam, evolution, conduct)]
      ensures Progressed(old(entries), entries)
      ensures forall now :: old(Timely(now)) ==> Timely(now)
    {
      KeepRows(entries, entries);
      if Physicians !in caller.groups {
        return Forbidden;
      }
      var found := FindEntry(entries, id);
      if found.None? {
        return NotFound;
      }
      var k := found.value;
      var visit := entries[k];
      assert visit in entries;
      visit := visit.(exams := Some(exams));
      var typed := Strip(Submitted(otherExam));
      if typed != [] {
        visit := visit.(otherExam := Some(typed));
      } else {
        visit := visit.(otherExam := None);
      }
      visit := visit.(evolution := Some(Strip(Submitted(evolution))));
      visit := visit.(conduct := Some(Strip(Submitted(conduct))));
      assert visit == WithClinicalData(entries[k], exams, otherExam, evolution, conduct);
      UpdateRow(entries, patients, physicians, nextEntryId, k, visit);
      UpdateRowSound(entries, k, visit);
      entries := entries[k := visit];
      r := Performed(());
    }

    /** Appends a new waiting entry; the caller has checked that the references resolve. */
    method AppendEntry(patient: PatientId, physician: Option<PhysicianId>, notes: Option<string>, now: Time)
      returns (id: EntryId)
      requires Valid()
      requires patient in PatientIds(patients)
      requires physician.Some? ==> physician.value in PhysicianIds(physicians)
      modifies this`entries, this`nextEntryId
      ensures Valid()
      ensures id == old(nextEntryId) && id !in set e | e in old(entries) :: e.id
      ensures entries == old(entries) + [NewEntry(id, patient, physician, notes, now)]
      ensures Progressed(old(entries), entries)
      ensures old(Timely(now)) ==> Timely(now)
    {
      id := nextEntryId;
      var entry := NewEntry(id, patient, physician, notes, now);
      ghost var before := entries;
      entries := entries + [entry];
      nextEntryId := nextEntryId + 1;
      forall i, j | 0 <= i < j < |entries| ensures EntryKey(entries[i]) != EntryKey(entries[j]) {
        if j < |before| {
          assert EntryKey(before[i]) != EntryKey(before[j]);
        } else {
          assert before[i] in before;
        }
      }
      forall a, b | a in before && b in entries && a.id == b.id
        ensures StatusStep(a.status, b.status) && a.arrival == b.arrival && a.patient == b.patient
      {
        if b == entry { assert false; }
        SameKeyIsSameRow(before, a, b);
      }
    }

    /** `AdicionarPacienteFilaView.form_valid`: a receptionist puts an existing patient in a queue. */
    method Enqueue(caller: Caller, patient: PatientId, physician: Option<PhysicianId>,
                   notes: Option<string>, now: Time) returns (r: Access<EnqueueOutcome>)
      requires Valid()
      modifies this`entries, this`nextEntryId
      ensures Valid()
      ensures r.Performed? && r.outcome.Enqueued? <==>
        && Receptionists in caller.groups && patient in PatientIds(old(patients))
        && (physician.Some? ==> physician.value in PhysicianIds(old(physicians)))
      ensures r == Forbidden <==> Receptionists !in caller.groups
      ensures r == NotFound <==> Receptionists in caller.groups && patient !in PatientIds(old(patients))
      ensures r.Performed? && r.outcome.Enqueued? ==>
        entries == old(entries) + [NewEntry(r.outcome.entry, patient, physician, notes, now)]
        && r.outcome.entry !in set e | e in old(entries) :: e.id
      ensures !(r.Performed? && r.outcome.Enqueued?) ==> entries == old(entries)
      ensures Progressed(old(entries), entries)
      ensures old(Timely(now)) ==> Timely(now)
    {
      KeepRows(entries, entries);
      if Receptionists !in caller.groups {
        return Forbidden;
      }
      if FindPatient(patients, patient).None? {
        return NotFound;
      }
      if physician.Some? && FindPhysician(physicians, physician.value).None? {
        return Performed(InvalidPhysician);
      }
      var id := AppendEntry(patient, physician, notes, now);
      r := Performed(Enqueued(id));
    }

    /** Saves a new patient row with an empty clinical history; the caller has checked that the health card is free. */
    method AddPatient(form: PatientForm) returns (pid: PatientId)
      requires Valid()
      requires forall p :: p in patients ==> p.healthCard != form.healthCard
      modifies this`patients, this`nextPatientId
      ensures Valid()
      ensures pid == old(nextPatientId) && pid !in PatientIds(old(patients))
      ensures patients == old(patients) + [Patient(pid, form.fullName, form.birthDate, form.age, form.motherName,
                                                   form.healthCard, form.healthPlan, NoClinicalHistory)]
      ensures PatientIds(patients) == PatientIds(old(patients)) + {pid}
    {
      pid := nextPatientId;
      var patient := Patient(pid, form.fullName, form.birthDate, form.age, form.motherName,
                             form.healthCard, form.healthPlan, NoClinicalHistory);
      ghost var before := patients;
      patients := patients + [patient];
      nextPatientId := nextPatientId + 1;
      forall i, j | 0 <= i < j < |patients|
        ensures PatientKey(patients[i]) != PatientKey(patients[j])
        ensures HealthCardKey(patients[i]) != HealthCardKey(patients[j])
      {
        if j < |before| {
          assert PatientKey(before[i]) != PatientKey(before[j]);
          assert HealthCardKey(before[i]) != HealthCardKey(before[j]);
        } else {
          assert before[i] in before;
        }
      }
      assert PatientIds(patients) == PatientIds(before) + {pid};
      forall e | e in entries ensures References(e, patients, physicians) {
        assert References(e, before, physicians);
      }
    }

    /**
     * `PacienteCreateView.form_valid`: a receptionist registers a patient and,
     * when a physician is named, puts the patient in that physician's queue.
     * The patient is saved even when the queueing part fails.
     */
    method RegisterPatient(caller: Caller, form: PatientForm, physicianParam: IdParam, now: Time)
      returns (r: Access<RegisterOutcome>)
      requires Valid()
      modifies this`patients, this`nextPatientId, this`entries, this`nextEntryId
      ensures Valid()
      ensures r != NotFound
      ensures r == Forbidden <==> Receptionists !in caller.groups
      ensures r == Performed(DuplicateHealthCard) <==>
        Receptionists in caller.groups && exists p :: p in old(patients) && p.healthCard == form.healthCard
      ensures r.Performed? && r.outcome.Registered? ==>
        var pid := r.outcome.patient;
        && pid !in PatientIds(old(patients))
        && patients == old(patients) + [Patient(pid, form.fullName, form.birthDate, form.age, form.motherName,
                                                form.healthCard, form.healthPlan, NoClinicalHistory)]
        && match r.outcome.queue
           case Queued(id) =>
             && physicianParam.Id? && physicianParam.n >= 0 && physicianParam.n in PhysicianIds(old(physicians))
             && entries == old(entries) + [NewEntry(id, pid, Some(physicianParam.n), None, now)]
           case NotRequested => physicianParam == NoParam && entries == old(entries)
           case UnknownPhysician =>
             && physicianParam.Id? && !(physicianParam.n >= 0 && physicianParam.n in PhysicianIds(old(physicians)))
             && entries == old(entries)
           case QueueingFailed => physicianParam == Unparsable && entries == old(entries)
      ensures !(r.Performed? && r.outcome.Registered?) ==> patients == old(patients) && entries == old(entries)
      ensures physicians == old(physicians)
      ensures Progressed(old(entries), entries)
      ensures old(Timely(now)) ==> Timely(now)
    {
      KeepRows(entries, entries);
      if Receptionists !in caller.groups {
        return Forbidden;
      }
      if exists p :: p in patients && p.healthCard == form.healthCard {
        return Performed(DuplicateHealthCard);
      }
      var pid := AddPatient(form);
      match physicianParam {
        case NoParam =>
          r := Performed(Registered(pid, NotRequested));
        case Unparsable =>
          r := Performed(Registered(pid, QueueingFailed));
        case Id(n) =>
          if n >= 0 && FindPhysician(physicians, n).Some? {
            var id := AppendEntry(pid, Some(n), None, now);
            r := Performed(Registered(pid, Queued(id)));
          } else {
            r := Performed(Registered(pid, UnknownPhysician));
          }
      }
    }

    /** Adding a physician profile: the CRM must be unused and the user account must not have a profile yet. */
    method AddPhysician(user: UserId, specialty: string, crm: string, phone: Option<string>, email: Option<string>)
      returns (r: AddPhysicianOutcome)
      requires Valid()
      modifies this`physicians, this`nextPhysicianId
      ensures Valid()
      ensures r.PhysicianRejected? <==>
        exists m :: m in old(physicians) && (m.crm == crm || m.user == user)
      ensures r.PhysicianRejected? ==>
        && physicians == old(physicians)
        && (r.crmTaken <==> exists m :: m in old(physicians) && m.crm == crm)
        && (r.userTaken <==> exists m :: m in old(physicians) && m.user == user)
      ensures r.PhysicianAdded? ==>
        && r.physician !in PhysicianIds(old(physicians))
        && physicians == old(physicians) + [Physician(r.physician, user, specialty, crm, phone, email)]
    {
      var crmTaken := exists m :: m in physicians && m.crm == crm;
      var userTaken := exists m :: m in physicians && m.user == user;
      if crmTaken || userTaken {
        return PhysicianRejected(crmTaken, userTaken);
      }
      var mid := nextPhysicianId;
      ghost var before := physicians;
      physicians := physicians + [Physician(mid, user, specialty, crm, phone, email)];
      nextPhysicianId := nextPhysicianId + 1;
      forall i, j | 0 <= i < j < |physicians|
        ensures PhysicianKey(physicians[i]) != PhysicianKey(physicians[j])
        ensures CrmKey(physicians[i]) != CrmKey(physicians[j])
        ensures UserKey(physicians[i]) != UserKey(physicians[j])
      {
        if j < |before| {
          assert PhysicianKey(before[i]) != PhysicianKey(before[j]);
          assert CrmKey(before[i]) != CrmKey(before[j]);
          assert UserKey(before[i]) != UserKey(before[j]);
        } else {
          assert before[i] in before;
        }
      }
      assert PhysicianIds(physicians) == PhysicianIds(before) + {mid};
      r := PhysicianAdded(mid);
    }

    /** `PacienteDeleteView`: deleting a patient deletes every queue entry of that patient (ON DELETE CASCADE). */
    method DeletePatient(caller: Caller, pid: PatientId) returns (r: Access<nat>)
      requires Valid()
      modifies this`patients, this`entries
      ensures Valid()
      ensures r == Forbidden <==> Receptionists !in caller.groups
      ensures r == NotFound <==> Receptionists in caller.groups && pid !in PatientIds(old(patients))
      ensures !r.Performed? ==> patients == old(patients) && entries == old(entries)
      ensures r.Performed? ==>
        && PatientIds(patients) == PatientIds(old(patients)) - {pid}
        && (forall p :: p in patients <==> p in old(patients) && p.id != pid)
        && (forall e :: e in entries <==> e in old(entries) && e.patient != pid)
        && r.outcome == |old(entries)| - |entries|
      ensures Progressed(old(entries), entries)
      ensures forall now :: old(Timely(now)) ==> Timely(now)
    {
      KeepRows(entries, entries);
      if Receptionists !in caller.groups {
        return Forbidden;
      }
      if FindPatient(patients, pid).None? {
        return NotFound;
      }
      var count := |entries|;
      CascadePatient(patients, physicians, entries, nextPatientId, nextPhysicianId, nextEntryId, pid);
      patients := Filter(patients, KeepPatient(pid));
      entries := Filter(entries, NotOfPatient(pid));
      r := Performed(count - |entries|);
    }

    /** Deleting a physician keeps the physician's entries but clears their physician (ON DELETE SET NULL). */
    method DeletePhysician(mid: PhysicianId) returns (found: bool)
      requires Valid()
      modifies this`physicians, this`entries
      ensures Valid()
      ensures found <==> mid in PhysicianIds(old(physicians))
      ensures PhysicianIds(physicians) == PhysicianIds(old(physicians)) - {mid}
      ensures forall m :: m in physicians <==> m in old(physicians) && m.id != mid
      ensures |entries| == |old(entries)|
      ensures forall i :: 0 <= i < |entries| ==>
        entries[i] == if old(entries)[i].physician == Some(mid) then old(entries)[i].(physician := None)
                      else old(entries)[i]
      ensures forall e :: e in entries ==> e.physician != Some(mid)
      ensures Progressed(old(entries), entries)
      ensures forall now :: old(Timely(now)) ==> Timely(now)
    {
      found := FindPhysician(physicians, mid).Some?;
      DetachPhysicianRows(patients, physicians, entries, nextPatientId, nextPhysicianId, nextEntryId, mid);
      physicians := Filter(physicians, KeepPhysician(mid));
      entries := DetachPhysician(entries, mid);
    }
  }

  /** Some position at which `x` occurs in `s`. */
  ghost function IndexIn<T>(s: seq<T>, x: T): (i: nat)
    requires x in s
    ensures i < |s| && s[i] == x
  {
    var i :| 0 <= i < |s| && s[i] == x; i
  }
}
