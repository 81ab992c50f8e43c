/**
 * The three tables of the clinic's queue: patients (Paciente), physicians
 * (Medico) and queue entries (FilaAtendimento), with the status vocabulary,
 * the field defaults, the uniqueness rules and the default ordering that
 * the schema declares.
 */
module Models {
  import opened Options
  import opened Sorting
  import opened Text

  /** Clock readings; `timezone.now()` is passed in as a value of this type. */
  type Time = int
  type PatientId = nat
  type PhysicianId = nat
  type EntryId = nat
  type UserId = nat

  /** The four statuses of a queue entry. */
  datatype Status = Waiting | InProgress | Done | Cancelled

  /** The code stored in the status column. */
  function Code(s: Status): string {
    match s
    case Waiting => "AGUARDANDO"
    case InProgress => "EM_ATENDIMENTO"
    case Done => "ATENDIDO"
    case Cancelled => "CANCELADO"
  }

  /** The human-readable label (`get_status_display()`). */
  function Label(s: Status): string {
    match s
    case Waiting => "Aguardando"
    case InProgress => "Em Atendimento"
    case Done => "Atendido"
    case Cancelled => "Cancelado"
  }

  /** Reads a stored status code back; only the four declared choices are accepted. */
  function StatusOfCode(c: string): (r: Option<Status>)
    ensures r.Some? ==> Code(r.value) == c
    ensures r.None? ==> forall s: Status :: Code(s) != c
  {
    if c == "AGUARDANDO" then Some(Waiting)
    else if c == "EM_ATENDIMENTO" then Some(InProgress)
    else if c == "ATENDIDO" then Some(Done)
    else if c == "CANCELADO" then Some(Cancelled)
    else None
  }

  /** Every status round-trips through its code, and distinct statuses have distinct labels. */
  lemma StatusTable(s: Status, t: Status)
    ensures StatusOfCode(Code(s)) == Some(s)
    ensures s != t ==> Code(s) != Code(t) && Label(s) != Label(t)
  {
  }

  datatype ClinicalHistory = ClinicalHistory(
    chiefComplaint: Option<string>,
    onset: Option<string>,
    painLocation: Option<string>,
    painCharacteristics: Option<string>,
    progression: Option<string>,
    allergies: Option<string>,
    preexistingConditions: Option<string>)

  datatype Patient = Patient(
    id: PatientId,
    fullName: string,
    birthDate: int,
    age: Option<int>,
    motherName: string,
    healthCard: string,
    healthPlan: Option<string>,
    clinical: ClinicalHistory)

  datatype Physician = Physician(
    id: PhysicianId,
    user: UserId,
    specialty: string,
    crm: string,
    phone: Option<string>,
    email: Option<string>)

  datatype Entry = Entry(
    id: EntryId,
    patient: PatientId,
    physician: Option<PhysicianId>,
    status: Status,
    arrival: Time,
    called: Option<Time>,
    finished: Option<Time>,
    notes: Option<string>,
    exams: Option<seq<string>>,
    otherExam: Option<string>,
    evolution: Option<string>,
    conduct: Option<string>)

  /** A new queue entry: the column defaults of the schema, arrival stamped with the creation time. */
  function NewEntry(id: EntryId, patient: PatientId, physician: Option<PhysicianId>,
                    notes: Option<string>, now: Time): (e: Entry)
    ensures e.id == id && e.patient == patient && e.physician == physician && e.notes == notes
    ensures e.status == Waiting && e.arrival == now && e.called.None? && e.finished.None?
    ensures e.exams.None? && e.otherExam.None? && e.evolution.None? && e.conduct.None?
    ensures StatusConsistent(e) && Chronological(e) && NotAfter(e, now)
  {
    Entry(id, patient, physician, Waiting, now, None, None, notes, None, None, None, None)
  }

  /** Which timestamps each status carries. */
  predicate StatusConsistent(e: Entry) {
    match e.status
    case Waiting => e.finished.None?
    case InProgress => e.called.Some? && e.finished.None?
    case Done => e.called.Some? && e.finished.Some?
    case Cancelled => true
  }

  /** arrival <= called <= finished, for those that are set. */
  predicate Chronological(e: Entry) {
    && (e.called.Some? ==> e.arrival <= e.called.value)
    && (e.finished.Some? ==> e.arrival <= e.finished.value)
    && (e.called.Some? && e.finished.Some? ==> e.called.value <= e.finished.value)
  }

  /** No timestamp of `e` lies after `now`: the clock has not gone backwards since `e` was last written. */
  predicate NotAfter(e: Entry, now: Time) {
    && e.arrival <= now
    && (e.called.Some? ==> e.called.value <= now)
    && (e.finished.Some? ==> e.finished.value <= now)
  }

  /** The moves the status may make: forward through the workflow, never back. */
  predicate StatusStep(s: Status, t: Status) {
    s == t || (s == Waiting && (t == InProgress || t == Done)) || (s == InProgress && t == Done)
  }

  // ---- Keys and uniqueness ----

  function PatientKey(p: Patient): PatientId { p.id }
  function HealthCardKey(p: Patient): string { p.healthCard }
  function PhysicianKey(m: Physician): PhysicianId { m.id }
  function CrmKey(m: Physician): string { m.crm }
  function UserKey(m: Physician): UserId { m.user }
  function EntryKey(e: Entry): EntryId { e.id }

  /** Primary keys and the unique health-card column. */
  predicate PatientsUnique(ps: seq<Patient>) {
    DistinctKeys(ps, PatientKey) && DistinctKeys(ps, HealthCardKey)
  }

  /** Primary keys, the unique CRM column and the one-to-one link to a user account. */
  predicate PhysiciansUnique(ms: seq<Physician>) {
    DistinctKeys(ms, PhysicianKey) && DistinctKeys(ms, CrmKey) && DistinctKeys(ms, UserKey)
  }

  function PatientIds(ps: seq<Patient>): set<PatientId> {
    set p | p in ps :: p.id
  }

  function PhysicianIds(ms: seq<Physician>): set<PhysicianId> {
    set m | m in ms :: m.id
  }

  /** The foreign keys of `e` point at existing rows. */
  predicate References(e: Entry, ps: seq<Patient>, ms: seq<Physician>) {
    e.patient in PatientIds(ps) && (e.physician.Some? ==> e.physician.value in PhysicianIds(ms))
  }

  // ---- Lookups by key ----

  function FindPatient(ps: seq<Patient>, id: PatientId): (r: Option<Patient>)
    ensures r.Some? ==> r.value in ps && r.value.id == id
    ensures r.None? <==> id !in PatientIds(ps)
  {
    if ps == [] then None
    else if ps[0].id == id then Some(ps[0])
    else
      var r := FindPatient(ps[1..], id);
      assert PatientIds(ps) == {ps[0].id} + PatientIds(ps[1..]) by {
        assert ps == [ps[0]] + ps[1..];
      }
      r
  }

  function FindPhysician(ms: seq<Physician>, id: PhysicianId): (r: Option<Physician>)
    ensures r.Some? ==> r.value in ms && r.value.id == id
    ensures r.None? <==> id !in PhysicianIds(ms)
  {
    if ms == [] then None
    else if ms[0].id == id then Some(ms[0])
    else
      var r := FindPhysician(ms[1..], id);
      assert PhysicianIds(ms) == {ms[0].id} + PhysicianIds(ms[1..]) by {
        assert ms == [ms[0]] + ms[1..];
      }
      r
  }

  /** `request.user.medico`: the physician bound to a user account, if any. */
  function PhysicianOfUser(ms: seq<Physician>, user: UserId): (r: Option<Physician>)
    ensures r.Some? ==> r.value in ms && r.value.user == user
    ensures r.None? ==> forall m :: m in ms ==> m.user != user
  {
    if ms == [] then None
    else if ms[0].user == user then Some(ms[0])
    else PhysicianOfUser(ms[1..], user)
  }

  /** The position of the entry with primary key `id`. */
  function FindEntry(es: seq<Entry>, id: EntryId): (r: Option<nat>)
    ensures r.Some? ==> r.value < |es| && es[r.value].id == id
    ensures r.None? ==> forall e :: e in es ==> e.id != id
  {
    if es == [] then None
    else if es[0].id == id then Some(0)
    else
      match FindEntry(es[1..], id)
      case None => None
      case Some(k) => Some(k + 1)
  }

  // ---- Orderings ----

  /** `order_by('data_hora_chegada')`, also the table's default ordering. */
  function ArrivalLe(a: Entry, b: Entry): bool {
    a.arrival <= b.arrival
  }

  /** `order_by('data_hora_chamada')`; an unset time sorts first, as NULL does in SQLite. */
  function CalledLe(a: Entry, b: Entry): bool {
    a.called.None? || (b.called.Some? && a.called.value <= b.called.value)
  }

  /** `order_by('-data_hora_chamada')`. */
  function CalledDescLe(a: Entry, b: Entry): bool {
    CalledLe(b, a)
  }

  /** `order_by('-status', 'data_hora_chegada')`: status code descending, then arrival. */
  function StatusDescArrivalLe(a: Entry, b: Entry): bool {
    if Code(a.status) == Code(b.status) then a.arrival <= b.arrival
    else StrLe(Code(b.status), Code(a.status))
  }

  /** `order_by('nome_completo')`. */
  function NameLe(a: Patient, b: Patient): bool {
    StrLe(a.fullName, b.fullName)
  }

  lemma OrderingsArePreorders()
    ensures TotalPreorder(ArrivalLe)
    ensures TotalPreorder(CalledLe)
    ensures TotalPreorder(CalledDescLe)
    ensures TotalPreorder(StatusDescArrivalLe)
    ensures TotalPreorder(NameLe)
  {
    forall a: Entry, b: Entry ensures StatusDescArrivalLe(a, b) || StatusDescArrivalLe(b, a) {
      StrLeTotal(Code(a.status), Code(b.status));
    }
    forall a: Entry, b: Entry, c: Entry | StatusDescArrivalLe(a, b) && StatusDescArrivalLe(b, c)
      ensures StatusDescArrivalLe(a, c)
    {
      var ca, cb, cc := Code(a.status), Code(b.status), Code(c.status);
      if ca != cb && cb != cc {
        StrLeTransitive(cc, cb, ca);
        if ca == cc { StrLeAntisymmetric(ca, cb); }
      } else if ca != cb || cb != cc {
        if ca == cc { StrLeAntisymmetric(ca, cb); }
      }
    }
    forall a: Patient, b: Patient ensures NameLe(a, b) || NameLe(b, a) {
      StrLeTotal(a.fullName, b.fullName);
    }
    forall a: Patient, b: Patient, c: Patient | NameLe(a, b) && NameLe(b, c)
      ensures NameLe(a, c)
    {
      StrLeTransitive(a.fullName, b.fullName, c.fullName);
    }
  }

  /** "EM_ATENDIMENTO" sorts after "AGUARDANDO", so a descending sort on the code puts entries in service first. */
  lemma InProgressSortsFirst(a: Entry, b: Entry)
    requires a.status == InProgress && b.status == Waiting
    ensures StatusDescArrivalLe(a, b) && !StatusDescArrivalLe(b, a)
  {
    assert Code(a.status)[0] == 'E' && Code(b.status)[0] == 'A';
  }

  /** The default listing of the queue table: every entry once, by ascending arrival. */
  function DefaultListing(es: seq<Entry>): (r: seq<Entry>)
    ensures multiset(r) == multiset(es)
    ensures SortedBy(r, ArrivalLe)
  {
    OrderingsArePreorders();
    SortBySorted(es, ArrivalLe);
    SortBy(es, ArrivalLe)
  }
}
