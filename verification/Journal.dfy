/**
 * The durable job journal: one persistent row per request, moved by `admit`, `start`, `finish` and
 * `recover`, each a transaction that either commits whole or leaves the store as it was. The operations
 * are functions on the store here; the class at the end is the journal over a connection, proved
 * against them.
 */
module Journal {
  import opened Options

  /** The refusals, by kind. */
  datatype Error =
    | StoreError | StoppedError | AdmissionBusyError | RecordError | VersionError | RequestError
    | GenerationError | JobError | ConflictError | CapacityError | TransitionError

  datatype Result<+T> = Ok(value: T) | Err(error: Error)

  const VERSION: nat := 1

  datatype State = Queued | Running | Completed | Refused | Failed | Uncertain {
    predicate Terminal()
    {
      !Queued? && !Running?
    }
  }

  /** A stored failure: the two the runtime itself writes, by name, and whatever a job reports. */
  datatype Failure = ResumeRequired | HostPanic(message: string) | Reported(kind: string, message: string)

  /** A submitted document: its whole text, and the request fields when it has exactly those. */
  datatype Payload =
    | Malformed(text: string)
    | Request(text: string, version: nat, requestId: string, generation: string, role: string, job: string,
              optionsIsObject: bool)

  datatype Record = Record(
    version: nat, requestId: string, instance: string, payload: Payload, state: State,
    observedSeq: nat, committedSeq: nat, result: Option<string>, error: Option<Failure>)

  /** A row under the journal's prefix, keyed by what follows the prefix; its text may not parse. */
  datatype Row = Unreadable | Json(record: Record)

  /** What the owner's connection holds: the job rows, and the highest event sequence number. */
  datatype Store = Store(rows: map<string, Row>, head: nat)

  datatype Config = Config(role: string, generation: string, instance: string, jobs: set<string>, limit: nat)

  /** How the connection answers a transaction. */
  datatype Link = Ready | Poisoned | Closed | Busy | CommitFails

  predicate IdentifierChar(c: char)
  {
    'a' <= c <= 'z' || 'A' <= c <= 'Z' || '0' <= c <= '9' || c in "_.:-"
  }

  predicate Identifier(s: string)
  {
    0 < |s| <= 128 && forall i :: 0 <= i < |s| ==> IdentifierChar(s[i])
  }

  function Decode(row: Row, key: string): (r: Result<Record>)
  {
    match row
    case Unreadable => Err(RecordError)
    case Json(record) =>
      if record.version != VERSION then Err(VersionError)
      else if !Identifier(record.requestId) || key != record.requestId then Err(RecordError)
      else Ok(record)
  }

  function Load(rows: map<string, Row>, id: string): (r: Result<Option<Record>>)
  {
    if id !in rows then Ok(None)
    else match Decode(rows[id], id)
      case Err(e) => Err(e)
      case Ok(record) => Ok(Some(record))
  }

  // --- the transactions ----------------------------------------------------------------------

  /** The refusal that stops a transaction before it starts. */
  function Gate(link: Link): (e: Option<Error>)
  {
    match link
    case Poisoned => Some(StoreError)
    case Closed => Some(StoppedError)
    case Busy => Some(AdmissionBusyError)
    case _ => None
  }

  /** The end of a transaction whose operation succeeded. */
  function Commit<T>(link: Link, value: T, before: Store, after: Store): (r: (Result<T>, Store))
  {
    if link.CommitFails? then (Err(StoreError), before) else (Ok(value), after)
  }

  /** The checks of a submission that need no store. */
  function Admissible(cfg: Config, payload: Payload): (e: Option<Error>)
  {
    match payload
    case Malformed(_) => Some(RequestError)
    case Request(_, version, id, generation, role, job, optionsIsObject) =>
      if version != VERSION then Some(VersionError)
      else if !Identifier(id) || !optionsIsObject then Some(RequestError)
      else if role != cfg.role || generation != cfg.generation then Some(GenerationError)
      else if job !in cfg.jobs then Some(JobError)
      else None
  }

  function NewRecord(cfg: Config, payload: Payload, head: nat): Record
    requires payload.Request?
  {
    Record(VERSION, payload.requestId, cfg.instance, payload, Queued, head, head, None, None)
  }

  /** `admit`: a new record, or the persisted one for an exact duplicate. */
  function Admit(cfg: Config, link: Link, payload: Payload, st: Store): (r: (Result<(Record, bool)>, Store))
  {
    if Admissible(cfg, payload).Some? then (Err(Admissible(cfg, payload).value), st)
    else if Gate(link).Some? then (Err(Gate(link).value), st)
    else
      match Load(st.rows, payload.requestId)
      case Err(e) => (Err(e), st)
      case Ok(Some(record)) =>
        if record.payload != payload then (Err(ConflictError), st) else Commit(link, (record, false), st, st)
      case Ok(None) =>
        if |st.rows| >= cfg.limit then (Err(CapacityError), st)
        else
          var record := NewRecord(cfg, payload, st.head);
          Commit(link, (record, true), st, st.(rows := st.rows[payload.requestId := Json(record)]))
  }

  /** `get`. */
  function Get(link: Link, id: string, st: Store): (r: Result<Option<Record>>)
  {
    if !Identifier(id) then Err(RequestError)
    else if link.Poisoned? then Err(StoreError)
    else if link.Closed? then Err(StoppedError)
    else Load(st.rows, id)
  }

  /** `start`: only this instance's queued admission. */
  function Start(cfg: Config, link: Link, id: string, st: Store): (r: (Result<Record>, Store))
  {
    if Gate(link).Some? then (Err(Gate(link).value), st)
    else
      match Load(st.rows, id)
      case Err(e) => (Err(e), st)
      case Ok(None) => (Err(JobError), st)
      case Ok(Some(record)) =>
        if record.state != Queued || record.instance != cfg.instance then (Err(TransitionError), st)
        else
          var started := record.(state := Running, observedSeq := st.head);
          Commit(link, started, st, st.(rows := st.rows[id := Json(started)]))
  }

  /** Whether a completion carries exactly what its state needs. */
  predicate Complete(state: State, result: Option<string>, error: Option<Failure>)
  {
    state.Terminal() && (if state == Completed then result.Some? && error.None? else error.Some?)
  }

  /** `finish`: only this instance's running job. */
  function Finish(cfg: Config, link: Link, id: string, state: State, result: Option<string>, error: Option<Failure>,
                  st: Store): (r: (Result<Record>, Store))
  {
    if !Complete(state, result, error) then (Err(TransitionError), st)
    else if Gate(link).Some? then (Err(Gate(link).value), st)
    else
      match Load(st.rows, id)
      case Err(e) => (Err(e), st)
      case Ok(None) => (Err(JobError), st)
      case Ok(Some(record)) =>
        if record.state != Running || record.instance != cfg.instance then (Err(TransitionError), st)
        else
          var done := record.(state := state, result := result, error := error, committedSeq := st.head);
          Commit(link, done, st, st.(rows := st.rows[id := Json(done)]))
  }

  /** An unfinished record becomes uncertain; a terminal one is left alone. */
  function Resolve(record: Record, head: nat): Record
  {
    if record.state.Terminal() then record
    else record.(state := Uncertain, error := Some(ResumeRequired), committedSeq := head)
  }

  function ResolveRow(row: Row, head: nat): Row
  {
    if row.Json? then Json(Resolve(row.record, head)) else row
  }

  /** `order` is the query's listing of the rows: every key, once. */
  ghost predicate Lists(order: seq<string>, rows: map<string, Row>)
  {
    && (forall id :: id in order <==> id in rows)
    && forall i, j :: 0 <= i < j < |order| ==> order[i] != order[j]
  }

  ghost predicate AllDecode(rows: map<string, Row>)
  {
    forall id :: id in rows ==> Decode(rows[id], id).Ok?
  }

  /** The first row of the listing that does not decode stops the recovery. */
  function FirstError(order: seq<string>, rows: map<string, Row>): (e: Option<Error>)
    requires forall id :: id in order ==> id in rows
  {
    if order == [] then None
    else match Decode(rows[order[0]], order[0])
      case Err(e) => Some(e)
      case Ok(_) => FirstError(order[1..], rows)
  }

  function Resolved(row: Row, head: nat): (r: seq<Record>)
  {
    if row.Json? && !row.record.state.Terminal() then [Resolve(row.record, head)] else []
  }

  /** The records a recovery reports, in listing order. */
  function Unfinished(order: seq<string>, rows: map<string, Row>, head: nat): (r: seq<Record>)
    requires forall id :: id in order ==> id in rows
  {
    if order == [] then []
    else
      var last := |order| - 1;
      Unfinished(order[..last], rows, head) + Resolved(rows[order[last]], head)
  }

  /** `recover`: every unfinished record, whatever its instance, becomes uncertain. */
  function Recover(link: Link, order: seq<string>, st: Store): (r: (Result<seq<Record>>, Store))
    requires Lists(order, st.rows)
  {
    if Gate(link).Some? then (Err(Gate(link).value), st)
    else if FirstError(order, st.rows).Some? then (Err(FirstError(order, st.rows).value), st)
    else
      Commit(link, Unfinished(order, st.rows, st.head), st,
             st.(rows := map id | id in st.rows :: ResolveRow(st.rows[id], st.head)))
  }

  // --- what every transaction keeps ---------------------------------------------------------------

  predicate SameJob(a: Record, b: Record)
  {
    a.version == b.version && a.requestId == b.requestId && a.instance == b.instance && a.payload == b.payload
  }

  /** The moves one transaction may make on a record's state. */
  predicate LegalMove(a: State, b: State)
  {
    (a == Queued && (b == Running || b == Uncertain)) || (a == Running && b.Terminal())
  }

  predicate RowMoves(id: string, a: Row, b: Row)
  {
    || a == b
    || (Decode(a, id).Ok? && Decode(b, id).Ok? && SameJob(a.record, b.record) && LegalMove(a.record.state, b.record.state))
  }

  /** One transaction's effect: rows only move, and at most one queued admission is added. */
  ghost predicate Moves(s: Store, t: Store)
  {
    && s.head == t.head
    && (forall id :: id in s.rows ==> id in t.rows && RowMoves(id, s.rows[id], t.rows[id]))
    && (forall id :: id in t.rows && id !in s.rows ==>
          Decode(t.rows[id], id).Ok? && t.rows[id].record.state == Queued
          && t.rows[id].record.result == None && t.rows[id].record.error == None
          && t.rows[id].record.observedSeq == t.rows[id].record.committedSeq == s.head)
  }

  lemma AdmitMoves(cfg: Config, link: Link, payload: Payload, st: Store)
    ensures Moves(st, Admit(cfg, link, payload, st).1)
    ensures Admit(cfg, link, payload, st).0.Err? ==> Admit(cfg, link, payload, st).1 == st
  {
  }

  lemma StartMoves(cfg: Config, link: Link, id: string, st: Store)
    ensures Moves(st, Start(cfg, link, id, st).1)
    ensures Start(cfg, link, id, st).0.Err? ==> Start(cfg, link, id, st).1 == st
  {
  }

  lemma FinishMoves(cfg: Config, link: Link, id: string, state: State, result: Option<string>, error: Option<Failure>, st: Store)
    ensures Moves(st, Finish(cfg, link, id, state, result, error, st).1)
    ensures Finish(cfg, link, id, state, result, error, st).0.Err? ==> Finish(cfg, link, id, state, result, error, st).1 == st
  {
  }

  /** The rows of every other request are as they were. */
  ghost predicate OnlyAt(s: Store, t: Store, id: string)
  {
    s.head == t.head && forall other :: other != id ==>
      (other in t.rows <==> other in s.rows) && (other in s.rows ==> t.rows[other] == s.rows[other])
  }

  /** The store holds a readable record of this instance in that state under `id`. */
  predicate Ours(cfg: Config, st: Store, id: string, state: State)
  {
    id in st.rows && Decode(st.rows[id], id).Ok? && st.rows[id].record.state == state && st.rows[id].record.instance == cfg.instance
  }

  /** What an admission tells its caller: the request is stored with this payload, and nothing else changed. */
  ghost predicate AdmitTells(cfg: Config, payload: Payload, s: Store, t: Store, r: Result<(Record, bool)>)
  {
    match r
    case Err(_) => t == s
    case Ok((record, inserted)) =>
      && payload.Request? && OnlyAt(s, t, payload.requestId)
      && payload.requestId in t.rows && t.rows[payload.requestId] == Json(record)
      && record.requestId == payload.requestId && record.payload == payload
      && (inserted <==> payload.requestId !in s.rows) && (!inserted ==> t == s)
      && (inserted ==> record.state == Queued && record.instance == cfg.instance && |t.rows| == |s.rows| + 1 <= cfg.limit)
  }

  /** What a start tells its caller: this instance's queued record, and no other, is now running. */
  ghost predicate StartTells(cfg: Config, id: string, s: Store, t: Store, r: Result<Record>)
  {
    && OnlyAt(s, t, id) && (r.Err? ==> t == s)
    && (r.Ok? ==>
          && Ours(cfg, s, id, Queued) && Ours(cfg, t, id, Running) && t.rows[id] == Json(r.value)
          && r.value == s.rows[id].record.(state := Running, observedSeq := s.head))
  }

  /** What a finish tells its caller: this instance's running record, and no other, has this completion for good. */
  ghost predicate FinishTells(cfg: Config, id: string, state: State, result: Option<string>, error: Option<Failure>,
                              s: Store, t: Store, r: Result<Record>)
  {
    && OnlyAt(s, t, id) && (r.Err? ==> t == s)
    && (r.Ok? ==>
          && state.Terminal() && Ours(cfg, s, id, Running) && Ours(cfg, t, id, state) && t.rows[id] == Json(r.value)
          && (r.value.state, r.value.result, r.value.error, r.value.committedSeq) == (state, result, error, s.head)
          && r.value.observedSeq == s.rows[id].record.observedSeq && SameJob(r.value, s.rows[id].record))
  }

  /** An admission goes through exactly when the request is sound and either is stored with this payload or fits. */
  lemma AdmitIff(cfg: Config, link: Link, payload: Payload, st: Store)
    ensures var (r, t) := Admit(cfg, link, payload, st);
      && AdmitTells(cfg, payload, st, t, r)
      && (r.Ok? <==>
            && link.Ready? && Admissible(cfg, payload).None?
            && if payload.requestId in st.rows
               then Decode(st.rows[payload.requestId], payload.requestId).Ok? && st.rows[payload.requestId].record.payload == payload
               else |st.rows| < cfg.limit)
  {
  }

  /** A start goes through exactly for this instance's queued record, and then changes its state and what it observed. */
  lemma StartIff(cfg: Config, link: Link, id: string, st: Store)
    ensures var (r, t) := Start(cfg, link, id, st);
      StartTells(cfg, id, st, t, r) && (r.Ok? <==> link.Ready? && Ours(cfg, st, id, Queued))
  {
  }

  /** A finish goes through exactly for this instance's running record and a whole completion, which it records. */
  lemma FinishIff(cfg: Config, link: Link, id: string, state: State, result: Option<string>, error: Option<Failure>, st: Store)
    ensures var (r, t) := Finish(cfg, link, id, state, result, error, st);
      && FinishTells(cfg, id, state, result, error, st, t, r)
      && (r.Ok? <==> link.Ready? && Complete(state, result, error) && Ours(cfg, st, id, Running))
  {
  }

  /** A recovery goes through exactly when every row decodes, whatever order the rows are listed in. */
  lemma {:induction false} FirstErrorIff(order: seq<string>, rows: map<string, Row>)
    requires forall id :: id in order ==> id in rows
    ensures FirstError(order, rows).None? <==> forall id :: id in order ==> Decode(rows[id], id).Ok?
  {
    if order != [] {
      FirstErrorIff(order[1..], rows);
      assert forall id :: id in order <==> id == order[0] || id in order[1..];
    }
  }

  /** Resolving a readable row is one legal move, or none. */
  lemma ResolveMoves(id: string, row: Row, head: nat)
    requires Decode(row, id).Ok?
    ensures RowMoves(id, row, ResolveRow(row, head))
  {
  }

  lemma ResolvedMoves(st: Store, t: Store)
    requires AllDecode(st.rows) && t == st.(rows := map id | id in st.rows :: ResolveRow(st.rows[id], st.head))
    ensures Moves(st, t)
  {
    forall id | id in st.rows
      ensures RowMoves(id, st.rows[id], t.rows[id])
    {
      ResolveMoves(id, st.rows[id], st.head);
    }
  }

  /** A recovery refuses on one undecodable row, refuses whole, and otherwise makes only legal moves. */
  lemma RecoverMoves(link: Link, order: seq<string>, st: Store)
    requires Lists(order, st.rows)
    ensures Moves(st, Recover(link, order, st).1)
    ensures Recover(link, order, st).0.Err? ==> Recover(link, order, st).1 == st
    ensures !AllDecode(st.rows) ==> Recover(link, order, st).0.Err?
  {
    FirstErrorIff(order, st.rows);
    if Recover(link, order, st).0.Ok? {
      ResolvedMoves(st, Recover(link, order, st).1);
    }
  }

  /** After a recovery nothing is left queued or running. */
  lemma RecoverLeavesNone(link: Link, order: seq<string>, st: Store, id: string)
    requires Lists(order, st.rows) && Recover(link, order, st).0.Ok? && id in st.rows
    ensures var rows := Recover(link, order, st).1.rows;
      id in rows && Decode(rows[id], id).Ok? && rows[id].record.state.Terminal()
  {
    FirstErrorIff(order, st.rows);
  }

  // --- over many transactions ------------------------------------------------------------------------

  /** The states a record can be in after any number of moves. */
  predicate Reaches(a: State, b: State)
  {
    a == b || a == Queued || (a == Running && b.Terminal())
  }

  predicate RowEvolves(id: string, a: Row, b: Row)
  {
    || a == b
    || (Decode(a, id).Ok? && Decode(b, id).Ok? && SameJob(a.record, b.record)
        && !a.record.state.Terminal() && Reaches(a.record.state, b.record.state))
  }

  /** Any number of transactions and appended events: nothing removed, identity and terminal rows kept. */
  ghost predicate Evolves(s: Store, t: Store)
  {
    s.head <= t.head && forall id :: id in s.rows ==> id in t.rows && RowEvolves(id, s.rows[id], t.rows[id])
  }

  lemma MovesEvolve(s: Store, t: Store)
    requires Moves(s, t)
    ensures Evolves(s, t)
  {
    forall id | id in s.rows
      ensures id in t.rows && RowEvolves(id, s.rows[id], t.rows[id])
    {
      assert RowMoves(id, s.rows[id], t.rows[id]);
    }
  }

  lemma RowEvolvesTransitive(id: string, a: Row, b: Row, c: Row)
    requires RowEvolves(id, a, b) && RowEvolves(id, b, c)
    ensures RowEvolves(id, a, c)
  {
  }

  lemma EvolvesTransitive(s: Store, t: Store, u: Store)
    requires Evolves(s, t) && Evolves(t, u)
    ensures Evolves(s, u)
  {
    forall id | id in s.rows
      ensures id in u.rows && RowEvolves(id, s.rows[id], u.rows[id])
    {
      assert RowEvolves(id, s.rows[id], t.rows[id]) && RowEvolves(id, t.rows[id], u.rows[id]);
    }
  }

  // --- sequence stamps -------------------------------------------------------------------------------

  /** A record was observed, and committed, no later than now; a terminal one was observed first. */
  predicate Stamped(record: Record, head: nat)
  {
    && record.observedSeq <= head && record.committedSeq <= head
    && (record.state.Terminal() ==> record.observedSeq <= record.committedSeq)
  }

  ghost predicate AllStamped(st: Store)
  {
    forall id :: id in st.rows && st.rows[id].Json? ==> Stamped(st.rows[id].record, st.head)
  }

  lemma AdmitStamps(cfg: Config, link: Link, payload: Payload, st: Store)
    requires AllStamped(st)
    ensures AllStamped(Admit(cfg, link, payload, st).1)
  {
  }

  lemma StartStamps(cfg: Config, link: Link, id: string, st: Store)
    requires AllStamped(st)
    ensures AllStamped(Start(cfg, link, id, st).1)
  {
  }

  lemma FinishStamps(cfg: Config, link: Link, id: string, state: State, result: Option<string>, error: Option<Failure>, st: Store)
    requires AllStamped(st)
    ensures AllStamped(Finish(cfg, link, id, state, result, error, st).1)
  {
  }

  lemma RecoverStamps(link: Link, order: seq<string>, st: Store)
    requires AllStamped(st) && Lists(order, st.rows)
    ensures AllStamped(Recover(link, order, st).1)
  {
  }

  // --- admission and completion ---------------------------------------------------------------------

  /** The record count never passes the limit by an admission, and a refusal adds nothing. */
  lemma AdmitRespectsLimit(cfg: Config, link: Link, payload: Payload, st: Store)
    ensures var (r, t) := Admit(cfg, link, payload, st);
      if r.Ok? && r.value.1 then |t.rows| == |st.rows| + 1 && |t.rows| <= cfg.limit else t == st
  {
  }

  /**
   * Once a request has been admitted, at any later store: submitting it again, to this owner or another that
   * takes it, reports the record as it then stands and admits nothing, and another payload under its id is refused.
   */
  lemma ResubmissionReports(cfg: Config, link: Link, payload: Payload, st: Store, later: Store, other: Config, again: Payload)
    requires Admit(cfg, link, payload, st).0.Ok? && Evolves(Admit(cfg, link, payload, st).1, later)
    requires Admissible(other, again).None? && again.requestId == payload.requestId
    ensures var id := payload.requestId; var r := Admit(other, Ready, again, later);
      && r.1 == later && id in later.rows && later.rows[id].Json?
      && r.0 == if again == payload then Ok((later.rows[id].record, false)) else Err(ConflictError)
  {
    AdmitIff(cfg, link, payload, st);
    var t := Admit(cfg, link, payload, st).1;
    assert RowEvolves(payload.requestId, t.rows[payload.requestId], later.rows[payload.requestId]);
  }

  /** Once a record is terminal, no start and no finish touches it again, whoever asks. */
  lemma TerminalIsFinal(cfg: Config, link: Link, id: string, state: State, result: Option<string>, error: Option<Failure>, st: Store)
    requires id in st.rows && Decode(st.rows[id], id).Ok? && st.rows[id].record.state.Terminal()
    ensures Start(cfg, link, id, st).0.Err? && Start(cfg, link, id, st).1 == st
    ensures Finish(cfg, link, id, state, result, error, st).0.Err? && Finish(cfg, link, id, state, result, error, st).1 == st
  {
  }

  /** A finish that arrives after any instance has recovered is refused. */
  lemma LateFinishRefused(cfg: Config, link: Link, order: seq<string>, st: Store, later: Store,
                          id: string, state: State, result: Option<string>, error: Option<Failure>)
    requires Lists(order, st.rows) && Recover(link, order, st).0.Ok? && id in st.rows
    requires Evolves(Recover(link, order, st).1, later)
    ensures Finish(cfg, link, id, state, result, error, later).0.Err?
    ensures Start(cfg, link, id, later).0.Err?
  {
    RecoverLeavesNone(link, order, st, id);
    var rows := Recover(link, order, st).1.rows;
    assert RowEvolves(id, rows[id], later.rows[id]);
    TerminalIsFinal(cfg, link, id, state, result, error, later);
  }

  // --- the journal over a connection --------------------------------------------------------------------

  /** The rows once the listed ones have been resolved. */
  ghost predicate Swept(rows: map<string, Row>, stored: map<string, Row>, done: seq<string>, head: nat)
  {
    && rows.Keys == stored.Keys
    && forall id :: id in stored ==> rows[id] == if id in done then ResolveRow(stored[id], head) else stored[id]
  }

  lemma SweptAll(rows: map<string, Row>, stored: map<string, Row>, order: seq<string>, head: nat)
    requires Swept(rows, stored, order, head) && Lists(order, stored)
    ensures rows == map id | id in stored :: ResolveRow(stored[id], head)
  {
  }

  /** Saving the resolved row under `id` extends the swept part by `id`. */
  lemma SweepStep(rows: map<string, Row>, stored: map<string, Row>, done: seq<string>, id: string, head: nat)
    requires Swept(rows, stored, done, head) && id in stored
    ensures Swept(rows[id := ResolveRow(stored[id], head)], stored, done + [id], head)
    ensures ResolveRow(stored[id], head) == stored[id] ==> Swept(rows, stored, done + [id], head)
  {
  }

  lemma ListingStep(order: seq<string>, i: nat, stored: map<string, Row>, head: nat)
    requires i < |order| && forall id :: id in order ==> id in stored
    ensures order[..i + 1] == order[..i] + [order[i]]
    ensures FirstError(order[i..], stored)
      == var decoded := Decode(stored[order[i]], order[i]);
         if decoded.Err? then Some(decoded.error) else FirstError(order[i + 1..], stored)
    ensures Unfinished(order[..i + 1], stored, head)
      == Unfinished(order[..i], stored, head) + Resolved(stored[order[i]], head)
  {
    assert order[i..][0] == order[i] && order[i..][1..] == order[i + 1..] && order[..i + 1][..i] == order[..i];
  }

  /** One pass over the listing: decode each row, save each unfinished one as uncertain. */
  method Sweep(order: seq<string>, stored: map<string, Row>, head: nat)
    returns (e: Option<Error>, rows: map<string, Row>, recovered: seq<Record>)
    requires forall id :: id in order ==> id in stored
    ensures e == FirstError(order, stored)
    ensures e.None? ==> recovered == Unfinished(order, stored, head) && Swept(rows, stored, order, head)
  {
    e, rows, recovered := None, stored, [];
    var i := 0;
    while i < |order|
      invariant 0 <= i <= |order|
      invariant e.None? && FirstError(order, stored) == FirstError(order[i..], stored)
      invariant recovered == Unfinished(order[..i], stored, head)
      invariant Swept(rows, stored, order[..i], head)
    {
      var id := order[i];
      var row := stored[id];
      ListingStep(order, i, stored, head);
      var decoded := Decode(row, id);
      if decoded.Err? {
        return Some(decoded.error), rows, recovered;
      }
      SweepStep(rows, stored, order[..i], id, head);
      if !row.record.state.Terminal() {
        var record := row.record.(state := Uncertain, error := Some(ResumeRequired), committedSeq := head);
        rows := rows[id := Json(record)];
        recovered := recovered + [record];
      }
      i := i + 1;
    }
    assert order[..i] == order;
  }

  /** The owner's shared connection. */
  class Connection {
    var rows: map<string, Row>
    var head: nat
    var poisoned: bool
    var open: bool
    var batch: bool  // a job's own transaction is active

    constructor (rows: map<string, Row>, head: nat)
      ensures this.rows == rows && this.head == head && open && !poisoned && !batch
    {
      this.rows, this.head := rows, head;
      poisoned, open, batch := false, true, false;
    }

    function State(): (st: Store)
      reads this
    {
      Store(rows, head)
    }

    /** How a transaction that will commit, or fail to, is answered now. */
    function LinkOf(commits: bool): (l: Link)
      reads this
    {
      if poisoned then Poisoned else if !open then Closed else if batch then Busy
      else if commits then Ready else CommitFails
    }
  }

  class JobJournal {
    const connection: Connection
    const config: Config

    constructor (connection: Connection, config: Config)
      ensures this.connection == connection && this.config == config
    {
      this.connection := connection;
      this.config := config;
    }

    method AdmitJob(payload: Payload, commits: bool) returns (r: Result<(Record, bool)>)
      modifies connection`rows
      ensures (r, connection.State()) == old(Admit(config, connection.LinkOf(commits), payload, connection.State()))
      ensures AdmitTells(config, payload, old(connection.State()), connection.State(), r)
    {
      AdmitIff(config, connection.LinkOf(commits), payload, connection.State());
      var e := Admissible(config, payload);
      if e.Some? {
        return Err(e.value);
      }
      e := Gate(connection.LinkOf(commits));
      if e.Some? {
        return Err(e.value);
      }
      var loaded := Load(connection.rows, payload.requestId);
      if loaded.Err? {
        return Err(loaded.error);
      }
      if loaded.value.Some? {
        if loaded.value.value.payload != payload {
          return Err(ConflictError);
        }
        return if commits then Ok((loaded.value.value, false)) else Err(StoreError);
      }
      if |connection.rows| >= config.limit {
        return Err(CapacityError);
      }
      var record := NewRecord(config, payload, connection.head);
      if !commits {
        return Err(StoreError);
      }
      connection.rows := connection.rows[payload.requestId := Json(record)];
      r := Ok((record, true));
    }

    method StartJob(id: string, commits: bool) returns (r: Result<Record>)
      modifies connection`rows
      ensures (r, connection.State()) == old(Start(config, connection.LinkOf(commits), id, connection.State()))
      ensures StartTells(config, id, old(connection.State()), connection.State(), r)
    {
      StartIff(config, connection.LinkOf(commits), id, connection.State());
      var e := Gate(connection.LinkOf(commits));
      if e.Some? {
        return Err(e.value);
      }
      var loaded := Load(connection.rows, id);
      if loaded.Err? {
        return Err(loaded.error);
      }
      if loaded.value.None? {
        return Err(JobError);
      }
      var record := loaded.value.value;
      if record.state != Queued || record.instance != config.instance {
        return Err(TransitionError);
      }
      if !commits {
        return Err(StoreError);
      }
      record := record.(state := Running, observedSeq := connection.head);
      connection.rows := connection.rows[id := Json(record)];
      r := Ok(record);
    }

    method FinishJob(id: string, state: State, result: Option<string>, error: Option<Failure>, commits: bool)
      returns (r: Result<Record>)
      modifies connection`rows
      ensures (r, connection.State())
        == old(Finish(config, connection.LinkOf(commits), id, state, result, error, connection.State()))
      ensures FinishTells(config, id, state, result, error, old(connection.State()), connection.State(), r)
    {
      FinishIff(config, connection.LinkOf(commits), id, state, result, error, connection.State());
      if !state.Terminal() || (state == Completed && (result.None? || error.Some?)) || (state != Completed && error.None?) {
        return Err(TransitionError);
      }
      var e := Gate(connection.LinkOf(commits));
      if e.Some? {
        return Err(e.value);
      }
      var loaded := Load(connection.rows, id);
      if loaded.Err? {
        return Err(loaded.error);
      }
      if loaded.value.None? {
        return Err(JobError);
      }
      var record := loaded.value.value;
      if record.state != Running || record.instance != config.instance {
        return Err(TransitionError);
      }
      if !commits {
        return Err(StoreError);
      }
      record := record.(state := state, result := result, error := error, committedSeq := connection.head);
      connection.rows := connection.rows[id := Json(record)];
      r := Ok(record);
    }

    /** The sweep runs inside the transaction: an error, or a failed commit, drops all of it. */
    method RecoverJobs(order: seq<string>, commits: bool) returns (r: Result<seq<Record>>)
      requires Lists(order, connection.rows)
      modifies connection`rows
      ensures (r, connection.State()) == old(Recover(connection.LinkOf(commits), order, connection.State()))
    {
      var e := Gate(connection.LinkOf(commits));
      if e.Some? {
        return Err(e.value);
      }
      var error, rows, recovered := Sweep(order, connection.rows, connection.head);
      if error.Some? {
        return Err(error.value);
      }
      if !commits {
        return Err(StoreError);
      }
      SweptAll(rows, connection.rows, order, connection.head);
      connection.rows := rows;
      r := Ok(recovered);
    }
  }
}
