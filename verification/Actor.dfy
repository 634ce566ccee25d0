/**
 * The job actor as a state machine: any number of owners over one store, each with a worker thread, a
 * queue, concurrent submissions and a stop that may time out, plus one-shot inline owners, crashes at
 * any moment and recoveries by anyone. A journal call is one atomic step, because it is one transaction
 * under the connection's mutex; the environment chooses how the connection answers it.
 */
module Actor {
  import opened Options
  import opened Journal

  /** What the host says of one run; a panic is caught and becomes a failure. */
  datatype Outcome = Success(value: string) | Refusal(failure: Failure) | Failing(failure: Failure)

  function Parts(outcome: Outcome): (r: (State, Option<string>, Option<Failure>))
  {
    match outcome
    case Success(value) => (Completed, Some(value), None)
    case Refusal(failure) => (Refused, None, Some(failure))
    case Failing(failure) => (Failed, None, Some(failure))
  }

  /** Where the executing thread is. `Fresh` and `Recovered` are the inline owner's first two calls. */
  datatype Pc =
    | Fresh | Recovered
    | Top                                    // about to look at the stop flag
    | Go                                     // the flag was down; about to dequeue
    | Popped(id: string)                     // about to load the record
    | Loaded(id: string, record: Record)     // about to start it
    | Started(id: string, record: Record)    // about to call the host
    | Calling(id: string, call: nat)         // inside the host
    | Ran(id: string, call: nat, outcome: Outcome)  // about to record the outcome
    | Exited

  datatype Stopper = NoStop | Waiting | Closing

  datatype Owner = Owner(
    config: Config, inline: bool, live: bool,
    stopping: bool, handle: bool, stopper: Stopper, timedOut: bool, closed: bool,
    checked: nat,             // submissions past the stop check, not yet admitted
    admissions: nat,          // admissions attempted so far
    unpushed: seq<string>,    // inserted, not yet on the queue
    pushed: seq<string>,      // everything ever put on the queue
    popped: nat,              // how much of it has been taken off
    pc: Pc)
  {
    function Queue(): seq<string>
      requires popped <= |pushed|
    {
      pushed[popped..]
    }

    /** Where the thread goes when a job is over. */
    function Home(): Pc
    {
      if inline then Exited else Top
    }

    function Answer(link: Link): Link
    {
      if closed then Closed else link
    }
  }

  /** One call of the host, and what it returned if it has returned. */
  datatype Call = Call(owner: nat, position: nat, id: string, record: Record, outcome: Option<Outcome>)

  datatype World = World(store: Store, owners: map<nat, Owner>, calls: seq<Call>, acked: set<string>)

  datatype Step =
    | Spawn(k: nat, config: Config, inline: bool)
    | AppendEvent
    | SubmitCheck(k: nat) | SubmitAdmit(k: nat, payload: Payload, link: Link) | SubmitPush(k: nat, i: nat)
    | CheckStop(k: nat) | Pop(k: nat) | Fetch(k: nat, link: Link) | Begin(k: nat, link: Link)
    | Invoke(k: nat) | Return(k: nat, outcome: Outcome) | Conclude(k: nat, link: Link)
    | Reconcile(k: nat, link: Link, order: seq<string>)
    | InlineRecover(k: nat, link: Link, order: seq<string>) | InlineAdmit(k: nat, payload: Payload, link: Link)
    | StopBegin(k: nat) | StopJoined(k: nat) | StopTimeout(k: nat) | StopClose(k: nat)
    | Crash(k: nat)

  function NewOwner(config: Config, inline: bool): Owner
  {
    Owner(config, inline, true, false, !inline, NoStop, false, false, 0, 0, [], [], 0, if inline then Fresh else Top)
  }

  ghost predicate Live(w: World, k: nat)
  {
    k in w.owners && w.owners[k].live
  }

  /** When a step can happen. */
  ghost predicate Enabled(w: World, s: Step)
  {
    match s
    case Spawn(k, _, _) => k !in w.owners
    case AppendEvent => true
    case SubmitCheck(k) => Live(w, k) && !w.owners[k].inline && !w.owners[k].stopping
    case SubmitAdmit(k, _, _) => Live(w, k) && w.owners[k].checked > 0
    case SubmitPush(k, i) => Live(w, k) && i < |w.owners[k].unpushed|
    case CheckStop(k) => Live(w, k) && w.owners[k].pc.Top?
    case Pop(k) => Live(w, k) && w.owners[k].pc.Go?
    case Fetch(k, _) => Live(w, k) && w.owners[k].pc.Popped?
    case Begin(k, _) => Live(w, k) && w.owners[k].pc.Loaded?
    case Invoke(k) => Live(w, k) && w.owners[k].pc.Started? && w.owners[k].popped > 0
    case Return(k, _) => Live(w, k) && w.owners[k].pc.Calling? && w.owners[k].pc.call < |w.calls|
    case Conclude(k, _) => Live(w, k) && w.owners[k].pc.Ran?
    case Reconcile(k, _, order) => Live(w, k) && Lists(order, w.store.rows)
    case InlineRecover(k, _, order) => Live(w, k) && w.owners[k].pc.Fresh? && Lists(order, w.store.rows)
    case InlineAdmit(k, _, _) => Live(w, k) && w.owners[k].pc.Recovered?
    case StopBegin(k) => Live(w, k) && !w.owners[k].inline && w.owners[k].stopper.NoStop?
    case StopJoined(k) => Live(w, k) && w.owners[k].stopper.Waiting? && w.owners[k].pc.Exited?
    case StopTimeout(k) => Live(w, k) && w.owners[k].stopper.Waiting?
    case StopClose(k) => Live(w, k) && w.owners[k].stopper.Closing?
    case Crash(k) => Live(w, k)
  }

  function With(w: World, k: nat, o: Owner): World
  {
    w.(owners := w.owners[k := o])
  }

  /** `submit` after its check: the admission, acknowledged at once unless it must first be queued. */
  function DoSubmitAdmit(w: World, k: nat, payload: Payload, link: Link): World
    requires k in w.owners && w.owners[k].checked > 0
  {
    var (r, st) := Admit(w.owners[k].config, w.owners[k].Answer(link), payload, w.store);
    OnSubmitted(w, k, r, st)
  }

  function OnSubmitted(w: World, k: nat, r: Result<(Record, bool)>, st: Store): World
    requires k in w.owners && w.owners[k].checked > 0
  {
    var o := w.owners[k];
    var tried := o.(checked := o.checked - 1, admissions := o.admissions + 1);
    if r.Err? then With(w, k, tried)
    else if r.value.1 then With(w, k, tried.(unpushed := o.unpushed + [r.value.0.requestId])).(store := st)
    else With(w, k, tried).(acked := w.acked + {r.value.0.requestId})
  }

  function DoSubmitPush(w: World, k: nat, i: nat): World
    requires k in w.owners && i < |w.owners[k].unpushed|
  {
    var o := w.owners[k];
    var id := o.unpushed[i];
    With(w, k, o.(unpushed := o.unpushed[..i] + o.unpushed[i + 1..], pushed := o.pushed + [id]))
      .(acked := w.acked + {id})
  }

  /** Taking the front of the queue, or waiting when it is empty. */
  function Dequeued(o: Owner): Owner
  {
    if o.popped < |o.pushed| then o.(popped := o.popped + 1, pc := Popped(o.pushed[o.popped])) else o.(pc := Top)
  }

  function DoFetch(w: World, k: nat, link: Link): World
    requires k in w.owners && w.owners[k].pc.Popped?
  {
    OnFetched(w, k, Get(w.owners[k].Answer(link), w.owners[k].pc.id, w.store))
  }

  function OnFetched(w: World, k: nat, r: Result<Option<Record>>): World
    requires k in w.owners && w.owners[k].pc.Popped?
  {
    var o := w.owners[k];
    With(w, k, o.(pc := if r.Ok? && r.value.Some? then Loaded(o.pc.id, r.value.value) else o.Home()))
  }

  function DoBegin(w: World, k: nat, link: Link): World
    requires k in w.owners && w.owners[k].pc.Loaded?
  {
    var (r, st) := Start(w.owners[k].config, w.owners[k].Answer(link), w.owners[k].pc.id, w.store);
    OnBegun(w, k, r, st)
  }

  function OnBegun(w: World, k: nat, r: Result<Record>, st: Store): World
    requires k in w.owners && w.owners[k].pc.Loaded?
  {
    var o := w.owners[k];
    if r.Err? then With(w, k, o.(pc := o.Home()))
    else With(w, k, o.(pc := Started(o.pc.id, o.pc.record))).(store := st)
  }

  function DoInvoke(w: World, k: nat): World
    requires k in w.owners && w.owners[k].pc.Started? && w.owners[k].popped > 0
  {
    var o := w.owners[k];
    With(w, k, o.(pc := Calling(o.pc.id, |w.calls|)))
      .(calls := w.calls + [Call(k, o.popped - 1, o.pc.id, o.pc.record, None)])
  }

  function DoReturn(w: World, k: nat, outcome: Outcome): World
    requires k in w.owners && w.owners[k].pc.Calling? && w.owners[k].pc.call < |w.calls|
  {
    var o := w.owners[k];
    var call := o.pc.call;
    With(w, k, o.(pc := Ran(o.pc.id, call, outcome)))
      .(calls := w.calls[call := w.calls[call].(outcome := Some(outcome))])
  }

  function DoConclude(w: World, k: nat, link: Link): World
    requires k in w.owners && w.owners[k].pc.Ran?
  {
    var o := w.owners[k];
    var (state, result, error) := Parts(o.pc.outcome);
    With(w, k, o.(pc := o.Home()))
      .(store := Finish(o.config, o.Answer(link), o.pc.id, state, result, error, w.store).1)
  }

  function DoInlineRecover(w: World, k: nat, link: Link, order: seq<string>): World
    requires k in w.owners && Lists(order, w.store.rows)
  {
    var o := w.owners[k];
    var (r, st) := Recover(o.Answer(link), order, w.store);
    With(w, k, o.(pc := if r.Ok? then Recovered else Exited)).(store := st)
  }

  /** The inline owner executes what it has just inserted; an exact duplicate is only reported. */
  function DoInlineAdmit(w: World, k: nat, payload: Payload, link: Link): World
    requires k in w.owners
  {
    var (r, st) := Admit(w.owners[k].config, w.owners[k].Answer(link), payload, w.store);
    OnInlineAdmitted(w, k, r, st)
  }

  function OnInlineAdmitted(w: World, k: nat, r: Result<(Record, bool)>, st: Store): World
    requires k in w.owners
  {
    var o := w.owners[k];
    if r.Ok? && r.value.1 then With(w, k, TakenUp(o, r.value.0.requestId)).(store := st)
    else With(w, k, o.(pc := Exited))
  }

  /** Straight from insertion to execution, without a queue to wait on. */
  function TakenUp(o: Owner, id: string): Owner
  {
    o.(pushed := o.pushed + [id], popped := |o.pushed| + 1, pc := Popped(id))
  }

  /** `stop`: the first caller takes the thread's handle and waits; a later one finds no handle to wait for. */
  function DoStopBegin(w: World, k: nat): World
    requires k in w.owners
  {
    var o := w.owners[k];
    With(w, k, o.(stopping := true, handle := false, stopper := if o.handle then Waiting else Closing))
  }

  ghost function Apply(w: World, s: Step): World
    requires Enabled(w, s)
  {
    match s
    case Spawn(k, config, inline) => With(w, k, NewOwner(config, inline))
    case AppendEvent => w.(store := w.store.(head := w.store.head + 1))
    case SubmitCheck(k) => With(w, k, w.owners[k].(checked := w.owners[k].checked + 1))
    case SubmitAdmit(k, payload, link) => DoSubmitAdmit(w, k, payload, link)
    case SubmitPush(k, i) => DoSubmitPush(w, k, i)
    case CheckStop(k) => With(w, k, w.owners[k].(pc := if w.owners[k].stopping then Exited else Go))
    case Pop(k) => With(w, k, Dequeued(w.owners[k]))
    case Fetch(k, link) => DoFetch(w, k, link)
    case Begin(k, link) => DoBegin(w, k, link)
    case Invoke(k) => DoInvoke(w, k)
    case Return(k, outcome) => DoReturn(w, k, outcome)
    case Conclude(k, link) => DoConclude(w, k, link)
    case Reconcile(k, link, order) => w.(store := Recover(w.owners[k].Answer(link), order, w.store).1)
    case InlineRecover(k, link, order) => DoInlineRecover(w, k, link, order)
    case InlineAdmit(k, payload, link) => DoInlineAdmit(w, k, payload, link)
    case StopBegin(k) => DoStopBegin(w, k)
    case StopJoined(k) => With(w, k, w.owners[k].(stopper := Closing))
    case StopTimeout(k) => With(w, k, w.owners[k].(stopper := NoStop, timedOut := true))
    case StopClose(k) => With(w, k, w.owners[k].(stopper := NoStop, closed := true))
    case Crash(k) => With(w, k, w.owners[k].(live := false))
  }

  /** Everything starts with some store, and nobody running. */
  ghost predicate Init(w: World)
  {
    w.owners == map[] && w.calls == [] && w.acked == {}
  }

  ghost predicate Next(w: World, s: Step, t: World)
  {
    Enabled(w, s) && t == Apply(w, s)
  }

  /** A run: every step enabled where it is taken. */
  ghost predicate IsRun(worlds: seq<World>, steps: seq<Step>)
  {
    |worlds| == |steps| + 1 && forall i {:trigger steps[i]} :: 0 <= i < |steps| ==> Next(worlds[i], steps[i], worlds[i + 1])
  }

  // --- what a step can touch ----------------------------------------------------------------------

  ghost predicate Moved(w: World, t: World, k: nat)
  {
    k in t.owners && t.owners == w.owners[k := t.owners[k]]
  }

  /** Nothing in hand: no record loaded, and no call under way. */
  predicate Settled(pc: Pc)
  {
    !pc.Loaded? && !pc.Started? && !pc.Calling? && !pc.Ran?
  }

  /** A step of one owner that makes no host call and takes no record in hand. */
  ghost predicate Plain(w: World, t: World, k: nat)
  {
    && Moved(w, t, k) && t.calls == w.calls
    && ((k in w.owners && t.owners[k].pc == w.owners[k].pc) || Settled(t.owners[k].pc))
  }

  lemma StopPlain(w: World, s: Step)
    requires Enabled(w, s)
    requires s.Spawn? || s.CheckStop? || s.StopBegin? || s.StopJoined? || s.StopTimeout? || s.StopClose? || s.Crash?
    ensures Plain(w, Apply(w, s), s.k)
  {
  }

  lemma SubmitPlain(w: World, s: Step)
    requires Enabled(w, s)
    requires s.SubmitCheck? || s.SubmitAdmit? || s.SubmitPush? || s.Pop?
    ensures Plain(w, Apply(w, s), s.k)
  {
  }

  lemma ConcludePlain(w: World, k: nat, link: Link)
    requires k in w.owners && w.owners[k].pc.Ran?
    ensures Plain(w, DoConclude(w, k, link), k)
  {
  }

  lemma InlineRecoverPlain(w: World, k: nat, link: Link, order: seq<string>)
    requires k in w.owners && Lists(order, w.store.rows)
    ensures Plain(w, DoInlineRecover(w, k, link, order), k)
  {
  }

  lemma InlineAdmitPlain(w: World, k: nat, r: Result<(Record, bool)>, st: Store)
    requires k in w.owners
    ensures Plain(w, OnInlineAdmitted(w, k, r, st), k)
  {
  }

  /** The steps that are not plain are the ones that take a record in hand or call the host. */
  lemma StepPlain(w: World, s: Step)
    requires Enabled(w, s)
    ensures s.AppendEvent? || s.Reconcile? || s.Fetch? || s.Begin? || s.Invoke? || s.Return? || Plain(w, Apply(w, s), s.k)
  {
    if s.SubmitCheck? || s.SubmitAdmit? || s.SubmitPush? || s.Pop? {
      SubmitPlain(w, s);
    } else if s.Conclude? {
      ConcludePlain(w, s.k, s.link);
    } else if s.InlineRecover? {
      InlineRecoverPlain(w, s.k, s.link, s.order);
    } else if s.InlineAdmit? {
      var (r, st) := Admit(w.owners[s.k].config, w.owners[s.k].Answer(s.link), s.payload, w.store);
      InlineAdmitPlain(w, s.k, r, st);
    } else if !s.AppendEvent? && !s.Reconcile? && !s.Fetch? && !s.Begin? && !s.Invoke? && !s.Return? {
      StopPlain(w, s);
    }
  }

  // --- the store over a run -------------------------------------------------------------------------

  lemma StepEvolves(w: World, s: Step)
    requires Enabled(w, s)
    ensures Evolves(w.store, Apply(w, s).store)
  {
    match s
    case SubmitAdmit(k, payload, link) =>
      AdmitMoves(w.owners[k].config, w.owners[k].Answer(link), payload, w.store);
      MovesEvolve(w.store, Admit(w.owners[k].config, w.owners[k].Answer(link), payload, w.store).1);
    case InlineAdmit(k, payload, link) =>
      AdmitMoves(w.owners[k].config, w.owners[k].Answer(link), payload, w.store);
      MovesEvolve(w.store, Admit(w.owners[k].config, w.owners[k].Answer(link), payload, w.store).1);
    case Begin(k, link) =>
      StartMoves(w.owners[k].config, w.owners[k].Answer(link), w.owners[k].pc.id, w.store);
      MovesEvolve(w.store, Start(w.owners[k].config, w.owners[k].Answer(link), w.owners[k].pc.id, w.store).1);
    case Conclude(k, link) =>
      var (state, result, error) := Parts(w.owners[k].pc.outcome);
      FinishMoves(w.owners[k].config, w.owners[k].Answer(link), w.owners[k].pc.id, state, result, error, w.store);
      MovesEvolve(w.store, Apply(w, s).store);
    case Reconcile(k, link, order) =>
      RecoverMoves(w.owners[k].Answer(link), order, w.store);
      MovesEvolve(w.store, Apply(w, s).store);
    case InlineRecover(k, link, order) =>
      RecoverMoves(w.owners[k].Answer(link), order, w.store);
      MovesEvolve(w.store, Apply(w, s).store);
    case _ =>
  }
}
