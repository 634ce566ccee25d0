/** What every run keeps of the store: records, identities, terminal states, stamps and acknowledgments. */
module ActorDurable {
  import opened Options
  import opened Journal
  import opened Actor

  lemma RunStepEvolves(worlds: seq<World>, steps: seq<Step>, n: nat)
    requires IsRun(worlds, steps) && n < |steps|
    ensures Evolves(worlds[n].store, worlds[n + 1].store)
  {
    StepEvolves(worlds[n], steps[n]);
  }

  ghost predicate Chained(worlds: seq<World>)
  {
    forall i, j :: 0 <= i < |worlds| && j == i + 1 && j < |worlds| ==> Evolves(worlds[i].store, worlds[j].store)
  }

  lemma RunIsChained(worlds: seq<World>, steps: seq<Step>)
    requires IsRun(worlds, steps)
    ensures Chained(worlds)
  {
    forall i, j | 0 <= i < |worlds| && j == i + 1 && j < |worlds|
      ensures Evolves(worlds[i].store, worlds[j].store)
    {
      RunStepEvolves(worlds, steps, i);
    }
  }

  lemma {:induction false} ChainEvolves(worlds: seq<World>, m: nat, n: nat)
    requires m <= n < |worlds| && Chained(worlds)
    ensures Evolves(worlds[m].store, worlds[n].store)
  {
    if m < n {
      ChainEvolves(worlds, m, n - 1);
      EvolvesTransitive(worlds[m].store, worlds[n - 1].store, worlds[n].store);
    }
  }

  /** Between any two moments of a run no record is removed, renamed, given another payload or reopened. */
  lemma RunEvolves(worlds: seq<World>, steps: seq<Step>, m: nat, n: nat)
    requires IsRun(worlds, steps) && m <= n < |worlds|
    ensures Evolves(worlds[m].store, worlds[n].store)
  {
    RunIsChained(worlds, steps);
    ChainEvolves(worlds, m, n);
  }

  /** A step in which somebody, a serving owner or an inline one, recovers the store and succeeds. */
  ghost predicate Recovery(w: World, s: Step)
  {
    && (s.Reconcile? || s.InlineRecover?) && Enabled(w, s)
    && Recover(w.owners[s.k].Answer(s.link), s.order, w.store).0.Ok?
  }

  lemma RecoveryLeavesNone(w: World, s: Step, id: string)
    requires Recovery(w, s) && id in w.store.rows
    ensures var rows := Apply(w, s).store.rows; id in rows && rows[id].Json? && rows[id].record.state.Terminal()
  {
    RecoverLeavesNone(w.owners[s.k].Answer(s.link), s.order, w.store, id);
  }

  /** After a recovery, for the rest of the run, every record it found is terminal and never touched again. */
  lemma RecoveredStaysTerminal(worlds: seq<World>, steps: seq<Step>, m: nat, n: nat, id: string)
    requires IsRun(worlds, steps) && m < n < |worlds| && Recovery(worlds[m], steps[m]) && id in worlds[m].store.rows
    ensures id in worlds[n].store.rows && worlds[n].store.rows[id] == worlds[m + 1].store.rows[id]
    ensures worlds[n].store.rows[id].Json? && worlds[n].store.rows[id].record.state.Terminal()
  {
    RecoveryLeavesNone(worlds[m], steps[m], id);
    RunEvolves(worlds, steps, m + 1, n);
    assert RowEvolves(id, worlds[m + 1].store.rows[id], worlds[n].store.rows[id]);
  }

  lemma StepStamps(w: World, s: Step)
    requires Enabled(w, s) && AllStamped(w.store)
    ensures AllStamped(Apply(w, s).store)
  {
    match s
    case SubmitAdmit(k, payload, link) => AdmitStamps(w.owners[k].config, w.owners[k].Answer(link), payload, w.store);
    case InlineAdmit(k, payload, link) => AdmitStamps(w.owners[k].config, w.owners[k].Answer(link), payload, w.store);
    case Begin(k, link) => StartStamps(w.owners[k].config, w.owners[k].Answer(link), w.owners[k].pc.id, w.store);
    case Conclude(k, link) =>
      var (state, result, error) := Parts(w.owners[k].pc.outcome);
      FinishStamps(w.owners[k].config, w.owners[k].Answer(link), w.owners[k].pc.id, state, result, error, w.store);
    case Reconcile(k, link, order) => RecoverStamps(w.owners[k].Answer(link), order, w.store);
    case InlineRecover(k, link, order) => RecoverStamps(w.owners[k].Answer(link), order, w.store);
    case _ =>
  }

  lemma {:induction false} RunStamps(worlds: seq<World>, steps: seq<Step>, n: nat)
    requires IsRun(worlds, steps) && AllStamped(worlds[0].store) && n < |worlds|
    ensures AllStamped(worlds[n].store)
  {
    if n > 0 {
      RunStamps(worlds, steps, n - 1);
      StepStamps(worlds[n - 1], steps[n - 1]);
    }
  }

  // --- the record limit -------------------------------------------------------------------------------

  lemma SameKeysSameSize(a: map<string, Row>, b: map<string, Row>)
    requires a.Keys == b.Keys
    ensures |a| == |b|
  {
    assert |a| == |a.Keys| && |b| == |b.Keys|;
  }

  lemma StartKeepsKeys(cfg: Config, link: Link, id: string, st: Store)
    ensures Start(cfg, link, id, st).1.rows.Keys == st.rows.Keys
  {
  }

  lemma FinishKeepsKeys(cfg: Config, link: Link, id: string, state: State, result: Option<string>, error: Option<Failure>, st: Store)
    ensures Finish(cfg, link, id, state, result, error, st).1.rows.Keys == st.rows.Keys
  {
  }

  lemma RecoverKeepsKeys(link: Link, order: seq<string>, st: Store)
    requires Lists(order, st.rows)
    ensures Recover(link, order, st).1.rows.Keys == st.rows.Keys
  {
  }

  /** Only an admission adds a row. */
  lemma OthersKeepKeys(w: World, s: Step)
    requires Enabled(w, s) && !s.SubmitAdmit? && !s.InlineAdmit?
    ensures Apply(w, s).store.rows.Keys == w.store.rows.Keys
  {
    match s
    case Begin(k, link) => StartKeepsKeys(w.owners[k].config, w.owners[k].Answer(link), w.owners[k].pc.id, w.store);
    case Conclude(k, link) =>
      var (state, result, error) := Parts(w.owners[k].pc.outcome);
      FinishKeepsKeys(w.owners[k].config, w.owners[k].Answer(link), w.owners[k].pc.id, state, result, error, w.store);
    case Reconcile(k, link, order) => RecoverKeepsKeys(w.owners[k].Answer(link), order, w.store);
    case InlineRecover(k, link, order) => RecoverKeepsKeys(w.owners[k].Answer(link), order, w.store);
    case _ =>
  }

  lemma StepWithin(w: World, s: Step, limit: nat)
    requires Enabled(w, s) && |w.store.rows| <= limit
    requires forall k :: k in w.owners ==> w.owners[k].config.limit <= limit
    ensures |Apply(w, s).store.rows| <= limit
  {
    if s.SubmitAdmit? || s.InlineAdmit? {
      AdmitRespectsLimit(w.owners[s.k].config, w.owners[s.k].Answer(s.link), s.payload, w.store);
    } else {
      OthersKeepKeys(w, s);
      SameKeysSameSize(w.store.rows, Apply(w, s).store.rows);
    }
  }

  /** If no owner's limit is above `limit` and the run starts within it, it never leaves it. */
  lemma {:induction false} RunWithinLimit(worlds: seq<World>, steps: seq<Step>, limit: nat, n: nat)
    requires IsRun(worlds, steps) && |worlds[0].store.rows| <= limit && n < |worlds|
    requires forall i, k :: 0 <= i < |worlds| && k in worlds[i].owners ==> worlds[i].owners[k].config.limit <= limit
    ensures |worlds[n].store.rows| <= limit
  {
    if n > 0 {
      RunWithinLimit(worlds, steps, limit, n - 1);
      StepWithin(worlds[n - 1], steps[n - 1], limit);
    }
  }

  // --- acknowledgments -----------------------------------------------------------------------------

  ghost predicate Stored(st: Store, ids: seq<string>)
  {
    forall i :: 0 <= i < |ids| ==> ids[i] in st.rows
  }

  ghost predicate AckedStored(w: World)
  {
    && (forall id :: id in w.acked ==> id in w.store.rows)
    && (forall k :: k in w.owners ==> Stored(w.store, w.owners[k].unpushed))
  }

  /** One more id, or none, in `b` than in `a`. */
  predicate AddsOne(a: seq<string>, b: seq<string>, st: Store)
  {
    b == a || (|b| == |a| + 1 && b[..|a|] == a && b[|a|] in st.rows)
  }

  lemma SubmitShape(w: World, k: nat, payload: Payload, link: Link)
    requires k in w.owners && w.owners[k].checked > 0
    ensures var t := DoSubmitAdmit(w, k, payload, link);
      && Moved(w, t, k) && AddsOne(w.owners[k].unpushed, t.owners[k].unpushed, t.store)
      && forall id :: id in t.acked ==> id in w.acked || id in t.store.rows
  {
  }

  lemma SubmitStored(w: World, t: World, k: nat)
    requires k in w.owners && AckedStored(w) && Evolves(w.store, t.store) && Moved(w, t, k)
    requires AddsOne(w.owners[k].unpushed, t.owners[k].unpushed, t.store)
    requires forall id :: id in t.acked ==> id in w.acked || id in t.store.rows
    ensures AckedStored(t)
  {
    forall j | j in t.owners
      ensures Stored(t.store, t.owners[j].unpushed)
    {
      assert Stored(w.store, w.owners[j].unpushed);
      assert forall i :: 0 <= i < |w.owners[j].unpushed| ==> t.owners[j].unpushed[i] == w.owners[j].unpushed[i];
    }
  }

  lemma PushStored(w: World, k: nat, i: nat)
    requires k in w.owners && i < |w.owners[k].unpushed| && AckedStored(w)
    ensures AckedStored(DoSubmitPush(w, k, i))
  {
    assert Stored(w.store, w.owners[k].unpushed);
  }

  /** No other step acknowledges anything. */
  lemma OtherStored(w: World, s: Step)
    requires Enabled(w, s) && !s.SubmitAdmit? && !s.SubmitPush? && AckedStored(w)
    requires Evolves(w.store, Apply(w, s).store)
    ensures AckedStored(Apply(w, s))
  {
    var t := Apply(w, s);
    forall j | j in t.owners
      ensures Stored(t.store, t.owners[j].unpushed)
    {
      assert j in w.owners ==> Stored(w.store, w.owners[j].unpushed) && t.owners[j].unpushed == w.owners[j].unpushed;
    }
  }

  lemma StepStored(w: World, s: Step)
    requires Enabled(w, s) && AckedStored(w)
    ensures AckedStored(Apply(w, s))
  {
    StepEvolves(w, s);
    if s.SubmitAdmit? {
      SubmitShape(w, s.k, s.payload, s.link);
      SubmitStored(w, Apply(w, s), s.k);
    } else if s.SubmitPush? {
      PushStored(w, s.k, s.i);
    } else {
      OtherStored(w, s);
    }
  }

  /** An acknowledged submission is in the store from then on, whatever crashes. */
  lemma {:induction false} AckedIsDurable(worlds: seq<World>, steps: seq<Step>, n: nat)
    requires IsRun(worlds, steps) && Init(worlds[0]) && n < |worlds|
    ensures AckedStored(worlds[n])
  {
    if n > 0 {
      AckedIsDurable(worlds, steps, n - 1);
      StepStored(worlds[n - 1], steps[n - 1]);
    }
  }
}
