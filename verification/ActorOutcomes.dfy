/** Every verdict the store comes to hold is what the one host call for that request returned. */
module ActorOutcomes {
  import opened Options
  import opened Journal
  import opened Actor
  import ActorOnce

  predicate Verdict(row: Row)
  {
    row.Json? && row.record.state in {Completed, Refused, Failed}
  }

  predicate Says(record: Record, outcome: Outcome)
  {
    (record.state, record.result, record.error) == Parts(outcome)
  }

  /** Some call for `id` returned what the record says. */
  ghost predicate Returned(calls: seq<Call>, id: string, record: Record)
  {
    exists i :: 0 <= i < |calls| && calls[i].id == id && calls[i].outcome.Some? && Says(record, calls[i].outcome.value)
  }

  ghost predicate Explained(first: Store, calls: seq<Call>, id: string, row: Row)
  {
    Verdict(row) ==> (id in first.rows && first.rows[id] == row) || Returned(calls, id, row.record)
  }

  ghost predicate AllExplained(first: Store, w: World)
  {
    forall id :: id in w.store.rows ==> Explained(first, w.calls, id, w.store.rows[id])
  }

  /** A thread inside the host, or just out of it, is at its own call. */
  ghost predicate AtCall(calls: seq<Call>, k: nat, pc: Pc)
  {
    (pc.Calling? || pc.Ran?) ==>
      && pc.call < |calls| && calls[pc.call].owner == k && calls[pc.call].id == pc.id
      && calls[pc.call].outcome == if pc.Ran? then Some(pc.outcome) else None
  }

  ghost predicate AllAtCall(w: World)
  {
    forall k :: k in w.owners ==> AtCall(w.calls, k, w.owners[k].pc)
  }

  // --- the store's part -----------------------------------------------------------------------

  /** Every verdict of `t` was already in `s`. */
  ghost predicate NoNewVerdict(s: Store, t: Store)
  {
    forall id :: id in t.rows && Verdict(t.rows[id]) ==> id in s.rows && s.rows[id] == t.rows[id]
  }

  lemma AdmitNoVerdict(cfg: Config, link: Link, payload: Payload, st: Store)
    ensures NoNewVerdict(st, Admit(cfg, link, payload, st).1)
  {
  }

  lemma StartNoVerdict(cfg: Config, link: Link, id: string, st: Store)
    ensures NoNewVerdict(st, Start(cfg, link, id, st).1)
  {
  }

  lemma RecoverNoVerdict(link: Link, order: seq<string>, st: Store)
    requires Lists(order, st.rows)
    ensures NoNewVerdict(st, Recover(link, order, st).1)
  {
  }

  /** Only recording an outcome adds a verdict. */
  lemma OthersNoVerdict(w: World, s: Step)
    requires Enabled(w, s) && !s.Conclude?
    ensures NoNewVerdict(w.store, Apply(w, s).store)
  {
    match s
    case SubmitAdmit(k, payload, link) => AdmitNoVerdict(w.owners[k].config, w.owners[k].Answer(link), payload, w.store);
    case InlineAdmit(k, payload, link) => AdmitNoVerdict(w.owners[k].config, w.owners[k].Answer(link), payload, w.store);
    case Begin(k, link) => StartNoVerdict(w.owners[k].config, w.owners[k].Answer(link), w.owners[k].pc.id, w.store);
    case Reconcile(k, link, order) => RecoverNoVerdict(w.owners[k].Answer(link), order, w.store);
    case InlineRecover(k, link, order) => RecoverNoVerdict(w.owners[k].Answer(link), order, w.store);
    case _ =>
  }

  lemma ConcludeVerdict(w: World, k: nat, link: Link)
    requires k in w.owners && w.owners[k].pc.Ran?
    ensures var rows := DoConclude(w, k, link).store.rows;
      forall id :: id in rows && Verdict(rows[id]) ==>
        (id in w.store.rows && w.store.rows[id] == rows[id])
        || (id == w.owners[k].pc.id && Says(rows[id].record, w.owners[k].pc.outcome))
  {
  }

  // --- the calls' part ---------------------------------------------------------------------------------

  /** Calls are only added, and a returned call keeps what it returned. */
  ghost predicate CallsGrow(a: seq<Call>, b: seq<Call>)
  {
    |a| <= |b| && forall i :: 0 <= i < |a| ==>
      a[i].id == b[i].id && a[i].owner == b[i].owner && (a[i].outcome.Some? ==> b[i].outcome == a[i].outcome)
  }

  lemma StepCallsGrow(w: World, s: Step)
    requires Enabled(w, s) && AllAtCall(w)
    ensures CallsGrow(w.calls, Apply(w, s).calls)
  {
    if s.Return? {
      assert AtCall(w.calls, s.k, w.owners[s.k].pc);
    }
  }

  lemma ReturnedStays(a: seq<Call>, b: seq<Call>, id: string, record: Record)
    requires CallsGrow(a, b) && Returned(a, id, record)
    ensures Returned(b, id, record)
  {
    var i :| 0 <= i < |a| && a[i].id == id && a[i].outcome.Some? && Says(record, a[i].outcome.value);
    assert b[i].id == id && b[i].outcome == a[i].outcome;
  }

  lemma InvokeAtCall(w: World, k: nat)
    requires k in w.owners && w.owners[k].pc.Started? && w.owners[k].popped > 0 && AllAtCall(w)
    ensures AllAtCall(DoInvoke(w, k))
  {
    var t := DoInvoke(w, k);
    forall j | j in t.owners
      ensures AtCall(t.calls, j, t.owners[j].pc)
    {
      assert j != k ==> AtCall(w.calls, j, w.owners[j].pc);
    }
  }

  /** The call that returns is nobody else's. */
  lemma ReturnAtCall(w: World, k: nat, outcome: Outcome)
    requires k in w.owners && w.owners[k].pc.Calling? && w.owners[k].pc.call < |w.calls| && AllAtCall(w)
    ensures AllAtCall(DoReturn(w, k, outcome))
  {
    var t := DoReturn(w, k, outcome);
    assert AtCall(w.calls, k, w.owners[k].pc);
    forall j | j in t.owners
      ensures AtCall(t.calls, j, t.owners[j].pc)
    {
      assert j != k ==> AtCall(w.calls, j, w.owners[j].pc);
    }
  }

  lemma PlainAtCall(w: World, t: World, k: nat)
    requires AllAtCall(w) && Moved(w, t, k) && t.calls == w.calls
    requires (k in w.owners && t.owners[k].pc == w.owners[k].pc) || (!t.owners[k].pc.Calling? && !t.owners[k].pc.Ran?)
    ensures AllAtCall(t)
  {
    forall j | j in t.owners
      ensures AtCall(t.calls, j, t.owners[j].pc)
    {
      assert j in w.owners && t.owners[j].pc == w.owners[j].pc ==> AtCall(w.calls, j, w.owners[j].pc);
    }
  }

  lemma StepAtCall(w: World, s: Step)
    requires Enabled(w, s) && AllAtCall(w)
    ensures AllAtCall(Apply(w, s))
  {
    StepPlain(w, s);
    if s.Invoke? {
      InvokeAtCall(w, s.k);
    } else if s.Return? {
      ReturnAtCall(w, s.k, s.outcome);
    } else if !s.AppendEvent? && !s.Reconcile? {
      PlainAtCall(w, Apply(w, s), s.k);
    }
  }

  lemma StepExplained(first: Store, w: World, s: Step)
    requires Enabled(w, s) && AllAtCall(w) && AllExplained(first, w)
    ensures AllExplained(first, Apply(w, s))
  {
    var t := Apply(w, s);
    StepCallsGrow(w, s);
    if s.Conclude? {
      ConcludeVerdict(w, s.k, s.link);
      assert AtCall(w.calls, s.k, w.owners[s.k].pc);
    } else {
      OthersNoVerdict(w, s);
    }
    forall id | id in t.store.rows
      ensures Explained(first, t.calls, id, t.store.rows[id])
    {
      RowExplained(first, w, t, id, if s.Conclude? then Some(w.owners[s.k].pc) else None);
    }
  }

  lemma RowExplained(first: Store, w: World, t: World, id: string, ran: Option<Pc>)
    requires AllExplained(first, w) && CallsGrow(w.calls, t.calls) && id in t.store.rows
    requires ran.Some? ==>
      && ran.value.Ran? && ran.value.call < |w.calls|
      && w.calls[ran.value.call].id == ran.value.id && w.calls[ran.value.call].outcome == Some(ran.value.outcome)
    requires Verdict(t.store.rows[id]) ==>
      || (id in w.store.rows && w.store.rows[id] == t.store.rows[id])
      || (ran.Some? && id == ran.value.id && Says(t.store.rows[id].record, ran.value.outcome))
    ensures Explained(first, t.calls, id, t.store.rows[id])
  {
    var row := t.store.rows[id];
    if Verdict(row) {
      if id in w.store.rows && w.store.rows[id] == row {
        assert Explained(first, w.calls, id, row);
        if Returned(w.calls, id, row.record) {
          ReturnedStays(w.calls, t.calls, id, row.record);
        }
      } else {
        assert t.calls[ran.value.call].id == id;
      }
    }
  }

  lemma {:induction false} RunExplained(worlds: seq<World>, steps: seq<Step>, n: nat)
    requires IsRun(worlds, steps) && Init(worlds[0]) && n < |worlds|
    ensures AllAtCall(worlds[n]) && AllExplained(worlds[0].store, worlds[n])
  {
    if n > 0 {
      RunExplained(worlds, steps, n - 1);
      StepAtCall(worlds[n - 1], steps[n - 1]);
      StepExplained(worlds[0].store, worlds[n - 1], steps[n - 1]);
    }
  }

  /** The `i`-th call is the only one for `id`, and it has returned. */
  ghost predicate OnlyCall(calls: seq<Call>, i: nat, id: string)
    requires i < |calls|
  {
    calls[i].id == id && calls[i].outcome.Some? && forall j :: 0 <= j < |calls| && calls[j].id == id ==> j == i
  }

  /**
   * No run fabricates an outcome: a verdict the store did not start with is what the host returned, in a
   * call that is the only one for that request.
   */
  lemma NoFabrication(worlds: seq<World>, steps: seq<Step>, n: nat, id: string)
    requires IsRun(worlds, steps) && Init(worlds[0]) && n < |worlds|
    requires id in worlds[n].store.rows && Verdict(worlds[n].store.rows[id])
    requires id !in worlds[0].store.rows || worlds[0].store.rows[id] != worlds[n].store.rows[id]
    ensures exists i :: 0 <= i < |worlds[n].calls| && OnlyCall(worlds[n].calls, i, id) &&
                        Says(worlds[n].store.rows[id].record, worlds[n].calls[i].outcome.value)
  {
    RunExplained(worlds, steps, n);
    ActorOnce.AtMostOnce(worlds, steps, n);
    var calls := worlds[n].calls;
    assert Explained(worlds[0].store, calls, id, worlds[n].store.rows[id]);
    var record := worlds[n].store.rows[id].record;
    var i :| 0 <= i < |calls| && calls[i].id == id && calls[i].outcome.Some? && Says(record, calls[i].outcome.value);
    assert OnlyCall(calls, i, id);
  }
}
