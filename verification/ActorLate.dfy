/**
 * What a recovery does to work in flight. A record it made uncertain is never started again, but a worker
 * already past its start, about to call the host, is not held back: that call still happens, and only then
 * is its outcome refused.
 */
module ActorLate {
  import opened Options
  import opened Journal
  import opened Actor
  import opened ActorDurable
  import ActorOrder

  /** How many times the host has been called for a request. */
  function CallsFor(calls: seq<Call>, id: string): nat
  {
    if calls == [] then 0
    else CallsFor(calls[..|calls| - 1], id) + if calls[|calls| - 1].id == id then 1 else 0
  }

  lemma CallsForNext(calls: seq<Call>, c: Call, id: string)
    ensures CallsFor(calls + [c], id) == CallsFor(calls, id) + if c.id == id then 1 else 0
  {
    assert (calls + [c])[..|calls|] == calls;
  }

  lemma {:induction false} CallsForSame(a: seq<Call>, b: seq<Call>, id: string)
    requires |a| == |b| && forall i :: 0 <= i < |a| ==> a[i].id == b[i].id
    ensures CallsFor(a, id) == CallsFor(b, id)
  {
    if a != [] {
      CallsForSame(a[..|a| - 1], b[..|b| - 1], id);
    }
  }

  /** No live worker stands between starting the request and calling the host for it. */
  ghost predicate NoneStarted(w: World, id: string)
  {
    forall k :: Live(w, k) && w.owners[k].pc.Started? ==> w.owners[k].pc.id != id
  }

  predicate IsTerminal(w: World, id: string)
  {
    id in w.store.rows && w.store.rows[id].Json? && w.store.rows[id].record.state.Terminal()
  }

  /** Some run from here calls the host for the request again. */
  ghost predicate CanStillRun(w: World, id: string)
  {
    exists worlds: seq<World>, steps: seq<Step> :: IsRun(worlds, steps) && worlds[0] == w
      && CallsFor(worlds[|worlds| - 1].calls, id) > CallsFor(w.calls, id)
  }

  // --- nobody left to call ------------------------------------------------------------------------

  lemma TerminalStays(w: World, s: Step, id: string)
    requires Enabled(w, s) && IsTerminal(w, id)
    ensures IsTerminal(Apply(w, s), id)
  {
    StepEvolves(w, s);
    assert RowEvolves(id, w.store.rows[id], Apply(w, s).store.rows[id]);
  }

  /** A terminal record is not started. */
  lemma BeginRefused(w: World, k: nat, r: Result<Record>, st: Store, id: string)
    requires k in w.owners && w.owners[k].pc.Loaded? && NoneStarted(w, id)
    requires w.owners[k].pc.id == id ==> r.Err?
    ensures var t := OnBegun(w, k, r, st); NoneStarted(t, id) && t.calls == w.calls
  {
  }

  lemma StartRefused(cfg: Config, link: Link, id: string, st: Store)
    requires id in st.rows && st.rows[id].Json? && st.rows[id].record.state.Terminal()
    ensures Start(cfg, link, id, st).0.Err?
  {
  }

  lemma FetchQuiet(w: World, k: nat, r: Result<Option<Record>>, id: string)
    requires k in w.owners && w.owners[k].pc.Popped? && NoneStarted(w, id)
    ensures var t := OnFetched(w, k, r); NoneStarted(t, id) && t.calls == w.calls
  {
  }

  lemma InvokeQuiet(w: World, k: nat, id: string)
    requires Live(w, k) && w.owners[k].pc.Started? && w.owners[k].popped > 0 && NoneStarted(w, id)
    ensures NoneStarted(DoInvoke(w, k), id) && CallsFor(DoInvoke(w, k).calls, id) == CallsFor(w.calls, id)
  {
    var o := w.owners[k];
    CallsForNext(w.calls, Call(k, o.popped - 1, o.pc.id, o.pc.record, None), id);
  }

  lemma ReturnQuiet(w: World, k: nat, outcome: Outcome, id: string)
    requires k in w.owners && w.owners[k].pc.Calling? && w.owners[k].pc.call < |w.calls| && NoneStarted(w, id)
    ensures var t := DoReturn(w, k, outcome); NoneStarted(t, id) && CallsFor(t.calls, id) == CallsFor(w.calls, id)
  {
    CallsForSame(w.calls, DoReturn(w, k, outcome).calls, id);
  }

  lemma PlainQuiet(w: World, t: World, k: nat, id: string)
    requires Plain(w, t, k) && NoneStarted(w, id) && (k in w.owners ==> w.owners[k].live)
    ensures NoneStarted(t, id)
  {
  }

  lemma StepQuiet(w: World, s: Step, id: string)
    requires Enabled(w, s) && IsTerminal(w, id) && NoneStarted(w, id)
    ensures NoneStarted(Apply(w, s), id) && CallsFor(Apply(w, s).calls, id) == CallsFor(w.calls, id)
  {
    if s.AppendEvent? || s.Reconcile? {
    } else if s.Fetch? {
      FetchQuiet(w, s.k, Get(w.owners[s.k].Answer(s.link), w.owners[s.k].pc.id, w.store), id);
    } else if s.Begin? {
      var o := w.owners[s.k];
      var (r, st) := Start(o.config, o.Answer(s.link), o.pc.id, w.store);
      if o.pc.id == id {
        StartRefused(o.config, o.Answer(s.link), id, w.store);
      }
      BeginRefused(w, s.k, r, st, id);
    } else if s.Invoke? {
      InvokeQuiet(w, s.k, id);
    } else if s.Return? {
      ReturnQuiet(w, s.k, s.outcome, id);
    } else {
      StepPlain(w, s);
      PlainQuiet(w, Apply(w, s), s.k, id);
    }
  }

  /** A terminal record that no worker has just started is never executed again, whatever anyone does. */
  lemma {:induction false} NoLateCalls(worlds: seq<World>, steps: seq<Step>, m: nat, n: nat, id: string)
    requires IsRun(worlds, steps) && m <= n < |worlds| && IsTerminal(worlds[m], id) && NoneStarted(worlds[m], id)
    ensures IsTerminal(worlds[n], id) && NoneStarted(worlds[n], id)
    ensures CallsFor(worlds[n].calls, id) == CallsFor(worlds[m].calls, id)
  {
    if m < n {
      NoLateCalls(worlds, steps, m, n - 1, id);
      TerminalStays(worlds[n - 1], steps[n - 1], id);
      StepQuiet(worlds[n - 1], steps[n - 1], id);
    }
  }

  // --- and when somebody is -------------------------------------------------------------------------

  /** A live worker that has started the request can call the host, whatever became of the record. */
  lemma StartedCalls(w: World, k: nat, id: string) returns (worlds: seq<World>, steps: seq<Step>)
    requires ActorOrder.Inv(w) && Live(w, k) && w.owners[k].pc.Started? && w.owners[k].pc.id == id
    ensures IsRun(worlds, steps) && worlds[0] == w
    ensures CallsFor(worlds[|worlds| - 1].calls, id) == CallsFor(w.calls, id) + 1
  {
    assert ActorOrder.OwnerOrder(w.calls, k, w.owners[k]);
    var o := w.owners[k];
    worlds, steps := [w, Apply(w, Invoke(k))], [Invoke(k)];
    CallsForNext(w.calls, Call(k, o.popped - 1, id, o.pc.record, None), id);
  }

  lemma LateCallIff(w: World, id: string)
    requires ActorOrder.Inv(w) && IsTerminal(w, id)
    ensures CanStillRun(w, id) <==> !NoneStarted(w, id)
  {
    if !NoneStarted(w, id) {
      var k :| Live(w, k) && w.owners[k].pc.Started? && w.owners[k].pc.id == id;
      var worlds, steps := StartedCalls(w, k, id);
    }
    if CanStillRun(w, id) && NoneStarted(w, id) {
      var worlds: seq<World>, steps: seq<Step> :| IsRun(worlds, steps) && worlds[0] == w
        && CallsFor(worlds[|worlds| - 1].calls, id) > CallsFor(w.calls, id);
      NoLateCalls(worlds, steps, 0, |worlds| - 1, id);
    }
  }

  lemma RecoveryMovesNobody(w: World, s: Step, id: string)
    requires Recovery(w, s)
    ensures NoneStarted(Apply(w, s), id) <==> NoneStarted(w, id)
  {
    var t := Apply(w, s);
    if s.InlineRecover? {
      assert forall k :: k != s.k && k in w.owners ==> k in t.owners && t.owners[k] == w.owners[k];
      assert forall k :: Live(w, k) && k != s.k <==> Live(t, k) && k != s.k;
    }
  }

  /**
   * After a recovery in any run, a request it found can still be executed if and only if some live worker
   * had already started it and not yet called the host.
   */
  lemma RecoveredRunsIff(worlds: seq<World>, steps: seq<Step>, m: nat, id: string)
    requires IsRun(worlds, steps) && Init(worlds[0]) && m < |steps|
    requires Recovery(worlds[m], steps[m]) && id in worlds[m].store.rows
    ensures CanStillRun(worlds[m + 1], id) <==> !NoneStarted(worlds[m], id)
  {
    RecoveryLeavesNone(worlds[m], steps[m], id);
    RecoveryMovesNobody(worlds[m], steps[m], id);
    ActorOrder.RunKeeps(worlds, steps, m + 1);
    LateCallIff(worlds[m + 1], id);
  }

  // --- a run in which it happens ------------------------------------------------------------------------

  /** The one owner, and the one record, of the run below. */
  ghost predicate Alone(w: World, cfg: Config, pc: Pc, id: string, row: Row)
  {
    && w.owners.Keys == {0} && w.calls == [] && w.store == Store(map[id := row], 0)
    && var o := w.owners[0]; o.config == cfg && o.live && !o.stopping && !o.closed && o.pc == pc && !o.inline
  }

  lemma Admitted(cfg: Config, payload: Payload)
    requires Admissible(cfg, payload).None? && cfg.limit > 0
    ensures var record := NewRecord(cfg, payload, 0);
      Admit(cfg, Ready, payload, Store(map[], 0)) == (Ok((record, true)), Store(map[payload.requestId := Json(record)], 0))
  {
  }

  /** The request is submitted and queued. */
  lemma Submitted(cfg: Config, payload: Payload) returns (worlds: seq<World>)
    requires Admissible(cfg, payload).None? && cfg.limit > 0
    ensures IsRun(worlds, [Spawn(0, cfg, false), SubmitCheck(0), SubmitAdmit(0, payload, Ready)]) && Init(worlds[0])
    ensures Alone(worlds[3], cfg, Top, payload.requestId, Json(NewRecord(cfg, payload, 0)))
    ensures worlds[3].owners[0].unpushed == [payload.requestId] && worlds[3].owners[0].pushed == [] && worlds[3].owners[0].popped == 0
  {
    var w := World(Store(map[], 0), map[], [], {});
    var u := Apply(w, Spawn(0, cfg, false));
    var v := Apply(u, SubmitCheck(0));
    Admitted(cfg, payload);
    worlds := [w, u, v, Apply(v, SubmitAdmit(0, payload, Ready))];
  }

  lemma Enqueued(w: World, cfg: Config, id: string, row: Row) returns (worlds: seq<World>)
    requires Alone(w, cfg, Top, id, row)
    requires w.owners[0].unpushed == [id] && w.owners[0].pushed == [] && w.owners[0].popped == 0
    ensures IsRun(worlds, [SubmitPush(0, 0), CheckStop(0), Pop(0)]) && worlds[0] == w
    ensures Alone(worlds[3], cfg, Popped(id), id, row) && worlds[3].owners[0].popped == 1
  {
    var u := Apply(w, SubmitPush(0, 0));
    var v := Apply(u, CheckStop(0));
    worlds := [w, u, v, Apply(v, Pop(0))];
  }

  /** The worker loads it and starts it. */
  lemma Taken(w: World, cfg: Config, record: Record) returns (worlds: seq<World>)
    requires Alone(w, cfg, Popped(record.requestId), record.requestId, Json(record)) && w.owners[0].popped == 1
    requires Identifier(record.requestId) && record.version == VERSION && record.state.Queued? && record.instance == cfg.instance
    ensures IsRun(worlds, [Fetch(0, Ready), Begin(0, Ready)]) && worlds[0] == w
    ensures var id := record.requestId;
      Alone(worlds[2], cfg, Started(id, record), id, Json(record.(state := Running, observedSeq := 0)))
    ensures worlds[2].owners[0].popped == 1
  {
    var id := record.requestId;
    assert Load(w.store.rows, id) == Ok(Some(record));
    var u := Apply(w, Fetch(0, Ready));
    worlds := [w, u, Apply(u, Begin(0, Ready))];
  }

  /** A recovery by `s` makes the request uncertain before its first call, and then the host is called for it. */
  ghost predicate CalledLate(w: World, s: Step, v: World, x: World, id: string)
  {
    && Recovery(w, s) && IsTerminal(v, id) && v.store.rows[id].record.state == Uncertain
    && CallsFor(v.calls, id) == 0 && CallsFor(x.calls, id) == 1
  }

  /** Recovering a store of one running record. */
  lemma OneRecovered(id: string, running: Record)
    requires Decode(Json(running), id).Ok? && running.state == Running
    ensures var st := Store(map[id := Json(running)], 0);
      && Lists([id], st.rows) && Recover(Ready, [id], st).0.Ok?
      && var t := Recover(Ready, [id], st).1; id in t.rows && t.rows[id] == Json(Resolve(running, 0))
  {
    var st := Store(map[id := Json(running)], 0);
    assert FirstError([id], st.rows) == None by {
      assert FirstError([], st.rows) == None && [id][1..] == [];
    }
  }

  /** A second owner has joined the one whose worker has started the record. */
  ghost predicate Beside(w: World, id: string, running: Record)
  {
    && Live(w, 0) && Live(w, 1) && !w.owners[1].closed && w.calls == [] && w.store == Store(map[id := Json(running)], 0)
    && w.owners[0].pc.Started? && w.owners[0].pc.id == id && w.owners[0].popped == 1
  }

  lemma Joins(w: World, cfg: Config, id: string, record: Record, running: Record, other: Config)
    requires Alone(w, cfg, Started(id, record), id, Json(running)) && w.owners[0].popped == 1
    ensures Enabled(w, Spawn(1, other, false)) && Beside(Apply(w, Spawn(1, other, false)), id, running)
  {
  }

  /** It recovers the store. */
  lemma Reconciles(w: World, id: string, running: Record) returns (v: World)
    requires Beside(w, id, running) && Decode(Json(running), id).Ok? && running.state == Running
    ensures Next(w, Reconcile(1, Ready, [id]), v) && Recovery(w, Reconcile(1, Ready, [id]))
    ensures v.owners == w.owners && v.calls == [] && IsTerminal(v, id) && v.store.rows[id].record.state == Uncertain
  {
    OneRecovered(id, running);
    v := Apply(w, Reconcile(1, Ready, [id]));
  }

  /** And the first one's worker goes on to the host. */
  lemma GoesOn(w: World, id: string)
    requires Live(w, 0) && w.owners[0].pc.Started? && w.owners[0].pc.id == id && w.owners[0].popped == 1 && w.calls == []
    ensures Enabled(w, Invoke(0)) && CallsFor(Apply(w, Invoke(0)).calls, id) == 1
  {
    CallsForNext([], Call(0, 0, id, w.owners[0].pc.record, None), id);
  }

  lemma RecoveringRuns(w: World, cfg: Config, id: string, record: Record, running: Record, other: Config)
    returns (worlds: seq<World>, steps: seq<Step>)
    requires Alone(w, cfg, Started(id, record), id, Json(running)) && w.owners[0].popped == 1
    requires Decode(Json(running), id).Ok? && running.state == Running
    ensures IsRun(worlds, steps) && worlds[0] == w && |steps| == 3
    ensures CalledLate(worlds[1], steps[1], worlds[2], worlds[3], id)
  {
    Joins(w, cfg, id, record, running, other);
    var u := Apply(w, Spawn(1, other, false));
    var v := Reconciles(u, id, running);
    GoesOn(v, id);
    worlds, steps := [w, u, v, Apply(v, Invoke(0))], [Spawn(1, other, false), Reconcile(1, Ready, [id]), Invoke(0)];
  }

  lemma Joined(a: seq<World>, sa: seq<Step>, b: seq<World>, sb: seq<Step>)
    requires IsRun(a, sa) && IsRun(b, sb) && a[|a| - 1] == b[0]
    ensures IsRun(a + b[1..], sa + sb)
    ensures forall i :: 0 <= i < |b| ==> (a + b[1..])[|sa| + i] == b[i]
  {
    var worlds, steps := a + b[1..], sa + sb;
    forall i {:trigger steps[i]} | 0 <= i < |steps|
      ensures Next(worlds[i], steps[i], worlds[i + 1])
    {
      if i < |sa| {
        assert steps[i] == sa[i];
      } else {
        assert steps[i] == sb[i - |sa|];
      }
    }
  }

  lemma ReachesStarted(cfg: Config, payload: Payload) returns (worlds: seq<World>, steps: seq<Step>)
    requires Admissible(cfg, payload).None? && cfg.limit > 0
    ensures IsRun(worlds, steps) && |steps| == 8 && Init(worlds[0])
    ensures var id, record := payload.requestId, NewRecord(cfg, payload, 0);
      Alone(worlds[8], cfg, Started(id, record), id, Json(record.(state := Running, observedSeq := 0)))
    ensures worlds[8].owners[0].popped == 1
  {
    var record := NewRecord(cfg, payload, 0);
    var a := Submitted(cfg, payload);
    var b := Enqueued(a[3], cfg, payload.requestId, Json(record));
    var c := Taken(b[3], cfg, record);
    var sa := [Spawn(0, cfg, false), SubmitCheck(0), SubmitAdmit(0, payload, Ready)];
    var sb := [SubmitPush(0, 0), CheckStop(0), Pop(0)];
    Joined(b, sb, c, [Fetch(0, Ready), Begin(0, Ready)]);
    var bc, sbc := b + c[1..], sb + [Fetch(0, Ready), Begin(0, Ready)];
    assert bc[5] == c[2];
    Joined(a, sa, bc, sbc);
    worlds, steps := a + bc[1..], sa + sbc;
    assert worlds[8] == bc[5];
  }

  /**
   * From the beginning: a request is submitted, queued and started; another owner recovers the store, which
   * makes the record uncertain; and the host is then called for it all the same.
   */
  lemma RunsAfterRecovery(cfg: Config, payload: Payload, other: Config) returns (worlds: seq<World>, steps: seq<Step>)
    requires Admissible(cfg, payload).None? && cfg.limit > 0
    ensures IsRun(worlds, steps) && Init(worlds[0]) && |steps| == 11
    ensures CalledLate(worlds[9], steps[9], worlds[10], worlds[11], payload.requestId)
  {
    var id, record := payload.requestId, NewRecord(cfg, payload, 0);
    var a, sa := ReachesStarted(cfg, payload);
    var b, sb := RecoveringRuns(a[8], cfg, id, record, record.(state := Running, observedSeq := 0), other);
    Joined(a, sa, b, sb);
    worlds, steps := a + b[1..], sa + sb;
    assert worlds[8 + 1] == b[1] && worlds[8 + 2] == b[2] && worlds[8 + 3] == b[3] && steps[9] == sb[1];
  }
}
