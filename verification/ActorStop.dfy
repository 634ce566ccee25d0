/** What a stop promises: at most one more job begins, no new admission begins, and when the store closes. */
module ActorStop {
  import opened Options
  import opened Journal
  import opened Actor

  /** How many more host calls the thread can make without looking at the stop flag. */
  function Left(pc: Pc): nat
  {
    if pc.Top? || pc.Calling? || pc.Ran? || pc.Exited? then 0 else 1
  }

  function CallsOf(calls: seq<Call>, k: nat): nat
  {
    if calls == [] then 0
    else CallsOf(calls[..|calls| - 1], k) + if calls[|calls| - 1].owner == k then 1 else 0
  }

  /** Whoever closes the store has seen the thread exit, unless an earlier stop timed out. */
  predicate StopOk(o: Owner)
  {
    && (o.inline ==> o.stopper.NoStop? && !o.stopping && !o.closed)
    && (!o.inline ==> !o.pc.Fresh? && !o.pc.Recovered?)
    && (o.stopper.Waiting? ==> !o.handle)
    && (o.stopper.Closing? || o.closed || (!o.inline && !o.handle && o.stopper.NoStop?) ==> o.pc.Exited? || o.timedOut)
  }

  /** The owner's part of a step that makes no host call. */
  ghost predicate Winds(o: Owner, p: Owner)
  {
    && (StopOk(o) ==> StopOk(p))
    && (o.timedOut ==> p.timedOut) && (o.closed ==> p.closed)
    && (o.stopping ==> p.stopping && Left(p.pc) <= Left(o.pc) && p.admissions + p.checked <= o.admissions + o.checked)
  }

  lemma StopWinds(w: World, s: Step)
    requires Enabled(w, s) && (s.CheckStop? || s.StopBegin? || s.StopJoined? || s.StopTimeout? || s.StopClose? || s.Crash?)
    ensures Winds(w.owners[s.k], Apply(w, s).owners[s.k])
  {
  }

  lemma SubmitWinds(w: World, k: nat, r: Result<(Record, bool)>, st: Store)
    requires k in w.owners && w.owners[k].checked > 0
    ensures Winds(w.owners[k], OnSubmitted(w, k, r, st).owners[k])
  {
  }

  lemma QueueWinds(w: World, s: Step)
    requires Enabled(w, s) && (s.SubmitCheck? || s.SubmitPush? || s.Pop?)
    ensures Winds(w.owners[s.k], Apply(w, s).owners[s.k])
  {
  }

  lemma FetchWinds(w: World, k: nat, r: Result<Option<Record>>)
    requires k in w.owners && w.owners[k].pc.Popped?
    ensures var t := OnFetched(w, k, r); Moved(w, t, k) && t.calls == w.calls && Winds(w.owners[k], t.owners[k])
  {
  }

  lemma BeginWinds(w: World, k: nat, r: Result<Record>, st: Store)
    requires k in w.owners && w.owners[k].pc.Loaded?
    ensures var t := OnBegun(w, k, r, st); Moved(w, t, k) && t.calls == w.calls && Winds(w.owners[k], t.owners[k])
  {
  }

  lemma ConcludeWinds(w: World, k: nat, link: Link)
    requires k in w.owners && w.owners[k].pc.Ran?
    ensures Winds(w.owners[k], DoConclude(w, k, link).owners[k])
  {
  }

  lemma InlineWinds(w: World, s: Step)
    requires Enabled(w, s) && (s.InlineRecover? || s.InlineAdmit?)
    ensures Winds(w.owners[s.k], Apply(w, s).owners[s.k])
  {
  }

  lemma StepWinds(w: World, s: Step)
    requires Enabled(w, s) && !s.AppendEvent? && !s.Reconcile? && !s.Spawn? && !s.Invoke? && !s.Return?
    ensures Moved(w, Apply(w, s), s.k) && Apply(w, s).calls == w.calls && Winds(w.owners[s.k], Apply(w, s).owners[s.k])
  {
    StepPlain(w, s);
    if s.Fetch? {
      FetchWinds(w, s.k, Get(w.owners[s.k].Answer(s.link), w.owners[s.k].pc.id, w.store));
    } else if s.Begin? {
      var (r, st) := Start(w.owners[s.k].config, w.owners[s.k].Answer(s.link), w.owners[s.k].pc.id, w.store);
      BeginWinds(w, s.k, r, st);
    } else if s.Conclude? {
      ConcludeWinds(w, s.k, s.link);
    } else if s.InlineRecover? || s.InlineAdmit? {
      InlineWinds(w, s);
    } else if s.SubmitAdmit? {
      var (r, st) := Admit(w.owners[s.k].config, w.owners[s.k].Answer(s.link), s.payload, w.store);
      SubmitWinds(w, s.k, r, st);
    } else if s.SubmitCheck? || s.SubmitPush? || s.Pop? {
      QueueWinds(w, s);
    } else {
      StopWinds(w, s);
    }
  }

  // --- at most one more job -------------------------------------------------------------------

  lemma {:induction false} CallsOfSame(a: seq<Call>, b: seq<Call>, k: nat)
    requires |a| == |b| && forall i :: 0 <= i < |a| ==> a[i].owner == b[i].owner
    ensures CallsOf(a, k) == CallsOf(b, k)
  {
    if a != [] {
      CallsOfSame(a[..|a| - 1], b[..|b| - 1], k);
    }
  }

  /** A stopping owner's calls, and the ones it can still make, do not grow together. */
  ghost predicate Bounded(w: World, t: World, k: nat)
    requires k in w.owners
  {
    && k in t.owners && t.owners[k].stopping
    && CallsOf(t.calls, k) + Left(t.owners[k].pc) <= CallsOf(w.calls, k) + Left(w.owners[k].pc)
    && t.owners[k].admissions + t.owners[k].checked <= w.owners[k].admissions + w.owners[k].checked
  }

  lemma InvokeBounded(w: World, j: nat, k: nat)
    requires j in w.owners && w.owners[j].pc.Started? && w.owners[j].popped > 0
    requires k in w.owners && w.owners[k].stopping
    ensures Bounded(w, DoInvoke(w, j), k)
  {
    var t := DoInvoke(w, j);
    assert t.calls[..|t.calls| - 1] == w.calls;
  }

  lemma ReturnBounded(w: World, j: nat, outcome: Outcome, k: nat)
    requires j in w.owners && w.owners[j].pc.Calling? && w.owners[j].pc.call < |w.calls|
    requires k in w.owners && w.owners[k].stopping
    ensures Bounded(w, DoReturn(w, j, outcome), k)
  {
    CallsOfSame(w.calls, DoReturn(w, j, outcome).calls, k);
  }

  lemma StepBounded(w: World, s: Step, k: nat)
    requires Enabled(w, s) && k in w.owners && w.owners[k].stopping
    ensures Bounded(w, Apply(w, s), k)
  {
    if s.Invoke? {
      InvokeBounded(w, s.k, k);
    } else if s.Return? {
      ReturnBounded(w, s.k, s.outcome, k);
    } else if s.Spawn? {
      assert k != s.k;
    } else if !s.AppendEvent? && !s.Reconcile? {
      StepWinds(w, s);
    }
  }

  lemma {:induction false} RunBounded(worlds: seq<World>, steps: seq<Step>, m: nat, n: nat, k: nat)
    requires IsRun(worlds, steps) && m <= n < |worlds| && k in worlds[m].owners && worlds[m].owners[k].stopping
    ensures Bounded(worlds[m], worlds[n], k)
  {
    if m < n {
      RunBounded(worlds, steps, m, n - 1, k);
      StepBounded(worlds[n - 1], steps[n - 1], k);
    }
  }

  /**
   * From the moment a stop raises the flag, for the rest of any run: the owner calls the host at most once
   * more, and not at all unless its thread is between looking at the flag and the call; and only submissions
   * already past the check are still tried.
   */
  lemma AtMostOneMore(worlds: seq<World>, steps: seq<Step>, m: nat, n: nat, k: nat)
    requires IsRun(worlds, steps) && m <= n < |worlds| && k in worlds[m].owners && worlds[m].owners[k].stopping
    ensures k in worlds[n].owners && worlds[n].owners[k].stopping
    ensures CallsOf(worlds[n].calls, k) <= CallsOf(worlds[m].calls, k) + Left(worlds[m].owners[k].pc)
    ensures worlds[n].owners[k].admissions <= worlds[m].owners[k].admissions + worlds[m].owners[k].checked
  {
    RunBounded(worlds, steps, m, n, k);
  }

  // --- when the store closes ---------------------------------------------------------------------------

  ghost predicate AllStopOk(w: World)
  {
    forall k :: k in w.owners ==> StopOk(w.owners[k])
  }

  lemma StepStopOk(w: World, s: Step)
    requires Enabled(w, s) && AllStopOk(w)
    ensures AllStopOk(Apply(w, s))
  {
    if !s.AppendEvent? && !s.Reconcile? && !s.Spawn? && !s.Invoke? && !s.Return? {
      StepWinds(w, s);
    }
  }

  lemma {:induction false} RunStopOk(worlds: seq<World>, steps: seq<Step>, n: nat)
    requires IsRun(worlds, steps) && Init(worlds[0]) && n < |worlds|
    ensures AllStopOk(worlds[n])
  {
    if n > 0 {
      RunStopOk(worlds, steps, n - 1);
      StepStopOk(worlds[n - 1], steps[n - 1]);
    }
  }

  /** In any run, an owner whose store is closed while its thread is still going had a stop time out before. */
  lemma ClosedMeansExited(worlds: seq<World>, steps: seq<Step>, n: nat, k: nat)
    requires IsRun(worlds, steps) && Init(worlds[0]) && n < |worlds| && k in worlds[n].owners
    requires worlds[n].owners[k].closed
    ensures worlds[n].owners[k].pc.Exited? || worlds[n].owners[k].timedOut
  {
    RunStopOk(worlds, steps, n);
  }

  /** ... and after a stop has timed out, the next one closes the store at once, wherever the thread is. */
  lemma SecondStopCloses(w: World, k: nat) returns (worlds: seq<World>)
    requires AllStopOk(w) && Live(w, k) && w.owners[k].stopper.Waiting?
    ensures IsRun(worlds, [StopTimeout(k), StopBegin(k), StopClose(k)]) && worlds[0] == w
    ensures k in worlds[3].owners && worlds[3].owners[k].closed && worlds[3].owners[k].pc == w.owners[k].pc
  {
    var u := Apply(w, StopTimeout(k));
    var v := Apply(u, StopBegin(k));
    worlds := [w, u, v, Apply(v, StopClose(k))];
  }

  /** A run that closes the store under a thread that has not yet looked at the flag. */
  lemma ClosedUnderThread(st: Store, config: Config) returns (worlds: seq<World>, steps: seq<Step>)
    ensures IsRun(worlds, steps) && Init(worlds[0]) && worlds[0].store == st && |worlds| == 6
    ensures 0 in worlds[5].owners && worlds[5].owners[0].closed && !worlds[5].owners[0].pc.Exited?
  {
    var w := World(st, map[], [], {});
    var u := Apply(w, Spawn(0, config, false));
    var v := Apply(u, StopBegin(0));
    var rest := SecondStopCloses(v, 0);
    var again := [StopTimeout(0), StopBegin(0), StopClose(0)];
    worlds, steps := [w, u] + rest, [Spawn(0, config, false), StopBegin(0)] + again;
    forall i | 2 <= i < 5
      ensures Next(worlds[i], steps[i], worlds[i + 1])
    {
      assert steps[i] == again[i - 2];
    }
  }
}
