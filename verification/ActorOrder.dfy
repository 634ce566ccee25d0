/** Each owner serves its queue in order, one job at a time. */
module ActorOrder {
  import opened Options
  import opened Journal
  import opened Actor
  import ActorOutcomes

  /** The thread holds the job it last dequeued. */
  predicate Holding(pc: Pc)
  {
    pc.Popped? || pc.Loaded? || pc.Started? || pc.Calling? || pc.Ran?
  }

  /** How much of the queue the owner's calls can have come from. */
  function Behind(o: Owner): int
  {
    if o.pc.Popped? || o.pc.Loaded? || o.pc.Started? then o.popped - 1 else o.popped
  }

  ghost predicate HoldsLast(o: Owner)
  {
    o.popped <= |o.pushed| && (Holding(o.pc) ==> o.popped > 0 && o.pushed[o.popped - 1] == o.pc.id)
  }

  /** A call is for the job at its position in the queue, which has been taken off. */
  ghost predicate FromQueue(c: Call, o: Owner)
  {
    c.position < Behind(o) <= |o.pushed| && c.id == o.pushed[c.position]
  }

  ghost predicate CallsFromQueue(calls: seq<Call>, k: nat, o: Owner)
  {
    forall i :: 0 <= i < |calls| && calls[i].owner == k ==> FromQueue(calls[i], o)
  }

  ghost predicate Serial(calls: seq<Call>, k: nat, o: Owner)
  {
    forall i :: 0 <= i < |calls| && calls[i].owner == k && calls[i].outcome.None? ==> o.pc.Calling? && o.pc.call == i
  }

  /** The call under way is for the job last dequeued. */
  ghost predicate CallsLast(calls: seq<Call>, o: Owner)
  {
    o.pc.Calling? ==> o.pc.call < |calls| && calls[o.pc.call].position == o.popped - 1
  }

  ghost predicate InOrder(calls: seq<Call>)
  {
    forall i, j :: 0 <= i < j < |calls| && calls[i].owner == calls[j].owner ==> calls[i].position < calls[j].position
  }

  ghost predicate OwnerOrder(calls: seq<Call>, k: nat, o: Owner)
  {
    HoldsLast(o) && CallsFromQueue(calls, k, o) && Serial(calls, k, o) && CallsLast(calls, o)
  }

  ghost predicate Inv(w: World)
  {
    && InOrder(w.calls)
    && (forall i :: 0 <= i < |w.calls| ==> w.calls[i].owner in w.owners)
    && (forall k :: k in w.owners ==> OwnerOrder(w.calls, k, w.owners[k]))
  }

  ghost predicate Extends(a: seq<string>, b: seq<string>)
  {
    |a| <= |b| && forall i :: 0 <= i < |a| ==> b[i] == a[i]
  }

  /** The owner's part of a step away from the host. */
  ghost predicate Advances(o: Owner, p: Owner)
  {
    && HoldsLast(p) && Extends(o.pushed, p.pushed) && Behind(o) <= Behind(p)
    && (o.pc.Calling? ==> p.pc == o.pc && p.popped == o.popped) && (p.pc.Calling? ==> o.pc.Calling?)
  }

  lemma SubmitAdvances(w: World, s: Step)
    requires Enabled(w, s) && (s.SubmitCheck? || s.SubmitAdmit?) && HoldsLast(w.owners[s.k])
    ensures Advances(w.owners[s.k], Apply(w, s).owners[s.k])
  {
  }

  lemma PushAdvances(w: World, k: nat, i: nat)
    requires k in w.owners && i < |w.owners[k].unpushed| && HoldsLast(w.owners[k])
    ensures Advances(w.owners[k], DoSubmitPush(w, k, i).owners[k])
  {
  }

  lemma PopHolds(o: Owner)
    requires o.pc.Go? && o.popped <= |o.pushed|
    ensures HoldsLast(Dequeued(o)) && Dequeued(o).pushed == o.pushed && Behind(Dequeued(o)) == o.popped
    ensures !Dequeued(o).pc.Calling?
  {
    if o.popped < |o.pushed| {
      var id := o.pushed[o.popped];
      assert Dequeued(o) == o.(popped := o.popped + 1, pc := Popped(id));
    }
  }

  lemma PopAdvances(o: Owner, p: Owner)
    requires o.pc.Go? && p.pushed == o.pushed && HoldsLast(p) && Behind(p) == o.popped && !p.pc.Calling?
    ensures Advances(o, p)
  {
  }

  lemma StopAdvances(w: World, s: Step)
    requires Enabled(w, s) && (s.CheckStop? || s.StopBegin? || s.StopJoined? || s.StopTimeout? || s.StopClose? || s.Crash?)
    requires HoldsLast(w.owners[s.k])
    ensures Advances(w.owners[s.k], Apply(w, s).owners[s.k])
  {
  }

  lemma FetchAdvances(w: World, k: nat, r: Result<Option<Record>>)
    requires k in w.owners && w.owners[k].pc.Popped? && HoldsLast(w.owners[k])
    ensures var t := OnFetched(w, k, r); Moved(w, t, k) && t.calls == w.calls && Advances(w.owners[k], t.owners[k])
  {
  }

  lemma BeginAdvances(w: World, k: nat, r: Result<Record>, st: Store)
    requires k in w.owners && w.owners[k].pc.Loaded? && HoldsLast(w.owners[k])
    ensures var t := OnBegun(w, k, r, st); Moved(w, t, k) && t.calls == w.calls && Advances(w.owners[k], t.owners[k])
  {
  }

  lemma ConcludeAdvances(w: World, k: nat, link: Link)
    requires k in w.owners && w.owners[k].pc.Ran? && HoldsLast(w.owners[k])
    ensures Advances(w.owners[k], DoConclude(w, k, link).owners[k])
  {
  }

  lemma InlineRecoverAdvances(w: World, k: nat, link: Link, order: seq<string>)
    requires k in w.owners && w.owners[k].pc.Fresh? && Lists(order, w.store.rows) && HoldsLast(w.owners[k])
    ensures Advances(w.owners[k], DoInlineRecover(w, k, link, order).owners[k])
  {
  }

  lemma InlineAdmitAdvances(w: World, k: nat, r: Result<(Record, bool)>, st: Store)
    requires k in w.owners && w.owners[k].pc.Recovered? && HoldsLast(w.owners[k])
    ensures Advances(w.owners[k], OnInlineAdmitted(w, k, r, st).owners[k])
  {
    if r.Ok? {
      TakenUpAdvances(w.owners[k], r.value.0.requestId);
    }
  }

  lemma TakenUpAdvances(o: Owner, id: string)
    requires o.pc.Recovered? && HoldsLast(o)
    ensures Advances(o, TakenUp(o, id))
  {
  }

  lemma AdvanceKeeps(w: World, t: World, k: nat)
    requires Inv(w) && Moved(w, t, k) && t.calls == w.calls && k in w.owners && Advances(w.owners[k], t.owners[k])
    ensures Inv(t)
  {
    assert OwnerOrder(w.calls, k, w.owners[k]);
    forall i | 0 <= i < |t.calls| && t.calls[i].owner == k
      ensures FromQueue(t.calls[i], t.owners[k])
    {
      assert FromQueue(w.calls[i], w.owners[k]);
    }
    forall j | j in t.owners && j != k
      ensures OwnerOrder(t.calls, j, t.owners[j])
    {
      assert OwnerOrder(w.calls, j, w.owners[j]);
    }
  }

  lemma SpawnKeeps(w: World, k: nat, config: Config, inline: bool)
    requires Inv(w) && k !in w.owners
    ensures Inv(With(w, k, NewOwner(config, inline)))
  {
  }

  lemma InvokeKeeps(w: World, k: nat)
    requires Inv(w) && k in w.owners && w.owners[k].pc.Started? && w.owners[k].popped > 0
    ensures Inv(DoInvoke(w, k))
  {
    var t, o := DoInvoke(w, k), w.owners[k];
    assert OwnerOrder(w.calls, k, o);
    var c := Call(k, o.popped - 1, o.pc.id, o.pc.record, None);
    CallerOrder(w.calls, k, o, c);
    forall j | j in t.owners && j != k
      ensures OwnerOrder(t.calls, j, t.owners[j])
    {
      assert OwnerOrder(w.calls, j, w.owners[j]);
      OthersOrder(w.calls, j, w.owners[j], c);
    }
  }

  lemma CallerOrder(calls: seq<Call>, k: nat, o: Owner, c: Call)
    requires OwnerOrder(calls, k, o) && o.pc.Started? && o.popped > 0
    requires c == Call(k, o.popped - 1, o.pc.id, o.pc.record, None)
    ensures OwnerOrder(calls + [c], k, o.(pc := Calling(o.pc.id, |calls|)))
  {
    forall i | 0 <= i < |calls| && calls[i].owner == k
      ensures FromQueue(calls[i], o.(pc := Calling(o.pc.id, |calls|)))
    {
      assert FromQueue(calls[i], o);
    }
  }

  lemma OthersOrder(calls: seq<Call>, j: nat, o: Owner, c: Call)
    requires OwnerOrder(calls, j, o) && c.owner != j
    ensures OwnerOrder(calls + [c], j, o)
  {
  }

  lemma ReturnKeeps(w: World, k: nat, outcome: Outcome)
    requires Inv(w) && k in w.owners && w.owners[k].pc.Calling? && ActorOutcomes.AtCall(w.calls, k, w.owners[k].pc)
    ensures Inv(DoReturn(w, k, outcome))
  {
    var t := DoReturn(w, k, outcome);
    assert OwnerOrder(w.calls, k, w.owners[k]);
    forall j | j in t.owners
      ensures OwnerOrder(t.calls, j, t.owners[j])
    {
      assert OwnerOrder(w.calls, j, w.owners[j]);
      assert forall i :: 0 <= i < |w.calls| && i != w.owners[k].pc.call ==> t.calls[i] == w.calls[i];
    }
  }

  lemma StepKeeps(w: World, s: Step)
    requires Enabled(w, s) && Inv(w) && ActorOutcomes.AllAtCall(w)
    ensures Inv(Apply(w, s))
  {
    if s.AppendEvent? || s.Reconcile? {
    } else if s.Spawn? {
      SpawnKeeps(w, s.k, s.config, s.inline);
    } else if s.Invoke? {
      InvokeKeeps(w, s.k);
    } else if s.Return? {
      assert ActorOutcomes.AtCall(w.calls, s.k, w.owners[s.k].pc);
      ReturnKeeps(w, s.k, s.outcome);
    } else {
      assert OwnerOrder(w.calls, s.k, w.owners[s.k]);
      StepAdvances(w, s);
      AdvanceKeeps(w, Apply(w, s), s.k);
    }
  }

  lemma StepAdvances(w: World, s: Step)
    requires Enabled(w, s) && !s.AppendEvent? && !s.Reconcile? && !s.Spawn? && !s.Invoke? && !s.Return?
    requires HoldsLast(w.owners[s.k])
    ensures Advances(w.owners[s.k], Apply(w, s).owners[s.k])
    ensures Moved(w, Apply(w, s), s.k) && Apply(w, s).calls == w.calls
  {
    StepPlain(w, s);
    if s.Fetch? {
      FetchAdvances(w, s.k, Get(w.owners[s.k].Answer(s.link), w.owners[s.k].pc.id, w.store));
    } else if s.Begin? {
      var (r, st) := Start(w.owners[s.k].config, w.owners[s.k].Answer(s.link), w.owners[s.k].pc.id, w.store);
      BeginAdvances(w, s.k, r, st);
    } else if s.Conclude? {
      ConcludeAdvances(w, s.k, s.link);
    } else if s.InlineRecover? {
      InlineRecoverAdvances(w, s.k, s.link, s.order);
    } else if s.InlineAdmit? {
      var (r, st) := Admit(w.owners[s.k].config, w.owners[s.k].Answer(s.link), s.payload, w.store);
      InlineAdmitAdvances(w, s.k, r, st);
    } else if s.SubmitCheck? || s.SubmitAdmit? {
      SubmitAdvances(w, s);
    } else if s.SubmitPush? {
      PushAdvances(w, s.k, s.i);
    } else if s.Pop? {
      PopHolds(w.owners[s.k]);
      PopAdvances(w.owners[s.k], Dequeued(w.owners[s.k]));
    } else {
      StopAdvances(w, s);
    }
  }

  lemma {:induction false} RunKeeps(worlds: seq<World>, steps: seq<Step>, n: nat)
    requires IsRun(worlds, steps) && Init(worlds[0]) && n < |worlds|
    ensures Inv(worlds[n])
  {
    if n > 0 {
      RunKeeps(worlds, steps, n - 1);
      ActorOutcomes.RunExplained(worlds, steps, n - 1);
      StepKeeps(worlds[n - 1], steps[n - 1]);
    }
  }

  /**
   * Over every run an owner's host calls follow its queue: each is for the job at its position, positions
   * only rise, and a call begins only when the owner's earlier ones have all returned.
   */
  lemma ServedInOrder(worlds: seq<World>, steps: seq<Step>, n: nat, i: nat, j: nat)
    requires IsRun(worlds, steps) && Init(worlds[0]) && n < |worlds|
    requires i < j < |worlds[n].calls| && worlds[n].calls[i].owner == worlds[n].calls[j].owner
    ensures var calls, k := worlds[n].calls, worlds[n].calls[i].owner;
      && k in worlds[n].owners && calls[i].position < calls[j].position < |worlds[n].owners[k].pushed|
      && worlds[n].owners[k].pushed[calls[i].position] == calls[i].id
      && worlds[n].owners[k].pushed[calls[j].position] == calls[j].id
      && calls[i].outcome.Some?
  {
    RunKeeps(worlds, steps, n);
    var k := worlds[n].calls[i].owner;
    assert OwnerOrder(worlds[n].calls, k, worlds[n].owners[k]);
    assert FromQueue(worlds[n].calls[i], worlds[n].owners[k]) && FromQueue(worlds[n].calls[j], worlds[n].owners[k]);
    assert worlds[n].calls[i].position < worlds[n].calls[j].position;
  }
}
