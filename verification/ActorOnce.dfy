/** Every run calls the host at most once for a request, with the record that was durably admitted. */
module ActorOnce {
  import opened Journal
  import opened Actor

  /** `record` is what the store held for `id` at some earlier moment. */
  ghost predicate Backed(st: Store, id: string, record: Record)
  {
    id in st.rows && Decode(Json(record), id).Ok? && RowEvolves(id, Json(record), st.rows[id])
  }

  /** It was queued then, and has been started since. */
  ghost predicate Begun(st: Store, id: string, record: Record)
  {
    Backed(st, id, record) && record.state == Queued && st.rows[id].record.state != Queued
  }

  ghost predicate Uncalled(calls: seq<Call>, id: string)
  {
    forall i :: 0 <= i < |calls| ==> calls[i].id != id
  }

  ghost predicate PcBacked(st: Store, calls: seq<Call>, pc: Pc)
  {
    && (pc.Loaded? ==> Backed(st, pc.id, pc.record))
    && (pc.Started? ==> Begun(st, pc.id, pc.record) && Uncalled(calls, pc.id))
  }

  ghost predicate CallsBegun(st: Store, calls: seq<Call>)
  {
    forall i :: 0 <= i < |calls| ==> Begun(st, calls[i].id, calls[i].record)
  }

  ghost predicate Once(calls: seq<Call>)
  {
    forall i, j :: 0 <= i < j < |calls| ==> calls[i].id != calls[j].id
  }

  /** No two owners stand between the same record's start and its host call. */
  ghost predicate Exclusive(owners: map<nat, Owner>)
  {
    forall j, k :: j in owners && k in owners && j != k && owners[j].pc.Started? && owners[k].pc.Started?
      ==> owners[j].pc.id != owners[k].pc.id
  }

  ghost predicate OwnersBacked(w: World)
  {
    forall k :: k in w.owners ==> PcBacked(w.store, w.calls, w.owners[k].pc)
  }

  ghost predicate Inv(w: World)
  {
    CallsBegun(w.store, w.calls) && Once(w.calls) && Exclusive(w.owners) && OwnersBacked(w)
  }

  lemma BackedStays(st: Store, later: Store, id: string, record: Record)
    requires Evolves(st, later) && Backed(st, id, record)
    ensures Backed(later, id, record)
    ensures Begun(st, id, record) ==> Begun(later, id, record)
  {
    RowEvolvesTransitive(id, Json(record), st.rows[id], later.rows[id]);
  }

  lemma CallsStay(st: Store, later: Store, calls: seq<Call>)
    requires Evolves(st, later) && CallsBegun(st, calls)
    ensures CallsBegun(later, calls)
  {
    forall i | 0 <= i < |calls|
      ensures Begun(later, calls[i].id, calls[i].record)
    {
      BackedStays(st, later, calls[i].id, calls[i].record);
    }
  }

  /** The same calls of the same records, whatever they have returned. */
  ghost predicate SameCalls(a: seq<Call>, b: seq<Call>)
  {
    |a| == |b| && forall i :: 0 <= i < |a| ==> a[i].id == b[i].id && a[i].record == b[i].record
  }

  /** A step in which nobody reaches a new record. */
  ghost predicate Quiet(w: World, t: World, k: nat)
  {
    && SameCalls(w.calls, t.calls) && Moved(w, t, k)
    && ((k in w.owners && t.owners[k].pc == w.owners[k].pc) || (!t.owners[k].pc.Loaded? && !t.owners[k].pc.Started?))
  }

  lemma QuietStep(w: World, t: World, k: nat)
    requires Inv(w) && Evolves(w.store, t.store) && Quiet(w, t, k)
    ensures Inv(t)
  {
    CallsStay(w.store, t.store, w.calls);
    forall j | j in t.owners
      ensures PcBacked(t.store, t.calls, t.owners[j].pc)
    {
      PcStays(w, t, j, k);
    }
  }

  lemma PcStays(w: World, t: World, j: nat, k: nat)
    requires Inv(w) && Evolves(w.store, t.store) && Moved(w, t, k) && SameCalls(w.calls, t.calls) && j in t.owners
    requires j == k ==> (k in w.owners && t.owners[k].pc == w.owners[k].pc) || (!t.owners[k].pc.Loaded? && !t.owners[k].pc.Started?)
    ensures PcBacked(t.store, t.calls, t.owners[j].pc)
  {
    if j in w.owners && t.owners[j].pc == w.owners[j].pc {
      var pc := t.owners[j].pc;
      assert PcBacked(w.store, w.calls, pc);
      if pc.Loaded? || pc.Started? {
        BackedStays(w.store, t.store, pc.id, pc.record);
      }
    }
  }

  lemma FetchFinds(w: World, k: nat, link: Link)
    requires k in w.owners && w.owners[k].pc.Popped?
    ensures var t := DoFetch(w, k, link);
      k in t.owners && t == With(w, k, t.owners[k])
      && (t.owners[k].pc.Top? || t.owners[k].pc.Exited?
          || (t.owners[k].pc.Loaded? && Backed(w.store, t.owners[k].pc.id, t.owners[k].pc.record)))
  {
  }

  lemma FetchKeeps(w: World, t: World, k: nat)
    requires Inv(w) && k in t.owners && t == With(w, k, t.owners[k])
    requires t.owners[k].pc.Loaded? && Backed(w.store, t.owners[k].pc.id, t.owners[k].pc.record)
    ensures Inv(t)
  {
    forall j | j in t.owners
      ensures PcBacked(t.store, t.calls, t.owners[j].pc)
    {
      if j != k {
        assert PcBacked(w.store, w.calls, w.owners[j].pc);
      }
    }
  }

  /** A start that succeeded found the row queued and left it running. */
  ghost predicate StartedFrom(w: World, t: World, k: nat)
  {
    && Moved(w, t, k) && t.calls == w.calls && k in w.owners && w.owners[k].pc.Loaded?
    && t.owners[k].pc == Started(w.owners[k].pc.id, w.owners[k].pc.record)
    && var id := w.owners[k].pc.id;
    && id in w.store.rows && w.store.rows[id].Json? && w.store.rows[id].record.state == Queued
    && id in t.store.rows && t.store.rows[id].Json? && t.store.rows[id].record.state == Running
  }

  lemma BeginShape(w: World, k: nat, link: Link)
    requires k in w.owners && w.owners[k].pc.Loaded?
    ensures Quiet(w, DoBegin(w, k, link), k) || StartedFrom(w, DoBegin(w, k, link), k)
  {
    var (r, st) := Start(w.owners[k].config, w.owners[k].Answer(link), w.owners[k].pc.id, w.store);
    StartIff(w.owners[k].config, w.owners[k].Answer(link), w.owners[k].pc.id, w.store);
    BegunShape(w, k, r, st);
  }

  lemma BegunShape(w: World, k: nat, r: Result<Record>, st: Store)
    requires k in w.owners && w.owners[k].pc.Loaded? && StartTells(w.owners[k].config, w.owners[k].pc.id, w.store, st, r)
    ensures Quiet(w, OnBegun(w, k, r, st), k) || StartedFrom(w, OnBegun(w, k, r, st), k)
  {
  }

  /** A queued row belongs to no call, and to no other owner that has started it. */
  lemma QueuedIsFree(w: World, id: string)
    requires Inv(w) && id in w.store.rows && w.store.rows[id].Json? && w.store.rows[id].record.state == Queued
    ensures Uncalled(w.calls, id)
    ensures forall j :: j in w.owners && w.owners[j].pc.Started? ==> w.owners[j].pc.id != id
  {
    forall i | 0 <= i < |w.calls|
      ensures w.calls[i].id != id
    {
      assert Begun(w.store, w.calls[i].id, w.calls[i].record);
    }
    forall j | j in w.owners && w.owners[j].pc.Started?
      ensures w.owners[j].pc.id != id
    {
      assert PcBacked(w.store, w.calls, w.owners[j].pc);
    }
  }

  lemma BeginKeeps(w: World, t: World, k: nat)
    requires Inv(w) && Evolves(w.store, t.store) && StartedFrom(w, t, k)
    ensures Inv(t)
  {
    var pc := w.owners[k].pc;
    QueuedIsFree(w, pc.id);
    CallsStay(w.store, t.store, w.calls);
    assert PcBacked(w.store, w.calls, pc);
    BackedStays(w.store, t.store, pc.id, pc.record);
    forall j | j in t.owners && j != k
      ensures PcBacked(t.store, t.calls, t.owners[j].pc)
    {
      PcStays(w, t, j, k);
    }
  }

  lemma InvokeKeeps(w: World, k: nat)
    requires Inv(w) && k in w.owners && w.owners[k].pc.Started? && w.owners[k].popped > 0
    ensures Inv(DoInvoke(w, k))
  {
    var t := DoInvoke(w, k);
    assert PcBacked(w.store, w.calls, w.owners[k].pc);
    forall j | j in t.owners && j != k
      ensures PcBacked(t.store, t.calls, t.owners[j].pc)
    {
      assert PcBacked(w.store, w.calls, w.owners[j].pc);
    }
  }

  predicate Reaching(s: Step)
  {
    s.AppendEvent? || s.Reconcile? || s.Fetch? || s.Begin? || s.Invoke?
  }

  lemma StepIsQuiet(w: World, s: Step)
    requires Enabled(w, s) && !Reaching(s)
    ensures Quiet(w, Apply(w, s), s.k)
  {
    if !s.Return? {
      StepPlain(w, s);
    }
  }

  lemma StepKeeps(w: World, s: Step)
    requires Enabled(w, s) && Inv(w)
    ensures Inv(Apply(w, s))
  {
    StepEvolves(w, s);
    var t := Apply(w, s);
    if !Reaching(s) {
      StepIsQuiet(w, s);
      QuietStep(w, t, s.k);
    } else if s.AppendEvent? || s.Reconcile? {
      StoreOnlyKeeps(w, t);
    } else if s.Fetch? {
      FetchFinds(w, s.k, s.link);
      if t.owners[s.k].pc.Loaded? {
        FetchKeeps(w, t, s.k);
      } else {
        QuietStep(w, t, s.k);
      }
    } else if s.Begin? {
      BeginShape(w, s.k, s.link);
      if Quiet(w, t, s.k) {
        QuietStep(w, t, s.k);
      } else {
        BeginKeeps(w, t, s.k);
      }
    } else {
      InvokeKeeps(w, s.k);
    }
  }

  lemma StoreOnlyKeeps(w: World, t: World)
    requires Inv(w) && t == w.(store := t.store) && Evolves(w.store, t.store)
    ensures Inv(t)
  {
    CallsStay(w.store, t.store, w.calls);
    forall j | j in t.owners
      ensures PcBacked(t.store, t.calls, t.owners[j].pc)
    {
      var pc := t.owners[j].pc;
      assert PcBacked(w.store, w.calls, pc);
      if pc.Loaded? || pc.Started? {
        BackedStays(w.store, t.store, pc.id, pc.record);
      }
    }
  }

  lemma {:induction false} RunKeeps(worlds: seq<World>, steps: seq<Step>, n: nat)
    requires IsRun(worlds, steps) && Init(worlds[0]) && n < |worlds|
    ensures Inv(worlds[n])
  {
    if n > 0 {
      RunKeeps(worlds, steps, n - 1);
      StepKeeps(worlds[n - 1], steps[n - 1]);
    }
  }

  /** The call was made with the queued record the store still holds, further on, for that request. */
  ghost predicate Served(st: Store, c: Call)
  {
    && c.record.state == Queued && c.record.requestId == c.id
    && c.id in st.rows && st.rows[c.id].Json? && st.rows[c.id].record.state != Queued
    && SameJob(c.record, st.rows[c.id].record)
  }

  /**
   * Over every run, through crashes, restarts and concurrent owners: no request reaches the host twice,
   * and what the host is given is the admission the store still holds for that request.
   */
  lemma AtMostOnce(worlds: seq<World>, steps: seq<Step>, n: nat)
    requires IsRun(worlds, steps) && Init(worlds[0]) && n < |worlds|
    ensures Once(worlds[n].calls)
    ensures forall i :: 0 <= i < |worlds[n].calls| ==> Served(worlds[n].store, worlds[n].calls[i])
  {
    RunKeeps(worlds, steps, n);
    forall i | 0 <= i < |worlds[n].calls|
      ensures Served(worlds[n].store, worlds[n].calls[i])
    {
      assert Begun(worlds[n].store, worlds[n].calls[i].id, worlds[n].calls[i].record);
    }
  }
}
