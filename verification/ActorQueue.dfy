/** A queue holds only requests its owner inserted, each once, and no two owners share one. */
module ActorQueue {
  import opened Options
  import opened Journal
  import opened Actor

  /** Every request the owner has inserted to execute, on the queue or on its way there. */
  ghost function Held(o: Owner): multiset<string>
  {
    multiset(o.pushed) + multiset(o.unpushed)
  }

  ghost predicate InsertedBy(st: Store, instance: string, id: string)
  {
    id in st.rows && Decode(st.rows[id], id).Ok? && st.rows[id].record.instance == instance
  }

  ghost predicate OwnerHolds(st: Store, o: Owner)
  {
    forall id :: id in Held(o) ==> Held(o)[id] == 1 && InsertedBy(st, o.config.instance, id)
  }

  ghost predicate Apart(owners: map<nat, Owner>)
  {
    forall j, k, id :: j in owners && k in owners && j != k && id in Held(owners[j]) ==> id !in Held(owners[k])
  }

  ghost predicate Inv(w: World)
  {
    Apart(w.owners) && forall k :: k in w.owners ==> OwnerHolds(w.store, w.owners[k])
  }

  lemma OwnerStays(st: Store, later: Store, o: Owner, p: Owner)
    requires Evolves(st, later) && OwnerHolds(st, o) && Held(p) == Held(o) && p.config == o.config
    ensures OwnerHolds(later, p)
  {
    forall id | id in Held(p)
      ensures Held(p)[id] == 1 && InsertedBy(later, p.config.instance, id)
    {
      assert InsertedBy(st, o.config.instance, id) && RowEvolves(id, st.rows[id], later.rows[id]);
    }
  }

  lemma OthersStay(w: World, t: World, k: nat)
    requires Inv(w) && Evolves(w.store, t.store) && Moved(w, t, k)
    ensures forall j :: j in t.owners && j != k ==> OwnerHolds(t.store, t.owners[j])
  {
    forall j | j in t.owners && j != k
      ensures OwnerHolds(t.store, t.owners[j])
    {
      OwnerStays(w.store, t.store, w.owners[j], t.owners[j]);
    }
  }

  /** A step that inserts nothing: what each owner holds stays the same. */
  lemma SameHeldKeeps(w: World, t: World, k: nat)
    requires Inv(w) && Evolves(w.store, t.store) && Moved(w, t, k)
    requires if k in w.owners then Held(t.owners[k]) == Held(w.owners[k]) && t.owners[k].config == w.owners[k].config
             else Held(t.owners[k]) == multiset{}
    ensures Inv(t)
  {
    forall j | j in t.owners
      ensures OwnerHolds(t.store, t.owners[j])
    {
      if j in w.owners {
        OwnerStays(w.store, t.store, w.owners[j], t.owners[j]);
      }
    }
  }

  lemma NewIsUnheld(w: World, id: string)
    requires Inv(w) && id !in w.store.rows
    ensures forall j :: j in w.owners ==> id !in Held(w.owners[j])
  {
    forall j | j in w.owners
      ensures id !in Held(w.owners[j])
    {
      assert OwnerHolds(w.store, w.owners[j]);
    }
  }

  lemma OwnerGains(st: Store, later: Store, o: Owner, p: Owner, id: string)
    requires Evolves(st, later) && OwnerHolds(st, o) && p.config == o.config && id !in Held(o)
    requires Held(p) == Held(o) + multiset{id} && InsertedBy(later, p.config.instance, id)
    ensures OwnerHolds(later, p)
  {
    OwnerStays(st, later, o, o);
  }

  lemma ApartGains(owners: map<nat, Owner>, k: nat, p: Owner, id: string)
    requires Apart(owners) && k in owners && Held(p) == Held(owners[k]) + multiset{id}
    requires forall j :: j in owners ==> id !in Held(owners[j])
    ensures Apart(owners[k := p])
  {
  }

  /** A step that inserts `id`, which no row had, for owner `k`. */
  lemma InsertKeeps(w: World, t: World, k: nat, id: string)
    requires Inv(w) && Evolves(w.store, t.store) && Moved(w, t, k) && k in w.owners
    requires id !in w.store.rows && InsertedBy(t.store, t.owners[k].config.instance, id)
    requires Held(t.owners[k]) == Held(w.owners[k]) + multiset{id} && t.owners[k].config == w.owners[k].config
    ensures Inv(t)
  {
    NewIsUnheld(w, id);
    ApartGains(w.owners, k, t.owners[k], id);
    OwnerGains(w.store, t.store, w.owners[k], t.owners[k], id);
    OthersStay(w, t, k);
  }

  lemma PushHolds(o: Owner, i: nat)
    requires i < |o.unpushed|
    ensures multiset(o.pushed + [o.unpushed[i]]) + multiset(o.unpushed[..i] + o.unpushed[i + 1..]) == Held(o)
  {
    assert o.unpushed == o.unpushed[..i] + [o.unpushed[i]] + o.unpushed[i + 1..];
  }

  /** What an admission does to what the owner holds: nothing, or one new id is added. */
  ghost predicate Inserts(w: World, t: World, k: nat, added: Option<string>)
  {
    && Moved(w, t, k) && k in w.owners && t.owners[k].config == w.owners[k].config
    && match added
       case None => Held(t.owners[k]) == Held(w.owners[k])
       case Some(id) =>
         && id !in w.store.rows && InsertedBy(t.store, w.owners[k].config.instance, id)
         && Held(t.owners[k]) == Held(w.owners[k]) + multiset{id}
  }

  function Inserted(r: Result<(Record, bool)>): Option<string>
  {
    if r.Ok? && r.value.1 then Some(r.value.0.requestId) else None
  }

  /** How an admission leaves the store. */
  ghost predicate Inserting(st: Store, cfg: Config, r: Result<(Record, bool)>, t: Store)
  {
    match Inserted(r)
    case None => t == st
    case Some(id) => id !in st.rows && InsertedBy(t, cfg.instance, id)
  }

  lemma AdmitInserts(cfg: Config, link: Link, payload: Payload, st: Store)
    ensures var (r, t) := Admit(cfg, link, payload, st); Inserting(st, cfg, r, t)
  {
  }

  lemma HeldGrows(o: Owner, id: string)
    ensures multiset(o.pushed) + multiset(o.unpushed + [id]) == Held(o) + multiset{id}
    ensures multiset(o.pushed + [id]) + multiset(o.unpushed) == Held(o) + multiset{id}
  {
  }

  lemma SubmitInserts(w: World, k: nat, r: Result<(Record, bool)>, st: Store)
    requires k in w.owners && w.owners[k].checked > 0 && Inserting(w.store, w.owners[k].config, r, st)
    ensures Inserts(w, OnSubmitted(w, k, r, st), k, Inserted(r))
  {
    if r.Ok? {
      HeldGrows(w.owners[k], r.value.0.requestId);
    }
  }

  lemma InlineInserts(w: World, k: nat, r: Result<(Record, bool)>, st: Store)
    requires k in w.owners && Inserting(w.store, w.owners[k].config, r, st)
    ensures Inserts(w, OnInlineAdmitted(w, k, r, st), k, Inserted(r))
  {
    if r.Ok? {
      HeldGrows(w.owners[k], r.value.0.requestId);
    }
  }

  lemma InsertsKeeps(w: World, t: World, k: nat, added: Option<string>)
    requires Inv(w) && Evolves(w.store, t.store) && Inserts(w, t, k, added)
    ensures Inv(t)
  {
    match added
    case None => SameHeldKeeps(w, t, k);
    case Some(id) => InsertKeeps(w, t, k, id);
  }

  predicate Feeds(s: Step)
  {
    s.SubmitAdmit? || s.SubmitPush? || s.InlineAdmit? || s.AppendEvent? || s.Reconcile? || s.Spawn?
  }

  /** Both lists left alone. */
  ghost predicate SameLists(w: World, t: World, k: nat)
  {
    && Moved(w, t, k) && k in w.owners
    && var o, p := w.owners[k], t.owners[k]; p.pushed == o.pushed && p.unpushed == o.unpushed && p.config == o.config
  }

  lemma StopHolds(w: World, s: Step)
    requires Enabled(w, s)
    requires s.SubmitCheck? || s.CheckStop? || s.StopBegin? || s.StopJoined? || s.StopTimeout? || s.StopClose? || s.Crash?
    ensures SameLists(w, Apply(w, s), s.k)
  {
  }

  lemma HostHolds(w: World, s: Step)
    requires Enabled(w, s) && (s.Pop? || s.Invoke? || s.Return? || s.Conclude?)
    ensures SameLists(w, Apply(w, s), s.k)
  {
  }

  lemma BeginHolds(w: World, k: nat, r: Result<Record>, st: Store)
    requires k in w.owners && w.owners[k].pc.Loaded?
    ensures SameLists(w, OnBegun(w, k, r, st), k)
  {
  }

  lemma FetchHolds(w: World, k: nat, r: Result<Option<Record>>)
    requires k in w.owners && w.owners[k].pc.Popped?
    ensures SameLists(w, OnFetched(w, k, r), k)
  {
  }

  lemma RecoverHolds(w: World, k: nat, link: Link, order: seq<string>)
    requires k in w.owners && Lists(order, w.store.rows)
    ensures SameLists(w, DoInlineRecover(w, k, link, order), k)
  {
  }

  /** The steps that feed no queue leave both lists alone. */
  lemma OthersHold(w: World, s: Step)
    requires Enabled(w, s) && !Feeds(s)
    ensures SameLists(w, Apply(w, s), s.k)
  {
    if s.Fetch? {
      FetchHolds(w, s.k, Get(w.owners[s.k].Answer(s.link), w.owners[s.k].pc.id, w.store));
    } else if s.Begin? {
      var (r, st) := Start(w.owners[s.k].config, w.owners[s.k].Answer(s.link), w.owners[s.k].pc.id, w.store);
      BeginHolds(w, s.k, r, st);
    } else if s.InlineRecover? {
      RecoverHolds(w, s.k, s.link, s.order);
    } else if s.Pop? || s.Invoke? || s.Return? || s.Conclude? {
      HostHolds(w, s);
    } else {
      StopHolds(w, s);
    }
  }

  lemma SubmitKeeps(w: World, k: nat, payload: Payload, link: Link)
    requires Inv(w) && k in w.owners && w.owners[k].checked > 0
    requires Evolves(w.store, DoSubmitAdmit(w, k, payload, link).store)
    ensures Inv(DoSubmitAdmit(w, k, payload, link))
  {
    var (r, st) := Admit(w.owners[k].config, w.owners[k].Answer(link), payload, w.store);
    AdmitInserts(w.owners[k].config, w.owners[k].Answer(link), payload, w.store);
    SubmitInserts(w, k, r, st);
    InsertsKeeps(w, OnSubmitted(w, k, r, st), k, Inserted(r));
  }

  lemma InlineKeeps(w: World, k: nat, payload: Payload, link: Link)
    requires Inv(w) && k in w.owners && Evolves(w.store, DoInlineAdmit(w, k, payload, link).store)
    ensures Inv(DoInlineAdmit(w, k, payload, link))
  {
    var (r, st) := Admit(w.owners[k].config, w.owners[k].Answer(link), payload, w.store);
    AdmitInserts(w.owners[k].config, w.owners[k].Answer(link), payload, w.store);
    InlineInserts(w, k, r, st);
    InsertsKeeps(w, OnInlineAdmitted(w, k, r, st), k, Inserted(r));
  }

  lemma StepKeeps(w: World, s: Step)
    requires Enabled(w, s) && Inv(w)
    ensures Inv(Apply(w, s))
  {
    StepEvolves(w, s);
    var t := Apply(w, s);
    if s.SubmitAdmit? {
      SubmitKeeps(w, s.k, s.payload, s.link);
    } else if s.InlineAdmit? {
      InlineKeeps(w, s.k, s.payload, s.link);
    } else if s.SubmitPush? {
      PushHolds(w.owners[s.k], s.i);
      SameHeldKeeps(w, t, s.k);
    } else if s.Spawn? {
      SameHeldKeeps(w, t, s.k);
    } else if s.AppendEvent? || s.Reconcile? {
      forall j | j in t.owners
        ensures OwnerHolds(t.store, t.owners[j])
      {
        OwnerStays(w.store, t.store, w.owners[j], t.owners[j]);
      }
    } else {
      OthersHold(w, s);
      SameHeldKeeps(w, t, s.k);
    }
  }

  lemma {:induction false} RunKeeps(worlds: seq<World>, steps: seq<Step>, n: nat)
    requires IsRun(worlds, steps) && Init(worlds[0]) && n < |worlds|
    ensures Inv(worlds[n])
  {
    if n > 0 {
      RunKeeps(worlds, steps, n - 1);
      StepKeeps(worlds[n - 1], steps[n - 1]);
    }
  }

  /** In every run, the ids ever queued are distinct across all owners, and each row names its owner's instance. */
  lemma QueuedByOwner(worlds: seq<World>, steps: seq<Step>, n: nat, j: nat, a: nat, k: nat, b: nat)
    requires IsRun(worlds, steps) && Init(worlds[0]) && n < |worlds|
    requires j in worlds[n].owners && a < |worlds[n].owners[j].pushed|
    requires k in worlds[n].owners && b < |worlds[n].owners[k].pushed|
    requires (j, a) != (k, b)
    ensures worlds[n].owners[j].pushed[a] != worlds[n].owners[k].pushed[b]
    ensures InsertedBy(worlds[n].store, worlds[n].owners[j].config.instance, worlds[n].owners[j].pushed[a])
  {
    RunKeeps(worlds, steps, n);
    var o, p := worlds[n].owners[j], worlds[n].owners[k];
    assert o.pushed[a] in Held(o) && p.pushed[b] in Held(p);
    if j == k && o.pushed[a] == o.pushed[b] {
      TwiceCounts(o.pushed, a, b);
    }
  }

  lemma TwiceCounts(ids: seq<string>, a: nat, b: nat)
    requires a < |ids| && b < |ids| && a != b && ids[a] == ids[b]
    ensures multiset(ids)[ids[a]] >= 2
  {
    var i, j := if a < b then a else b, if a < b then b else a;
    assert ids == ids[..i] + [ids[i]] + ids[i + 1..j] + [ids[j]] + ids[j + 1..];
  }
}
