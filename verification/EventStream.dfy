/**
 * Delivery of committed events to stream clients: subscribe first, then read the backlog in one
 * snapshot, then drop live frames the backlog already covered. One writer commits events with rising
 * sequence numbers and broadcasts each once, in order, after its commit; commits, broadcasts and every
 * client's own steps interleave freely. An event is its sequence number here.
 */
module EventStream {

  predicate Ascending(s: seq<int>)
  {
    forall i, j :: 0 <= i < j < |s| ==> s[i] < s[j]
  }

  /** The backlog query: the events above `a`, in order. */
  function Above(s: seq<int>, a: int): seq<int>
  {
    if s == [] then []
    else
      var x := s[|s| - 1];
      Above(s[..|s| - 1], a) + if x > a then [x] else []
  }

  /** The events of the half-open interval `(a, b]`, in order. */
  function Between(s: seq<int>, a: int, b: int): seq<int>
  {
    if s == [] then []
    else
      var x := s[|s| - 1];
      Between(s[..|s| - 1], a, b) + if a < x <= b then [x] else []
  }

  // --- the protocol -------------------------------------------------------------------------

  datatype Phase = Subscribed | Streaming

  /** One connection; `seen` and `read` only record how far its queue and its backlog reach. */
  datatype Client = Client(
    phase: Phase, after: int, maxSent: int, backlog: seq<int>, queue: seq<int>, written: seq<int>,
    seen: nat,    // broadcasts before the head of the queue
    read: nat)    // commits the backlog query saw

  datatype World = World(committed: seq<int>, broadcast: nat, clients: map<nat, Client>)

  datatype Step =
    | Commit(event: int) | Broadcast
    | Subscribe(k: nat, after: int) | ReadBacklog(k: nat) | SendBacklog(k: nat) | Receive(k: nat) | Drop(k: nat)

  predicate Enabled(w: World, s: Step)
  {
    match s
    case Commit(event) => w.committed == [] || w.committed[|w.committed| - 1] < event
    case Broadcast => w.broadcast < |w.committed|
    case Subscribe(k, _) => k !in w.clients
    case ReadBacklog(k) => k in w.clients && w.clients[k].phase.Subscribed?
    case SendBacklog(k) => k in w.clients && w.clients[k].phase.Streaming? && w.clients[k].backlog != []
    case Receive(k) =>
      k in w.clients && w.clients[k].phase.Streaming? && w.clients[k].backlog == [] && w.clients[k].queue != []
    case Drop(k) => k in w.clients
  }

  function Max(a: int, b: int): int
  {
    if a < b then b else a
  }

  function Written(c: Client, event: int): Client
  {
    c.(written := c.written + [event], maxSent := Max(c.maxSent, event))
  }

  /** A live frame: skipped when the stream has already passed it. */
  function Received(c: Client): Client
    requires c.queue != []
  {
    var taken := c.(queue := c.queue[1..], seen := c.seen + 1);
    if c.queue[0] <= c.maxSent then taken else Written(taken, c.queue[0])
  }

  function Apply(w: World, s: Step): World
    requires Enabled(w, s)
  {
    match s
    case Commit(event) => w.(committed := w.committed + [event])
    case Broadcast =>
      var event := w.committed[w.broadcast];
      w.(broadcast := w.broadcast + 1,
         clients := map k | k in w.clients :: w.clients[k].(queue := w.clients[k].queue + [event]))
    case Subscribe(k, after) =>
      w.(clients := w.clients[k := Client(Subscribed, after, after, [], [], [], w.broadcast, 0)])
    case ReadBacklog(k) =>
      var c := w.clients[k];
      w.(clients := w.clients[k := c.(phase := Streaming, backlog := Above(w.committed, c.after), read := |w.committed|)])
    case SendBacklog(k) =>
      var c := w.clients[k];
      w.(clients := w.clients[k := Written(c.(backlog := c.backlog[1..]), c.backlog[0])])
    case Receive(k) => w.(clients := w.clients[k := Received(w.clients[k])])
    case Drop(k) => w.(clients := w.clients - {k})
  }

  ghost predicate Init(w: World)
  {
    Ascending(w.committed) && w.broadcast <= |w.committed| && w.clients == map[]
  }

  ghost predicate Next(w: World, s: Step, t: World)
  {
    Enabled(w, s) && t == Apply(w, s)
  }

  ghost predicate IsRun(worlds: seq<World>, steps: seq<Step>)
  {
    |worlds| == |steps| + 1 && forall i {:trigger steps[i]} :: 0 <= i < |steps| ==> Next(worlds[i], steps[i], worlds[i + 1])
  }

  // --- the invariant ----------------------------------------------------------------------------

  /** How many commits the client's written part and backlog together account for. */
  function Reach(c: Client): nat
  {
    if c.seen < c.read then c.read else c.seen
  }

  /** The queue is an unbroken stretch of the broadcast events. */
  ghost predicate QueueOk(w: World, c: Client)
  {
    w.broadcast <= |w.committed| && c.seen <= w.broadcast && c.queue == w.committed[c.seen..w.broadcast]
  }

  ghost predicate SentOk(committed: seq<int>, c: Client)
  {
    && c.read <= |committed| && Reach(c) <= |committed|
    && (c.phase.Subscribed? ==> c.written == [] && c.backlog == [])
    && (c.phase.Streaming? ==>
          && c.written + c.backlog == Above(committed[..Reach(c)], c.after)
          && (c.backlog != [] ==> c.seen <= c.read))
    && c.maxSent == if c.written == [] then c.after else c.written[|c.written| - 1]
  }

  ghost predicate ClientOk(w: World, c: Client)
  {
    QueueOk(w, c) && SentOk(w.committed, c)
  }

  ghost predicate Inv(w: World)
  {
    && Ascending(w.committed) && w.broadcast <= |w.committed|
    && forall k :: k in w.clients ==> ClientOk(w, w.clients[k])
  }

  // --- lemmas about the filters -------------------------------------------------------------------

  lemma {:induction false} AboveOf(s: seq<int>, a: int, x: int)
    ensures x in Above(s, a) <==> x in s && x > a
  {
    if s != [] {
      AboveOf(s[..|s| - 1], a, x);
      assert s == s[..|s| - 1] + [s[|s| - 1]];
    }
  }

  lemma {:induction false} AboveAscending(s: seq<int>, a: int)
    requires Ascending(s)
    ensures Ascending(Above(s, a))
  {
    if s != [] {
      var front := s[..|s| - 1];
      AboveAscending(front, a);
      forall i | 0 <= i < |Above(front, a)|
        ensures Above(front, a)[i] < s[|s| - 1]
      {
        AboveOf(front, a, Above(front, a)[i]);
      }
    }
  }

  lemma AboveNext(s: seq<int>, a: int, n: nat)
    requires n < |s|
    ensures Above(s[..n + 1], a) == Above(s[..n], a) + if s[n] > a then [s[n]] else []
  {
    assert s[..n + 1][..n] == s[..n];
  }

  /** The first part of what lies above `a` is exactly what lies in `(a, b]`, when `b` separates it from the rest. */
  lemma {:induction false} AboveSplit(s: seq<int>, a: int, b: int, x: seq<int>, y: seq<int>)
    requires Above(s, a) == x + y
    requires (forall i :: 0 <= i < |x| ==> x[i] <= b) && (forall i :: 0 <= i < |y| ==> b < y[i])
    ensures Between(s, a, b) == x
  {
    if s != [] {
      var front, z := s[..|s| - 1], s[|s| - 1];
      if z <= a {
        AboveSplit(front, a, b, x, y);
      } else if y == [] {
        assert x + y == x && x[|x| - 1] == (Above(front, a) + [z])[|x| - 1] == z;
        assert x == x[..|x| - 1] + [z];
        AboveSplit(front, a, b, x[..|x| - 1], []);
      } else {
        assert (x + y)[|x + y| - 1] == y[|y| - 1] == z;
        assert x + y == (x + y[..|y| - 1]) + [z];
        assert Above(front, a) == (Above(front, a) + [z])[..|Above(front, a)|] == x + y[..|y| - 1];
        AboveSplit(front, a, b, x, y[..|y| - 1]);
      }
    }
  }

  /** Events past `b` do not touch the interval. */
  lemma {:induction false} BetweenPrefix(s: seq<int>, a: int, b: int, n: nat)
    requires n <= |s| && forall i :: n <= i < |s| ==> b < s[i]
    ensures Between(s, a, b) == Between(s[..n], a, b)
  {
    if n < |s| {
      BetweenPrefix(s[..|s| - 1], a, b, n);
      assert s[..|s| - 1][..n] == s[..n];
    } else {
      assert s[..n] == s;
    }
  }

  lemma {:induction false} BetweenEmpty(s: seq<int>, a: int, b: int)
    requires forall i :: 0 <= i < |s| ==> s[i] <= a || b < s[i]
    ensures Between(s, a, b) == []
  {
    if s != [] {
      BetweenEmpty(s[..|s| - 1], a, b);
    }
  }

  /** Adjacent intervals join. */
  lemma {:induction false} BetweenJoin(s: seq<int>, a: int, m: int, b: int)
    requires Ascending(s) && a <= m <= b
    ensures Between(s, a, m) + Between(s, m, b) == Between(s, a, b)
  {
    if s != [] {
      var front, z := s[..|s| - 1], s[|s| - 1];
      BetweenJoin(front, a, m, b);
      if a < z <= m {
        BetweenEmpty(front, m, b);
        BetweenEmpty(s, m, b);
      }
    }
  }

  // --- every step keeps the invariant ---------------------------------------------------------------

  /** What is written or waiting lies above `after`, rises, and comes from the first `Reach` commits. */
  lemma SentRises(committed: seq<int>, c: Client)
    requires Ascending(committed) && SentOk(committed, c) && c.phase.Streaming?
    ensures Ascending(c.written + c.backlog)
    ensures forall i :: 0 <= i < |c.written + c.backlog| ==>
      (c.written + c.backlog)[i] > c.after && (c.written + c.backlog)[i] in committed[..Reach(c)]
  {
    AboveAscending(committed[..Reach(c)], c.after);
    forall i | 0 <= i < |c.written + c.backlog|
      ensures (c.written + c.backlog)[i] > c.after && (c.written + c.backlog)[i] in committed[..Reach(c)]
    {
      AboveOf(committed[..Reach(c)], c.after, (c.written + c.backlog)[i]);
    }
  }

  lemma CommitKeeps(w: World, event: int)
    requires Inv(w) && Enabled(w, Commit(event))
    ensures Inv(Apply(w, Commit(event)))
  {
    var t := Apply(w, Commit(event));
    forall k | k in t.clients
      ensures ClientOk(t, t.clients[k])
    {
      var c := w.clients[k];
      assert ClientOk(w, c);
      assert t.committed[..Reach(c)] == w.committed[..Reach(c)];
      assert t.committed[c.seen..t.broadcast] == w.committed[c.seen..w.broadcast];
    }
  }

  lemma BroadcastKeeps(w: World)
    requires Inv(w) && Enabled(w, Broadcast)
    ensures Inv(Apply(w, Broadcast))
  {
    var t := Apply(w, Broadcast);
    forall k | k in t.clients
      ensures ClientOk(t, t.clients[k])
    {
      assert ClientOk(w, w.clients[k]);
    }
  }

  lemma ReadKeeps(w: World, c: Client)
    requires Inv(w) && ClientOk(w, c) && c.phase.Subscribed?
    ensures ClientOk(w, c.(phase := Streaming, backlog := Above(w.committed, c.after), read := |w.committed|))
  {
    assert w.committed[..|w.committed|] == w.committed;
  }

  lemma SendKeeps(w: World, c: Client)
    requires Inv(w) && ClientOk(w, c) && c.phase.Streaming? && c.backlog != []
    ensures ClientOk(w, Written(c.(backlog := c.backlog[1..]), c.backlog[0]))
  {
    SentRises(w.committed, c);
    var n := |c.written|;
    assert (c.written + c.backlog)[n] == c.backlog[0];
    assert n > 0 ==> (c.written + c.backlog)[n - 1] == c.written[n - 1];
    assert c.written + c.backlog == (c.written + [c.backlog[0]]) + c.backlog[1..];
  }

  /** The head of the queue is old exactly when the stream's high mark has passed it. */
  lemma HeadIsNew(w: World, c: Client)
    requires Inv(w) && ClientOk(w, c) && c.phase.Streaming? && c.backlog == [] && c.queue != []
    ensures c.queue[0] == w.committed[c.seen]
    ensures c.queue[0] > c.maxSent <==> c.seen >= c.read && c.queue[0] > c.after
  {
    SentRises(w.committed, c);
    assert c.written + c.backlog == c.written;
    var x := w.committed[c.seen];
    if c.seen < c.read {
      AboveOf(w.committed[..Reach(c)], c.after, x);
      assert w.committed[..Reach(c)][c.seen] == x;
    }
  }

  lemma ReceiveKeeps(w: World, c: Client)
    requires Inv(w) && ClientOk(w, c) && c.phase.Streaming? && c.backlog == [] && c.queue != []
    ensures ClientOk(w, Received(c))
  {
    HeadIsNew(w, c);
    AboveNext(w.committed, c.after, c.seen);
    assert c.written + c.backlog == c.written;
    assert Received(c).written + [] == Received(c).written;
  }

  lemma StepKeeps(w: World, s: Step)
    requires Inv(w) && Enabled(w, s)
    ensures Inv(Apply(w, s))
  {
    match s
    case Commit(event) => CommitKeeps(w, event);
    case Broadcast => BroadcastKeeps(w);
    case Subscribe(k, after) =>
      forall j | j in Apply(w, s).clients
        ensures ClientOk(Apply(w, s), Apply(w, s).clients[j])
      {
      }
    case ReadBacklog(k) => ReadKeeps(w, w.clients[k]); OneClient(w, k, Apply(w, s));
    case SendBacklog(k) => SendKeeps(w, w.clients[k]); OneClient(w, k, Apply(w, s));
    case Receive(k) => ReceiveKeeps(w, w.clients[k]); OneClient(w, k, Apply(w, s));
    case Drop(k) =>
  }

  lemma OneClient(w: World, k: nat, t: World)
    requires Inv(w) && k in t.clients && t == w.(clients := w.clients[k := t.clients[k]]) && ClientOk(w, t.clients[k])
    ensures Inv(t)
  {
    forall j | j in t.clients
      ensures ClientOk(t, t.clients[j])
    {
      assert j != k ==> ClientOk(w, w.clients[j]);
    }
  }

  lemma {:induction false} RunKeeps(worlds: seq<World>, steps: seq<Step>, n: nat)
    requires IsRun(worlds, steps) && Init(worlds[0]) && n < |worlds|
    ensures Inv(worlds[n])
  {
    if n > 0 {
      RunKeeps(worlds, steps, n - 1);
      assert Next(worlds[n - 1], steps[n - 1], worlds[n]);
      StepKeeps(worlds[n - 1], steps[n - 1]);
    }
  }

  // --- what a client gets ------------------------------------------------------------------------

  /** What a client holds is what lies in `(after, maxSent]`, now and however many events follow. */
  lemma WrittenIsInterval(committed: seq<int>, c: Client, later: seq<int>)
    requires Ascending(later) && committed <= later && SentOk(committed, c)
    ensures c.written == Between(later, c.after, c.maxSent)
  {
    assert committed == later[..|committed|];
    assert Ascending(committed);
    var n := Reach(c);
    assert later[..n] == committed[..n];
    if c.written == [] {
      BetweenEmpty(later, c.after, c.maxSent);
    } else {
      SentRises(committed, c);
      assert c.maxSent == (c.written + c.backlog)[|c.written| - 1];
      forall i | 0 <= i < |c.backlog|
        ensures c.maxSent < c.backlog[i]
      {
        assert c.backlog[i] == (c.written + c.backlog)[|c.written| + i];
      }
      forall i | 0 <= i < |c.written|
        ensures c.written[i] <= c.maxSent
      {
        assert c.written[i] == (c.written + c.backlog)[i];
      }
      AboveSplit(committed[..n], c.after, c.maxSent, c.written, c.backlog);
      BetweenPrefix(later, c.after, c.maxSent, n);
    }
  }

  /** A committed event the client has not passed, that it accounts for, is waiting in its backlog. */
  lemma AheadIsWaiting(committed: seq<int>, c: Client, i: nat)
    requires Ascending(committed) && SentOk(committed, c) && c.phase.Streaming?
    requires i < Reach(c) && committed[i] > c.maxSent
    ensures committed[i] in c.backlog
  {
    SentRises(committed, c);
    assert forall j :: 0 <= j < |c.written| ==> c.written[j] == (c.written + c.backlog)[j];
    assert c.after <= c.maxSent;
    assert committed[..Reach(c)][i] == committed[i];
    AboveOf(committed[..Reach(c)], c.after, committed[i]);
    assert committed[i] !in c.written;
  }

  /**
   * At every moment of every run, a client that has read its backlog has been sent exactly the committed
   * events in `(after, maxSent]`, in order, without gap or repetition; and every broadcast event beyond
   * that is in its backlog or its queue.
   */
  lemma Delivery(worlds: seq<World>, steps: seq<Step>, n: nat, k: nat)
    requires IsRun(worlds, steps) && Init(worlds[0]) && n < |worlds| && k in worlds[n].clients
    ensures var w, c := worlds[n], worlds[n].clients[k];
      && Ascending(c.written) && c.written == Between(w.committed, c.after, c.maxSent)
      && w.broadcast <= |w.committed|
      && (c.phase.Streaming? ==> forall i :: 0 <= i < w.broadcast && w.committed[i] > c.maxSent ==>
            w.committed[i] in c.backlog || w.committed[i] in c.queue)
  {
    RunKeeps(worlds, steps, n);
    var w, c := worlds[n], worlds[n].clients[k];
    WrittenIsInterval(w.committed, c, w.committed);
    if c.phase.Streaming? {
      SentRises(w.committed, c);
      assert forall j :: 0 <= j < |c.written| ==> c.written[j] == (c.written + c.backlog)[j];
      forall i | 0 <= i < w.broadcast && w.committed[i] > c.maxSent
        ensures w.committed[i] in c.backlog || w.committed[i] in c.queue
      {
        if i < Reach(c) {
          AheadIsWaiting(w.committed, c, i);
        } else {
          assert c.queue[i - c.seen] == w.committed[i];
        }
      }
    }
  }

  /** When everything committed has been broadcast and the client has drained both its sources, it has it all. */
  lemma DrainedIsComplete(worlds: seq<World>, steps: seq<Step>, n: nat, k: nat)
    requires IsRun(worlds, steps) && Init(worlds[0]) && n < |worlds| && k in worlds[n].clients
    requires worlds[n].broadcast == |worlds[n].committed|
    requires worlds[n].clients[k].phase.Streaming?
    requires worlds[n].clients[k].backlog == [] && worlds[n].clients[k].queue == []
    ensures worlds[n].clients[k].written == Above(worlds[n].committed, worlds[n].clients[k].after)
  {
    RunKeeps(worlds, steps, n);
    var w, c := worlds[n], worlds[n].clients[k];
    assert w.committed[..Reach(c)] == w.committed && c.written + [] == c.written;
  }

  // --- reconnecting --------------------------------------------------------------------------------------

  lemma {:induction false} CommittedGrows(worlds: seq<World>, steps: seq<Step>, m: nat, n: nat)
    requires IsRun(worlds, steps) && m <= n < |worlds|
    ensures worlds[m].committed <= worlds[n].committed
  {
    if m < n {
      CommittedGrows(worlds, steps, m, n - 1);
      assert Next(worlds[n - 1], steps[n - 1], worlds[n]);
    }
  }

  /**
   * A client that drops at moment `m` and comes back with the last id it saw as its cursor has, at any
   * later moment, received over both connections exactly the interval one connection would have covered.
   */
  lemma Reconnection(worlds: seq<World>, steps: seq<Step>, m: nat, j: nat, n: nat, k: nat)
    requires IsRun(worlds, steps) && Init(worlds[0]) && m <= n < |worlds|
    requires j in worlds[m].clients && k in worlds[n].clients
    requires worlds[n].clients[k].after == worlds[m].clients[j].maxSent
    ensures var first, second := worlds[m].clients[j], worlds[n].clients[k];
      first.written + second.written == Between(worlds[n].committed, first.after, second.maxSent)
  {
    RunKeeps(worlds, steps, m);
    RunKeeps(worlds, steps, n);
    CommittedGrows(worlds, steps, m, n);
    var first, second := worlds[m].clients[j], worlds[n].clients[k];
    WrittenIsInterval(worlds[m].committed, first, worlds[n].committed);
    WrittenIsInterval(worlds[n].committed, second, worlds[n].committed);
    MarkRises(worlds[m].committed, first);
    MarkRises(worlds[n].committed, second);
    BetweenJoin(worlds[n].committed, first.after, first.maxSent, second.maxSent);
  }

  lemma MarkRises(committed: seq<int>, c: Client)
    requires Ascending(committed) && SentOk(committed, c)
    ensures c.after <= c.maxSent
  {
    if c.written != [] {
      SentRises(committed, c);
      assert c.maxSent == (c.written + c.backlog)[|c.written| - 1];
    }
  }

  // --- the connection's own loops ----------------------------------------------------------------------------

  /** One connection left to itself: the rest of its backlog, then every frame on its queue. */
  function Flush(c: Client): Client
    requires c.phase.Streaming?
    decreases |c.backlog|, |c.queue|
  {
    if c.backlog != [] then Flush(Written(c.(backlog := c.backlog[1..]), c.backlog[0]))
    else if c.queue != [] then Flush(Received(c))
    else c
  }

  /** Flushed, it has everything that was committed when it read its backlog or broadcast since. */
  lemma {:induction false} FlushDelivers(w: World, c: Client)
    requires Inv(w) && ClientOk(w, c) && c.phase.Streaming?
    ensures Flush(c).after == c.after && Flush(c).backlog == [] && Flush(c).queue == []
    ensures Flush(c).written == Above(w.committed[..if c.read < w.broadcast then w.broadcast else c.read], c.after)
    decreases |c.backlog|, |c.queue|
  {
    if c.backlog != [] {
      SendKeeps(w, c);
      FlushDelivers(w, Written(c.(backlog := c.backlog[1..]), c.backlog[0]));
    } else if c.queue != [] {
      ReceiveKeeps(w, c);
      FlushDelivers(w, Received(c));
    } else {
      assert c.written + c.backlog == c.written;
    }
  }

  /** The streaming half of a connection: write the backlog, then each live frame past the high mark. */
  method StreamFrames(after: int, backlog: seq<int>, live: seq<int>) returns (written: seq<int>, maxSent: int)
    ensures var c := Flush(Client(Streaming, after, after, backlog, live, [], 0, 0));
      written == c.written && maxSent == c.maxSent
  {
    ghost var start := Client(Streaming, after, after, backlog, live, [], 0, 0);
    written, maxSent := [], after;
    var i := 0;
    while i < |backlog|
      invariant 0 <= i <= |backlog|
      invariant Flush(start) == Flush(Client(Streaming, after, maxSent, backlog[i..], live, written, 0, 0))
    {
      assert backlog[i..][0] == backlog[i] && backlog[i..][1..] == backlog[i + 1..];
      written := written + [backlog[i]];
      maxSent := Max(maxSent, backlog[i]);
      i := i + 1;
    }
    i := 0;
    while i < |live|
      invariant 0 <= i <= |live|
      invariant Flush(start) == Flush(Client(Streaming, after, maxSent, [], live[i..], written, i, 0))
    {
      assert live[i..][0] == live[i] && live[i..][1..] == live[i + 1..];
      if live[i] > maxSent {
        written := written + [live[i]];
        maxSent := Max(maxSent, live[i]);
      }
      i := i + 1;
    }
  }

  // --- the hub ----------------------------------------------------------------------------------------------

  /**
   * The subscriber table: one unbounded queue per live connection, under a serial number never reused. What
   * it keeps, against everything ever broadcast, is that each queue is an unbroken stretch up to the last frame.
   */
  class Hub {
    var serial: nat
    var queues: map<nat, seq<int>>
    ghost var log: seq<int>         // every frame broadcast so far
    ghost var seen: map<nat, nat>   // how many of them each live connection has taken or came too late for

    ghost predicate Valid()
      reads this
    {
      && queues.Keys == seen.Keys
      && forall id :: id in queues ==> id <= serial && seen[id] <= |log| && queues[id] == log[seen[id]..]
    }

    constructor ()
      ensures Valid() && log == [] && queues == map[]
    {
      serial, queues, log, seen := 0, map[], [], map[];
    }

    /** A new connection starts at the end of the log; nobody else's place moves. */
    method SubscribeNew() returns (id: nat)
      requires Valid()
      modifies this
      ensures Valid() && log == old(log) && serial > old(serial) >= 0
      ensures id > old(serial) && id !in old(seen) && seen == old(seen)[id := |log|]
    {
      serial := serial + 1;
      id := serial;
      queues := queues[id := []];
      seen := seen[id := |log|];
    }

    /** The log grows by the frame and no connection that is still there loses its place, so each will see it next. */
    method BroadcastFrame(event: int, gone: set<nat>)
      requires Valid()
      modifies this
      ensures Valid() && log == old(log) + [event] && serial == old(serial)
      ensures seen == old(seen) - gone
    {
      queues := map id | id in queues && id !in gone :: queues[id] + [event];
      log := log + [event];
      seen := seen - gone;
    }

    /** A connection takes the log's next frame for it, and has then taken one more. */
    method TakeFrame(id: nat) returns (event: int)
      requires Valid() && id in queues && queues[id] != []
      modifies this
      ensures Valid() && log == old(log) && serial == old(serial)
      ensures old(seen)[id] < |log| && event == log[old(seen)[id]] && seen == old(seen)[id := old(seen)[id] + 1]
    {
      event := queues[id][0];
      queues := queues[id := queues[id][1..]];
      seen := seen[id := seen[id] + 1];
    }

    method Unsubscribe(id: nat)
      requires Valid()
      modifies this
      ensures Valid() && log == old(log) && serial == old(serial) && seen == old(seen) - {id}
    {
      queues := queues - {id};
      seen := seen - {id};
    }
  }
}
