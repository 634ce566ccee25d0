/**
 * The follower loop over a host that answers as it likes: it reads the clock, probes the venue, runs a
 * follow cycle or gives up, sleeps, and collects once at the end. What is proved is about the calls the
 * host saw, in order, whatever the clock does; and that the loop ends, with a bound on its sleeps, when
 * each sleep moves the clock on.
 */
module Follower {
  import opened Options

  /** What a cycle or a collect reports, as far as the loop looks at it. */
  datatype Report = Report(refused: bool, halted: bool, deferred: bool)

  /** The host's calls with its answers; no report is a refusal by the venue's side. */
  datatype Call =
    | Now(t: int) | Probe(readable: bool) | Cycle(report: Option<Report>) | Sleep | Collect(report: Option<Report>)

  datatype Plan = Plan(sendOpen: int, sendClose: int, collectAt: int, interval: int, once: bool, maxUnreadable: nat)

  // --- what a trace says ----------------------------------------------------------------------------

  /** A cycle that stops everything. */
  predicate Stops(c: Call)
  {
    c.Cycle? && (c.report.None? || c.report.value.refused || c.report.value.halted)
  }

  /** The venue could not be read, before the cycle or inside it. */
  predicate Unread(c: Call)
  {
    c == Probe(false) || (c.Cycle? && !Stops(c) && c.report.value.deferred)
  }

  predicate Clean(c: Call)
  {
    c.Cycle? && !Stops(c) && !c.report.value.deferred
  }

  /** How many times in a row the venue could not be read. */
  function Streak(trace: seq<Call>): nat
  {
    if trace == [] then 0
    else
      var before, c := Streak(trace[..|trace| - 1]), trace[|trace| - 1];
      if Unread(c) then before + 1 else if Clean(c) then 0 else before
  }

  /** The last call ends the session as a failure. */
  predicate Fatal(plan: Plan, trace: seq<Call>)
    requires trace != []
  {
    var c := trace[|trace| - 1];
    Stops(c) || (Unread(c) && (plan.once || Streak(trace) > plan.maxUnreadable))
  }

  /** Right after a reading of the clock inside the send window and a probe that read the venue. */
  predicate CycleInWindow(plan: Plan, trace: seq<Call>, i: nat)
    requires i < |trace|
  {
    trace[i].Cycle? ==>
      && i >= 2 && trace[i - 1] == Probe(true)
      && trace[i - 2].Now? && plan.sendOpen <= trace[i - 2].t < plan.sendClose
  }

  ghost predicate AllInWindow(plan: Plan, trace: seq<Call>)
  {
    forall i :: 0 <= i < |trace| ==> CycleInWindow(plan, trace, i)
  }

  ghost predicate NeverFatal(plan: Plan, trace: seq<Call>)
  {
    forall n :: 0 < n <= |trace| ==> !Fatal(plan, trace[..n])
  }

  ghost predicate StreakBounded(plan: Plan, trace: seq<Call>)
  {
    forall n :: 0 <= n <= |trace| ==> Streak(trace[..n]) <= plan.maxUnreadable + 1
  }

  ghost predicate NoCollect(trace: seq<Call>)
  {
    forall i :: 0 <= i < |trace| ==> !trace[i].Collect?
  }

  /** How a session part of a run can look: never fatal, or fatal at its very last call. */
  ghost predicate Session(plan: Plan, trace: seq<Call>, ok: bool)
  {
    && AllInWindow(plan, trace) && NoCollect(trace) && StreakBounded(plan, trace)
    && if ok then NeverFatal(plan, trace)
       else trace != [] && Fatal(plan, trace) && NeverFatal(plan, trace[..|trace| - 1])
  }

  lemma WindowNext(plan: Plan, trace: seq<Call>, c: Call)
    requires AllInWindow(plan, trace) && CycleInWindow(plan, trace + [c], |trace|)
    ensures AllInWindow(plan, trace + [c])
  {
    forall i | 0 <= i < |trace|
      ensures CycleInWindow(plan, trace + [c], i)
    {
      assert CycleInWindow(plan, trace, i);
    }
  }

  lemma PrefixesNext(trace: seq<Call>, c: Call, n: nat)
    requires n <= |trace| + 1
    ensures (trace + [c])[..n] == if n <= |trace| then trace[..n] else trace + [c]
  {
  }

  lemma StreakNext(plan: Plan, trace: seq<Call>, c: Call)
    requires StreakBounded(plan, trace) && Streak(trace) <= plan.maxUnreadable
    ensures Streak(trace + [c]) == if Unread(c) then Streak(trace) + 1 else if Clean(c) then 0 else Streak(trace)
    ensures StreakBounded(plan, trace + [c])
  {
    PrefixesNext(trace, c, |trace|);
    assert trace[..|trace|] == trace;
    forall n | 0 <= n <= |trace + [c]|
      ensures Streak((trace + [c])[..n]) <= plan.maxUnreadable + 1
    {
      PrefixesNext(trace, c, n);
    }
  }

  lemma FatalNext(plan: Plan, trace: seq<Call>, c: Call)
    requires NeverFatal(plan, trace) && !Fatal(plan, trace + [c])
    ensures NeverFatal(plan, trace + [c])
  {
    forall n | 0 < n <= |trace + [c]|
      ensures !Fatal(plan, (trace + [c])[..n])
    {
      PrefixesNext(trace, c, n);
    }
  }

  /** One more call of a session that is still going. */
  lemma SessionNext(plan: Plan, trace: seq<Call>, c: Call)
    requires Session(plan, trace, true) && !c.Collect? && CycleInWindow(plan, trace + [c], |trace|)
    requires Streak(trace) <= plan.maxUnreadable
    ensures Session(plan, trace + [c], !Fatal(plan, trace + [c]))
    ensures Streak(trace + [c]) == if Unread(c) then Streak(trace) + 1 else if Clean(c) then 0 else Streak(trace)
  {
    WindowNext(plan, trace, c);
    StreakNext(plan, trace, c);
    PrefixesNext(trace, c, |trace|);
    assert trace[..|trace|] == trace;
    if !Fatal(plan, trace + [c]) {
      FatalNext(plan, trace, c);
    }
  }

  // --- the host -----------------------------------------------------------------------------------------

  /** How the clock answers. */
  datatype Clock =
    | Steady(floor: int)                  // at or past `floor`, which every sleep moves on by what was slept
    | Erratic(early: nat, deadline: int)  // anything, back and forth, but only `early` more times before `deadline`

  /** The last time the loop waits for. */
  function Cutoff(plan: Plan): int
  {
    if plan.sendClose < plan.collectAt then plan.collectAt else plan.sendClose
  }

  /** What the clock must promise for the loop to end. */
  predicate Suits(clock: Clock, plan: Plan)
  {
    match clock
    case Steady(_) => plan.interval > 0
    case Erratic(_, deadline) => deadline >= Cutoff(plan)
  }

  /** How much is left before the clock has to be past the cutoff. */
  function Ahead(clock: Clock, cutoff: int): nat
  {
    match clock
    case Steady(floor) => if floor < cutoff then cutoff - floor else 0
    case Erratic(early, _) => early
  }

  /** The clock after an answer `t`, and after a sleep. */
  predicate Answers(clock: Clock, t: int, after: Clock)
  {
    match clock
    case Steady(floor) => t >= floor && after == clock
    case Erratic(early, deadline) =>
      if early > 0 then after == Erratic(early - 1, deadline) else t >= deadline && after == clock
  }

  function Slept(clock: Clock, interval: int): Clock
  {
    match clock
    case Steady(floor) => Steady(floor + interval)
    case Erratic(_, _) => clock
  }

  /** Any host: every answer is arbitrary, and so is the clock up to what it promises. */
  class Host {
    var trace: seq<Call>
    var clock: Clock

    constructor (clock: Clock)
      ensures trace == [] && this.clock == clock
    {
      trace, this.clock := [], clock;
    }

    method ReadClock() returns (t: int)
      modifies this
      ensures trace == old(trace) + [Now(t)] && Answers(old(clock), t, clock)
    {
      t := *;
      match clock {
        case Steady(floor) =>
          if t < floor {
            t := floor;
          }
        case Erratic(early, deadline) =>
          if early > 0 {
            clock := Erratic(early - 1, deadline);
          } else if t < deadline {
            t := deadline;
          }
      }
      trace := trace + [Now(t)];
    }

    method Pause(interval: int)
      modifies this
      ensures trace == old(trace) + [Sleep] && clock == Slept(old(clock), interval)
    {
      clock := Slept(clock, interval);
      trace := trace + [Sleep];
    }

    method ProbeVenue() returns (readable: bool)
      modifies this`trace
      ensures trace == old(trace) + [Probe(readable)]
    {
      readable := *;
      trace := trace + [Probe(readable)];
    }

    method RunCycle() returns (report: Option<Report>)
      modifies this`trace
      ensures trace == old(trace) + [Cycle(report)]
    {
      report := *;
      trace := trace + [Cycle(report)];
    }

    method RunCollect() returns (report: Option<Report>)
      modifies this`trace
      ensures trace == old(trace) + [Collect(report)]
    {
      report := *;
      trace := trace + [Collect(report)];
    }
  }

  // --- how long it can go on -----------------------------------------------------------------------------

  function Sleeps(trace: seq<Call>): nat
  {
    if trace == [] then 0 else Sleeps(trace[..|trace| - 1]) + if trace[|trace| - 1].Sleep? then 1 else 0
  }

  lemma SleepsNext(trace: seq<Call>, c: Call)
    ensures Sleeps(trace + [c]) == Sleeps(trace) + if c.Sleep? then 1 else 0
  {
    assert (trace + [c])[..|trace|] == trace;
  }

  /** On a steady clock that started at `start`, the last sleep began before the cutoff. */
  ghost predicate Bounded(plan: Plan, start: Clock, sleeps: nat)
  {
    start.Steady? && sleeps > 0 ==> start.floor + (sleeps - 1) * plan.interval < Cutoff(plan)
  }

  /** The clock has moved on by the sleeps so far, each of which began before the cutoff. */
  ghost predicate Paced(plan: Plan, start: Clock, clock: Clock, sleeps: nat)
  {
    && Suits(clock, plan) && Bounded(plan, start, sleeps)
    && match start
       case Steady(floor) => clock == Steady(floor + sleeps * plan.interval)
       case Erratic(_, _) => clock.Erratic?
  }

  /** A turn that reads the clock before the cutoff and sleeps leaves less ahead. */
  lemma TurnPaced(plan: Plan, start: Clock, clock: Clock, t: int, read: Clock, sleeps: nat)
    requires Paced(plan, start, clock, sleeps) && Answers(clock, t, read)
    ensures Paced(plan, start, read, sleeps)
    ensures t < Cutoff(plan) ==>
      && Paced(plan, start, Slept(read, plan.interval), sleeps + 1)
      && Ahead(Slept(read, plan.interval), Cutoff(plan)) < Ahead(clock, Cutoff(plan))
  {
    assert sleeps * plan.interval + plan.interval == (sleeps + 1) * plan.interval;
  }

  // --- the loop --------------------------------------------------------------------------------------------

  /** A reading of the clock at or past the collect time. */
  predicate Due(plan: Plan, c: Call)
  {
    c.Now? && c.t >= plan.collectAt
  }

  /** A session that is still going. */
  ghost predicate Going(plan: Plan, trace: seq<Call>)
  {
    Session(plan, trace, true) && Streak(trace) <= plan.maxUnreadable
  }

  /** Where the session stands after its last call: over with a failure, or going on with this streak. */
  ghost predicate Stands(plan: Plan, trace: seq<Call>, stop: bool, streak: nat)
  {
    if stop then Session(plan, trace, false) else Going(plan, trace) && streak == Streak(trace)
  }

  /** The last reading of the clock, `back` calls ago, was inside the send window. */
  predicate WindowAgo(plan: Plan, trace: seq<Call>, back: nat)
  {
    back < |trace| && var c := trace[|trace| - 1 - back]; c.Now? && plan.sendOpen <= c.t < plan.sendClose
  }

  lemma CallStands(plan: Plan, trace: seq<Call>, c: Call, streak: nat)
    requires Going(plan, trace) && streak == Streak(trace) && !c.Collect? && !c.Now? && !c.Sleep?
    requires c.Cycle? ==> WindowAgo(plan, trace, 1) && trace[|trace| - 1] == Probe(true)
    ensures if Unread(c) then Stands(plan, trace + [c], plan.once || streak + 1 > plan.maxUnreadable, streak + 1)
            else Stands(plan, trace + [c], Stops(c), if Clean(c) then 0 else streak)
  {
    assert CycleInWindow(plan, trace + [c], |trace|);
    SessionNext(plan, trace, c);
  }

  /** Probe the venue: unreadable counts against the budget. */
  method Ask(host: Host, plan: Plan, unreadable: nat) returns (readable: bool, stop: bool, streak: nat)
    requires Going(plan, host.trace) && unreadable == Streak(host.trace) && WindowAgo(plan, host.trace, 0)
    modifies host`trace
    ensures host.trace == old(host.trace) + [Probe(readable)] && Stands(plan, host.trace, stop, streak)
    ensures Sleeps(host.trace) == Sleeps(old(host.trace))
    ensures readable ==> !stop && WindowAgo(plan, host.trace, 1)
  {
    ghost var before := host.trace;
    readable := host.ProbeVenue();
    CallStands(plan, before, Probe(readable), unreadable);
    SleepsNext(before, Probe(readable));
    if readable {
      stop, streak := false, unreadable;
    } else {
      streak := unreadable + 1;
      stop := plan.once || streak > plan.maxUnreadable;
    }
  }

  /** Run a cycle: a refusal or a halt ends the session, a deferral counts like an unreadable venue. */
  method Follow(host: Host, plan: Plan, unreadable: nat) returns (stop: bool, streak: nat)
    requires Going(plan, host.trace) && unreadable == Streak(host.trace)
    requires WindowAgo(plan, host.trace, 1) && host.trace[|host.trace| - 1] == Probe(true)
    modifies host`trace
    ensures |host.trace| == |old(host.trace)| + 1 && Stands(plan, host.trace, stop, streak)
    ensures Sleeps(host.trace) == Sleeps(old(host.trace))
  {
    ghost var before := host.trace;
    var report := host.RunCycle();
    CallStands(plan, before, Cycle(report), unreadable);
    SleepsNext(before, Cycle(report));
    if report.None? || report.value.refused || report.value.halted {
      return true, unreadable;
    }
    if report.value.deferred {
      streak := unreadable + 1;
      stop := plan.once || streak > plan.maxUnreadable;
    } else {
      stop, streak := false, 0;
    }
  }

  /** One turn inside the send window: probe, and run a cycle if the venue reads. */
  method Turn(host: Host, plan: Plan, unreadable: nat) returns (stop: bool, streak: nat)
    requires Going(plan, host.trace) && unreadable == Streak(host.trace) && WindowAgo(plan, host.trace, 0)
    modifies host`trace
    ensures |host.trace| <= |old(host.trace)| + 2 && Stands(plan, host.trace, stop, streak)
    ensures Sleeps(host.trace) == Sleeps(old(host.trace))
  {
    var readable;
    readable, stop, streak := Ask(host, plan, unreadable);
    if readable {
      stop, streak := Follow(host, plan, streak);
    }
  }

  /** A reading of the clock keeps a session going. */
  method Look(host: Host, plan: Plan) returns (now: int)
    requires Going(plan, host.trace)
    modifies host
    ensures Going(plan, host.trace) && host.trace == old(host.trace) + [Now(now)]
    ensures Streak(host.trace) == Streak(old(host.trace)) && Sleeps(host.trace) == Sleeps(old(host.trace))
    ensures Answers(old(host.clock), now, host.clock)
  {
    ghost var before := host.trace;
    now := host.ReadClock();
    SessionNext(plan, before, Now(now));
    SleepsNext(before, Now(now));
  }

  /** So does a sleep. */
  method Rest(host: Host, plan: Plan)
    requires Going(plan, host.trace)
    modifies host
    ensures Going(plan, host.trace) && host.trace == old(host.trace) + [Sleep]
    ensures Streak(host.trace) == Streak(old(host.trace)) && Sleeps(host.trace) == Sleeps(old(host.trace)) + 1
    ensures host.clock == Slept(old(host.clock), plan.interval)
  {
    ghost var before := host.trace;
    host.Pause(plan.interval);
    SessionNext(plan, before, Sleep);
    SleepsNext(before, Sleep);
  }

  /** The send window: until its close, a stop, or, in a once-run, the first turn. */
  method SendSession(host: Host, plan: Plan) returns (ok: bool)
    requires host.trace == [] && Suits(host.clock, plan)
    modifies host
    ensures if ok then Going(plan, host.trace) else Session(plan, host.trace, false)
    ensures plan.once ==> |host.trace| <= 3
    ensures Paced(plan, old(host.clock), host.clock, Sleeps(host.trace))
  {
    ok := true;
    var unreadable := 0;
    ghost var start := host.clock;
    while true
      invariant ok && Going(plan, host.trace) && unreadable == Streak(host.trace)
      invariant plan.once ==> host.trace == []
      invariant Paced(plan, start, host.clock, Sleeps(host.trace))
      decreases Ahead(host.clock, Cutoff(plan))
    {
      ghost var clock := host.clock;
      var now := Look(host, plan);
      TurnPaced(plan, start, clock, now, host.clock, Sleeps(host.trace));
      if now >= plan.sendClose {
        return;
      }
      if now >= plan.sendOpen {
        var stop;
        stop, unreadable := Turn(host, plan, unreadable);
        if stop {
          return false;
        }
      }
      if plan.once {
        return;
      }
      Rest(host, plan);
    }
  }

  /** The wait for the collect time, which only a good session makes. */
  method AwaitCollect(host: Host, plan: Plan, ghost start: Clock)
    requires Going(plan, host.trace) && Paced(plan, start, host.clock, Sleeps(host.trace))
    modifies host
    ensures Going(plan, host.trace) && host.trace != [] && Due(plan, host.trace[|host.trace| - 1])
    ensures Paced(plan, start, host.clock, Sleeps(host.trace))
  {
    while true
      invariant Going(plan, host.trace) && Paced(plan, start, host.clock, Sleeps(host.trace))
      decreases Ahead(host.clock, Cutoff(plan))
    {
      ghost var clock := host.clock;
      var now := Look(host, plan);
      TurnPaced(plan, start, clock, now, host.clock, Sleeps(host.trace));
      if now >= plan.collectAt {
        return;
      }
      Rest(host, plan);
    }
  }

  predicate Good(report: Option<Report>)
  {
    report.Some? && !report.value.halted && !report.value.deferred
  }

  /** A whole run and its verdict. */
  ghost predicate Run(plan: Plan, trace: seq<Call>, done: bool)
  {
    if plan.once then Session(plan, trace, done) && |trace| <= 3
    else
      && trace != [] && var n := |trace| - 1;
      && trace[n].Collect?
      && exists ok :: && Session(plan, trace[..n], ok) && done == (ok && Good(trace[n].report))
                      && (ok ==> n > 0 && Due(plan, trace[n - 1]))
  }

  /**
   * `follow_loop`: the session, then, unless it was a once-run, the wait and the one collect. It ends when
   * each sleep moves the clock on by the interval, after no more sleeps than reach the last cutoff.
   */
  method FollowLoop(host: Host, plan: Plan) returns (done: bool)
    requires host.trace == [] && Suits(host.clock, plan)
    modifies host
    ensures Run(plan, host.trace, done)
    ensures Bounded(plan, old(host.clock), Sleeps(host.trace))
  {
    ghost var start := host.clock;
    var ok := SendSession(host, plan);
    if plan.once {
      return ok;
    }
    if ok {
      AwaitCollect(host, plan, start);
    }
    ghost var sess := host.trace;
    var report := host.RunCollect();
    assert host.trace[..|sess|] == sess;
    SleepsNext(sess, Collect(report));
    done := ok && Good(report);
  }

  // --- what every run promises ----------------------------------------------------------------------------

  /** The session part of a run, and how it ended. */
  lemma SessionOf(plan: Plan, trace: seq<Call>, done: bool) returns (n: nat, ok: bool)
    requires Run(plan, trace, done)
    ensures n <= |trace| && Session(plan, trace[..n], ok) && n == (if plan.once then |trace| else |trace| - 1)
    ensures n < |trace| ==> trace[n].Collect?
    ensures done ==> ok
  {
    if plan.once {
      n, ok := |trace|, done;
      assert trace[..n] == trace;
    } else {
      n := |trace| - 1;
      ok :| && Session(plan, trace[..n], ok) && done == (ok && Good(trace[n].report))
            && (ok ==> n > 0 && Due(plan, trace[n - 1]));
    }
  }

  /** Cycles happen only after a readable probe, with that turn's clock inside the send window. */
  lemma CyclesInWindow(plan: Plan, trace: seq<Call>, done: bool, i: nat)
    requires Run(plan, trace, done) && i < |trace| && trace[i].Cycle?
    ensures CycleInWindow(plan, trace, i)
  {
    var n, ok := SessionOf(plan, trace, done);
    assert trace[..n][i] == trace[i];
    assert CycleInWindow(plan, trace[..n], i);
    assert trace[..n][i - 1] == trace[i - 1] && trace[..n][i - 2] == trace[i - 2];
  }

  /** Nothing but the final collect follows a refusal, a halt or a give-up, and the run is then a failure. */
  lemma NothingAfterStop(plan: Plan, trace: seq<Call>, done: bool, i: nat)
    requires Run(plan, trace, done) && i < |trace| && Fatal(plan, trace[..i + 1])
    ensures !done
    ensures i + 1 == (if plan.once then |trace| else |trace| - 1)
    ensures forall j :: i < j < |trace| ==> trace[j].Collect?
  {
    var n, ok := SessionOf(plan, trace, done);
    assert i < n by {
      assert trace[..i + 1][i] == trace[i];
    }
    assert trace[..n][..i + 1] == trace[..i + 1];
    if !ok {
      forall m | 0 < m < n
        ensures !Fatal(plan, trace[..m])
      {
        assert trace[..n][..n - 1][..m] == trace[..m];
      }
    }
  }

  /** The streak of unreadable turns never passes the budget by more than the one that ends the session. */
  lemma StreakNeverExceeds(plan: Plan, trace: seq<Call>, done: bool, m: nat)
    requires Run(plan, trace, done) && m <= |trace|
    ensures Streak(trace[..m]) <= plan.maxUnreadable + 1
  {
    var n, ok := SessionOf(plan, trace, done);
    if m <= n {
      assert trace[..n][..m] == trace[..m];
    } else {
      assert trace[..m][..n] == trace[..n] && trace[..n][..n] == trace[..n];
      assert trace[..m][n].Collect?;
    }
  }

  /** A once-run never collects; any other collects exactly once, as its last call. */
  lemma CollectsOnceLast(plan: Plan, trace: seq<Call>, done: bool, i: nat)
    requires Run(plan, trace, done) && i < |trace|
    ensures trace[i].Collect? <==> !plan.once && i == |trace| - 1
  {
    var n, ok := SessionOf(plan, trace, done);
    if i < n {
      assert trace[..n][i] == trace[i];
    }
  }

  /** The verdict: good exactly when no call was fatal and, unless a once-run, the collect went well. */
  lemma VerdictIs(plan: Plan, trace: seq<Call>, done: bool)
    requires Run(plan, trace, done)
    ensures done <==> NeverFatal(plan, trace) && (plan.once || (trace != [] && trace[|trace| - 1].Collect? && Good(trace[|trace| - 1].report)))
  {
    if plan.once {
      if !done {
        assert trace[..|trace|] == trace;
      }
    } else {
      var n := |trace| - 1;
      var ok :| && Session(plan, trace[..n], ok) && done == (ok && Good(trace[n].report))
                && (ok ==> n > 0 && Due(plan, trace[n - 1]));
      if ok {
        assert trace == trace[..n] + [trace[n]];
        FatalNext(plan, trace[..n], trace[n]);
      } else {
        assert n > 0 && Fatal(plan, trace[..n]);
      }
    }
  }
}
