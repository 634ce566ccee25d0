/**
 * The drawdown latch between evaluations. A reading at or above a threshold raises a control, only a
 * reading at or below the recovery mark lowers it, and the controls persist in the account's ledger as
 * events that the next evaluation reads back.
 */
module RiskLatch {
  import opened Options
  import opened Results
  import opened RiskRules

  /** The two controls of an account. */
  datatype Controls = Controls(brake: bool, suspension: bool)

  datatype Control = Brake | Suspension
  datatype Change = Change(control: Control, enabled: bool)

  /** `drawdown_decision`: what the controls should be after a reading, if there is one. */
  function Decide(rules: Rules, reading: Option<real>, c: Controls): Controls
  {
    match reading
    case None => c
    case Some(dd) =>
      if dd <= rules.recovery then Controls(false, false)
      else Controls(c.brake || dd >= rules.halfRisk, c.suspension || dd >= rules.suspend)
  }

  /** The events to record, the brake's before the suspension's. */
  function Changes(c: Controls, desired: Controls): seq<Change>
  {
    (if desired.brake != c.brake then [Change(Brake, desired.brake)] else [])
    + (if desired.suspension != c.suspension then [Change(Suspension, desired.suspension)] else [])
  }

  function Fold(c: Controls, changes: seq<Change>): Controls
    decreases |changes|
  {
    if changes == [] then c
    else
      var change := changes[0];
      Fold(if change.control.Brake? then c.(brake := change.enabled) else c.(suspension := change.enabled), changes[1..])
  }

  lemma ChangesReachDesired(c: Controls, desired: Controls)
    ensures Fold(c, Changes(c, desired)) == desired
  {
    var b, s := Change(Brake, desired.brake), Change(Suspension, desired.suspension);
    assert Fold(c, [s]) == Fold(c.(suspension := desired.suspension), []);
    assert [b, s][1..] == [s];
    assert Fold(c, [b, s]) == Fold(c.(brake := desired.brake), [s]);
    assert Fold(c.(brake := desired.brake), [s]) == Fold(desired, []);
    assert Fold(c, [b]) == Fold(c.(brake := desired.brake), []);
  }

  // --- one evaluation ---------------------------------------------------------------------------

  /** One call: `takes` is how many control events the ledger accepts before it refuses one. */
  datatype Call = Call(
    account: string, rails: Rails, ctx: Context, intent: Intent, commandKnown: bool, killSwitch: bool,
    open: Option<bool>, takes: nat)

  function Of(ledger: map<string, Controls>, account: string): Controls
  {
    if account in ledger then ledger[account] else Controls(false, false)
  }

  function Pending(rules: Rules, ledger: map<string, Controls>, call: Call): seq<Change>
  {
    var c := Of(ledger, call.account);
    Changes(c, Decide(rules, call.ctx.drawdown, c))
  }

  function StateOf(call: Call, c: Controls): State
  {
    State(call.commandKnown, call.killSwitch, c.brake, c.suspension, call.open)
  }

  /** `RiskEngine.evaluate`: a non-equity intent is refused before anything; then the controls; then the rules. */
  function Step(rules: Rules, ledger: map<string, Controls>, call: Call, quotient: Quotient): (r: (Result<Evaluation>, map<string, Controls>))
  {
    if !call.intent.isEquity then (Err, ledger)
    else
      var c := Of(ledger, call.account);
      var desired := Decide(rules, call.ctx.drawdown, c);
      var changes := Pending(rules, ledger, call);
      var taken := if call.takes < |changes| then changes[..call.takes] else changes;
      var after := if taken == [] then ledger else ledger[call.account := Fold(c, taken)];
      if call.takes < |changes| then (Err, after)
      else (Evaluate(rules, call.rails, call.ctx, call.intent, StateOf(call, desired), quotient), after)
  }

  // --- what one call leaves ---------------------------------------------------------------------

  function Level(rules: Rules, control: Control): real
  {
    if control.Brake? then rules.halfRisk else rules.suspend
  }

  function On(c: Controls, control: Control): bool
  {
    if control.Brake? then c.brake else c.suspension
  }

  /** What a call says of an account's drawdown. */
  function Reading(call: Call, account: string): Option<real>
  {
    if call.account == account && call.intent.isEquity then call.ctx.drawdown else None
  }

  predicate Reaches(rules: Rules, control: Control, reading: Option<real>)
  {
    reading.Some? && reading.value >= Level(rules, control)
  }

  predicate Recovers(rules: Rules, reading: Option<real>)
  {
    reading.Some? && reading.value <= rules.recovery
  }

  /** The call's own event for the control, if it has one, is among those the ledger takes. */
  predicate Takes(rules: Rules, ledger: map<string, Controls>, call: Call, control: Control)
  {
    var c := Of(ledger, call.account);
    call.takes > if control.Suspension? && Decide(rules, call.ctx.drawdown, c).brake != c.brake then 1 else 0
  }

  /** A reaching call that leaves the control on: it was on already, or the call's own event was taken. */
  predicate Raises(rules: Rules, ledger: map<string, Controls>, call: Call, account: string, control: Control)
  {
    && Reaches(rules, control, Reading(call, account))
    && (On(Of(ledger, account), control) || Takes(rules, ledger, call, control))
  }

  /** A recovering call that leaves the control off: it was off already, or the call's own event was taken. */
  predicate Lowers(rules: Rules, ledger: map<string, Controls>, call: Call, account: string, control: Control)
  {
    && Recovers(rules, Reading(call, account))
    && (!On(Of(ledger, account), control) || Takes(rules, ledger, call, control))
  }

  /** The controls left by as many of the two events as were taken. */
  lemma FoldTaken(c: Controls, desired: Controls, takes: nat)
    ensures var changes := Changes(c, desired);
      var brakeFirst := if desired.brake != c.brake then 1 else 0;
      Fold(c, if takes < |changes| then changes[..takes] else changes)
      == Controls(if takes > 0 then desired.brake else c.brake,
                  if takes > brakeFirst then desired.suspension else c.suspension)
  {
    ChangesReachDesired(c, desired);
    var changes := Changes(c, desired);
    if takes == 0 && |changes| > 0 {
      assert changes[..0] == [];
    }
    if takes == 1 && |changes| == 2 {
      assert changes[..1] == [Change(Brake, desired.brake)];
      assert Fold(c, [Change(Brake, desired.brake)]) == Fold(c.(brake := desired.brake), []);
    }
  }

  /** The account's controls after any call, however much of it the ledger took. */
  lemma StepLeaves(rules: Rules, ledger: map<string, Controls>, call: Call, quotient: Quotient)
    ensures var c := Of(ledger, call.account);
      var desired := Decide(rules, call.ctx.drawdown, c);
      Of(Step(rules, ledger, call, quotient).1, call.account)
      == if !call.intent.isEquity then c
         else Controls(if Takes(rules, ledger, call, Brake) then desired.brake else c.brake,
                       if Takes(rules, ledger, call, Suspension) then desired.suspension else c.suspension)
  {
    var c := Of(ledger, call.account);
    FoldTaken(c, Decide(rules, call.ctx.drawdown, c), call.takes);
  }

  /** Exactly what a call does to a control of any account: raised, lowered, or left as it was. */
  lemma AfterCall(rules: Rules, ledger: map<string, Controls>, call: Call, quotient: Quotient, account: string, control: Control)
    requires rules.Accepted()
    ensures On(Of(Step(rules, ledger, call, quotient).1, account), control)
      <==> Raises(rules, ledger, call, account, control)
           || (On(Of(ledger, account), control) && !Lowers(rules, ledger, call, account, control))
  {
    if account == call.account {
      StepLeaves(rules, ledger, call, quotient);
    }
  }

  /** A call that reaches a threshold leaves that control on exactly when it was on or its event was taken. */
  lemma ReachingLeavesOnIff(rules: Rules, ledger: map<string, Controls>, call: Call, quotient: Quotient, control: Control)
    requires rules.Accepted() && call.intent.isEquity && Reaches(rules, control, call.ctx.drawdown)
    ensures On(Of(Step(rules, ledger, call, quotient).1, call.account), control)
      <==> On(Of(ledger, call.account), control) || Takes(rules, ledger, call, control)
  {
    AfterCall(rules, ledger, call, quotient, call.account, control);
  }

  // --- whole histories -------------------------------------------------------------------------------

  /** Calls for any accounts, in any order; each ledger is what the call before it left. */
  ghost predicate IsHistory(rules: Rules, ledgers: seq<map<string, Controls>>, calls: seq<Call>, quotient: Quotient)
  {
    && |ledgers| == |calls| + 1
    && forall i {:trigger calls[i]} :: 0 <= i < |calls| ==> ledgers[i + 1] == Step(rules, ledgers[i], calls[i], quotient).1
  }

  /** No call in `[m, n)` reads the account at or below the recovery mark. */
  ghost predicate Held(rules: Rules, calls: seq<Call>, account: string, m: nat, n: nat)
    requires n <= |calls|
  {
    forall i :: m <= i < n ==> !Recovers(rules, Reading(calls[i], account))
  }

  /** No call in `[m, n)` lowers the account's control. */
  ghost predicate Unlowered(rules: Rules, ledgers: seq<map<string, Controls>>, calls: seq<Call>, account: string,
                            control: Control, m: nat, n: nat)
    requires n <= |calls| < |ledgers|
  {
    forall i :: m <= i < n ==> !Lowers(rules, ledgers[i], calls[i], account, control)
  }

  /** Some call before `n` raised the control and none since has lowered it; or it was on from the start. */
  ghost predicate Latched(rules: Rules, ledgers: seq<map<string, Controls>>, calls: seq<Call>, account: string,
                          control: Control, n: nat)
    requires n <= |calls| < |ledgers|
  {
    || (On(Of(ledgers[0], account), control) && Unlowered(rules, ledgers, calls, account, control, 0, n))
    || exists i :: 0 <= i < n && Raises(rules, ledgers[i], calls[i], account, control)
                   && Unlowered(rules, ledgers, calls, account, control, i, n)
  }

  lemma LatchedNext(rules: Rules, ledgers: seq<map<string, Controls>>, calls: seq<Call>, account: string,
                    control: Control, n: nat)
    requires rules.Accepted() && n < |calls| < |ledgers|
    ensures Latched(rules, ledgers, calls, account, control, n + 1)
      <==> Raises(rules, ledgers[n], calls[n], account, control)
           || (Latched(rules, ledgers, calls, account, control, n)
               && !Lowers(rules, ledgers[n], calls[n], account, control))
  {
    UnloweredNext(rules, ledgers, calls, account, control, n);
    if Raises(rules, ledgers[n], calls[n], account, control) {
      assert Unlowered(rules, ledgers, calls, account, control, n, n + 1);
    } else if Latched(rules, ledgers, calls, account, control, n) && !Lowers(rules, ledgers[n], calls[n], account, control) {
      if i :| 0 <= i < n && Raises(rules, ledgers[i], calls[i], account, control)
              && Unlowered(rules, ledgers, calls, account, control, i, n) {
        assert Unlowered(rules, ledgers, calls, account, control, i, n + 1);
      }
    }
  }

  lemma UnloweredNext(rules: Rules, ledgers: seq<map<string, Controls>>, calls: seq<Call>, account: string,
                      control: Control, n: nat)
    requires n < |calls| < |ledgers|
    ensures forall m :: 0 <= m <= n ==>
      (Unlowered(rules, ledgers, calls, account, control, m, n + 1)
       <==> Unlowered(rules, ledgers, calls, account, control, m, n) && !Lowers(rules, ledgers[n], calls[n], account, control))
  {
  }

  /**
   * Over any history, whatever accounts its calls are for and whatever the ledger refused: a control is on
   * exactly when some call raised it and none since has lowered it, or it has been on from the start.
   */
  lemma {:induction false} LatchIff(rules: Rules, ledgers: seq<map<string, Controls>>, calls: seq<Call>, quotient: Quotient,
                                    account: string, control: Control, n: nat)
    requires rules.Accepted() && IsHistory(rules, ledgers, calls, quotient) && n <= |calls|
    ensures On(Of(ledgers[n], account), control) <==> Latched(rules, ledgers, calls, account, control, n)
  {
    if n > 0 {
      LatchIff(rules, ledgers, calls, quotient, account, control, n - 1);
      AfterCall(rules, ledgers[n - 1], calls[n - 1], quotient, account, control);
      LatchedNext(rules, ledgers, calls, account, control, n - 1);
    }
  }

  /** A control that is on stays on until some reading recovers, whatever the ledger refuses meanwhile. */
  lemma {:induction false} OnUntilRecovery(rules: Rules, ledgers: seq<map<string, Controls>>, calls: seq<Call>, quotient: Quotient,
                                           account: string, control: Control, m: nat, n: nat)
    requires rules.Accepted() && IsHistory(rules, ledgers, calls, quotient) && m <= n <= |calls|
    requires On(Of(ledgers[m], account), control) && Held(rules, calls, account, m, n)
    ensures On(Of(ledgers[n], account), control)
  {
    if m < n {
      OnUntilRecovery(rules, ledgers, calls, quotient, account, control, m, n - 1);
      AfterCall(rules, ledgers[n - 1], calls[n - 1], quotient, account, control);
    }
  }

  /** The decision a call is evaluated under has the control on: from its own reading, or from an earlier raise. */
  lemma DecidedOn(rules: Rules, ledgers: seq<map<string, Controls>>, calls: seq<Call>, quotient: Quotient,
                  control: Control, n: nat, i: nat)
    requires rules.Accepted() && IsHistory(rules, ledgers, calls, quotient) && i <= n < |calls| && calls[n].intent.isEquity
    requires Reaches(rules, control, Reading(calls[i], calls[n].account))
    requires i < n ==> Raises(rules, ledgers[i], calls[i], calls[n].account, control)
    requires Held(rules, calls, calls[n].account, i, n + 1)
    ensures On(Decide(rules, calls[n].ctx.drawdown, Of(ledgers[n], calls[n].account)), control)
  {
    if i < n {
      AfterCall(rules, ledgers[i], calls[i], quotient, calls[n].account, control);
      OnUntilRecovery(rules, ledgers, calls, quotient, calls[n].account, control, i + 1, n);
      assert !Recovers(rules, Reading(calls[n], calls[n].account));
    }
  }

  /** An approval comes from an evaluation under the decision. */
  lemma ApprovedUnder(rules: Rules, ledger: map<string, Controls>, call: Call, quotient: Quotient, q: int)
    requires rules.Accepted() && Step(rules, ledger, call, quotient).0.Ok?
    requires Step(rules, ledger, call, quotient).0.value.approved == Some(q)
    ensures call.intent.isEquity && call.ctx.drawdown.Some?
    ensures var desired := Decide(rules, call.ctx.drawdown, Of(ledger, call.account));
      && !desired.suspension
      && q as real * Distance(call.intent) <= (if desired.brake then HALF else 1.0) * FullBudget(rules, call.ctx, call.intent)
  {
    var desired := Decide(rules, call.ctx.drawdown, Of(ledger, call.account));
    ApprovedRisk(rules, call.rails, call.ctx, call.intent, StateOf(call, desired), quotient, q);
  }

  /**
   * A reading at or above the suspension threshold refuses its own call, and, if that call left the
   * suspension on, every later one until a recovery.
   */
  lemma NothingWhileSuspended(rules: Rules, ledgers: seq<map<string, Controls>>, calls: seq<Call>, quotient: Quotient,
                              n: nat, i: nat, q: int)
    requires rules.Accepted() && IsHistory(rules, ledgers, calls, quotient) && i <= n < |calls|
    requires Reaches(rules, Suspension, Reading(calls[i], calls[n].account))
    requires i < n ==> Raises(rules, ledgers[i], calls[i], calls[n].account, Suspension)
    requires Held(rules, calls, calls[n].account, i, n + 1)
    ensures var r := Step(rules, ledgers[n], calls[n], quotient).0; r.Err? || r.value.approved != Some(q)
  {
    var r := Step(rules, ledgers[n], calls[n], quotient).0;
    if r.Ok? && r.value.approved == Some(q) {
      ApprovedUnder(rules, ledgers[n], calls[n], quotient, q);
      DecidedOn(rules, ledgers, calls, quotient, Suspension, n, i);
    }
  }

  /**
   * From a reading at or above half risk on, if its call left the brake on, every approval until a recovery
   * risks at most half, whatever its sizing rule; its own call's approval does so in any case.
   */
  lemma HalfRiskWhileBraked(rules: Rules, ledgers: seq<map<string, Controls>>, calls: seq<Call>, quotient: Quotient,
                            n: nat, i: nat, q: int)
    requires rules.Accepted() && IsHistory(rules, ledgers, calls, quotient) && i <= n < |calls|
    requires Reaches(rules, Brake, Reading(calls[i], calls[n].account))
    requires i < n ==> Raises(rules, ledgers[i], calls[i], calls[n].account, Brake)
    requires Held(rules, calls, calls[n].account, i, n + 1)
    requires Step(rules, ledgers[n], calls[n], quotient).0.Ok?
    requires Step(rules, ledgers[n], calls[n], quotient).0.value.approved == Some(q)
    ensures q as real * Distance(calls[n].intent) <= HALF * FullBudget(rules, calls[n].ctx, calls[n].intent)
  {
    ApprovedUnder(rules, ledgers[n], calls[n], quotient, q);
    DecidedOn(rules, ledgers, calls, quotient, Brake, n, i);
  }

  /** A call without a reading is refused, and leaves the latch where it was. */
  lemma NoReadingRefuses(rules: Rules, ledger: map<string, Controls>, call: Call, quotient: Quotient, q: int)
    requires rules.Accepted() && call.ctx.drawdown.None?
    ensures Step(rules, ledger, call, quotient).1 == ledger
    ensures var r := Step(rules, ledger, call, quotient).0; r.Err? || r.value.approved != Some(q)
  {
    var r := Step(rules, ledger, call, quotient).0;
    if r.Ok? && r.value.approved == Some(q) {
      ApprovedUnder(rules, ledger, call, quotient, q);
    }
  }

  // --- suspension implies the brake, and when it does not -----------------------------------------------

  predicate Ordered(c: Controls)
  {
    c.suspension ==> c.brake
  }

  /** A recovery whose first event, the brake's, was taken and whose second, the suspension's, was refused. */
  predicate CutOff(rules: Rules, ledger: map<string, Controls>, call: Call)
  {
    && call.intent.isEquity && Of(ledger, call.account).suspension && call.takes == 1
    && Recovers(rules, call.ctx.drawdown)
  }

  /** Every call keeps "suspended implies braked", except a recovery that is cut off. */
  lemma OrderedKeptIff(rules: Rules, ledger: map<string, Controls>, call: Call, quotient: Quotient)
    requires rules.Accepted() && Ordered(Of(ledger, call.account))
    ensures Ordered(Of(Step(rules, ledger, call, quotient).1, call.account)) <==> !CutOff(rules, ledger, call)
  {
    StepLeaves(rules, ledger, call, quotient);
  }

  /** So over any history in which no recovery of the account was cut off, its suspension always implies its brake. */
  lemma {:induction false} SuspendedIsBraked(rules: Rules, ledgers: seq<map<string, Controls>>, calls: seq<Call>,
                                             quotient: Quotient, account: string, n: nat)
    requires rules.Accepted() && IsHistory(rules, ledgers, calls, quotient) && n <= |calls|
    requires Ordered(Of(ledgers[0], account))
    requires forall i :: 0 <= i < n && calls[i].account == account ==> !CutOff(rules, ledgers[i], calls[i])
    ensures Ordered(Of(ledgers[n], account))
  {
    if n > 0 {
      SuspendedIsBraked(rules, ledgers, calls, quotient, account, n - 1);
      if calls[n - 1].account == account {
        OrderedKeptIff(rules, ledgers[n - 1], calls[n - 1], quotient);
      }
    }
  }

  /** Such a recovery: suspended without a brake. */
  lemma InterruptedRecovery(rules: Rules, call: Call, quotient: Quotient)
    requires rules.Accepted() && call.intent.isEquity && call.takes == 1 && call.ctx.drawdown == Some(rules.recovery)
    ensures var ledger := map[call.account := Controls(true, true)];
      Of(Step(rules, ledger, call, quotient).1, call.account) == Controls(false, true)
  {
    StepLeaves(rules, map[call.account := Controls(true, true)], call, quotient);
  }

  // --- a suspension that was never recorded --------------------------------------------------------------

  function SampleRules(): Rules
  {
    Rules(0.01, 0.01, 0.5, 1.0, 1.0, 0.2, 1.0, 0.5, 0.05, 0.10, 0.20, 0.05, 10, 10, 0, false)
  }

  /** An order for one share that every rule lets through at drawdown `dd`. */
  function SampleCall(dd: real, takes: nat): Call
  {
    Call("a", Rails(None, None, None, None, false),
         Context(Some(10000.0), Some(10.0), Some(0.0), Some(0.0), Some(0), Some("i"), Some(0), Some(1000000.0), Some(5),
                 Some(OtherRegime("r")), Some(false), Some(dd), Some(0.0), None, None, None),
         Intent(true, "s", false, Fixed(Shares(1)), 10.0, 9.0), false, false, None, takes)
  }

  lemma SampleApproved(dd: real, takes: nat, quotient: Quotient, q: int)
    requires q == 1
    ensures var call := SampleCall(dd, takes);
      var r := Evaluate(SampleRules(), call.rails, call.ctx, call.intent, StateOf(call, Controls(true, false)), quotient);
      r.Ok? && r.value.approved == Some(q)
  {
    var call := SampleCall(dd, takes);
    var st := StateOf(call, Controls(true, false));
    forall rule: Rule
      ensures Passes(rule, SampleRules(), call.rails, call.ctx, call.intent, st, q)
    {
    }
    ApprovedIff(SampleRules(), call.rails, call.ctx, call.intent, st, quotient, q);
  }

  /**
   * The ledger takes the brake's event and refuses the suspension's, so the suspension is lost: with no
   * recovery in between, the next call is approved.
   */
  lemma LostSuspension(quotient: Quotient) returns (ledgers: seq<map<string, Controls>>, calls: seq<Call>)
    ensures SampleRules().Accepted() && IsHistory(SampleRules(), ledgers, calls, quotient) && |calls| == 2
    ensures Reaches(SampleRules(), Suspension, Reading(calls[0], "a")) && Held(SampleRules(), calls, "a", 0, 2)
    ensures !Raises(SampleRules(), ledgers[0], calls[0], "a", Suspension)
    ensures var r := Step(SampleRules(), ledgers[1], calls[1], quotient).0; r.Ok? && r.value.approved == Some(1)
  {
    var rules := SampleRules();
    calls := [SampleCall(0.20, 1), SampleCall(0.06, 0)];
    StepLeaves(rules, map[], calls[0], quotient);
    var middle := Step(rules, map[], calls[0], quotient).1;
    assert Of(middle, "a") == Controls(true, false);
    SampleApproved(0.06, 0, quotient, 1);
    ledgers := [map[], middle, Step(rules, middle, calls[1], quotient).1];
  }

  // --- the engine --------------------------------------------------------------------------------------------

  /** The engine over its ledger; the controls are what the ledger's own fold of the events gives. */
  class RiskEngine {
    const rules: Rules
    var controls: map<string, Controls>

    constructor (rules: Rules)
      ensures this.rules == rules && controls == map[]
    {
      this.rules := rules;
      controls := map[];
    }

    method EvaluateOrder(call: Call, quotient: Quotient) returns (r: Result<Evaluation>)
      modifies this
      ensures (r, controls) == Step(rules, old(controls), call, quotient)
    {
      if !call.intent.isEquity {
        return Err;
      }
      var c := Of(controls, call.account);
      var desired := Decide(rules, call.ctx.drawdown, c);
      var changes := Changes(c, desired);
      ghost var taken := if call.takes < |changes| then changes[..call.takes] else changes;
      ghost var start := controls;
      var i := 0;
      while i < |changes|
        invariant 0 <= i <= |changes| && i <= call.takes
        invariant i == 0 ==> controls == start
        invariant i > 0 ==> controls == start[call.account := Of(controls, call.account)]
        invariant Fold(c, taken) == Fold(Of(controls, call.account), taken[i..])
      {
        if i == call.takes {
          return Err;
        }
        assert taken[i] == changes[i] && taken[i..][0] == taken[i] && taken[i..][1..] == taken[i + 1..];
        var was := Of(controls, call.account);
        var change := changes[i];
        controls := controls[call.account :=
          if change.control.Brake? then was.(brake := change.enabled) else was.(suspension := change.enabled)];
        i := i + 1;
      }
      r := Evaluate(rules, call.rails, call.ctx, call.intent, StateOf(call, desired), quotient);
    }
  }
}
