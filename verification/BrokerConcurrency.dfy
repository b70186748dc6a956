/** internal/tools/broker.go, lines 129 to 163, under concurrency: a call reads the number of records in
    one critical section and appends its own record in another, so calls in flight together can all
    pass the ceiling check. A state machine over those two sections, for k calls in flight at most. */
module BrokerConcurrency {

  /** One caller: idle, begun but not yet checked, or past the check with its verdict. */
  datatype Stage = Idle | Begun(call: nat) | Checked(call: nat, admitted: bool)

  datatype Entry = Entry(call: nat, admitted: bool)

  datatype State = State(callers: seq<Stage>, audit: seq<Entry>, begun: nat, admitted: nat)

  datatype Step = Begin(caller: nat) | Check(caller: nat) | Append(caller: nat)

  function Initial(k: nat): State {
    State(seq(k, _ => Idle), [], 0, 0)
  }

  predicate Enabled(s: State, step: Step) {
    && step.caller < |s.callers|
    && match step
       case Begin(i) => s.callers[i].Idle?
       case Check(i) => s.callers[i].Begun?
       case Append(i) => s.callers[i].Checked?
  }

  function Next(ceiling: int, s: State, step: Step): State
    requires Enabled(s, step)
  {
    match step
    case Begin(i) => s.(callers := s.callers[i := Begun(s.begun)], begun := s.begun + 1)
    case Check(i) =>
      var admitted := |s.audit| < ceiling;
      s.(callers := s.callers[i := Checked(s.callers[i].call, admitted)],
         admitted := s.admitted + if admitted then 1 else 0)
    case Append(i) =>
      s.(callers := s.callers[i := Idle], audit := s.audit + [Entry(s.callers[i].call, s.callers[i].admitted)])
  }

  /** Any interleaving: each step is enabled where it is taken. */
  ghost predicate Run(ceiling: int, s: State, steps: seq<Step>, t: State)
    decreases |steps|
  {
    if steps == [] then s == t
    else Enabled(s, steps[0]) && Run(ceiling, Next(ceiling, s, steps[0]), steps[1..], t)
  }

  // ----- the invariant -----

  function AdmittedCallers(callers: seq<Stage>, n: nat): nat
    requires n <= |callers|
  {
    if n == 0 then 0
    else AdmittedCallers(callers, n - 1) + if callers[n - 1].Checked? && callers[n - 1].admitted then 1 else 0
  }

  function AdmittedEntries(audit: seq<Entry>, n: nat): nat
    requires n <= |audit|
  {
    if n == 0 then 0 else AdmittedEntries(audit, n - 1) + if audit[n - 1].admitted then 1 else 0
  }

  function Holding(callers: seq<Stage>, call: nat, n: nat): nat
    requires n <= |callers|
  {
    if n == 0 then 0
    else Holding(callers, call, n - 1) + if !callers[n - 1].Idle? && callers[n - 1].call == call then 1 else 0
  }

  function Recorded(audit: seq<Entry>, call: nat, n: nat): nat
    requires n <= |audit|
  {
    if n == 0 then 0 else Recorded(audit, call, n - 1) + if audit[n - 1].call == call then 1 else 0
  }

  /** In how many places a call is: with callers, and on record. */
  function Places(s: State, call: nat): nat {
    Holding(s.callers, call, |s.callers|) + Recorded(s.audit, call, |s.audit|)
  }

  /** Every call begun is in exactly one place, so a completed one has exactly one record. */
  ghost predicate Accounted(s: State) {
    forall c: nat :: Places(s, c) == if c < s.begun then 1 else 0
  }

  /** A refusal is only ever issued once the ceiling is on record, and admissions add up. */
  ghost predicate Bounded(ceiling: int, s: State) {
    && s.admitted == AdmittedEntries(s.audit, |s.audit|) + AdmittedCallers(s.callers, |s.callers|)
    && (ceiling <= 0 ==> s.admitted == 0)
    && (ceiling >= 1 ==> s.admitted <= ceiling - 1 + |s.callers|)
    && (forall i :: 0 <= i < |s.audit| && !s.audit[i].admitted ==> i >= ceiling)
    && (forall i :: 0 <= i < |s.callers| && s.callers[i].Checked? && !s.callers[i].admitted ==> |s.audit| >= ceiling)
  }

  lemma {:induction false} AdmittedUpdate(callers: seq<Stage>, i: nat, stage: Stage, n: nat)
    requires i < |callers| && n <= |callers|
    ensures AdmittedCallers(callers[i := stage], n) ==
            AdmittedCallers(callers, n) + if i >= n then 0 else
              (if stage.Checked? && stage.admitted then 1 else 0)
              - (if callers[i].Checked? && callers[i].admitted then 1 else 0)
    ensures AdmittedCallers(callers, n) <= n
  {
    if n > 0 {
      AdmittedUpdate(callers, i, stage, n - 1);
    }
  }

  lemma {:induction false} AdmittedAppend(audit: seq<Entry>, e: Entry, n: nat)
    requires n <= |audit|
    ensures AdmittedEntries(audit + [e], n) == AdmittedEntries(audit, n) <= n
  {
    if n > 0 {
      AdmittedAppend(audit, e, n - 1);
    }
  }

  lemma {:induction false} NobodyWaits(k: nat, call: nat, n: nat)
    requires n <= k
    ensures AdmittedCallers(Initial(k).callers, n) == 0 && Holding(Initial(k).callers, call, n) == 0
  {
    if n > 0 {
      NobodyWaits(k, call, n - 1);
    }
  }

  lemma InitialHolds(ceiling: int, k: nat)
    ensures Accounted(Initial(k)) && Bounded(ceiling, Initial(k))
  {
    forall c: nat ensures Places(Initial(k), c) == 0 {
      NobodyWaits(k, c, k);
    }
    NobodyWaits(k, 0, k);
  }

  lemma StepKeepsBound(ceiling: int, s: State, step: Step)
    requires Bounded(ceiling, s) && Enabled(s, step)
    ensures Bounded(ceiling, Next(ceiling, s, step))
  {
    var t := Next(ceiling, s, step);
    AdmittedUpdate(s.callers, step.caller, t.callers[step.caller], |s.callers|);
    AdmittedUpdate(t.callers, step.caller, Idle, |t.callers|);
    AdmittedAppend(s.audit, Entry(0, false), |s.audit|);
    if step.Append? {
      AdmittedAppend(s.audit, t.audit[|s.audit|], |s.audit|);
    }
  }

  lemma {:induction false} HoldingUpdate(callers: seq<Stage>, i: nat, stage: Stage, call: nat, n: nat)
    requires i < |callers| && n <= |callers|
    ensures Holding(callers[i := stage], call, n) ==
            Holding(callers, call, n) + if i >= n then 0 else
              (if !stage.Idle? && stage.call == call then 1 else 0)
              - (if !callers[i].Idle? && callers[i].call == call then 1 else 0)
  {
    if n > 0 {
      HoldingUpdate(callers, i, stage, call, n - 1);
    }
  }

  lemma {:induction false} RecordedAppend(audit: seq<Entry>, e: Entry, call: nat, n: nat)
    requires n <= |audit|
    ensures Recorded(audit + [e], call, n) == Recorded(audit, call, n)
  {
    if n > 0 {
      RecordedAppend(audit, e, call, n - 1);
    }
  }

  lemma StepKeepsAccount(ceiling: int, s: State, step: Step)
    requires Accounted(s) && Enabled(s, step)
    ensures Accounted(Next(ceiling, s, step))
  {
    var t := Next(ceiling, s, step);
    forall c: nat ensures Places(t, c) == if c < t.begun then 1 else 0 {
      HoldingUpdate(s.callers, step.caller, t.callers[step.caller], c, |s.callers|);
      if step.Append? {
        RecordedAppend(s.audit, t.audit[|s.audit|], c, |s.audit|);
      }
      assert Places(s, c) == if c < s.begun then 1 else 0;
    }
  }

  lemma {:induction false} RunKeeps(ceiling: int, s: State, steps: seq<Step>, t: State)
    requires Run(ceiling, s, steps, t) && Bounded(ceiling, s) && Accounted(s)
    ensures Bounded(ceiling, t) && Accounted(t) && |t.callers| == |s.callers|
    decreases |steps|
  {
    if steps != [] {
      StepKeepsBound(ceiling, s, steps[0]);
      StepKeepsAccount(ceiling, s, steps[0]);
      hide Bounded, Accounted;
      RunKeeps(ceiling, Next(ceiling, s, steps[0]), steps[1..], t);
    }
  }

  // ----- what any interleaving guarantees -----

  /** With at most k calls in flight, at most ceiling + k - 1 ever pass the check; the first records up
      to the ceiling are all admissions; and the audit holds exactly one record per completed call. */
  lemma CeilingHolds(ceiling: int, k: nat, steps: seq<Step>, t: State)
    requires ceiling >= 1 && Run(ceiling, Initial(k), steps, t)
    ensures t.admitted <= ceiling + k - 1
    ensures forall i :: 0 <= i < |t.audit| && i < ceiling ==> t.audit[i].admitted
    ensures Accounted(t)
  {
    InitialHolds(ceiling, k);
    RunKeeps(ceiling, Initial(k), steps, t);
  }

  /** Once the ceiling is on record nothing more is admitted. */
  lemma {:induction false} NothingPassesAFullAudit(ceiling: int, s: State, steps: seq<Step>, t: State)
    requires |s.audit| >= ceiling && Run(ceiling, s, steps, t)
    ensures t.admitted == s.admitted
    decreases |steps|
  {
    if steps != [] {
      NothingPassesAFullAudit(ceiling, Next(ceiling, s, steps[0]), steps[1..], t);
    }
  }

  /** One call at a time: the i-th record is an admission exactly when i is below the ceiling. */
  lemma SequentialCallsAreExact(ceiling: int, steps: seq<Step>, t: State, i: nat)
    requires ceiling >= 1 && Run(ceiling, Initial(1), steps, t) && i < |t.audit|
    ensures t.audit[i].admitted <==> i < ceiling
  {
    CeilingHolds(ceiling, 1, steps, t);
    InitialHolds(ceiling, 1);
    RunKeeps(ceiling, Initial(1), steps, t);
    AdmittedPrefix(ceiling, t.audit, |t.audit|);
    if i >= ceiling && t.audit[i].admitted {
      AdmittedPrefix(ceiling, t.audit, i);
      AdmittedMonotone(t.audit, i + 1, |t.audit|);
    }
  }

  lemma {:induction false} AdmittedPrefix(ceiling: int, audit: seq<Entry>, n: nat)
    requires ceiling >= 1 && n <= |audit|
    requires forall i :: 0 <= i < |audit| && i < ceiling ==> audit[i].admitted
    ensures AdmittedEntries(audit, n) >= if n < ceiling then n else ceiling
  {
    if n > 0 {
      AdmittedPrefix(ceiling, audit, n - 1);
    }
  }

  lemma {:induction false} AdmittedMonotone(audit: seq<Entry>, m: nat, n: nat)
    requires m <= n <= |audit|
    ensures AdmittedEntries(audit, m) <= AdmittedEntries(audit, n)
  {
    if m < n {
      AdmittedMonotone(audit, m, n - 1);
    }
  }

  // ----- the bound is reached -----

  lemma {:induction false} RunConcat(ceiling: int, s: State, a: seq<Step>, t: State, b: seq<Step>, u: State)
    requires Run(ceiling, s, a, t) && Run(ceiling, t, b, u)
    ensures Run(ceiling, s, a + b, u)
    decreases |a|
  {
    if a == [] {
      assert a + b == b;
    } else {
      assert (a + b)[0] == a[0] && (a + b)[1..] == a[1..] + b;
      RunConcat(ceiling, Next(ceiling, s, a[0]), a[1..], t, b, u);
    }
  }

  lemma RunOne(ceiling: int, s: State, step: Step)
    requires Enabled(s, step)
    ensures Run(ceiling, s, [step], Next(ceiling, s, step))
  {
    assert [step][1..] == [];
  }

  /** n complete calls, one after another, by caller 0. */
  lemma {:induction false} OneByOne(ceiling: int, k: nat, n: nat) returns (steps: seq<Step>, t: State)
    requires k >= 1 && n < ceiling
    ensures Run(ceiling, Initial(k), steps, t)
    ensures t.callers == Initial(k).callers && |t.audit| == n && t.admitted == n
  {
    if n == 0 {
      return [], Initial(k);
    }
    steps, t := OneByOne(ceiling, k, n - 1);
    var t1 := Next(ceiling, t, Begin(0));
    var t2 := Next(ceiling, t1, Check(0));
    var t3 := Next(ceiling, t2, Append(0));
    RunOne(ceiling, t, Begin(0));
    RunOne(ceiling, t1, Check(0));
    RunOne(ceiling, t2, Append(0));
    RunConcat(ceiling, t, [Begin(0)], t1, [Check(0)], t2);
    RunConcat(ceiling, t, [Begin(0)] + [Check(0)], t2, [Append(0)], t3);
    RunConcat(ceiling, Initial(k), steps, t, [Begin(0)] + [Check(0)] + [Append(0)], t3);
    steps, t := steps + ([Begin(0)] + [Check(0)] + [Append(0)]), t3;
    assert t.callers == Initial(k).callers;
  }

  /** m callers begin and check together, none appending. */
  lemma {:induction false} Together(ceiling: int, s: State, m: nat) returns (steps: seq<Step>, t: State)
    requires m <= |s.callers| && |s.audit| < ceiling && forall i :: 0 <= i < |s.callers| ==> s.callers[i].Idle?
    ensures Run(ceiling, s, steps, t) && t.admitted == s.admitted + m && t.audit == s.audit
    ensures |t.callers| == |s.callers| && forall i :: m <= i < |t.callers| ==> t.callers[i].Idle?
  {
    if m == 0 {
      return [], s;
    }
    steps, t := Together(ceiling, s, m - 1);
    var t1 := Next(ceiling, t, Begin(m - 1));
    var t2 := Next(ceiling, t1, Check(m - 1));
    RunOne(ceiling, t, Begin(m - 1));
    RunOne(ceiling, t1, Check(m - 1));
    RunConcat(ceiling, t, [Begin(m - 1)], t1, [Check(m - 1)], t2);
    RunConcat(ceiling, s, steps, t, [Begin(m - 1)] + [Check(m - 1)], t2);
    steps, t := steps + ([Begin(m - 1)] + [Check(m - 1)]), t2;
  }

  /** The excess of k - 1 is real: some interleaving of k callers admits exactly ceiling + k - 1. */
  lemma BoundIsReached(ceiling: int, k: nat) returns (steps: seq<Step>, t: State)
    requires ceiling >= 1 && k >= 1
    ensures Run(ceiling, Initial(k), steps, t) && t.admitted == ceiling + k - 1
  {
    var first, s := OneByOne(ceiling, k, ceiling - 1);
    var second;
    second, t := Together(ceiling, s, k);
    RunConcat(ceiling, Initial(k), first, s, second, t);
    steps := first + second;
  }
}
