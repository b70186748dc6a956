/** internal/agent/investigator.go: the goal-directed loop, driven by an arbitrary model and reading
    through an arbitrary broker. */
module Agent {
  import opened Wrappers
  import opened Text
  import opened Prompt
  import opened Validation
  import opened Conversation
  import opened Tools
  import opened Investigation

  const CONTINUE_TEXT := "Continue by calling a tool. When the evidence supports a conclusion, call submit_findings."
  const CONCLUDE_NOW_TEXT := "The investigation budget is nearly exhausted. Call submit_findings now with the best conclusion the evidence supports."
  const OUT_OF_CALLS_TEXT := "The tool call budget is exhausted. Call submit_findings now."
  const REJECTION_PREFIX := "The submission was rejected and the investigation continues:\n- "

  // ----- the opening message -----

  function InitialContext(input: Input): (s: string)
    ensures s != ""
  {
    "Failure type: " + Line(input.failureType, WorkloadLine(input))
  }

  function WorkloadLine(input: Input): string {
    "Workload: " + (input.workload + ([' '] + ("in namespace " + Line(input.namespaceName, Known(input)))))
  }

  /** What is known of the failure before any call. */
  function Known(input: Input): string {
    (if input.container == "" then "" else "Container: " + Line(input.container, ""))
    + Lines(input.facts, Header(BaselineText(input.baseline, Unobtainable(input))))
  }

  function Header(rest: string): string {
    "\nBaseline evidence, gathered before " + ("this investigation began. " + HeaderEnd(rest))
  }

  function HeaderEnd(rest: string): string {
    "Excerpts may be truncated; " + ("call the corresponding tool " + ("for the full content.\n\n" + rest))
  }

  /** A line of text, and what follows it. */
  function Line(text: string, rest: string): string {
    text + (['\n'] + rest)
  }

  function Lines(texts: seq<string>, rest: string): string {
    if texts == [] then rest else Line(texts[0], Lines(texts[1..], rest))
  }

  function BaselineText(items: seq<BaselineItem>, rest: string): string {
    if items == [] then rest
    else Line(WrapEvidence(items[0].id, items[0].kind, items[0].excerpt), BaselineText(items[1..], rest))
  }

  /** What the run starts without and cannot get. */
  function Unobtainable(input: Input): string {
    var kinds := MissingUnobtainable(input.requirements, |input.requirements|);
    if kinds == [] then ""
    else "\nRequired evidence that cannot be " + ("obtained in this cluster: " + (Join(kinds, ", ") + (['.'] + Advice())))
  }

  function Advice(): string {
    " Reason without it, and do not invent " + "values it would have provided.\n"
  }

  // ----- which of a turn's calls reach the broker -----

  /** The calls among the first n that are reads rather than submissions. */
  function ReadCalls(calls: seq<ToolCall>, n: nat): seq<ToolCall>
    requires n <= |calls|
  {
    if n == 0 then []
    else ReadCalls(calls, n - 1) + if calls[n - 1].name == SUBMIT_TOOL then [] else [calls[n - 1]]
  }

  function Min(a: int, b: int): int {
    if a <= b then a else b
  }

  /** How many reads the first n calls of a turn perform when `left` tool calls remain. */
  function Admitted(calls: seq<ToolCall>, n: nat, left: nat): nat
    requires n <= |calls|
  {
    Min(|ReadCalls(calls, n)|, left)
  }

  /** The calls made before the k-th call of a turn was handled: `added` are the turn's reads. */
  function MadeBefore(limit: int, before: seq<Event>, added: seq<Event>, calls: seq<ToolCall>, k: nat): seq<Event>
    requires k <= |calls|
  {
    before + added[..Min(Admitted(calls, k, AtLeastZero(limit - |before|)), |added|)]
  }

  /** What stands between a submission and its acceptance. */
  function Objections(input: Input, trace: seq<Event>, sub: Submission): seq<Problem> {
    var rs := AllAfter(input.requirements, trace);
    var problems := Problems(sub, LedgerAfter(input.baseline, trace).Keys, AllowedSet(input.allowedActions));
    if problems != [] then problems
    else if MissingObtainable(rs, |rs|) != [] && |trace| < input.budget.maxToolCalls then
      [EvidenceMissing(MissingObtainable(rs, |rs|))]
    else []
  }

  function DescribeAll(problems: seq<Problem>): (r: seq<string>)
    ensures |r| == |problems|
  {
    seq(|problems|, i requires 0 <= i < |problems| => Describe(problems[i]))
  }

  function Rejection(call: ToolCall, problems: seq<Problem>): ToolResult {
    ToolResult(call.id, call.name, REJECTION_PREFIX + Join(DescribeAll(problems), "\n- "), true)
  }

  function ResultOf(call: ToolCall, outcome: Outcome, k: nat): ToolResult {
    match outcome
    case Read(content) => ToolResult(call.id, call.name, WrapEvidence(EvidenceId(k), call.name, content), false)
    case Denied(reason) => ToolResult(call.id, call.name, reason, true)
    case Failed(reason) => ToolResult(call.id, call.name, reason, true)
  }

  function OutOfCalls(call: ToolCall): ToolResult {
    ToolResult(call.id, call.name, OUT_OF_CALLS_TEXT, true)
  }

  /** A read that is the i-th its turn asks for is answered by the i-th read made, or refused when the
      budget allowed fewer. */
  ghost predicate ReadAnswered(before: seq<Event>, added: seq<Event>, call: ToolCall, result: ToolResult, i: nat) {
    if i < |added| then
      result == ResultOf(call, added[i].outcome, |Successes(before)| + 1 + |Successes(added[..i])|)
    else result == OutOfCalls(call)
  }

  /** The first n calls of a turn, handled: the reads among them were made in order until the budget
      ran out, every submission among them was rejected on exactly the calls made before it, each
      call has its own result, and the evidence shown is exactly what the new reads returned. */
  ghost predicate Handled(
      input: Input, before: seq<Event>, added: seq<Event>, calls: seq<ToolCall>, results: seq<ToolResult>, n: nat)
    requires n <= |calls|
  {
    var limit := input.budget.maxToolCalls;
    && MadeInOrder(AtLeastZero(limit - |before|), added, calls, n)
    && AnsweredUpTo(calls, results, n)
    && Contents(results) == Shown(added, |Successes(before)| + 1)
    && ReadsAnswered(before, added, calls, results, n)
    && forall k :: 0 <= k < n && calls[k].name == SUBMIT_TOOL ==>
         Refused(input, MadeBefore(limit, before, added, calls, k), calls[k], results[k])
  }

  ghost predicate ReadsAnswered(
      before: seq<Event>, added: seq<Event>, calls: seq<ToolCall>, results: seq<ToolResult>, n: nat)
    requires n <= |calls| && n <= |results|
  {
    forall k :: 0 <= k < n && calls[k].name != SUBMIT_TOOL ==>
      ReadAnswered(before, added, calls[k], results[k], |ReadCalls(calls, k)|)
  }

  ghost predicate MadeInOrder(left: nat, added: seq<Event>, calls: seq<ToolCall>, n: nat)
    requires n <= |calls|
  {
    && |added| == Admitted(calls, n, left)
    && forall i :: 0 <= i < |added| ==> added[i].call == ReadCalls(calls, n)[i]
  }

  ghost predicate AnsweredUpTo(calls: seq<ToolCall>, results: seq<ToolResult>, n: nat)
    requires n <= |calls|
  {
    && |results| == n
    && forall i :: 0 <= i < n ==> results[i].callId == calls[i].id && results[i].name == calls[i].name
  }

  ghost predicate Refused(input: Input, made: seq<Event>, call: ToolCall, result: ToolResult) {
    && !Accepts(input, made, call.arguments.submission)
    && result == Rejection(call, Objections(input, made, call.arguments.submission))
  }

  /** The result blocks that successful reads put before the model, numbered from `first`. */
  function Shown(events: seq<Event>, first: nat): seq<string> {
    if events == [] then []
    else
      var e := events[0];
      if e.outcome.Read? then
        [WrapEvidence(EvidenceId(first), e.call.name, e.outcome.content)] + Shown(events[1..], first + 1)
      else Shown(events[1..], first)
  }

  function Contents(results: seq<ToolResult>): seq<string> {
    if results == [] then []
    else
      var r := results[|results| - 1];
      Contents(results[..|results| - 1]) + if r.isError then [] else [r.content]
  }

  lemma {:induction false} ShownSnoc(events: seq<Event>, e: Event, first: nat)
    ensures |Successes(events + [e])| == |Successes(events)| + if e.outcome.Read? then 1 else 0
    ensures Shown(events + [e], first) ==
            Shown(events, first)
            + if e.outcome.Read?
              then [WrapEvidence(EvidenceId(first + |Successes(events)|), e.call.name, e.outcome.content)] else []
  {
    hide WrapEvidence, EvidenceId;
    assert (events + [e])[..|events|] == events;
    if events != [] {
      assert (events + [e])[1..] == events[1..] + [e];
      ShownSnoc(events[1..], e, if events[0].outcome.Read? then first + 1 else first);
      SuccessesHead(events);
    } else {
      assert (events + [e])[1..] == [];
    }
  }

  lemma {:induction false} SuccessesHead(events: seq<Event>)
    requires events != []
    ensures |Successes(events)| == |Successes(events[1..])| + if events[0].outcome.Read? then 1 else 0
  {
    if |events| > 1 {
      var init := events[..|events| - 1];
      SuccessesHead(init);
      assert init[1..] == events[1..][..|events| - 2];
    }
  }

  // ----- when the model is urged to conclude -----

  /** At most one call is left, or four fifths of the tokens or of the cost are spent. */
  predicate Near(input: Input, made: nat, us: seq<Usage>, n: nat)
    requires n <= |us|
  {
    var b := input.budget;
    || (b.maxToolCalls > 0 && made >= b.maxToolCalls - 1)
    || (b.maxTokens > 0 && 5 * TokenTotal(us, n) >= 4 * b.maxTokens)
    || (input.pricing.Known() && b.maxCost > 0 && 5 * CostTotal(input.pricing, us, n) >= 4 * b.maxCost)
  }

  function Urged(near: bool, results: seq<ToolResult>): Message {
    Message(User, if near then CONCLUDE_NOW_TEXT else "", [], results, Absent)
  }

  // ----- the loop's state -----

  class LoopState {
    var input: Input
    var findings: Findings
    var ledger: map<string, string>
    var allowed: set<string>
    var nextEvidence: nat
    ghost const start: Input
    ghost var trace: seq<Event>
    ghost var charged: seq<Usage>

    /** Every field is what the start, the calls made and the usage charged say it is. */
    ghost predicate Valid()
      reads this
    {
      && input == start.(requirements := AllAfter(start.requirements, trace))
      && allowed == AllowedSet(start.allowedActions)
      && ledger == LedgerAfter(start.baseline, trace)
      && nextEvidence == |Successes(trace)| + 1
      && Accounted(start, trace, charged, findings)
      && findings.toolCalls <= AtLeastZero(start.budget.maxToolCalls)
    }

    /** Nothing has been concluded and nothing stopped. */
    ghost predicate Open()
      reads this
    {
      Valid() && Inconclusive(findings) && !findings.budgetExhausted && findings.stopReason == ""
    }

    constructor (input: Input)
      ensures Open() && start == input && trace == [] && charged == [] && findings.turns == 0
    {
      this.input := input;
      start := input;
      findings := Findings([], 0, 0, 0, 0, input.pricing.Known(), false, false, [], "");
      nextEvidence := 1;
      trace, charged := [], [];
      ledger, allowed := map[], {};
      new;
      for i := 0 to |input.baseline|
        invariant ledger == BaselineLedger(input.baseline, i)
        modifies this`ledger
      {
        ledger := ledger[input.baseline[i].id := input.baseline[i].kind];
      }
      for i := 0 to |input.allowedActions|
        invariant allowed == set k | 0 <= k < i :: input.allowedActions[k]
        modifies this`allowed
      {
        allowed := allowed + {input.allowedActions[i]};
      }
      assert allowed == AllowedSet(input.allowedActions);
      assert AllAfter(input.requirements, []) == input.requirements;
    }

    method BeginTurn()
      requires Open()
      modifies this`findings
      ensures Open() && findings == old(findings).(turns := old(findings.turns) + 1)
    {
      findings := findings.(turns := findings.turns + 1);
    }

    method Account(u: Usage)
      requires Open()
      modifies this`findings, this`charged
      ensures Open() && charged == old(charged) + [u] && findings.turns == old(findings.turns)
    {
      charged := charged + [u];
      AccountStep(start.pricing, old(charged), u);
      findings := findings.(tokens := findings.tokens + (u.input + u.output));
      if findings.costKnown {
        var p := input.pricing;
        findings := findings.(cost := findings.cost +
          (Quotient(u.input * p.inputRate, 1_000_000) + Quotient(u.output * p.outputRate, 1_000_000)));
      }
    }

    /** The limit that has been reached, or the empty string. */
    method ExhaustedReason(contextDone: bool) returns (reason: string)
      requires Open()
      ensures reason in {"", STOP_CLOCK, STOP_TOKENS, STOP_COST}
      ensures reason == "" <==>
              && !contextDone
              && !(0 < start.budget.maxTokens <= findings.tokens)
              && !(findings.costKnown && 0 < start.budget.maxCost <= findings.cost)
      ensures reason == STOP_CLOCK <==> contextDone
      ensures reason == STOP_TOKENS <==> !contextDone && 0 < start.budget.maxTokens <= findings.tokens
      ensures reason == STOP_COST <==>
              && !contextDone && !(0 < start.budget.maxTokens <= findings.tokens)
              && findings.costKnown && 0 < start.budget.maxCost <= findings.cost
    {
      var b := input.budget;
      if contextDone {
        return STOP_CLOCK;
      } else if b.maxTokens > 0 && findings.tokens >= b.maxTokens {
        return STOP_TOKENS;
      } else if findings.costKnown && b.maxCost > 0 && findings.cost >= b.maxCost {
        return STOP_COST;
      }
      return "";
    }

    /** The fraction 0.8 is taken exactly, where the source compares floating-point products. */
    method NearlyExhausted() returns (near: bool)
      requires Open()
      ensures near <==> Near(start, |trace|, charged, |charged|)
    {
      var b := input.budget;
      if b.maxToolCalls > 0 && findings.toolCalls >= b.maxToolCalls - 1 {
        return true;
      }
      if b.maxTokens > 0 && 5 * findings.tokens >= 4 * b.maxTokens {
        return true;
      }
      return findings.costKnown && b.maxCost > 0 && 5 * findings.cost >= 4 * b.maxCost;
    }

    method Stop(reason: string) returns (f: Findings)
      requires Open()
      modifies this`findings
      ensures f == findings == old(findings).(stopReason := reason, budgetExhausted := true, hypotheses := [])
    {
      findings := findings.(stopReason := reason);
      findings := findings.(budgetExhausted := true);
      findings := findings.(hypotheses := []);
      return findings;
    }

    /** One call's effect on every requirement, in place. */
    method RecordRequirement(call: ToolCall, outcome: Outcome)
      modifies this`input
      ensures input == old(input).(requirements := input.requirements)
      ensures |input.requirements| == |old(input.requirements)|
      ensures forall i :: 0 <= i < |input.requirements| ==>
                input.requirements[i] == Update(old(input.requirements[i]), Event(call, outcome))
    {
      ghost var e := Event(call, outcome);
      ghost var before := input.requirements;
      for i := 0 to |input.requirements|
        invariant |input.requirements| == |before|
        invariant input == old(input).(requirements := input.requirements)
        invariant forall k :: 0 <= k < i ==> input.requirements[k] == Update(before[k], e)
        invariant forall k :: i <= k < |before| ==> input.requirements[k] == before[k]
      {
        var r := input.requirements[i];
        if r.collected {
          continue;
        }
        var matches := r.tool == call.name;
        if r.satisfiedBy.Some? {
          matches := r.satisfiedBy.value(call.name, call.arguments);
        }
        if !matches {
          continue;
        }
        if outcome.Read? {
          r := r.(collected := true);
        } else if !outcome.Denied? {
          r := r.(obtainable := false);
        }
        input := input.(requirements := input.requirements[i := r]);
      }
    }

    method SplitMissing() returns (obtainable: seq<string>, unobtainable: seq<string>)
      ensures obtainable == MissingObtainable(input.requirements, |input.requirements|)
      ensures unobtainable == MissingUnobtainable(input.requirements, |input.requirements|)
    {
      obtainable, unobtainable := [], [];
      for i := 0 to |input.requirements|
        invariant obtainable == MissingObtainable(input.requirements, i)
        invariant unobtainable == MissingUnobtainable(input.requirements, i)
      {
        var r := input.requirements[i];
        if r.collected {
          continue;
        }
        if r.obtainable {
          obtainable := obtainable + [r.kind + " (call " + r.tool + ")"];
        } else {
          unobtainable := unobtainable + [r.kind];
        }
      }
    }

    /** The gate: a submission passes when it has no problem and no obtainable evidence is missing
        while calls remain; evidence missing all the same degrades the conclusion. */
    method Accept(submission: Submission) returns (hypotheses: array<Hypothesis>, problems: seq<Problem>)
      requires Open()
      modifies this`findings
      ensures fresh(hypotheses)
      ensures problems == Objections(start, trace, submission)
      ensures problems != [] ==> findings == old(findings)
      ensures problems == [] ==>
                && submission.Decoded?
                && hypotheses[..] == Conclusion(input.requirements, submission.hypotheses)
                && findings == old(findings).(
                     degraded := Missing(input.requirements) != [],
                     missingRequired := Missing(input.requirements))
    {
      hide Presented;
      hypotheses, problems := ValidateSubmission(submission, ledger, allowed);
      if problems != [] {
        return;
      }
      var missingObtainable, missingUnobtainable := SplitMissing();
      if |missingObtainable| > 0 && findings.toolCalls < input.budget.maxToolCalls {
        problems := [EvidenceMissing(missingObtainable)];
        return;
      }
      var missing := missingUnobtainable + missingObtainable;
      if |missing| > 0 {
        findings := findings.(degraded := true);
        findings := findings.(missingRequired := missing);
        CapConfidence(hypotheses, DEGRADED_CONFIDENCE_CAP);
      }
    }
  }

  lemma AccountStep(p: Pricing, us: seq<Usage>, u: Usage)
    ensures TokenTotal(us + [u], |us| + 1) == TokenTotal(us, |us|) + u.input + u.output
    ensures CostTotal(p, us + [u], |us| + 1) == CostTotal(p, us, |us|) + CostOf(p, u)
  {
    TotalsPrefix(p, us, us + [u], |us|);
  }

  lemma {:induction false} TotalsPrefix(p: Pricing, a: seq<Usage>, b: seq<Usage>, n: nat)
    requires n <= |a| <= |b| && a == b[..|a|]
    ensures TokenTotal(a, n) == TokenTotal(b, n) && CostTotal(p, a, n) == CostTotal(p, b, n)
  {
    if n > 0 {
      TotalsPrefix(p, a, b, n - 1);
    }
  }

  lemma TotalsPrefixOf(p: Pricing, us: seq<Usage>, u: Usage, n: nat)
    requires n <= |us|
    ensures TokenTotal(us + [u], n) == TokenTotal(us, n) && CostTotal(p, us + [u], n) == CostTotal(p, us, n)
  {
    assert us == (us + [u])[..|us|];
    TotalsPrefix(p, us, us + [u], n);
  }

  // ----- one more call handled -----

  lemma ObjectionsDecide(input: Input, trace: seq<Event>, sub: Submission)
    ensures Objections(input, trace, sub) == [] <==> Accepts(input, trace, sub)
  {
  }

  lemma {:induction false} ReadCallsPrefix(calls: seq<ToolCall>, k: nat, n: nat)
    requires k <= n <= |calls|
    ensures ReadCalls(calls, k) <= ReadCalls(calls, n)
  {
    if k < n {
      ReadCallsPrefix(calls, k, n - 1);
    }
  }

  /** Each read of a turn has its own place among the reads. */
  lemma {:induction false} PlaceAmongReads(calls: seq<ToolCall>, k: nat, n: nat)
    requires k < n <= |calls| && calls[k].name != SUBMIT_TOOL
    ensures |ReadCalls(calls, k)| < |ReadCalls(calls, n)| && ReadCalls(calls, n)[|ReadCalls(calls, k)|] == calls[k]
  {
    if k < n - 1 {
      PlaceAmongReads(calls, k, n - 1);
    }
  }

  /** A turn's reads and its submissions are all of its calls. */
  lemma {:induction false} ReadsAndSubmissions(calls: seq<ToolCall>, n: nat)
    requires n <= |calls|
    ensures |ReadCalls(calls, n)| + |set k | 0 <= k < n && calls[k].name == SUBMIT_TOOL| == n
  {
    if n > 0 {
      ReadsAndSubmissions(calls, n - 1);
      var before := set k | 0 <= k < n - 1 && calls[k].name == SUBMIT_TOOL;
      var now := set k | 0 <= k < n && calls[k].name == SUBMIT_TOOL;
      assert now == if calls[n - 1].name == SUBMIT_TOOL then before + {n - 1} else before;
    }
  }

  /** Later reads do not change how an earlier call was answered. */
  lemma AnswersKept(
      left: nat, before: seq<Event>, added: seq<Event>, e: Event, calls: seq<ToolCall>, results: seq<ToolResult>,
      r: ToolResult, n: nat)
    requires n <= |calls| && n <= |results| && MadeInOrder(left, added, calls, n) && |added| < left
    requires ReadsAnswered(before, added, calls, results, n)
    ensures ReadsAnswered(before, added + [e], calls, results + [r], n)
  {
    hide ResultOf, Successes, OutOfCalls, ReadCalls;
    forall k | 0 <= k < n && calls[k].name != SUBMIT_TOOL
      ensures ReadAnswered(before, added + [e], calls[k], (results + [r])[k], |ReadCalls(calls, k)|)
    {
      PlaceAmongReads(calls, k, n);
      var i := |ReadCalls(calls, k)|;
      assert ReadAnswered(before, added, calls[k], results[k], i);
      assert (added + [e])[..i] == added[..i];
    }
  }

  /** Later reads do not change what an earlier submission was judged on. */
  lemma MadeBeforeStable(
      limit: int, before: seq<Event>, added: seq<Event>, e: Event, calls: seq<ToolCall>, k: nat, n: nat)
    requires k <= n <= |calls| && MadeInOrder(AtLeastZero(limit - |before|), added, calls, n)
    ensures MadeBefore(limit, before, added + [e], calls, k) == MadeBefore(limit, before, added, calls, k)
  {
    ReadCallsPrefix(calls, k, n);
    var m := Min(Admitted(calls, k, AtLeastZero(limit - |before|)), |added|);
    assert (added + [e])[..m] == added[..m];
  }

  lemma MadeBeforeNow(limit: int, before: seq<Event>, added: seq<Event>, calls: seq<ToolCall>, n: nat)
    requires n <= |calls| && MadeInOrder(AtLeastZero(limit - |before|), added, calls, n)
    ensures MadeBefore(limit, before, added, calls, n) == before + added
  {
    assert added[..|added|] == added;
  }

  lemma HandledNothing(input: Input, before: seq<Event>, calls: seq<ToolCall>)
    ensures Handled(input, before, [], calls, [], 0)
  {
  }

  lemma ContentsSnoc(results: seq<ToolResult>, r: ToolResult)
    ensures Contents(results + [r]) == Contents(results) + if r.isError then [] else [r.content]
  {
    assert (results + [r])[..|results|] == results;
  }

  /** A call that makes no read: a refused submission, or one past the budget. */
  lemma HandledWithoutRead(
      input: Input, before: seq<Event>, added: seq<Event>, calls: seq<ToolCall>, results: seq<ToolResult>, n: nat,
      r: ToolResult)
    requires n < |calls| && Handled(input, before, added, calls, results, n)
    requires r.callId == calls[n].id && r.name == calls[n].name && r.isError
    requires calls[n].name == SUBMIT_TOOL ==> Refused(input, before + added, calls[n], r)
    requires calls[n].name != SUBMIT_TOOL ==>
               |before + added| >= input.budget.maxToolCalls && r == OutOfCalls(calls[n])
    ensures Handled(input, before, added, calls, results + [r], n + 1)
  {
    hide Refused, Shown, Successes, Contents, MadeBefore, ResultOf, OutOfCalls, ReadsAnswered;
    var limit := input.budget.maxToolCalls;
    ContentsSnoc(results, r);
    MadeBeforeNow(limit, before, added, calls, n);
    ReadCallsPrefix(calls, n, n + 1);
    RefusalAnswers(before, added, calls, results, n, r);
  }

  lemma RefusalAnswers(
      before: seq<Event>, added: seq<Event>, calls: seq<ToolCall>, results: seq<ToolResult>, n: nat, r: ToolResult)
    requires n < |calls| && n == |results| && ReadsAnswered(before, added, calls, results, n)
    requires calls[n].name != SUBMIT_TOOL ==> |added| <= |ReadCalls(calls, n)| && r == OutOfCalls(calls[n])
    ensures ReadsAnswered(before, added, calls, results + [r], n + 1)
  {
    hide Successes, ResultOf, OutOfCalls, ReadCalls;
    forall k | 0 <= k < n && calls[k].name != SUBMIT_TOOL
      ensures ReadAnswered(before, added, calls[k], (results + [r])[k], |ReadCalls(calls, k)|)
    {
      assert (results + [r])[k] == results[k];
    }
  }

  lemma ResultOfRead(call: ToolCall, outcome: Outcome, k: nat)
    ensures var r := ResultOf(call, outcome, k);
            && r.callId == call.id && r.name == call.name && (r.isError <==> !outcome.Read?)
            && (outcome.Read? ==> r.content == WrapEvidence(EvidenceId(k), call.name, outcome.content))
  {
    hide WrapEvidence, EvidenceId;
  }

  lemma ShownRead(added: seq<Event>, results: seq<ToolResult>, call: ToolCall, outcome: Outcome, first: nat)
    requires Contents(results) == Shown(added, first)
    ensures Contents(results + [ResultOf(call, outcome, first + |Successes(added)|)])
         == Shown(added + [Event(call, outcome)], first)
  {
    hide *;
    var k := first + |Successes(added)|;
    ContentsSnoc(results, ResultOf(call, outcome, k));
    ResultOfRead(call, outcome, k);
    ShownSnoc(added, Event(call, outcome), first);
  }

  lemma RefusalsKept(
      input: Input, before: seq<Event>, added: seq<Event>, calls: seq<ToolCall>, results: seq<ToolResult>, n: nat,
      e: Event, r: ToolResult)
    requires n < |calls| && Handled(input, before, added, calls, results, n)
    ensures var limit := input.budget.maxToolCalls;
            forall k :: 0 <= k < n && calls[k].name == SUBMIT_TOOL ==>
              Refused(input, MadeBefore(limit, before, added + [e], calls, k), calls[k], (results + [r])[k])
  {
    hide Refused, Shown, Successes, Contents, MadeBefore, MadeInOrder;
    forall k | 0 <= k < n && calls[k].name == SUBMIT_TOOL
      ensures MadeBefore(input.budget.maxToolCalls, before, added + [e], calls, k)
           == MadeBefore(input.budget.maxToolCalls, before, added, calls, k)
    {
      MadeBeforeStable(input.budget.maxToolCalls, before, added, e, calls, k, n);
    }
  }

  /** A call that reads. */
  lemma HandledRead(
      input: Input, before: seq<Event>, added: seq<Event>, calls: seq<ToolCall>, results: seq<ToolResult>, n: nat,
      outcome: Outcome)
    requires n < |calls| && Handled(input, before, added, calls, results, n)
    requires calls[n].name != SUBMIT_TOOL && |before + added| < input.budget.maxToolCalls
    ensures Handled(input, before, added + [Event(calls[n], outcome)], calls,
                    results + [ResultOf(calls[n], outcome, |Successes(before)| + 1 + |Successes(added)|)], n + 1)
  {
    hide Refused, Shown, Successes, MadeBefore, MadeInOrder, Contents, ResultOf, ReadCalls, Admitted, WrapEvidence,
         EvidenceId, ReadsAnswered;
    var first := |Successes(before)| + 1;
    var r := ResultOf(calls[n], outcome, first + |Successes(added)|);
    var e := Event(calls[n], outcome);
    ResultOfRead(calls[n], outcome, first + |Successes(added)|);
    ShownRead(added, results, calls[n], outcome, first);
    RefusalsKept(input, before, added, calls, results, n, e, r);
    MadeRead(AtLeastZero(input.budget.maxToolCalls - |before|), added, calls, n, e);
    ReadAnswers(AtLeastZero(input.budget.maxToolCalls - |before|), before, added, calls, results, n, outcome);
  }

  lemma ReadAnswers(
      left: nat, before: seq<Event>, added: seq<Event>, calls: seq<ToolCall>, results: seq<ToolResult>, n: nat,
      outcome: Outcome)
    requires n < |calls| && n == |results| && MadeInOrder(left, added, calls, n) && |added| < left
    requires calls[n].name != SUBMIT_TOOL && ReadsAnswered(before, added, calls, results, n)
    ensures var r := ResultOf(calls[n], outcome, |Successes(before)| + 1 + |Successes(added)|);
            ReadsAnswered(before, added + [Event(calls[n], outcome)], calls, results + [r], n + 1)
  {
    hide Successes, ResultOf, ReadsAnswered, ReadCalls, MadeInOrder;
    AllReadsMade(left, added, calls, n);
    var e, r := Event(calls[n], outcome), ResultOf(calls[n], outcome, |Successes(before)| + 1 + |Successes(added)|);
    AnswersKept(left, before, added, e, calls, results, r, n);
    assert (added + [e])[..|added|] == added;
    OneMoreAnswer(before, added + [e], calls, results + [r], n);
  }

  lemma AllReadsMade(left: nat, added: seq<Event>, calls: seq<ToolCall>, n: nat)
    requires n <= |calls| && MadeInOrder(left, added, calls, n) && |added| < left
    ensures |added| == |ReadCalls(calls, n)|
  {
  }

  lemma OneMoreAnswer(before: seq<Event>, added: seq<Event>, calls: seq<ToolCall>, results: seq<ToolResult>, n: nat)
    requires n < |calls| && n < |results| && ReadsAnswered(before, added, calls, results, n)
    requires calls[n].name != SUBMIT_TOOL ==>
               ReadAnswered(before, added, calls[n], results[n], |ReadCalls(calls, n)|)
    ensures ReadsAnswered(before, added, calls, results, n + 1)
  {
    hide ReadAnswered;
  }

  lemma MadeRead(left: nat, added: seq<Event>, calls: seq<ToolCall>, n: nat, e: Event)
    requires n < |calls| && MadeInOrder(left, added, calls, n)
    requires e.call == calls[n] && calls[n].name != SUBMIT_TOOL && |added| < left
    ensures MadeInOrder(left, added + [e], calls, n + 1)
  {
  }

  lemma {:induction false} SuccessesCount(a: seq<Event>, b: seq<Event>)
    ensures |Successes(a + b)| == |Successes(a)| + |Successes(b)|
  {
    if b == [] {
      assert a + b == a;
    } else {
      SuccessesCount(a, b[..|b| - 1]);
      assert (a + b)[..|a + b| - 1] == a + b[..|b| - 1];
    }
  }

  lemma SuccessesStep(trace: seq<Event>, e: Event)
    ensures Successes(trace + [e]) == Successes(trace) + if e.outcome.Read? then [e] else []
  {
    assert (trace + [e])[..|trace|] == trace;
  }

  lemma LedgerStep(baseline: seq<BaselineItem>, trace: seq<Event>, e: Event)
    ensures |Successes(trace + [e])| == |Successes(trace)| + if e.outcome.Read? then 1 else 0
    ensures LedgerAfter(baseline, trace + [e]) ==
            if e.outcome.Read?
            then LedgerAfter(baseline, trace)[EvidenceId(|Successes(trace)| + 1) := e.call.name]
            else LedgerAfter(baseline, trace)
  {
    hide EvidenceId, BaselineLedger, Successes;
    SuccessesStep(trace, e);
    var ok := Successes(trace);
    if e.outcome.Read? {
      LedgerPrefix(baseline, ok, ok + [e], |ok|);
    } else {
      assert ok + [] == ok;
    }
  }

  /** How the requirements follow one more call. */
  lemma RequirementStep(input: Input, trace: seq<Event>, e: Event)
    ensures forall i :: 0 <= i < |input.requirements| ==>
              After(input.requirements[i], trace + [e]) == Update(After(input.requirements[i], trace), e)
  {
    hide Update;
    assert (trace + [e])[..|trace|] == trace;
  }

  // ----- the loop -----

  /** The audit gained exactly one record per call of the trace, in order, and each outcome is the
      broker's own answer at that point. */
  ghost predicate Audited(b: Broker, earlier: seq<AuditRecord>, trace: seq<Event>, now: seq<AuditRecord>) {
    && |now| == |earlier| + |trace|
    && (forall i :: 0 <= i < |earlier| ==> now[i] == earlier[i])
    && forall i :: 0 <= i < |trace| ==> AuditedAs(b, |earlier| + i, trace[i], now[|earlier| + i])
  }

  ghost predicate AuditedAs(b: Broker, made: nat, e: Event, r: AuditRecord) {
    && e.outcome == Answer(b.registry, b.maxCalls, made, e.call.name, e.call.arguments)
    && r == Record(e.call.name, e.call.arguments, e.outcome, b.registry.elapsed(made))
  }

  lemma AuditedNothing(b: Broker, earlier: seq<AuditRecord>)
    ensures Audited(b, earlier, [], earlier)
  {
  }

  lemma AuditedSnoc(
      b: Broker, earlier: seq<AuditRecord>, trace: seq<Event>, now: seq<AuditRecord>, e: Event, r: AuditRecord)
    requires Audited(b, earlier, trace, now) && AuditedAs(b, |now|, e, r)
    ensures Audited(b, earlier, trace + [e], now + [r])
  {
    hide AuditedAs;
  }

  lemma AuditedConcat(
      b: Broker, earlier: seq<AuditRecord>, t1: seq<Event>, mid: seq<AuditRecord>, t2: seq<Event>,
      now: seq<AuditRecord>)
    requires Audited(b, earlier, t1, mid) && Audited(b, mid, t2, now)
    ensures Audited(b, earlier, t1 + t2, now)
  {
    hide AuditedAs;
    forall i | 0 <= i < |t1 + t2| ensures AuditedAs(b, |earlier| + i, (t1 + t2)[i], now[|earlier| + i]) {
      if i < |t1| {
        assert now[|earlier| + i] == mid[|earlier| + i];
      } else {
        assert AuditedAs(b, |mid| + (i - |t1|), t2[i - |t1|], now[|mid| + (i - |t1|)]);
      }
    }
  }

  /** None of the first n calls is a submission that could have been accepted where it was made. */
  ghost predicate NoneAccepted(
      input: Input, before: seq<Event>, added: seq<Event>, calls: seq<ToolCall>, n: nat)
    requires n <= |calls|
  {
    forall k :: 0 <= k < n && calls[k].name == SUBMIT_TOOL ==>
      !Accepts(input, MadeBefore(input.budget.maxToolCalls, before, added, calls, k), calls[k].arguments.submission)
  }

  /** The turn in which the k-th call was the first acceptable submission: the conclusion is that
      call's own hypotheses, the reads before it in the turn were made, and every submission before
      it was refused on the calls made before that one. */
  ghost predicate ConcludingTurn(
      input: Input, before: seq<Event>, added: seq<Event>, calls: seq<ToolCall>, k: nat, f: Findings)
  {
    && k < |calls|
    && calls[k].name == SUBMIT_TOOL && calls[k].arguments.submission.Decoded?
    && MadeInOrder(AtLeastZero(input.budget.maxToolCalls - |before|), added, calls, k)
    && NoneAccepted(input, before, added, calls, k)
    && ConcludedWith(input, before + added, calls[k].arguments.submission.hypotheses, f)
  }

  // ----- the conversation of a whole run -----

  /** The message that follows a model turn: a prompt to continue when it made no call, else the
      results of handling its calls between two points of the trace. */
  ghost predicate TurnAnswered(
      input: Input, trace: seq<Event>, lo: nat, hi: nat, us: seq<Usage>, n: nat, turn: Message, next: Message)
    requires n <= |us|
  {
    && lo <= hi <= |trace|
    && (turn.toolCalls != [] ==> next == Urged(Near(input, hi, us, n), next.toolResults))
    && (turn.toolCalls == [] ==> lo == hi && next == UserText(CONTINUE_TEXT))
    && (turn.toolCalls != [] ==>
          Handled(input, trace[..lo], trace[lo..hi], turn.toolCalls, next.toolResults, |turn.toolCalls|))
  }

  /** One turn: the request is the whole conversation so far, and the model's reply is replayed
      unchanged but for its role. */
  ghost predicate TurnTaken(
      script: (nat, seq<Message>) -> Reply, base: nat, input: Input, trace: seq<Event>, t: Transcript, j: nat)
    requires |t.messages| == 1 + 2 * t.Turns() && |t.cuts| == t.Turns() + 1 && |t.sent| == t.Turns() && j < t.Turns()
  {
    && t.sent[j] == t.messages[..1 + 2 * j]
    && script(base + j, t.sent[j]).Answered?
    && t.messages[1 + 2 * j] == script(base + j, t.sent[j]).message.(role := Model)
    && t.charged[j] == script(base + j, t.sent[j]).usage
    && TurnAnswered(input, trace, t.cuts[j], t.cuts[j + 1], t.charged, j + 1, t.messages[1 + 2 * j],
                    t.messages[2 + 2 * j])
  }

  /** The message that follows a model turn whose handling added the given reads. */
  ghost predicate Follows(
      input: Input, trace: seq<Event>, added: seq<Event>, us: seq<Usage>, turn: Message, next: Message)
  {
    && (turn.toolCalls != [] ==> next == Urged(Near(input, |trace + added|, us, |us|), next.toolResults))
    && (turn.toolCalls == [] ==> added == [] && next == UserText(CONTINUE_TEXT))
    && (turn.toolCalls != [] ==> Handled(input, trace, added, turn.toolCalls, next.toolResults, |turn.toolCalls|))
  }

  /** The limit that bars turn j from starting once the first j turns have been charged, or the empty
      string: the turn limit first, then the clock, the tokens and the cost. */
  function Barrier(input: Input, expired: nat -> bool, us: seq<Usage>, j: nat): string
    requires j <= |us|
  {
    if j >= input.budget.maxToolCalls + EXTRA_TURNS then STOP_TURNS
    else if expired(j) then STOP_CLOCK
    else if 0 < input.budget.maxTokens <= TokenTotal(us, j) then STOP_TOKENS
    else if input.pricing.Known() && 0 < input.budget.maxCost <= CostTotal(input.pricing, us, j) then STOP_COST
    else ""
  }

  /** No limit had been reached when any of the first n turns started. */
  ghost predicate Unbarred(input: Input, expired: nat -> bool, us: seq<Usage>, n: nat)
    requires n <= |us| + 1
  {
    forall j :: 0 <= j < n ==> Barrier(input, expired, us, j) == ""
  }

  /** How a run ends. Every turn it started was open to it, and `added` are the reads of a concluding
      turn, the only ones beside those of the turns before. Without an error it made a report of
      exactly the calls and usage there were: a conclusion is a submission of the last turn, and
      otherwise the reason is the limit that barred the next turn, or the clock when the model's own
      reply was a deadline. An error is the last reply's own and leaves nothing concluded. */
  ghost predicate RunResult(
      script: (nat, seq<Message>) -> Reply, base: nat, input: Input, expired: nat -> bool, t: Transcript,
      settled: seq<Event>, added: seq<Event>, f: Findings, err: Option<string>)
  {
    var last := script(base + t.Turns(), t.messages);
    && t.Turns() <= f.turns <= t.Turns() + 1
    && Unbarred(input, expired, t.charged, f.turns)
    && match err
       case None =>
         && Reported(input, settled + added, Charged(script, base, t, f), f)
         && (f.budgetExhausted ==> added == [])
         && (f.budgetExhausted && f.turns == t.Turns() ==>
               f.stopReason == Barrier(input, expired, t.charged, t.Turns()) != "")
         && (f.budgetExhausted && f.turns == t.Turns() + 1 ==>
               last.Errored? && last.deadline && f.stopReason == STOP_CLOCK)
         && (!f.budgetExhausted ==>
               && f.turns == t.Turns() + 1 && last.Answered?
               && exists k :: ConcludingTurn(input, settled, added, last.message.toolCalls, k, f))
       case Some(reason) =>
         && f.turns == t.Turns() + 1 && last == Errored(reason, false) && added == []
         && Accounted(input, settled + added, t.charged, f) && WithinLimits(input, f)
         && Inconclusive(f) && !f.budgetExhausted && f.stopReason == ""
  }

  /** The non-concluding turns of a run: what was sent, said and charged, and how far the trace had
      got before each and after the last, so that every call belongs to a turn that asked for it. */
  datatype Transcript = Transcript(
    messages: seq<Message>,
    sent: seq<seq<Message>>,
    charged: seq<Usage>,
    cuts: seq<nat>)
  {
    function Turns(): nat { |charged| }
  }

  ghost predicate Conversed(
      script: (nat, seq<Message>) -> Reply, base: nat, input: Input, trace: seq<Event>, t: Transcript)
  {
    && |t.messages| == 1 + 2 * t.Turns() && |t.cuts| == t.Turns() + 1 && |t.sent| == t.Turns()
    && t.messages[0] == UserText(InitialContext(input))
    && t.cuts[0] == 0 && t.cuts[t.Turns()] == |trace|
    && forall j :: 0 <= j < t.Turns() ==> TurnTaken(script, base, input, trace, t, j)
  }

  lemma HandledAnswers(
      input: Input, before: seq<Event>, added: seq<Event>, calls: seq<ToolCall>, results: seq<ToolResult>)
    requires Handled(input, before, added, calls, results, |calls|)
    ensures AnswersCalls(calls, results)
  {
  }

  /** Every conversation alternates, opens with the context, and answers each turn's calls one for
      one, in order; its length is one more than twice its turns. */
  lemma ConversationShape(
      script: (nat, seq<Message>) -> Reply, base: nat, input: Input, trace: seq<Event>, t: Transcript)
    requires Conversed(script, base, input, trace, t)
    ensures WellShaped(t.messages) && |t.messages| == 1 + 2 * t.Turns()
    ensures forall j :: 0 <= j < t.Turns() ==> WellShaped(t.sent[j])
    ensures forall i, j :: 0 <= i < j < t.Turns() ==> t.sent[i] < t.sent[j]
    ensures t.messages[0] == Message(User, InitialContext(input), [], [], Absent)
  {
    hide InitialContext, Handled;
    forall i | 0 <= i < |t.messages| - 1 && i % 2 == 1
      ensures t.messages[i].role.Model? && Answers(t.messages[i], t.messages[i + 1])
    {
      var j := i / 2;
      assert i == 1 + 2 * j && TurnTaken(script, base, input, trace, t, j);
      if t.messages[i].toolCalls != [] {
        HandledAnswers(input, trace[..t.cuts[j]], trace[t.cuts[j]..t.cuts[j + 1]], t.messages[i].toolCalls,
                       t.messages[i + 1].toolResults);
      }
    }
    assert WellShaped(t.messages);
    forall j | 0 <= j < t.Turns() ensures t.sent[j] == t.messages[..1 + 2 * j] && WellShaped(t.sent[j]) {
      assert TurnTaken(script, base, input, trace, t, j);
    }
  }

  /** What the model is told after a turn, beside its results: to go on when it called nothing, and to
      conclude when a budget is nearly spent. */
  lemma PromptsSay(
      script: (nat, seq<Message>) -> Reply, base: nat, input: Input, trace: seq<Event>, t: Transcript, j: nat)
    requires Conversed(script, base, input, trace, t) && j < t.Turns()
    ensures var turn, next := t.messages[1 + 2 * j], t.messages[2 + 2 * j];
            && script(base + j, t.sent[j]).Answered?
            && turn.role.Model? && turn == script(base + j, t.sent[j]).message.(role := Model)
            && next.role.User? && next.toolCalls == [] && next.providerState.Absent?
            && (turn.toolCalls == [] ==> next.text == CONTINUE_TEXT && next.toolResults == [])
            && (turn.toolCalls != [] ==>
                  next.text == if Near(input, t.cuts[j + 1], t.charged, j + 1) then CONCLUDE_NOW_TEXT else "")
  {
    hide InitialContext, Handled, Near;
    assert TurnTaken(script, base, input, trace, t, j);
  }

  lemma ConversedStart(script: (nat, seq<Message>) -> Reply, base: nat, input: Input)
    ensures Conversed(script, base, input, [], Transcript([UserText(InitialContext(input))], [], [], [0]))
  {
  }

  /** One more non-concluding turn. */
  lemma ConversedTurn(
      script: (nat, seq<Message>) -> Reply, base: nat, input: Input, trace: seq<Event>, t: Transcript,
      added: seq<Event>, next: Message)
    requires Conversed(script, base, input, trace, t)
    requires script(base + t.Turns(), t.messages).Answered?
    requires var reply := script(base + t.Turns(), t.messages);
             Follows(input, trace, added, t.charged + [reply.usage], reply.message, next)
    ensures var reply := script(base + t.Turns(), t.messages);
            Conversed(script, base, input, trace + added, Extend(t, reply, next, |added|))
  {
    hide InitialContext, Handled, TurnAnswered, Follows;
    var n := t.Turns();
    var reply := script(base + n, t.messages);
    var u := Extend(t, reply, next, |added|);
    NewTurnAnswered(input, trace, added, t.charged + [reply.usage], reply.message, next);
    forall j | 0 <= j < n ensures TurnTaken(script, base, input, trace + added, u, j) {
      assert TurnTaken(script, base, input, trace, t, j);
      assert u.messages[..1 + 2 * j] == t.messages[..1 + 2 * j];
      TurnAnsweredLater(input, trace, added, t.cuts[j], t.cuts[j + 1], t.charged, reply.usage, j + 1,
                        t.messages[1 + 2 * j], t.messages[2 + 2 * j]);
    }
    assert u.messages[..1 + 2 * n] == t.messages;
    assert TurnTaken(script, base, input, trace + added, u, n);
  }

  lemma NewTurnAnswered(
      input: Input, trace: seq<Event>, added: seq<Event>, us: seq<Usage>, turn: Message, next: Message)
    requires Follows(input, trace, added, us, turn, next)
    ensures TurnAnswered(input, trace + added, |trace|, |trace| + |added|, us, |us|, turn.(role := Model), next)
  {
    hide Handled, Near;
    assert (trace + added)[..|trace|] == trace && (trace + added)[|trace|..|trace| + |added|] == added;
  }

  lemma TurnAnsweredLater(
      input: Input, trace: seq<Event>, added: seq<Event>, lo: nat, hi: nat, us: seq<Usage>, u: Usage, n: nat,
      turn: Message, next: Message)
    requires n <= |us| && TurnAnswered(input, trace, lo, hi, us, n, turn, next)
    ensures TurnAnswered(input, trace + added, lo, hi, us + [u], n, turn, next)
  {
    hide Handled, TokenTotal, CostTotal;
    TotalsPrefixOf(input.pricing, us, u, n);
    assert (trace + added)[..lo] == trace[..lo] && (trace + added)[lo..hi] == trace[lo..hi];
  }

  function Extend(t: Transcript, reply: Reply, next: Message, made: nat): Transcript
    requires reply.Answered? && t.cuts != []
  {
    Transcript(
      t.messages + [reply.message.(role := Model), next],
      t.sent + [t.messages],
      t.charged + [reply.usage],
      t.cuts + [t.cuts[|t.cuts| - 1] + made])
  }

  class Investigator {
    const model: ScriptedModel
    const broker: Broker

    constructor (model: ScriptedModel, broker: Broker)
      ensures this.model == model && this.broker == broker
    {
      this.model, this.broker := model, broker;
    }

    /** One read: counted, made, recorded against the requirements, and entered in the ledger. */
    method ReadOnce(st: LoopState, call: ToolCall) returns (result: ToolResult, ghost outcome: Outcome)
      requires st.Open() && st.findings.toolCalls < st.start.budget.maxToolCalls
      modifies st, broker
      ensures st.Open() && st.charged == old(st.charged)
      ensures st.findings == old(st.findings).(toolCalls := old(st.findings.toolCalls) + 1)
      ensures st.trace == old(st.trace) + [Event(call, outcome)]
      ensures result == ResultOf(call, outcome, old(|Successes(st.trace)|) + 1)
      ensures |broker.calls| == |old(broker.calls)| + 1 && broker.calls[..|old(broker.calls)|] == old(broker.calls)
      ensures AuditedAs(broker, |old(broker.calls)|, Event(call, outcome), broker.calls[|old(broker.calls)|])
    {
      hide Update, LedgerAfter, Successes, WrapEvidence, Problems, Answer, Record, CostTotal, TokenTotal;
      ghost var before := st.trace;
      st.findings := st.findings.(toolCalls := st.findings.toolCalls + 1);
      var answer := broker.Call(call.name, call.arguments);
      outcome := answer;
      st.RecordRequirement(call, answer);
      ghost var e := Event(call, answer);
      RequirementStep(st.start, before, e);
      LedgerStep(st.start.baseline, before, e);
      st.trace := st.trace + [e];
      assert st.input.requirements == AllAfter(st.start.requirements, st.trace);

      if !answer.Read? {
        result := ToolResult(call.id, call.name, answer.reason, true);
        return;
      }
      var id := EvidenceId(st.nextEvidence);
      st.nextEvidence := st.nextEvidence + 1;
      st.ledger := st.ledger[id := call.name];
      result := ToolResult(call.id, call.name, WrapEvidence(id, call.name, answer.content), false);
    }

    /** A submission is either taken as the conclusion or answered with every objection to it. */
    method Submit(st: LoopState, call: ToolCall) returns (done: bool, rejection: ToolResult)
      requires st.Open()
      modifies st`findings
      ensures done <==> Accepts(st.start, st.trace, call.arguments.submission)
      ensures !done ==> st.Open() && st.findings == old(st.findings) && Refused(st.start, st.trace, call, rejection)
      ensures done ==> st.Valid() && st.findings.turns == old(st.findings.turns)
      ensures done ==> call.arguments.submission.Decoded?
                       && ConcludedWith(st.start, st.trace, call.arguments.submission.hypotheses, st.findings)
      ensures rejection.callId == call.id && rejection.name == call.name && rejection.isError
    {
      hide LedgerAfter, Conclusion, Problems, Successes, AllAfter, Missing;
      var hypotheses, problems := st.Accept(call.arguments.submission);
      ObjectionsDecide(st.start, st.trace, call.arguments.submission);
      done := problems == [];
      rejection := Rejection(call, problems);
      if done {
        st.findings := st.findings.(hypotheses := hypotheses[..]);
        st.findings := st.findings.(stopReason := STOP_CONCLUDED);
      }
    }

    /** One turn's calls, in order, until one is an accepted submission. */
    method HandleCalls(st: LoopState, calls: seq<ToolCall>)
      returns (results: seq<ToolResult>, done: bool, ghost added: seq<Event>, ghost handled: nat)
      requires st.Open()
      modifies st, broker
      ensures st.Valid() && st.charged == old(st.charged) && st.findings.turns == old(st.findings.turns)
      ensures st.trace == old(st.trace) + added
      ensures Audited(broker, old(broker.calls), added, broker.calls)
      ensures !done ==> st.Open() && Handled(st.start, old(st.trace), added, calls, results, |calls|)
      ensures done ==> results == [] && ConcludingTurn(st.start, old(st.trace), added, calls, handled, st.findings)
    {
      hide Handled, MadeInOrder, Successes, AuditedAs, ResultOf, Objections, Accepts, LedgerAfter, Conclusion,
           Refused, ConcludedWith, Audited, NoneAccepted;
      results, added, handled := [], [], 0;
      HandledNothing(st.start, st.trace, calls);
      AuditedNothing(broker, broker.calls);
      for i := 0 to |calls|
        invariant st.Open() && st.charged == old(st.charged) && st.findings.turns == old(st.findings.turns)
        invariant st.trace == old(st.trace) + added
        invariant Audited(broker, old(broker.calls), added, broker.calls)
        invariant Handled(st.start, old(st.trace), added, calls, results, i)
      {
        var call := calls[i];
        handled := i;
        if call.name == SUBMIT_TOOL {
          var rejection;
          done, rejection := Submit(st, call);
          if done {
            HandledMadeInOrder(st.start, old(st.trace), added, calls, results, i);
            results := [];
            return;
          }
          HandledWithoutRead(st.start, old(st.trace), added, calls, results, i, rejection);
          results := results + [rejection];
          continue;
        }

        if st.findings.toolCalls >= st.input.budget.maxToolCalls {
          var refusal := OutOfCalls(call);
          HandledWithoutRead(st.start, old(st.trace), added, calls, results, i, refusal);
          results := results + [refusal];
          continue;
        }

        ghost var audit := broker.calls;
        var result, outcome := ReadOnce(st, call);
        HandledRead(st.start, old(st.trace), added, calls, results, i, outcome);
        SuccessesCount(old(st.trace), added);
        AuditedSnoc(broker, old(broker.calls), added, audit, Event(call, outcome), broker.calls[|audit|]);
        assert broker.calls == audit + [broker.calls[|audit|]];
        results := results + [result];
        added := added + [Event(call, outcome)];
      }
      done := false;
    }

    /** What follows an answered turn: its usage is charged and its calls, if any, are handled. */
    method FollowUp(st: LoopState, reply: Reply)
      returns (done: bool, next: Message, ghost added: seq<Event>, ghost handled: nat)
      requires st.Open() && reply.Answered?
      modifies st, broker
      ensures st.Valid() && st.charged == old(st.charged) + [reply.usage]
      ensures st.findings.turns == old(st.findings.turns)
      ensures st.trace == old(st.trace) + added
      ensures Audited(broker, old(broker.calls), added, broker.calls)
      ensures !done ==> st.Open() && Follows(st.start, old(st.trace), added, st.charged, reply.message, next)
      ensures done ==> ConcludingTurn(st.start, old(st.trace), added, reply.message.toolCalls, handled, st.findings)
    {
      hide Handled, ConcludingTurn, AllAfter, LedgerAfter, Successes, Accounted, AuditedAs;
      st.Account(reply.usage);
      var calls := reply.message.toolCalls;
      if |calls| == 0 {
        next, added, handled, done := UserText(CONTINUE_TEXT), [], 0, false;
        return;
      }
      var results;
      results, done, added, handled := HandleCalls(st, calls);
      next := Message(User, "", [], results, Absent);
      if !done {
        var near := st.NearlyExhausted();
        if near {
          next := next.(text := CONCLUDE_NOW_TEXT);
        }
      }
    }

    /** A run between two turns, since it was started with these requests and this audit on record. */
    ghost predicate Underway(
        st: LoopState, input: Input, expired: nat -> bool, t: Transcript, requests: seq<seq<Message>>,
        audit: seq<AuditRecord>)
      reads st, model, broker
    {
      && st.Open() && st.start == input
      && st.charged == t.charged && st.findings.turns == t.Turns()
      && st.findings.turns <= AtLeastZero(input.budget.maxToolCalls + EXTRA_TURNS)
      && Conversed(model.script, |requests|, input, st.trace, t)
      && model.requests == requests + t.sent && |t.sent| == t.Turns() && t.cuts != []
      && Audited(broker, audit, st.trace, broker.calls)
      && Unbarred(input, expired, t.charged, t.Turns())
    }

    /** The loop body once no limit has been reached. */
    method TakeTurn(st: LoopState, messages: seq<Message>, ghost input: Input, ghost expired: nat -> bool,
                    ghost t: Transcript, ghost requests: seq<seq<Message>>, ghost audit: seq<AuditRecord>)
      returns (status: Status, following: seq<Message>, ghost u: Transcript, ghost added: seq<Event>)
      requires Underway(st, input, expired, t, requests, audit) && messages == t.messages
      requires Barrier(input, expired, t.charged, t.Turns()) == ""
      modifies st, model, broker
      ensures st.findings.turns == old(st.findings.turns) + 1
      ensures status.Continues? ==> Underway(st, input, expired, u, requests, audit) && following == u.messages
      ensures !status.Continues? ==>
                && model.requests == requests + t.sent + [t.messages]
                && Audited(broker, audit, old(st.trace) + added, broker.calls)
                && RunResult(model.script, |requests|, input, expired, t, old(st.trace), added, st.findings,
                             if status.Ends? then None else Some(status.reason))
    {
      hide Conversed, Audited, InitialContext, AllAfter, LedgerAfter, Successes, Accounted, Follows, ConcludingTurn,
           RunResult, Unbarred, Barrier;
      u, added, following := t, [], messages;
      ghost var settled := st.trace;
      assert settled + [] == settled;
      TurnIsOpen(input, expired, t.charged);
      st.BeginTurn();
      var reply := model.Generate(messages);
      if reply.Errored? {
        if reply.deadline {
          DeadlineIsReported(model.script, |requests|, input, expired, settled, t, st.findings);
          var _ := st.Stop(STOP_CLOCK);
          return Ends, messages, t, [];
        }
        ErrorIsReported(model.script, |requests|, input, expired, settled, t, st.findings, reply.reason);
        return Breaks(reply.reason), messages, t, [];
      }

      var done, next;
      ghost var handled;
      ghost var earlier := broker.calls;
      done, next, added, handled := FollowUp(st, reply);
      AuditedConcat(broker, audit, settled, earlier, added, broker.calls);
      UnbarredLater(input, expired, t.charged, reply.usage);
      if done {
        ConclusionIsReported(model.script, |requests|, input, expired, settled, added, t, handled, st.findings);
        return Ends, messages, t, added;
      }
      ConversedTurn(model.script, |requests|, input, settled, t, added, next);
      following := messages + [reply.message.(role := Model), next];
      u := Extend(t, reply, next, |added|);
      status := Continues;
    }

    /** Investigate until a valid submission or a limit. `expired(n)` says whether the context is done
        when turn n is about to start. An error is the model's own, with nothing concluded. */
    method Run(input: Input, expired: nat -> bool)
      returns (f: Findings, err: Option<string>, ghost t: Transcript, ghost settled: seq<Event>, ghost added: seq<Event>)
      modifies model, broker
      ensures Conversed(model.script, |old(model.requests)|, input, settled, t)
      ensures model.requests == old(model.requests) + t.sent + (if f.turns == t.Turns() then [] else [t.messages])
      ensures Audited(broker, old(broker.calls), settled + added, broker.calls)
      ensures RunResult(model.script, |old(model.requests)|, input, expired, t, settled, added, f, err)
    {
      hide Conversed, Audited, InitialContext, AllAfter, LedgerAfter, Successes, Accounted, Unbarred, Barrier,
           RunResult;
      var st := new LoopState(input);
      var messages := [UserText(InitialContext(input))];
      var maxTurns := input.budget.maxToolCalls + EXTRA_TURNS;
      t := Transcript(messages, [], [], [0]);
      added, err := [], None;
      ConversedStart(model.script, |model.requests|, input);
      AuditedNothing(broker, broker.calls);
      NothingBarred(input, expired);
      assert model.requests + [] == model.requests;

      while st.findings.turns < maxTurns
        invariant fresh(st) && added == [] && err == None && messages == t.messages
        invariant Underway(st, input, expired, t, old(model.requests), old(broker.calls))
        decreases maxTurns - st.findings.turns
      {
        var reason := st.ExhaustedReason(expired(st.findings.turns));
        settled := st.trace;
        assert settled + [] == settled;
        ReasonIsBarrier(input, expired, st.trace, t.charged, st.findings, reason);
        if reason != "" {
          StopIsReported(model.script, |old(model.requests)|, input, expired, settled, t, st.findings);
          f := st.Stop(reason);
          return;
        }
        var status;
        ghost var u;
        status, messages, u, added :=
          TakeTurn(st, messages, input, expired, t, old(model.requests), old(broker.calls));
        if status.Ends? {
          f := st.findings;
          return;
        } else if status.Breaks? {
          f, err := st.findings, Some(status.reason);
          return;
        }
        t, added := u, [];
      }
      settled := st.trace;
      assert settled + [] == settled;
      TurnsAreUp(input, expired, t.charged);
      StopIsReported(model.script, |old(model.requests)|, input, expired, settled, t, st.findings);
      f := st.Stop(STOP_TURNS);
    }
  }

  /** Whether the loop goes on after a turn, returns its findings, or returns the model's error. */
  datatype Status = Continues | Ends | Breaks(reason: string)

  /** The usage of every answered turn, the concluding one included. */
  ghost function Charged(script: (nat, seq<Message>) -> Reply, base: nat, t: Transcript, f: Findings): seq<Usage> {
    var last := script(base + t.Turns(), t.messages);
    t.charged + if !f.budgetExhausted && last.Answered? then [last.usage] else []
  }

  // ----- what bars a turn -----

  lemma NothingBarred(input: Input, expired: nat -> bool)
    ensures Unbarred(input, expired, [], 0)
  {
  }

  lemma TurnIsOpen(input: Input, expired: nat -> bool, us: seq<Usage>)
    requires Unbarred(input, expired, us, |us|) && Barrier(input, expired, us, |us|) == ""
    ensures Unbarred(input, expired, us, |us| + 1) && |us| < input.budget.maxToolCalls + EXTRA_TURNS
  {
  }

  lemma TurnsAreUp(input: Input, expired: nat -> bool, us: seq<Usage>)
    requires |us| >= input.budget.maxToolCalls + EXTRA_TURNS
    ensures Barrier(input, expired, us, |us|) == STOP_TURNS
  {
  }

  /** Usage charged later bars no turn that has already started. */
  lemma UnbarredLater(input: Input, expired: nat -> bool, us: seq<Usage>, u: Usage)
    requires Unbarred(input, expired, us, |us| + 1)
    ensures Unbarred(input, expired, us + [u], |us| + 1) && OverrunByLastTurnOnly(input, us + [u])
  {
    hide TokenTotal, CostTotal;
    forall j | 0 <= j <= |us| ensures Barrier(input, expired, us + [u], j) == "" {
      TotalsPrefix(input.pricing, us, us + [u], j);
      assert Barrier(input, expired, us, j) == "";
    }
    assert Barrier(input, expired, us + [u], |us|) == "";
  }

  lemma LastTurnOnly(input: Input, expired: nat -> bool, us: seq<Usage>)
    requires Unbarred(input, expired, us, |us|)
    ensures OverrunByLastTurnOnly(input, us)
  {
    assert |us| > 0 ==> Barrier(input, expired, us, |us| - 1) == "";
  }

  lemma ReasonIsBarrier(
      input: Input, expired: nat -> bool, trace: seq<Event>, us: seq<Usage>, f: Findings, reason: string)
    requires |us| < input.budget.maxToolCalls + EXTRA_TURNS && Accounted(input, trace, us, f)
    requires reason in {"", STOP_CLOCK, STOP_TOKENS, STOP_COST}
    requires reason == STOP_CLOCK <==> expired(|us|)
    requires reason == STOP_TOKENS <==> !expired(|us|) && 0 < input.budget.maxTokens <= f.tokens
    requires reason == STOP_COST <==>
             && !expired(|us|) && !(0 < input.budget.maxTokens <= f.tokens)
             && f.costKnown && 0 < input.budget.maxCost <= f.cost
    ensures reason == Barrier(input, expired, us, |us|)
  {
  }

  // ----- how a run ends -----

  lemma StopIsReported(
      script: (nat, seq<Message>) -> Reply, base: nat, input: Input, expired: nat -> bool, trace: seq<Event>,
      t: Transcript, before: Findings)
    requires Accounted(input, trace, t.charged, before) && Inconclusive(before) && WithinLimits(input, before)
    requires Unbarred(input, expired, t.charged, t.Turns()) && before.turns == t.Turns()
    requires Barrier(input, expired, t.charged, t.Turns()) != ""
    ensures RunResult(script, base, input, expired, t, trace, [],
                      before.(stopReason := Barrier(input, expired, t.charged, t.Turns()), budgetExhausted := true,
                              hypotheses := []), None)
  {
    hide CostTotal, TokenTotal, ConcludedWith, ConcludingTurn, Unbarred;
    assert t.charged + [] == t.charged && trace + [] == trace;
    LastTurnOnly(input, expired, t.charged);
  }

  lemma DeadlineIsReported(
      script: (nat, seq<Message>) -> Reply, base: nat, input: Input, expired: nat -> bool, trace: seq<Event>,
      t: Transcript, before: Findings)
    requires script(base + t.Turns(), t.messages).Errored? && script(base + t.Turns(), t.messages).deadline
    requires Accounted(input, trace, t.charged, before) && Inconclusive(before) && WithinLimits(input, before)
    requires Unbarred(input, expired, t.charged, t.Turns() + 1) && before.turns == t.Turns() + 1
    ensures RunResult(script, base, input, expired, t, trace, [],
                      before.(stopReason := STOP_CLOCK, budgetExhausted := true, hypotheses := []), None)
  {
    LastTurnOnly(input, expired, t.charged);
    hide CostTotal, TokenTotal, ConcludedWith, ConcludingTurn, Unbarred;
    assert t.charged + [] == t.charged && trace + [] == trace;
  }

  lemma ConclusionIsReported(
      script: (nat, seq<Message>) -> Reply, base: nat, input: Input, expired: nat -> bool, trace: seq<Event>,
      added: seq<Event>, t: Transcript, k: nat, f: Findings)
    requires var last := script(base + t.Turns(), t.messages);
             && last.Answered?
             && ConcludingTurn(input, trace, added, last.message.toolCalls, k, f)
             && Accounted(input, trace + added, t.charged + [last.usage], f)
             && OverrunByLastTurnOnly(input, t.charged + [last.usage])
    requires WithinLimits(input, f) && f.turns == t.Turns() + 1 && Unbarred(input, expired, t.charged, f.turns)
    ensures RunResult(script, base, input, expired, t, trace, added, f, None)
  {
    hide CostTotal, TokenTotal, AllAfter, Conclusion, Accepts, Unbarred, NoneAccepted;
  }

  lemma ErrorIsReported(
      script: (nat, seq<Message>) -> Reply, base: nat, input: Input, expired: nat -> bool, trace: seq<Event>,
      t: Transcript, f: Findings, reason: string)
    requires script(base + t.Turns(), t.messages) == Errored(reason, false)
    requires Accounted(input, trace, t.charged, f) && Inconclusive(f) && WithinLimits(input, f)
    requires !f.budgetExhausted && f.stopReason == "" && f.turns == t.Turns() + 1
    requires Unbarred(input, expired, t.charged, f.turns)
    ensures RunResult(script, base, input, expired, t, trace, [], f, Some(reason))
  {
    hide CostTotal, TokenTotal, ConcludedWith, ConcludingTurn, Unbarred;
    assert trace + [] == trace;
  }

  lemma HandledMadeInOrder(
      input: Input, before: seq<Event>, added: seq<Event>, calls: seq<ToolCall>, results: seq<ToolResult>, n: nat)
    requires n <= |calls| && Handled(input, before, added, calls, results, n)
    ensures MadeInOrder(AtLeastZero(input.budget.maxToolCalls - |before|), added, calls, n)
    ensures NoneAccepted(input, before, added, calls, n)
  {
    hide Accepts, MadeInOrder, MadeBefore, Objections;
  }

  // ----- what a refused submission is told -----

  /** The rejection lists every objection, in order, one to a line. */
  lemma RejectionLists(call: ToolCall, problems: seq<Problem>)
    requires problems != [] && forall i :: 0 <= i < |problems| ==> '\n' !in Describe(problems[i])
    ensures var r := Rejection(call, problems);
            && r.callId == call.id && r.name == call.name && r.isError
            && "The submission was rejected and the investigation continues:\n- " <= r.content
            && Split(r.content[|REJECTION_PREFIX|..], "\n- ") == DescribeAll(problems)
  {
    var list := DescribeAll(problems);
    forall p | p in list ensures '\n' !in p {
    }
    SplitJoin(list, "\n- ");
    hide Describe, Join, Split;
    assert Rejection(call, problems).content[|REJECTION_PREFIX|..] == Join(list, "\n- ");
  }
}
