/** What an investigation starts from, what it reports, and what the report must be, as functions of
    the calls made through the broker and the usage the model charged. */
module Investigation {
  import opened Wrappers
  import opened Text
  import opened Validation
  import opened Conversation
  import opened Tools

  const EXTRA_TURNS := 6
  const STOP_CONCLUDED := "concluded"
  const STOP_CLOCK := "wall clock budget exhausted"
  const STOP_TOKENS := "token budget exhausted"
  const STOP_COST := "cost budget exhausted"
  const STOP_TURNS := "turn limit reached without a valid conclusion"

  datatype Budget = Budget(maxToolCalls: int, maxTokens: int, maxCost: int)

  datatype Pricing = Pricing(inputRate: int, outputRate: int) {
    predicate Known() { inputRate > 0 || outputRate > 0 }
  }

  datatype BaselineItem = BaselineItem(id: string, kind: string, excerpt: string)

  datatype Requirement = Requirement(
    kind: string,
    tool: string,
    collected: bool,
    obtainable: bool,
    satisfiedBy: Option<(string, Arguments) -> bool>)

  datatype Input = Input(
    failureType: string,
    namespaceName: string,
    workload: string,
    container: string,
    facts: seq<string>,
    baseline: seq<BaselineItem>,
    requirements: seq<Requirement>,
    allowedActions: seq<string>,
    budget: Budget,
    pricing: Pricing)

  datatype Findings = Findings(
    hypotheses: seq<Hypothesis>,
    toolCalls: nat,
    turns: nat,
    tokens: int,
    cost: int,
    costKnown: bool,
    budgetExhausted: bool,
    degraded: bool,
    missingRequired: seq<string>,
    stopReason: string)

  /** One call through the broker and what came of it. A run's trace lists them in order. */
  datatype Event = Event(call: ToolCall, outcome: Outcome)

  // ----- requirements -----

  predicate Matches(r: Requirement, call: ToolCall) {
    match r.satisfiedBy
    case None => r.tool == call.name
    case Some(f) => f(call.name, call.arguments)
  }

  /** How one call changes one requirement. */
  function Update(r: Requirement, e: Event): Requirement {
    if r.collected || !Matches(r, e.call) then r
    else match e.outcome
      case Read(_) => r.(collected := true)
      case Denied(_) => r
      case Failed(_) => r.(obtainable := false)
  }

  function After(r: Requirement, trace: seq<Event>): Requirement {
    if trace == [] then r else Update(After(r, trace[..|trace| - 1]), trace[|trace| - 1])
  }

  function AllAfter(rs: seq<Requirement>, trace: seq<Event>): (result: seq<Requirement>)
    ensures |result| == |rs| && forall i :: 0 <= i < |rs| ==> result[i] == After(rs[i], trace)
  {
    seq(|rs|, i requires 0 <= i < |rs| => After(rs[i], trace))
  }

  ghost predicate Satisfied(r: Requirement, trace: seq<Event>) {
    exists i :: 0 <= i < |trace| && Matches(r, trace[i].call) && trace[i].outcome.Read?
  }

  ghost predicate Unreadable(r: Requirement, trace: seq<Event>) {
    exists i :: 0 <= i < |trace| && Matches(r, trace[i].call) && trace[i].outcome.Failed?
  }

  /** Requirement state is a function of the trace: collected iff it was or some matching call
      succeeded; if not, still obtainable iff it was and no matching call failed. Denials never count. */
  lemma {:induction false} RequirementState(r: Requirement, trace: seq<Event>)
    ensures var s := After(r, trace);
            && s == r.(collected := s.collected, obtainable := s.obtainable)
            && (s.collected <==> r.collected || Satisfied(r, trace))
            && (!s.collected ==> (s.obtainable <==> r.obtainable && !Unreadable(r, trace)))
            && (s.obtainable ==> r.obtainable)
  {
    if trace != [] {
      var init, e := trace[..|trace| - 1], trace[|trace| - 1];
      RequirementState(r, init);
      var s := After(r, init);
      assert Matches(s, e.call) == Matches(r, e.call);
      if i :| 0 <= i < |init| && Matches(r, init[i].call) && init[i].outcome.Read? {
        assert trace[i] == init[i];
      }
      if i :| 0 <= i < |init| && Matches(r, init[i].call) && init[i].outcome.Failed? {
        assert trace[i] == init[i];
      }
      assert Satisfied(r, trace) <==> Satisfied(r, init) || (Matches(r, e.call) && e.outcome.Read?);
      assert Unreadable(r, trace) <==> Unreadable(r, init) || (Matches(r, e.call) && e.outcome.Failed?);
    }
  }

  // ----- what is missing -----

  function MissingObtainable(rs: seq<Requirement>, n: nat): seq<string>
    requires n <= |rs|
  {
    if n == 0 then []
    else
      var r := rs[n - 1];
      MissingObtainable(rs, n - 1)
      + if !r.collected && r.obtainable then [r.kind + " (call " + r.tool + ")"] else []
  }

  function MissingUnobtainable(rs: seq<Requirement>, n: nat): seq<string>
    requires n <= |rs|
  {
    if n == 0 then []
    else
      var r := rs[n - 1];
      MissingUnobtainable(rs, n - 1) + if !r.collected && !r.obtainable then [r.kind] else []
  }

  function Missing(rs: seq<Requirement>): seq<string> {
    MissingUnobtainable(rs, |rs|) + MissingObtainable(rs, |rs|)
  }

  function UncollectedCount(rs: seq<Requirement>, n: nat): nat
    requires n <= |rs|
  {
    if n == 0 then 0 else UncollectedCount(rs, n - 1) + if rs[n - 1].collected then 0 else 1
  }

  /** One entry per uncollected requirement, and none otherwise. */
  lemma {:induction false} MissingCounts(rs: seq<Requirement>, n: nat)
    requires n <= |rs|
    ensures |MissingUnobtainable(rs, n)| + |MissingObtainable(rs, n)| == UncollectedCount(rs, n)
    ensures UncollectedCount(rs, n) == 0 <==> forall i :: 0 <= i < n ==> rs[i].collected
    ensures MissingObtainable(rs, n) == [] <==> forall i :: 0 <= i < n ==> rs[i].collected || !rs[i].obtainable
  {
    if n > 0 {
      MissingCounts(rs, n - 1);
    }
  }

  /** The entries name the requirements concerned: by kind, and with the tool to call while there is one. */
  lemma {:induction false} MissingNames(rs: seq<Requirement>, n: nat, s: string)
    requires n <= |rs|
    ensures s in MissingUnobtainable(rs, n) <==>
            exists i :: 0 <= i < n && !rs[i].collected && !rs[i].obtainable && s == rs[i].kind
    ensures s in MissingObtainable(rs, n) <==>
            exists i :: 0 <= i < n && !rs[i].collected && rs[i].obtainable
                        && s == rs[i].kind + " (call " + rs[i].tool + ")"
  {
    if n > 0 {
      MissingNames(rs, n - 1, s);
    }
  }

  /** What no call can supply is listed first. */
  lemma UnobtainableListedFirst(rs: seq<Requirement>, k: nat)
    requires k < |Missing(rs)|
    ensures k < |MissingUnobtainable(rs, |rs|)| ==>
              exists i :: 0 <= i < |rs| && !rs[i].collected && !rs[i].obtainable && Missing(rs)[k] == rs[i].kind
    ensures k >= |MissingUnobtainable(rs, |rs|)| ==>
              exists i :: 0 <= i < |rs| && !rs[i].collected && rs[i].obtainable
                          && Missing(rs)[k] == rs[i].kind + " (call " + rs[i].tool + ")"
  {
    MissingNames(rs, |rs|, Missing(rs)[k]);
    hide MissingUnobtainable, MissingObtainable;
    var a, b := MissingUnobtainable(rs, |rs|), MissingObtainable(rs, |rs|);
    assert k < |a| ==> Missing(rs)[k] in a;
    assert k >= |a| ==> Missing(rs)[k] in b;
  }

  // ----- the citation ledger -----

  function EvidenceId(k: nat): string {
    "E" + Decimal(k)
  }

  lemma EvidenceIdInjective(j: nat, k: nat)
    ensures EvidenceId(j) == EvidenceId(k) ==> j == k
  {
    DecimalInjective(j, k);
    assert EvidenceId(j)[1..] == Decimal(j) && EvidenceId(k)[1..] == Decimal(k);
  }

  function Successes(trace: seq<Event>): seq<Event> {
    if trace == [] then []
    else
      var e := trace[|trace| - 1];
      Successes(trace[..|trace| - 1]) + if e.outcome.Read? then [e] else []
  }

  /** The successes are the reads of the trace that succeeded, in order: the i-th call, if it succeeded,
      comes after those that succeeded before it. */
  lemma {:induction false} SuccessAt(trace: seq<Event>, i: nat)
    requires i < |trace|
    ensures |Successes(trace[..i])| <= |Successes(trace)|
    ensures trace[i].outcome.Read? ==>
              && |Successes(trace[..i])| < |Successes(trace)|
              && Successes(trace)[|Successes(trace[..i])|] == trace[i]
  {
    var init := trace[..|trace| - 1];
    if i < |init| {
      SuccessAt(init, i);
      assert init[..i] == trace[..i];
    } else {
      assert trace[..i] == init;
    }
  }

  function BaselineLedger(baseline: seq<BaselineItem>, n: nat): map<string, string>
    requires n <= |baseline|
  {
    if n == 0 then map[] else BaselineLedger(baseline, n - 1)[baseline[n - 1].id := baseline[n - 1].kind]
  }

  function Ledger(baseline: seq<BaselineItem>, ok: seq<Event>, n: nat): map<string, string>
    requires n <= |ok|
  {
    if n == 0 then BaselineLedger(baseline, |baseline|)
    else Ledger(baseline, ok, n - 1)[EvidenceId(n) := ok[n - 1].call.name]
  }

  function LedgerAfter(baseline: seq<BaselineItem>, trace: seq<Event>): map<string, string> {
    Ledger(baseline, Successes(trace), |Successes(trace)|)
  }

  /** The ledger does not depend on later successes. */
  lemma {:induction false} LedgerPrefix(baseline: seq<BaselineItem>, a: seq<Event>, b: seq<Event>, n: nat)
    requires n <= |a| <= |b| && a == b[..|a|]
    ensures Ledger(baseline, a, n) == Ledger(baseline, b, n)
  {
    if n > 0 {
      LedgerPrefix(baseline, a, b, n - 1);
    }
  }

  lemma {:induction false} BaselineLedgerKeys(baseline: seq<BaselineItem>, n: nat)
    requires n <= |baseline|
    ensures forall s :: s in BaselineLedger(baseline, n) <==> exists i :: 0 <= i < n && baseline[i].id == s
  {
    if n > 0 {
      BaselineLedgerKeys(baseline, n - 1);
    }
  }

  /** The E-entries are exactly E1..En, each naming the n-th successful call, and nothing else was
      added; with baseline identifiers of another form no entry is ever overwritten. */
  lemma {:induction false} LedgerExact(baseline: seq<BaselineItem>, ok: seq<Event>, n: nat)
    requires n <= |ok|
    ensures var base := BaselineLedger(baseline, |baseline|);
            var l := Ledger(baseline, ok, n);
            && (forall s :: s in l <==> s in base || exists k :: 1 <= k <= n && s == EvidenceId(k))
            && (forall k :: 1 <= k <= n ==> EvidenceId(k) in l && l[EvidenceId(k)] == ok[k - 1].call.name)
            && ((forall k: nat :: EvidenceId(k) !in base) ==> forall s <- base :: s in l && l[s] == base[s])
  {
    if n > 0 {
      LedgerExact(baseline, ok, n - 1);
      forall k | 1 <= k < n ensures EvidenceId(k) != EvidenceId(n) {
        EvidenceIdInjective(k, n);
      }
    }
  }

  // ----- usage -----

  /** Go's integer division, which truncates toward zero. */
  function Quotient(a: int, b: int): int
    requires b > 0
  {
    if a >= 0 then a / b else -((-a) / b)
  }

  function TokenTotal(us: seq<Usage>, n: nat): int
    requires n <= |us|
  {
    if n == 0 then 0 else TokenTotal(us, n - 1) + us[n - 1].input + us[n - 1].output
  }

  function CostTotal(p: Pricing, us: seq<Usage>, n: nat): int
    requires n <= |us|
  {
    if n == 0 then 0 else CostTotal(p, us, n - 1) + CostOf(p, us[n - 1])
  }

  function CostOf(p: Pricing, u: Usage): int {
    Quotient(u.input * p.inputRate, 1_000_000) + Quotient(u.output * p.outputRate, 1_000_000)
  }

  /** The charge before any rounding, in millionths of the recorded unit. */
  function ExactTotal(p: Pricing, us: seq<Usage>, n: nat): int
    requires n <= |us|
  {
    if n == 0 then 0
    else ExactTotal(p, us, n - 1) + us[n - 1].input * p.inputRate + us[n - 1].output * p.outputRate
  }

  lemma QuotientError(a: int)
    ensures -999_999 <= a - 1_000_000 * Quotient(a, 1_000_000) <= 999_999
    ensures a >= 0 ==> 1_000_000 * Quotient(a, 1_000_000) <= a
  {
  }

  /** Rounding loses less than two units per turn, and never overcharges when no charge is negative. */
  lemma {:induction false} CostError(p: Pricing, us: seq<Usage>, n: nat)
    requires n <= |us|
    ensures -2 * n * 999_999 <= ExactTotal(p, us, n) - 1_000_000 * CostTotal(p, us, n) <= 2 * n * 999_999
    ensures (forall i :: 0 <= i < n ==> us[i].input * p.inputRate >= 0 && us[i].output * p.outputRate >= 0)
            ==> 1_000_000 * CostTotal(p, us, n) <= ExactTotal(p, us, n)
  {
    if n > 0 {
      CostError(p, us, n - 1);
      QuotientError(us[n - 1].input * p.inputRate);
      QuotientError(us[n - 1].output * p.outputRate);
    }
  }

  function InputTokens(us: seq<Usage>, n: nat): int
    requires n <= |us|
  {
    if n == 0 then 0 else InputTokens(us, n - 1) + us[n - 1].input
  }

  function OutputTokens(us: seq<Usage>, n: nat): int
    requires n <= |us|
  {
    if n == 0 then 0 else OutputTokens(us, n - 1) + us[n - 1].output
  }

  /** Tokens are those put in and those given out, and each is charged at its own price. */
  lemma {:induction false} TotalsAdd(p: Pricing, us: seq<Usage>, n: nat)
    requires n <= |us|
    ensures TokenTotal(us, n) == InputTokens(us, n) + OutputTokens(us, n)
    ensures ExactTotal(p, us, n) == InputTokens(us, n) * p.inputRate + OutputTokens(us, n) * p.outputRate
  {
    if n > 0 {
      TotalsAdd(p, us, n - 1);
    }
  }

  // ----- the report -----

  function AllowedSet(actions: seq<string>): set<string> {
    set a <- actions
  }

  /** Whether a submission made after the given calls is accepted: it has no problem, and no evidence
      that could still be gathered is missing while calls remain. */
  predicate Accepts(input: Input, trace: seq<Event>, sub: Submission) {
    var rs := AllAfter(input.requirements, trace);
    && Problems(sub, LedgerAfter(input.baseline, trace).Keys, AllowedSet(input.allowedActions)) == []
    && (MissingObtainable(rs, |rs|) == [] || |trace| >= input.budget.maxToolCalls)
  }

  function Conclusion(rs: seq<Requirement>, hs: seq<Submitted>): seq<Hypothesis> {
    var ranked := Ranked(Drafts(hs, |hs|));
    if Missing(rs) == [] then ranked else Capped(ranked, DEGRADED_CONFIDENCE_CAP)
  }

  /** The counters of a report, fixed by the trace and the usage charged. */
  ghost predicate Accounted(input: Input, trace: seq<Event>, us: seq<Usage>, f: Findings) {
    && f.toolCalls == |trace|
    && f.tokens == TokenTotal(us, |us|)
    && f.costKnown == input.pricing.Known()
    && f.cost == if input.pricing.Known() then CostTotal(input.pricing, us, |us|) else 0
  }

  ghost predicate ConcludedWith(input: Input, trace: seq<Event>, hs: seq<Submitted>, f: Findings) {
    var rs := AllAfter(input.requirements, trace);
    && Accepts(input, trace, Decoded(hs))
    && f.hypotheses == Conclusion(rs, hs)
    && f.missingRequired == Missing(rs)
    && f.degraded == (Missing(rs) != [])
    && !f.budgetExhausted
    && f.stopReason == STOP_CONCLUDED
  }

  ghost predicate Concluded(input: Input, trace: seq<Event>, f: Findings) {
    exists hs :: ConcludedWith(input, trace, hs, f)
  }

  ghost predicate Inconclusive(f: Findings) {
    f.hypotheses == [] && !f.degraded && f.missingRequired == []
  }

  /** A limit ended the run. A reason that is read off the report names a limit that was reached; the
      loop says when the clock is the reason. */
  ghost predicate Exhausted(input: Input, f: Findings) {
    && Inconclusive(f)
    && f.budgetExhausted
    && f.stopReason in {STOP_CLOCK, STOP_TOKENS, STOP_COST, STOP_TURNS}
    && (f.stopReason == STOP_TOKENS ==> 0 < input.budget.maxTokens <= f.tokens)
    && (f.stopReason == STOP_COST ==> f.costKnown && 0 < input.budget.maxCost <= f.cost)
    && (f.stopReason == STOP_TURNS ==> f.turns >= input.budget.maxToolCalls + EXTRA_TURNS)
  }

  function AtLeastZero(n: int): nat {
    if n < 0 then 0 else n
  }

  ghost predicate WithinLimits(input: Input, f: Findings) {
    && f.toolCalls <= AtLeastZero(input.budget.maxToolCalls)
    && f.turns <= AtLeastZero(input.budget.maxToolCalls + EXTRA_TURNS)
  }

  /** Before the last answered turn, neither enforced budget had been reached. */
  ghost predicate OverrunByLastTurnOnly(input: Input, us: seq<Usage>) {
    |us| > 0 ==>
      && (input.budget.maxTokens > 0 ==> TokenTotal(us, |us| - 1) < input.budget.maxTokens)
      && (input.pricing.Known() && input.budget.maxCost > 0 ==>
            CostTotal(input.pricing, us, |us| - 1) < input.budget.maxCost)
  }

  /** An error-free report of a run that made these calls and was charged this usage. */
  ghost predicate Reported(input: Input, trace: seq<Event>, us: seq<Usage>, f: Findings) {
    && Accounted(input, trace, us, f)
    && WithinLimits(input, f)
    && OverrunByLastTurnOnly(input, us)
    && |us| <= f.turns <= |us| + 1
    && (Concluded(input, trace, f) || Exhausted(input, f))
  }

  // ----- what a report tells its reader -----

  /** A run is concluded or exhausted, never both, and its hypotheses say which. */
  lemma ConcludedXorExhausted(input: Input, trace: seq<Event>, us: seq<Usage>, f: Findings)
    requires Reported(input, trace, us, f)
    ensures Concluded(input, trace, f) <==> !Exhausted(input, f)
    ensures Concluded(input, trace, f) <==> 1 <= |f.hypotheses| <= MAX_HYPOTHESES
    ensures f.budgetExhausted <==> f.hypotheses == []
  {
    if hs :| ConcludedWith(input, trace, hs, f) {
      AcceptedMeans(Decoded(hs), LedgerAfter(input.baseline, trace).Keys, AllowedSet(input.allowedActions));
    }
  }

  /** A concluded run is degraded exactly when some requirement was neither in hand at the start nor
      read by a call; then every confidence is capped, and one still obtainable was left out only
      because no call remained. */
  lemma DegradedMeans(input: Input, trace: seq<Event>, f: Findings)
    requires Concluded(input, trace, f)
    ensures f.degraded <==> exists r <- input.requirements :: !r.collected && !Satisfied(r, trace)
    ensures |f.missingRequired| == UncollectedCount(AllAfter(input.requirements, trace), |input.requirements|)
    ensures f.degraded ==> forall h <- f.hypotheses :: h.confidence <= DEGRADED_CONFIDENCE_CAP
    ensures (exists r <- input.requirements ::
               !r.collected && !Satisfied(r, trace) && r.obtainable && !Unreadable(r, trace))
            ==> |trace| >= input.budget.maxToolCalls
  {
    var hs :| ConcludedWith(input, trace, hs, f);
    var rs := AllAfter(input.requirements, trace);
    MissingCounts(rs, |rs|);
    forall i | 0 <= i < |rs|
      ensures rs[i].collected <==> input.requirements[i].collected || Satisfied(input.requirements[i], trace)
      ensures !rs[i].collected ==>
                (rs[i].obtainable <==> input.requirements[i].obtainable && !Unreadable(input.requirements[i], trace))
    {
      RequirementState(input.requirements[i], trace);
    }
    CappingKeepsRanking(Drafts(hs, |hs|), DEGRADED_CONFIDENCE_CAP);
  }

  /** What a concluded run reports is its last submission: every hypothesis of it, once, with its own
      cause, confidence, citations and actions, by descending confidence and otherwise in the order
      submitted; when evidence is missing, confidences above 70 are 70. */
  lemma ConclusionPresents(input: Input, trace: seq<Event>, hs: seq<Submitted>, f: Findings) returns (p: seq<nat>)
    requires ConcludedWith(input, trace, hs, f)
    ensures Presented(f.hypotheses, hs, p, if f.degraded then 70 else 100)
  {
    AcceptedMeans(Decoded(hs), LedgerAfter(input.baseline, trace).Keys, AllowedSet(input.allowedActions));
    hide LedgerAfter, Drafts, Ranked, Capped, AllAfter, Problems, Missing;
    if f.degraded {
      p := CappedPresents(hs, DEGRADED_CONFIDENCE_CAP);
    } else {
      p := RankedPresents(hs);
    }
  }

  /** Ranking, labelling and capping keep each hypothesis's citations. */
  lemma ConclusionCitations(rs: seq<Requirement>, hs: seq<Submitted>, h: Hypothesis)
    requires h in Conclusion(rs, hs)
    ensures exists s <- hs :: h.citations == Distinct(s.citations) && h.rootCause == TrimSpace(s.rootCause)
  {
    hide StableSort, Drafts, TrimSpace, Distinct, Missing;
    var drafts := Drafts(hs, |hs|);
    var i :| 0 <= i < |drafts| && Conclusion(rs, hs)[i] == h;
    var d := StableSort(drafts)[i];
    assert h.citations == d.citations && h.rootCause == d.rootCause;
    StableSortSorts(drafts);
    assert d in multiset(StableSort(drafts));
    DraftOf(hs, |hs|, d);
  }

  lemma {:induction false} DraftOf(hs: seq<Submitted>, n: nat, d: Hypothesis)
    requires n <= |hs| && d in Drafts(hs, n)
    ensures exists s <- hs :: d == Draft(s) && d.citations == Distinct(s.citations) && d.rootCause == TrimSpace(s.rootCause)
  {
    hide TrimSpace, Distinct;
    if d == Draft(hs[n - 1]) {
      assert hs[n - 1] in hs;
    } else {
      DraftOf(hs, n - 1, d);
    }
  }

  lemma CitationInLedger(input: Input, trace: seq<Event>, hs: seq<Submitted>, h: Hypothesis, c: string)
    requires Accepts(input, trace, Decoded(hs))
    requires h in Conclusion(AllAfter(input.requirements, trace), hs) && c in h.citations
    ensures c in LedgerAfter(input.baseline, trace)
  {
    var keys := LedgerAfter(input.baseline, trace).Keys;
    AcceptedMeans(Decoded(hs), keys, AllowedSet(input.allowedActions));
    ConclusionCitations(AllAfter(input.requirements, trace), hs, h);
    hide Conclusion, LedgerAfter, AllAfter, Problems;
    var s: Submitted :| s in hs && h.citations == Distinct(s.citations);
    DistinctKeepsFirstOccurrences(s.citations);
    assert Sound(s, keys, AllowedSet(input.allowedActions));
  }

  /** A citation names a baseline item or the k-th call that succeeded. */
  ghost predicate Resolves(input: Input, trace: seq<Event>, c: string) {
    || (exists b <- input.baseline :: b.id == c)
    || exists k :: 1 <= k <= |Successes(trace)| && c == EvidenceId(k)
  }

  lemma LedgerResolves(input: Input, trace: seq<Event>, c: string)
    ensures c in LedgerAfter(input.baseline, trace) <==> Resolves(input, trace, c)
  {
    var ok := Successes(trace);
    LedgerExact(input.baseline, ok, |ok|);
    BaselineLedgerKeys(input.baseline, |input.baseline|);
    hide Successes, Ledger, BaselineLedger;
  }

  /** Every citation in an accepted conclusion resolves. */
  lemma CitationsResolve(input: Input, trace: seq<Event>, f: Findings)
    requires Concluded(input, trace, f)
    ensures forall h <- f.hypotheses, c <- h.citations :: Resolves(input, trace, c)
  {
    var hs :| ConcludedWith(input, trace, hs, f);
    hide Conclusion, Accepts, AllAfter, Resolves, LedgerAfter;
    forall h <- f.hypotheses, c <- h.citations ensures Resolves(input, trace, c) {
      CitationInLedger(input, trace, hs, h, c);
      LedgerResolves(input, trace, c);
    }
  }

  /** Recorded cost is a rounded-down sum with bounded error, and tokens are exact. */
  lemma RecordedCost(input: Input, trace: seq<Event>, us: seq<Usage>, f: Findings)
    requires Reported(input, trace, us, f) && f.costKnown
    requires forall u <- us :: u.input * input.pricing.inputRate >= 0 && u.output * input.pricing.outputRate >= 0
    ensures var exact := ExactTotal(input.pricing, us, |us|);
            1_000_000 * f.cost <= exact <= 1_000_000 * f.cost + 2 * f.turns * 999_999
  {
    CostError(input.pricing, us, |us|);
  }
}
