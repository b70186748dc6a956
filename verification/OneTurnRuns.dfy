/** Executions of a single turn: the model asks for some reads, all of which succeed, and submits one
    hypothesis citing one identifier. They show what the code does where a property of it fails. */
module OneTurnRuns {
  import opened Wrappers
  import opened Text
  import opened Kinds
  import opened Conversation
  import opened Evidence
  import opened Validation
  import opened Tools
  import opened Investigation
  import opened Agent
  import opened Catalog
  import opened Api
  import opened InvestigatorController
  import opened PipelineFindings

  const FREE := Usage(0, 0)
  const ONE_READ := ToolCall("r", "get_workload_spec", Arguments("", true, false, Undecodable("")))

  function Citing(c: string): seq<Submitted> {
    [Submitted("x", 50, [c], [])]
  }

  /** n reads and then the submission. */
  function Asked(n: nat, c: string): seq<ToolCall> {
    seq(n, _ => ONE_READ) + [ToolCall("s", SUBMIT_TOOL, Arguments("", true, false, Decoded(Citing(c))))]
  }

  /** A model that always says the same, a cluster where every read succeeds, and no deadline. */
  function Eager(n: nat, c: string): World {
    World(
      (i: nat, messages: seq<Message>) => Answered(Message(Model, "", Asked(n, c), [], Absent), FREE),
      Registry(CATALOGUE, (made: nat, name: string, arguments: Arguments) => Read(""), s => s, made => 0),
      turn => false)
  }

  // ----- the reads succeed and the submission is acceptable -----

  lemma {:induction false} AskedReads(n: nat, c: string, k: nat)
    requires k <= n + 1
    ensures |ReadCalls(Asked(n, c), k)| == (if k <= n then k else n)
    ensures forall i :: 0 <= i < |ReadCalls(Asked(n, c), k)| ==> ReadCalls(Asked(n, c), k)[i] == ONE_READ
  {
    if k > 0 {
      AskedReads(n, c, k - 1);
      OnlyLastSubmits(n, c, k - 1);
    }
  }

  lemma OnlyLastSubmits(n: nat, c: string, k: nat)
    requires k <= n
    ensures Asked(n, c)[k].name == SUBMIT_TOOL <==> k == n
    ensures k < n ==> Asked(n, c)[k] == ONE_READ
  {
    assert |"get_workload_spec"| == 17;
  }

  lemma ReadSucceeds(n: nat, c: string, made: nat)
    ensures Reading(Eager(n, c).registry, made, ONE_READ).Read?
  {
  }

  lemma {:induction false} AllSucceed(trace: seq<Event>)
    requires forall i :: 0 <= i < |trace| ==> trace[i].outcome.Read?
    ensures |Successes(trace)| == |trace|
  {
    if trace != [] {
      AllSucceed(trace[..|trace| - 1]);
    }
  }

  lemma LetterIsNotBlank()
    ensures TrimSpace("x") == "x" && ByteLength("x") == 1
  {
  }

  /** Of enriched evidence, citing anything that resolves is acceptable. */
  lemma CitingIsAccepted(input: Input, ev: Evidence, trace: seq<Event>, c: string)
    requires WellGathered(ev) && input.requirements == RequirementsOf(ev.items, |ev.items|)
    requires Resolves(input, trace, c)
    ensures Accepts(input, trace, Decoded(Citing(c)))
  {
    var sub := Decoded(Citing(c));
    hide RequirementsOf, WellGathered, LedgerAfter, Accepts, TrimSpace, ByteLength, Resolves, AllAfter;
    NeverRejectedForEvidence(input, ev, trace, sub);
    AcceptedMeans(sub, LedgerAfter(input.baseline, trace).Keys, AllowedSet(input.allowedActions));
    LedgerResolves(input, trace, c);
    LetterIsNotBlank();
  }

  /** The identifier resolves once n reads have succeeded. */
  ghost predicate ResolvesAfter(input: Input, n: nat, c: string) {
    forall trace :: |Successes(trace)| == n ==> Resolves(input, trace, c)
  }

  /** A turn in which the reads are made: they all succeed, and then the submission is acceptable. */
  lemma ReadsThenAccepts(input: Input, ev: Evidence, n: nat, c: string, trace: seq<Event>, rest: seq<Event>,
                         calls: seq<AuditRecord>)
    requires WellGathered(ev) && input.requirements == RequirementsOf(ev.items, |ev.items|)
    requires ResolvesAfter(input, n, c) && |trace| == n
    requires forall i :: 0 <= i < n ==> trace[i].call == ONE_READ
    requires AuditedBy(Eager(n, c).registry, trace + rest, calls)
    ensures |Successes(trace)| == n && Accepts(input, trace, Decoded(Citing(c)))
  {
    hide Reading, Accepts, WellGathered, RequirementsOf, Resolves, Successes;
    forall i | 0 <= i < n ensures trace[i].outcome.Read? {
      assert ReadingRecorded(Eager(n, c).registry, i, (trace + rest)[i], calls[i]);
      ReadSucceeds(n, c, i);
    }
    AllSucceed(trace);
    CitingIsAccepted(input, ev, trace, c);
  }

  // ----- so the first turn concludes -----

  lemma TurnMakesReads(limit: nat, n: nat, c: string, added: seq<Event>, k: nat)
    requires n <= limit && n <= k <= n + 1 && MadeInOrder(limit, added, Asked(n, c), k)
    ensures |added| == n && forall i :: 0 <= i < n ==> added[i].call == ONE_READ
    ensures MadeBefore(limit, [], added, Asked(n, c), n) == added
  {
    AskedReads(n, c, k);
    AskedReads(n, c, n);
    hide ReadCalls;
    var none: seq<Event> := [];
    assert none + added == added && added[..n] == added;
  }

  /** A turn that did not conclude refused the submission after making the reads. */
  lemma HandledRefuses(input: Input, n: nat, c: string, made: seq<Event>, results: seq<ToolResult>)
    requires n <= input.budget.maxToolCalls && Handled(input, [], made, Asked(n, c), results, n + 1)
    ensures |made| == n && forall i :: 0 <= i < n ==> made[i].call == ONE_READ
    ensures !Accepts(input, made, Decoded(Citing(c)))
  {
    hide Accepts, Objections, Shown, Contents, MadeBefore, MadeInOrder;
    TurnMakesReads(input.budget.maxToolCalls, n, c, made, n + 1);
    OnlyLastSubmits(n, c, n);
    assert Refused(input, made, Asked(n, c)[n], results[n]);
  }

  /** The first turn of a conversation with this model, if it did not conclude. */
  lemma FirstTurnHandled(
      input: Input, n: nat, c: string, base: nat, settled: seq<Event>, t: Transcript)
    returns (made: seq<Event>, later: seq<Event>, results: seq<ToolResult>)
    requires Conversed(Eager(n, c).script, base, input, settled, t) && t.Turns() > 0
    ensures settled == made + later && Handled(input, [], made, Asked(n, c), results, n + 1)
  {
    hide InitialContext, Handled;
    assert TurnTaken(Eager(n, c).script, base, input, settled, t, 0);
    made, later, results := settled[..t.cuts[1]], settled[t.cuts[1]..], t.messages[2].toolResults;
    assert settled[0..t.cuts[1]] == made && settled[..0] == [];
  }

  lemma NothingSettled(world: World, base: nat, input: Input, settled: seq<Event>, t: Transcript)
    requires Conversed(world.script, base, input, settled, t)
    ensures t.Turns() == 0 ==> settled == []
  {
  }

  /** No turn of such an execution fails to conclude. */
  lemma NoTurnWithoutConclusion(
      input: Input, ev: Evidence, n: nat, c: string, base: nat, settled: seq<Event>, added: seq<Event>,
      calls: seq<AuditRecord>, t: Transcript)
    requires WellGathered(ev) && input.requirements == RequirementsOf(ev.items, |ev.items|)
    requires ResolvesAfter(input, n, c) && n <= input.budget.maxToolCalls
    requires Conversed(Eager(n, c).script, base, input, settled, t)
    requires AuditedBy(Eager(n, c).registry, settled + added, calls)
    ensures t.Turns() == 0 && settled == []
  {
    hide Conversed, AuditedBy, Accepts, WellGathered, RequirementsOf, ResolvesAfter, Handled, Eager, Asked, Citing;
    NothingSettled(Eager(n, c), base, input, settled, t);
    if t.Turns() > 0 {
      var made, later, results := FirstTurnHandled(input, n, c, base, settled, t);
      HandledRefuses(input, n, c, made, results);
      assert settled + added == made + (later + added);
      ReadsThenAccepts(input, ev, n, c, made, later + added, calls);
      assert false;
    }
  }

  /** A first turn that nothing bars and that the model answers ends a run that has no other turn only by
      concluding it. */
  lemma FirstTurnConcludes(
      world: World, base: nat, input: Input, f: Findings, err: Option<string>, t: Transcript, settled: seq<Event>,
      added: seq<Event>)
    requires RunResult(world.script, base, input, world.expired, t, settled, added, f, err)
    requires t.Turns() == 0 && world.script(base, t.messages).Answered?
    requires Barrier(input, world.expired, t.charged, 0) == ""
    ensures err.None? && f.turns == 1
    ensures exists k :: ConcludingTurn(input, settled, added, world.script(base, t.messages).message.toolCalls, k, f)
  {
    hide Reported, ConcludingTurn, Unbarred, Accounted, Barrier;
  }

  lemma ConclusionOfAsked(input: Input, n: nat, c: string, added: seq<Event>, k: nat, f: Findings)
    requires n <= input.budget.maxToolCalls && ConcludingTurn(input, [], added, Asked(n, c), k, f)
    ensures |added| == n && forall i :: 0 <= i < n ==> added[i].call == ONE_READ
    ensures ConcludedWith(input, added, Citing(c), f)
  {
    hide ConcludedWith, NoneAccepted, MadeInOrder;
    OnlyLastSubmits(n, c, k);
    TurnMakesReads(input.budget.maxToolCalls, n, c, added, n);
    var none: seq<Event> := [];
    assert none + added == added;
  }

  /** The execution is determined: one turn, n reads that all succeed, and the submission concludes. */
  lemma OneTurn(
      input: Input, ev: Evidence, n: nat, c: string, base: nat, f: Findings, err: Option<string>,
      calls: seq<AuditRecord>, t: Transcript, settled: seq<Event>, added: seq<Event>)
    requires WellGathered(ev) && input.requirements == RequirementsOf(ev.items, |ev.items|)
    requires ResolvesAfter(input, n, c) && n <= input.budget.maxToolCalls && 1 <= input.budget.maxToolCalls
    requires ExecutedAs(Eager(n, c), base, input, f, err, calls, t, settled, added)
    ensures t.Turns() == 0 && err.None? && f.turns == 1 && settled == [] && |added| == n == |Successes(added)|
    ensures ConcludedWith(input, added, Citing(c), f)
  {
    hide Conversed, AuditedBy, Accepts, WellGathered, RequirementsOf, ResolvesAfter, RunResult, Successes, ConcludedWith,
         ConcludingTurn, Barrier;
    NoTurnWithoutConclusion(input, ev, n, c, base, settled, added, calls, t);
    NothingBarsTheFirst(input, n, c, t);
    FirstTurnConcludes(Eager(n, c), base, input, f, err, t, settled, added);
    var k :| ConcludingTurn(input, settled, added, Asked(n, c), k, f);
    ConclusionOfAsked(input, n, c, added, k, f);
    assert settled + added == added + [];
    ReadsThenAccepts(input, ev, n, c, added, [], calls);
  }

  lemma NothingBarsTheFirst(input: Input, n: nat, c: string, t: Transcript)
    requires 1 <= input.budget.maxToolCalls && t.Turns() == 0
    ensures Barrier(input, Eager(n, c).expired, t.charged, 0) == ""
  {
  }

  /** Every hypothesis of the conclusion, and there is one, cites the identifier. */
  lemma ConclusionCites(input: Input, trace: seq<Event>, us: seq<Usage>, c: string, f: Findings)
    requires ConcludedWith(input, trace, Citing(c), f) && Reported(input, trace, us, f)
    ensures f.hypotheses != [] && forall h <- f.hypotheses :: c in h.citations
  {
    ConcludedXorExhausted(input, trace, us, f);
    hide Reported, Conclusion, AllAfter, Missing, Accepts;
    forall h <- f.hypotheses ensures c in h.citations {
      ConclusionCitations(AllAfter(input.requirements, trace), Citing(c), h);
      DistinctKeepsFirstOccurrences([c]);
    }
  }

  /** What the controller's investigation returns in such a world. */
  lemma EagerInvestigation(
      model: ScriptedModel, input: Input, ev: Evidence, n: nat, c: string, f: Findings, err: Option<string>,
      calls: seq<AuditRecord>)
    requires WellGathered(ev) && input.requirements == RequirementsOf(ev.items, |ev.items|)
    requires ResolvesAfter(input, n, c) && n <= input.budget.maxToolCalls && 1 <= input.budget.maxToolCalls
    requires model.script == Eager(n, c).script
    requires Ran(model, [], Eager(n, c).registry, input, Eager(n, c).expired, f, err, calls)
    ensures err.None? && |model.requests| == 1 && |calls| == n
    ensures f.hypotheses != [] && forall h <- f.hypotheses :: c in h.citations
    ensures exists trace :: AuditOf(trace, calls) && |trace| == n == |Successes(trace)|
  {
    hide WellGathered, RequirementsOf, ResolvesAfter, Conversed, RunResult, AuditedBy, Eager, ConcludedWith, Successes,
         AuditOf;
    var t, settled, added :|
      RanAs(model, [], Eager(n, c).registry, input, Eager(n, c).expired, f, err, calls, t, settled, added);
    var none: seq<seq<Message>> := [];
    assert Eager(n, c) == World(model.script, Eager(n, c).registry, Eager(n, c).expired);
    OneTurn(input, ev, n, c, |none|, f, err, calls, t, settled, added);
    assert settled + added == added;
    var us := ExecutionReports(Eager(n, c), |none|, input, f, calls, t, settled, added);
    ConclusionCites(input, added, us, c, f);
    OneRequest(Eager(n, c), |none|, input, f, t, settled);
  }

  lemma OneRequest(world: World, base: nat, input: Input, f: Findings, t: Transcript, settled: seq<Event>)
    requires Conversed(world.script, base, input, settled, t) && t.Turns() == 0 && f.turns == 1
    ensures |t.sent + (if f.turns == t.Turns() then [] else [t.messages])| == 1
  {
  }

  // ----- more reads than the stored trail holds -----

  lemma {:induction false} SuccessCountAtMost(calls: seq<AuditRecord>, n: nat)
    requires n <= |calls|
    ensures SuccessCount(calls, n) <= n
  {
    if n > 0 {
      SuccessCountAtMost(calls, n - 1);
    }
  }

  lemma LateIsCutOff(ev: Evidence, trace: seq<Event>, calls: seq<AuditRecord>, n: nat)
    requires AuditOf(trace, calls) && |trace| == n == |Successes(trace)| && n > MAX_RECORDED_CALLS
    ensures |calls| == n && !StoredResolves(ev, Recorded(calls), EvidenceId(n))
  {
    SuccessesAreRecorded(trace, calls);
    SuccessCountAtMost(Recorded(calls), |Recorded(calls)|);
    hide EvidenceId, SuccessCount, Successes, KindName;
    assert CutOff(calls, EvidenceId(n));
    StoredUnlessCutOff(ev, calls, EvidenceId(n));
  }

  lemma ReadResolves(input: Input, n: nat)
    requires n >= 1
    ensures ResolvesAfter(input, n, EvidenceId(n))
  {
    hide EvidenceId, Successes;
  }

  /** Whatever evidence is investigated, under a policy of more than thirty calls the controller returns,
      for a model that asks for n reads and cites the last, hypotheses that cite it; and nothing stored
      resolves that citation. */
  method LateCitationIsCutOff(
      namespaceName: string, spec: Spec, ev: Evidence, config: AgentConfig, pricing: Pricing, n: nat)
    returns (f: Findings, err: Option<string>, calls: seq<AuditRecord>)
    requires WellGathered(ev) && MAX_RECORDED_CALLS < n <= config.maxToolCalls
    ensures err.None? && |calls| == n
    ensures Investigated(namespaceName, spec, Some(ev), config, pricing, f, calls)
    ensures f.hypotheses != [] && forall h <- f.hypotheses :: EvidenceId(n) in h.citations
    ensures !StoredResolves(ev, Recorded(calls), EvidenceId(n))
  {
    hide WellGathered, Ran, Investigated, InputFor, ResolvesAfter, StoredResolves, ModelFailure, Eager, Successes,
         AuditOf, EvidenceId;
    var world := Eager(n, EvidenceId(n));
    var model := new ScriptedModel(world.script);
    f, err, calls :=
      Investigate(namespaceName, spec, Some(ev), config, pricing, model, world.registry, world.expired);
    ghost var input := InputFor(namespaceName, spec, Some(ev), config, pricing);
    InputOfEvidence(namespaceName, spec, ev, config, pricing);
    InputBudget(namespaceName, spec, Some(ev), config, pricing);
    ReadResolves(input, n);
    EagerInvestigation(model, input, ev, n, EvidenceId(n), f, err, calls);
    ghost var trace :| AuditOf(trace, calls) && |trace| == n == |Successes(trace)|;
    LateIsCutOff(ev, trace, calls, n);
  }
}
