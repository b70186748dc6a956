/** internal/controller/investigator_controller.go: what an investigation starts from, the broker it is
    given, and what is stored of it. */
module InvestigatorController {
  import opened Wrappers
  import opened Text
  import opened Kinds
  import opened Evidence
  import opened Validation
  import opened Conversation
  import opened Tools
  import opened Investigation
  import opened Agent
  import opened Catalog
  import opened Api

  const EXCERPT_LIMIT := 1500
  const BROKER_HEADROOM := 2
  const MAX_RECORDED_CALLS := 30

  const PROPOSABLE_ACTIONS: seq<string> := [
    "SetMemoryLimit", "SetCPULimit", "SetImage", "SetProbeDelay", "SetProbePort", "AddResourceRequests",
    "RollbackToRevision", "RestartWorkload", "None"]

  function Excerpt(content: string, limit: nat): string {
    if |content| <= limit then content else content[..limit] + "\n[excerpt truncated]"
  }

  // ----- the input -----

  function FactsOf(facts: ContainerFacts): seq<string> {
    (if facts.exitCode.Some? then ["Previous exit code: " + Integer(facts.exitCode.value)] else [])
    + (if facts.terminationReason != "" then ["Previous termination reason: " + facts.terminationReason] else [])
    + (if facts.waitingReason != "" then ["Currently displayed as: " + facts.waitingReason] else [])
    + ["Restart count: " + Integer(facts.restartCount)]
  }

  function BaselineEntry(item: EvidenceItem): BaselineItem {
    BaselineItem("B:" + KindName(item.kind), KindName(item.kind), Excerpt(item.content, EXCERPT_LIMIT))
  }

  function BaselineOf(items: seq<EvidenceItem>, n: nat): seq<BaselineItem>
    requires n <= |items|
  {
    if n == 0 then []
    else BaselineOf(items, n - 1) + if items[n - 1].status.Collected? then [BaselineEntry(items[n - 1])] else []
  }

  function RequirementOf(item: EvidenceItem): Requirement {
    Requirement(KindName(item.kind), ToolFor(item.kind), item.status.Collected?, !item.status.Unavailable?,
                Some(Satisfier(item.kind)))
  }

  function RequirementsOf(items: seq<EvidenceItem>, n: nat): seq<Requirement>
    requires n <= |items|
  {
    if n == 0 then []
    else RequirementsOf(items, n - 1) + if items[n - 1].required then [RequirementOf(items[n - 1])] else []
  }

  function WorkloadName(target: Target): string {
    if target.owner.Some? then target.owner.value.kind + "/" + target.owner.value.name else "Pod/" + target.name
  }

  function InputFor(
      namespaceName: string, spec: Spec, evidence: Option<Evidence>, config: AgentConfig, pricing: Pricing): Input
  {
    var items := if evidence.Some? then evidence.value.items else [];
    Input(FailureName(spec.failureType), namespaceName, WorkloadName(spec.target), spec.container,
          if evidence.Some? then FactsOf(evidence.value.facts) else [],
          BaselineOf(items, |items|), RequirementsOf(items, |items|), PROPOSABLE_ACTIONS,
          Budget(config.maxToolCalls, config.maxTokens, config.maxCost), pricing)
  }

  method BuildInput(
      namespaceName: string, spec: Spec, evidence: Option<Evidence>, config: AgentConfig, pricing: Pricing)
    returns (input: Input)
    ensures input == InputFor(namespaceName, spec, evidence, config, pricing)
  {
    hide FactsOf, BaselineEntry, RequirementOf, WorkloadName, FailureName;
    input := Input(FailureName(spec.failureType), namespaceName, WorkloadName(spec.target), spec.container, [], [], [],
                   PROPOSABLE_ACTIONS, Budget(config.maxToolCalls, config.maxTokens, config.maxCost), pricing);
    if evidence.None? {
      return;
    }
    var items := evidence.value.items;
    input := input.(facts := FactsOf(evidence.value.facts));
    for i := 0 to |items|
      invariant input == InputFor(namespaceName, spec, evidence, config, pricing).(
                           baseline := BaselineOf(items, i), requirements := RequirementsOf(items, i))
    {
      if items[i].status.Collected? {
        input := input.(baseline := input.baseline + [BaselineEntry(items[i])]);
      }
      if !items[i].required {
        continue;
      }
      input := input.(requirements := input.requirements + [RequirementOf(items[i])]);
    }
  }

  // ----- what the input says of the diagnosis -----

  /** The scalars of an input: the failure, its place, and the limits and prices as configured. */
  lemma InputScalars(
      namespaceName: string, spec: Spec, evidence: Option<Evidence>, config: AgentConfig, pricing: Pricing)
    ensures var input := InputFor(namespaceName, spec, evidence, config, pricing);
            && input.failureType == FailureName(spec.failureType) && input.namespaceName == namespaceName
            && input.container == spec.container && input.pricing == pricing
            && input.budget.maxToolCalls == config.maxToolCalls
            && input.budget.maxTokens == config.maxTokens && input.budget.maxCost == config.maxCost
            && (spec.target.owner.None? ==> input.workload == "Pod/" + spec.target.name)
            && (spec.target.owner.Some? ==>
                  input.workload == spec.target.owner.value.kind + "/" + spec.target.owner.value.name)
            && (evidence.None? ==> input.facts == [] && input.baseline == [] && input.requirements == [])
            && AllowedSet(input.allowedActions) == {
                 "SetMemoryLimit", "SetCPULimit", "SetImage", "SetProbeDelay", "SetProbePort", "AddResourceRequests",
                 "RollbackToRevision", "RestartWorkload", "None"}
  {
    hide FailureName, FactsOf;
    var a := PROPOSABLE_ACTIONS;
    assert a[0] == "SetMemoryLimit" && a[1] == "SetCPULimit" && a[2] == "SetImage" && a[3] == "SetProbeDelay";
    assert a[4] == "SetProbePort" && a[5] == "AddResourceRequests" && a[6] == "RollbackToRevision";
    assert a[7] == "RestartWorkload" && a[8] == "None";
  }

  /** The facts are the container's own: each of its exit code and reasons that is known, and its restarts. */
  lemma FactsMean(facts: ContainerFacts, f: string)
    ensures f in FactsOf(facts) <==>
            || (facts.exitCode.Some? && f == "Previous exit code: " + Integer(facts.exitCode.value))
            || (facts.terminationReason != "" && f == "Previous termination reason: " + facts.terminationReason)
            || (facts.waitingReason != "" && f == "Currently displayed as: " + facts.waitingReason)
            || f == "Restart count: " + Integer(facts.restartCount)
  {
    hide Integer;
  }

  /** The indices of the items that satisfy a condition, in order. */
  function Chosen(items: seq<EvidenceItem>, pick: EvidenceItem -> bool, n: nat): (r: seq<nat>)
    requires n <= |items|
    ensures forall j :: 0 <= j < |r| ==> r[j] < n && pick(items[r[j]])
    ensures forall i, j :: 0 <= i < j < |r| ==> r[i] < r[j]
    ensures forall i :: 0 <= i < n && pick(items[i]) ==> i in r
  {
    if n == 0 then []
    else
      var r := Chosen(items, pick, n - 1);
      if pick(items[n - 1]) then r + [n - 1] else r
  }

  /** Up to the limit an excerpt is the content itself; beyond it, its beginning, marked as cut. */
  predicate ExcerptOf(excerpt: string, content: string) {
    if |content| <= 1500 then excerpt == content
    else |excerpt| > 1500 && excerpt[..1500] == content[..1500] && excerpt[1500..] == "\n[excerpt truncated]"
  }

  predicate EntryOf(b: BaselineItem, item: EvidenceItem) {
    b.id == "B:" + KindName(item.kind) && b.kind == KindName(item.kind) && ExcerptOf(b.excerpt, item.content)
  }

  lemma EntryMeans(item: EvidenceItem)
    ensures EntryOf(BaselineEntry(item), item)
  {
    hide KindName;
    var e := Excerpt(item.content, EXCERPT_LIMIT);
    if |item.content| > EXCERPT_LIMIT {
      assert e[..1500] == item.content[..1500] && e[1500..] == "\n[excerpt truncated]";
    }
  }

  /** The baseline is the collected items in order, each under its kind with an excerpt of its content. */
  lemma {:induction false} BaselineMeans(items: seq<EvidenceItem>, n: nat)
    requires n <= |items|
    ensures var chosen := Chosen(items, (item: EvidenceItem) => item.status.Collected?, n);
            var baseline := BaselineOf(items, n);
            && |baseline| == |chosen|
            && forall j :: 0 <= j < |chosen| ==>
                 EntryOf(baseline[j], items[chosen[j]])
  {
    var pick := (item: EvidenceItem) => item.status.Collected?;
    if n > 0 {
      BaselineMeans(items, n - 1);
      EntryMeans(items[n - 1]);
      hide EntryOf, BaselineEntry;
      var before, chosen := Chosen(items, pick, n - 1), Chosen(items, pick, n);
      var item := items[n - 1];
      assert pick(item) <==> item.status.Collected?;
      assert chosen == if item.status.Collected? then before + [n - 1] else before;
      assert BaselineOf(items, n) ==
             BaselineOf(items, n - 1) + if item.status.Collected? then [BaselineEntry(item)] else [];
      hide Chosen, BaselineOf;
    }
  }

  /** The requirements are the required items in order, each with the tool that reads its kind. */
  lemma {:induction false} RequirementsMean(items: seq<EvidenceItem>, n: nat)
    requires n <= |items|
    ensures var chosen := Chosen(items, (item: EvidenceItem) => item.required, n);
            var rs := RequirementsOf(items, n);
            && |rs| == |chosen|
            && forall j :: 0 <= j < |chosen| ==>
                 var item := items[chosen[j]];
                 && rs[j].kind == KindName(item.kind) && rs[j].tool == ToolFor(item.kind)
                 && rs[j].collected == item.status.Collected? && rs[j].obtainable == !item.status.Unavailable?
                 && rs[j].satisfiedBy == Some(Satisfier(item.kind))
  {
    hide KindName, ToolFor, Satisfier;
    if n > 0 {
      RequirementsMean(items, n - 1);
    }
  }

  // ----- end to end: evidence never blocks a conclusion twice -----

  /** Baseline identifiers never collide with those of an investigation's own reads. */
  lemma {:induction false} BaselineNeverOverwritten(items: seq<EvidenceItem>, n: nat, m: nat, k: nat)
    requires n <= |items| && m <= |BaselineOf(items, n)|
    ensures EvidenceId(k) !in BaselineLedger(BaselineOf(items, n), m)
    decreases m
  {
    if m > 0 {
      BaselineNeverOverwritten(items, n, m - 1, k);
      BaselineIds(items, n, m - 1);
      assert EvidenceId(k)[0] == 'E';
    }
  }

  lemma {:induction false} BaselineIds(items: seq<EvidenceItem>, n: nat, i: nat)
    requires n <= |items| && i < |BaselineOf(items, n)|
    ensures BaselineOf(items, n)[i].id != "" && BaselineOf(items, n)[i].id[0] == 'B'
  {
    hide KindName, Excerpt;
    if i < |BaselineOf(items, n - 1)| {
      BaselineIds(items, n - 1, i);
    }
  }

  /** So the ledger of any run keeps every baseline item under its own kind. */
  lemma LedgerKeepsBaseline(items: seq<EvidenceItem>, trace: seq<Event>)
    ensures var baseline := BaselineOf(items, |items|);
            forall s <- BaselineLedger(baseline, |baseline|) ::
              s in LedgerAfter(baseline, trace)
              && LedgerAfter(baseline, trace)[s] == BaselineLedger(baseline, |baseline|)[s]
  {
    hide BaselineOf, Successes, EvidenceId;
    var baseline := BaselineOf(items, |items|);
    forall k: nat ensures EvidenceId(k) !in BaselineLedger(baseline, |baseline|) {
      BaselineNeverOverwritten(items, |items|, |baseline|, k);
    }
    LedgerExact(baseline, Successes(trace), |Successes(trace)|);
  }

  lemma {:induction false} RequirementsAreSettled(items: seq<EvidenceItem>, n: nat, i: nat)
    requires n <= |items| && i < |RequirementsOf(items, n)|
    requires forall k :: 0 <= k < |items| && items[k].required ==> !items[k].status.NotApplicable?
    ensures RequirementsOf(items, n)[i].collected || !RequirementsOf(items, n)[i].obtainable
  {
    hide KindName, ToolFor, Satisfier;
    if i < |RequirementsOf(items, n - 1)| {
      RequirementsAreSettled(items, n - 1, i);
    }
  }

  /** No requirement of an enriched diagnosis is both uncollected and obtainable, before or after any
      calls, so a submission is rejected only for problems of its own. */
  lemma NeverRejectedForEvidence(input: Input, ev: Evidence, trace: seq<Event>, sub: Submission)
    requires WellGathered(ev) && input.requirements == RequirementsOf(ev.items, |ev.items|)
    ensures var rs := AllAfter(input.requirements, trace);
            MissingObtainable(rs, |rs|) == []
    ensures Accepts(input, trace, sub) <==>
            Problems(sub, LedgerAfter(input.baseline, trace).Keys, AllowedSet(input.allowedActions)) == []
  {
    var rs := AllAfter(input.requirements, trace);
    forall i | 0 <= i < |rs| ensures rs[i].collected || !rs[i].obtainable {
      RequirementsAreSettled(ev.items, |ev.items|, i);
      RequirementState(input.requirements[i], trace);
    }
    MissingCounts(rs, |rs|);
    hide Problems, LedgerAfter;
  }

  /** Some successful call of the trace read this kind. */
  ghost predicate ReadLater(k: EvidenceKind, trace: seq<Event>) {
    exists i :: 0 <= i < |trace| && trace[i].outcome.Read?
                && KindRead(trace[i].call.name, trace[i].call.arguments) == Some(k)
  }

  /** Names of the kinds that no call read either. */
  ghost function StillMissing(kinds: seq<EvidenceKind>, trace: seq<Event>, n: nat): seq<string>
    requires n <= |kinds|
  {
    if n == 0 then []
    else StillMissing(kinds, trace, n - 1)
         + if ReadLater(kinds[n - 1], trace) then [] else [KindName(kinds[n - 1])]
  }

  lemma RequirementAfter(item: EvidenceItem, trace: seq<Event>)
    requires item.required && !item.status.NotApplicable?
    ensures var r := After(RequirementOf(item), trace);
            && r.kind == KindName(item.kind)
            && (r.collected <==> item.status.Collected? || ReadLater(item.kind, trace))
            && (!r.collected ==> !r.obtainable)
  {
    var r := RequirementOf(item);
    RequirementState(r, trace);
    hide KindName, ToolFor, KindRead, After;
    forall i | 0 <= i < |trace|
      ensures Matches(r, trace[i].call) <==> KindRead(trace[i].call.name, trace[i].call.arguments) == Some(item.kind)
    {
      SatisfierAgreesWithCatalogue(item.kind, trace[i].call.name, trace[i].call.arguments);
    }
  }

  /** What an item contributes to the report: its name, if it is required and nothing supplied it. */
  ghost function Absent(item: EvidenceItem, trace: seq<Event>): seq<string> {
    if item.required && !item.status.Collected? && !ReadLater(item.kind, trace) then [KindName(item.kind)] else []
  }

  lemma StillMissingOfItem(items: seq<EvidenceItem>, trace: seq<Event>, n: nat)
    requires 0 < n <= |items|
    ensures StillMissing(RequiredUncollected(items, n), trace, |RequiredUncollected(items, n)|) ==
            StillMissing(RequiredUncollected(items, n - 1), trace, |RequiredUncollected(items, n - 1)|)
            + Absent(items[n - 1], trace)
  {
    hide ReadLater, KindName, StillMissing;
    var missed := RequiredUncollected(items, n - 1);
    StillMissingStep(missed, items[n - 1].kind, trace);
    assert missed + [] == missed;
  }

  lemma MissingOfItem(items: seq<EvidenceItem>, trace: seq<Event>, n: nat)
    requires 0 < n <= |items|
    requires items[n - 1].required ==> !items[n - 1].status.NotApplicable?
    ensures var before := AllAfter(RequirementsOf(items, n - 1), trace);
            var after := AllAfter(RequirementsOf(items, n), trace);
            && MissingUnobtainable(after, |after|) == MissingUnobtainable(before, |before|) + Absent(items[n - 1], trace)
            && MissingObtainable(after, |after|) == MissingObtainable(before, |before|)
  {
    hide ReadLater, KindName, MissingUnobtainable, MissingObtainable, RequirementsOf, AllAfter, RequirementOf, After;
    var before := AllAfter(RequirementsOf(items, n - 1), trace);
    AllAfterStep(items, trace, n);
    if items[n - 1].required {
      RequirementAfter(items[n - 1], trace);
      MissingStep(before, After(RequirementOf(items[n - 1]), trace));
    } else {
      assert before + [] == before;
    }
  }

  lemma NothingMissingYet(items: seq<EvidenceItem>, trace: seq<Event>)
    ensures RequirementsOf(items, 0) == [] && RequiredUncollected(items, 0) == []
    ensures AllAfter([], trace) == [] && StillMissing([], trace, 0) == []
    ensures MissingUnobtainable([], 0) == [] && MissingObtainable([], 0) == []
  {
  }

  /** What a conclusion reports missing is exactly what enrichment missed and no call read. */
  lemma {:induction false} MissingEndToEnd(items: seq<EvidenceItem>, trace: seq<Event>, n: nat)
    requires n <= |items|
    requires forall k :: 0 <= k < |items| && items[k].required ==> !items[k].status.NotApplicable?
    ensures var rs := AllAfter(RequirementsOf(items, n), trace);
            var missed := RequiredUncollected(items, n);
            && MissingUnobtainable(rs, |rs|) == StillMissing(missed, trace, |missed|)
            && MissingObtainable(rs, |rs|) == []
  {
    hide *;
    if n == 0 {
      NothingMissingYet(items, trace);
    } else {
      MissingEndToEnd(items, trace, n - 1);
      MissingOfItem(items, trace, n);
      StillMissingOfItem(items, trace, n);
    }
  }

  lemma AllAfterStep(items: seq<EvidenceItem>, trace: seq<Event>, n: nat)
    requires 0 < n <= |items|
    ensures AllAfter(RequirementsOf(items, n), trace) ==
            AllAfter(RequirementsOf(items, n - 1), trace)
            + if items[n - 1].required then [After(RequirementOf(items[n - 1]), trace)] else []
  {
    hide RequirementOf, After;
  }

  lemma MissingStep(rs: seq<Requirement>, r: Requirement)
    ensures MissingUnobtainable(rs + [r], |rs| + 1) ==
            MissingUnobtainable(rs, |rs|) + if !r.collected && !r.obtainable then [r.kind] else []
    ensures r.collected || !r.obtainable ==> MissingObtainable(rs + [r], |rs| + 1) == MissingObtainable(rs, |rs|)
  {
    MissingSnoc(rs, r, |rs|);
  }

  lemma StillMissingStep(kinds: seq<EvidenceKind>, k: EvidenceKind, trace: seq<Event>)
    ensures StillMissing(kinds + [k], trace, |kinds| + 1) ==
            StillMissing(kinds, trace, |kinds|) + if ReadLater(k, trace) then [] else [KindName(k)]
  {
    hide ReadLater, KindName;
    StillMissingSnoc(kinds, k, trace, |kinds|);
  }

  lemma {:induction false} MissingSnoc(rs: seq<Requirement>, r: Requirement, n: nat)
    requires n <= |rs|
    ensures MissingUnobtainable(rs + [r], n) == MissingUnobtainable(rs, n)
    ensures MissingObtainable(rs + [r], n) == MissingObtainable(rs, n)
  {
    if n > 0 {
      MissingSnoc(rs, r, n - 1);
    }
  }

  lemma {:induction false} StillMissingSnoc(kinds: seq<EvidenceKind>, k: EvidenceKind, trace: seq<Event>, n: nat)
    requires n <= |kinds|
    ensures StillMissing(kinds + [k], trace, n) == StillMissing(kinds, trace, n)
  {
    if n > 0 {
      StillMissingSnoc(kinds, k, trace, n - 1);
    }
  }

  lemma {:induction false} StillMissingEmpty(kinds: seq<EvidenceKind>, trace: seq<Event>, n: nat)
    requires n <= |kinds|
    ensures StillMissing(kinds, trace, n) == [] <==> forall i :: 0 <= i < n ==> ReadLater(kinds[i], trace)
  {
    if n > 0 {
      StillMissingEmpty(kinds, trace, n - 1);
    }
  }

  /** End to end: a concluded investigation of enriched evidence is degraded exactly when some kind
      reported missing at enrichment was not read by a later call, and complete evidence never
      degrades. */
  lemma DegradedEndToEnd(input: Input, ev: Evidence, trace: seq<Event>, f: Findings)
    requires WellGathered(ev) && input.requirements == RequirementsOf(ev.items, |ev.items|)
    requires Concluded(input, trace, f)
    ensures f.missingRequired == StillMissing(ev.missingRequired, trace, |ev.missingRequired|)
    ensures f.degraded <==> exists k <- ev.missingRequired :: !ReadLater(k, trace)
    ensures ev.complete ==> !f.degraded && f.missingRequired == []
  {
    hide RequirementsOf, AllAfter, Accepts, Conclusion, ReadLater;
    MissingEndToEnd(ev.items, trace, |ev.items|);
    StillMissingEmpty(ev.missingRequired, trace, |ev.missingRequired|);
    var hs :| ConcludedWith(input, trace, hs, f);
  }

  // ----- the composed run and what is stored -----

  function Recorded(calls: seq<AuditRecord>): seq<AuditRecord> {
    if |calls| > MAX_RECORDED_CALLS then calls[..MAX_RECORDED_CALLS] else calls
  }

  /** What a read answers when `made` calls were recorded before it and no ceiling is in its way. */
  function Reading(registry: Registry, made: nat, call: ToolCall): Outcome {
    Answer(registry, made + 1, made, call.name, call.arguments)
  }

  /** Every outcome is the registry's own reading at that point, and the audit is of exactly these. */
  ghost predicate AuditedBy(registry: Registry, trace: seq<Event>, calls: seq<AuditRecord>) {
    && |calls| == |trace|
    && forall i :: 0 <= i < |trace| ==> ReadingRecorded(registry, i, trace[i], calls[i])
  }

  ghost predicate ReadingRecorded(registry: Registry, made: nat, e: Event, r: AuditRecord) {
    && e.outcome == Reading(registry, made, e.call)
    && r == Record(e.call.name, e.call.arguments, e.outcome, registry.elapsed(made))
  }

  /** A trace and audit records of its calls, however long each took. */
  ghost predicate AuditOf(trace: seq<Event>, calls: seq<AuditRecord>) {
    && |calls| == |trace|
    && forall i :: 0 <= i < |trace| ==>
         calls[i] == Record(trace[i].call.name, trace[i].call.arguments, trace[i].outcome, calls[i].durationMillis)
  }

  /** Everything outside an investigation that decides it: the model, the cluster and the clock. */
  datatype World = World(script: (nat, seq<Message>) -> Reply, registry: Registry, expired: nat -> bool)

  /** An execution of the loop in this world, on a model asked `base` times before: its conversation, its
      end, and the audit of its reads. */
  ghost predicate ExecutedAs(
      world: World, base: nat, input: Input, f: Findings, err: Option<string>, calls: seq<AuditRecord>,
      t: Transcript, settled: seq<Event>, added: seq<Event>)
  {
    && Conversed(world.script, base, input, settled, t)
    && RunResult(world.script, base, input, world.expired, t, settled, added, f, err)
    && AuditedBy(world.registry, settled + added, calls)
  }

  /** Everything an error-free investigation of this evidence may return: findings reported for some
      calls and usage, and the audit of those calls. What it does return is for Ran to say. */
  ghost predicate Investigated(
      namespaceName: string, spec: Spec, evidence: Option<Evidence>, config: AgentConfig, pricing: Pricing,
      f: Findings, calls: seq<AuditRecord>)
  {
    exists trace, us ::
      AuditOf(trace, calls) && Reported(InputFor(namespaceName, spec, evidence, config, pricing), trace, us, f)
  }

  lemma ExecutionReports(
      world: World, base: nat, input: Input, f: Findings, calls: seq<AuditRecord>, t: Transcript, settled: seq<Event>,
      added: seq<Event>)
    returns (us: seq<Usage>)
    requires ExecutedAs(world, base, input, f, None, calls, t, settled, added)
    ensures AuditOf(settled + added, calls) && |calls| == |settled + added|
    ensures Reported(input, settled + added, us, f)
  {
    hide Reported, Conversed;
    us := Charged(world.script, base, t, f);
    AuditedByIsAudit(world.registry, settled + added, calls);
  }

  lemma AuditedByIsAudit(registry: Registry, trace: seq<Event>, calls: seq<AuditRecord>)
    requires AuditedBy(registry, trace, calls)
    ensures AuditOf(trace, calls)
  {
    forall i | 0 <= i < |trace|
      ensures calls[i] == Record(trace[i].call.name, trace[i].call.arguments, trace[i].outcome, calls[i].durationMillis)
    {
      assert ReadingRecorded(registry, i, trace[i], calls[i]);
    }
  }

  /** The broker's ceiling is a backstop that never fires: under any ceiling at or above the agent's own
      budget every call of an execution is answered alike. Its audit has one record per call the
      findings count, and what is stored is a prefix of it. */
  lemma CeilingIsOnlyABackstop(
      world: World, base: nat, input: Input, f: Findings, err: Option<string>, calls: seq<AuditRecord>,
      t: Transcript, settled: seq<Event>, added: seq<Event>, ceiling: int)
    requires ExecutedAs(world, base, input, f, err, calls, t, settled, added)
    requires ceiling >= input.budget.maxToolCalls
    ensures |calls| == f.toolCalls <= AtLeastZero(input.budget.maxToolCalls)
    ensures var trace := settled + added;
            forall i :: 0 <= i < |trace| ==>
              i < ceiling
              && trace[i].outcome == Answer(world.registry, ceiling, i, trace[i].call.name, trace[i].call.arguments)
    ensures Recorded(calls) <= calls && |Recorded(calls)| == if |calls| <= 30 then |calls| else 30
    ensures input.budget.maxToolCalls <= MAX_RECORDED_CALLS ==> Recorded(calls) == calls
  {
    hide Conversed, RunResult, AuditedBy;
    ReportedCounts(world.script, base, input, world.expired, t, settled, added, f, err);
    CeilingIgnored(world.registry, settled + added, calls, ceiling);
  }

  lemma CeilingIgnored(registry: Registry, trace: seq<Event>, calls: seq<AuditRecord>, ceiling: int)
    requires AuditedBy(registry, trace, calls)
    ensures |calls| == |trace|
    ensures forall i :: 0 <= i < |trace| && i < ceiling ==>
              trace[i].outcome == Answer(registry, ceiling, i, trace[i].call.name, trace[i].call.arguments)
  {
    hide Record;
    forall i | 0 <= i < |trace| && i < ceiling
      ensures trace[i].outcome == Answer(registry, ceiling, i, trace[i].call.name, trace[i].call.arguments)
    {
      assert ReadingRecorded(registry, i, trace[i], calls[i]);
    }
  }

  /** An execution on a model that had already been sent these requests: the model's requests are those
      and then the conversation of this execution. */
  ghost predicate Ran(
      model: ScriptedModel, asked: seq<seq<Message>>, registry: Registry, input: Input, expired: nat -> bool,
      f: Findings, err: Option<string>, calls: seq<AuditRecord>)
    reads model
  {
    exists t, settled, added :: RanAs(model, asked, registry, input, expired, f, err, calls, t, settled, added)
  }

  ghost predicate RanAs(
      model: ScriptedModel, asked: seq<seq<Message>>, registry: Registry, input: Input, expired: nat -> bool,
      f: Findings, err: Option<string>, calls: seq<AuditRecord>, t: Transcript, settled: seq<Event>, added: seq<Event>)
    reads model
  {
    && model.requests == asked + t.sent + (if f.turns == t.Turns() then [] else [t.messages])
    && ExecutedAs(World(model.script, registry, expired), |asked|, input, f, err, calls, t, settled, added)
  }

  /** The error in the reply to the last request, if any was made after the first `base` and that reply
      was an error other than a deadline. */
  function ModelFailure(
      script: (nat, seq<Message>) -> Reply, requests: seq<seq<Message>>, base: nat): Option<string>
  {
    if |requests| <= base then None
    else
      match script(|requests| - 1, requests[|requests| - 1])
      case Errored(reason, false) => Some(reason)
      case _ => None
  }

  /** The investigation the controller runs: input built from the diagnosis, a broker bound just above
      the agent's own budget, and the loop. It fails exactly when the model does. */
  method Investigate(
      namespaceName: string, spec: Spec, evidence: Option<Evidence>, config: AgentConfig, pricing: Pricing,
      model: ScriptedModel, registry: Registry, expired: nat -> bool)
    returns (f: Findings, err: Option<string>, calls: seq<AuditRecord>)
    modifies model
    ensures Ran(model, old(model.requests), registry, InputFor(namespaceName, spec, evidence, config, pricing),
                expired, f, err, calls)
    ensures err == ModelFailure(model.script, model.requests, |old(model.requests)|)
    ensures err.None? ==> Investigated(namespaceName, spec, evidence, config, pricing, f, calls)
    ensures |calls| == f.toolCalls <= AtLeastZero(config.maxToolCalls)
  {
    hide Conversed, InputFor, Reported, RunResult, ModelFailure, Audited, AuditedBy;
    var input := BuildInput(namespaceName, spec, evidence, config, pricing);
    var broker := new Broker.BindTo(registry, config.maxToolCalls + BROKER_HEADROOM);
    var investigator := new Investigator(model, broker);
    ghost var t, settled, added;
    f, err, t, settled, added := investigator.Run(input, expired);
    calls := broker.calls;
    InputBudget(namespaceName, spec, evidence, config, pricing);
    RunFailure(model.script, old(model.requests), input, expired, t, settled, added, f, err);
    ReportedCounts(model.script, |old(model.requests)|, input, expired, t, settled, added, f, err);
    BrokerAudit(broker, settled + added, calls);
    assert RanAs(model, old(model.requests), registry, input, expired, f, err, calls, t, settled, added);
    if err.None? {
      var _ := ExecutionReports(
        World(model.script, registry, expired), |old(model.requests)|, input, f, calls, t, settled, added);
    }
  }

  lemma RunFailure(
      script: (nat, seq<Message>) -> Reply, asked: seq<seq<Message>>, input: Input, expired: nat -> bool, t: Transcript,
      settled: seq<Event>, added: seq<Event>, f: Findings, err: Option<string>)
    requires Conversed(script, |asked|, input, settled, t)
    requires RunResult(script, |asked|, input, expired, t, settled, added, f, err)
    ensures var requests := asked + t.sent + (if f.turns == t.Turns() then [] else [t.messages]);
            err == ModelFailure(script, requests, |asked|)
  {
    hide Reported, Accounted, Unbarred, Barrier, TurnAnswered, InitialContext, ConcludingTurn;
    var n := t.Turns();
    if f.turns == n && n > 0 {
      assert TurnTaken(script, |asked|, input, settled, t, n - 1);
      assert (asked + t.sent)[|asked| + n - 1] == t.sent[n - 1];
    }
  }

  /** Calls that stay below the broker's ceiling are answered as if there were none. */
  lemma BrokerAudit(b: Broker, trace: seq<Event>, now: seq<AuditRecord>)
    requires Audited(b, [], trace, now) && |trace| <= b.maxCalls
    ensures AuditedBy(b.registry, trace, now) && |now| == |trace|
  {
    hide Record;
    var none: seq<AuditRecord> := [];
    forall i | 0 <= i < |trace| ensures ReadingRecorded(b.registry, i, trace[i], now[i]) {
      assert AuditedAs(b, |none| + i, trace[i], now[|none| + i]);
    }
  }

  lemma InputBudget(
      namespaceName: string, spec: Spec, evidence: Option<Evidence>, config: AgentConfig, pricing: Pricing)
    ensures InputFor(namespaceName, spec, evidence, config, pricing).budget ==
            Budget(config.maxToolCalls, config.maxTokens, config.maxCost)
  {
  }

  lemma ReportedCounts(
      script: (nat, seq<Message>) -> Reply, base: nat, input: Input, expired: nat -> bool, t: Transcript,
      settled: seq<Event>, added: seq<Event>, f: Findings, err: Option<string>)
    requires RunResult(script, base, input, expired, t, settled, added, f, err)
    ensures f.toolCalls == |settled + added| <= AtLeastZero(input.budget.maxToolCalls)
    ensures err.None? ==> exists us :: Reported(input, settled + added, us, f)
  {
  }
}
