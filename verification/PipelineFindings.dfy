/** Whether the findings on a diagnosis belong to the evidence stored beside them, and what they then
    tell its reader. */
module PipelineFindings {
  import opened Wrappers
  import opened Kinds
  import opened Conversation
  import opened Evidence
  import opened Validation
  import opened Tools
  import opened Investigation
  import opened Api
  import opened InvestigatorController
  import opened Pipeline
  import opened PipelineRuns

  /** The record and hypotheses on this version came out of an investigation of its own evidence. */
  ghost predicate OwnFindings(o: Object) {
    o.status.investigation.Some? && Derived(o, o.status.investigation.value, o.status.hypotheses)
  }

  // ----- findings and evidence of one object -----

  /** What an investigation produced depends on the version it read only through these. */
  lemma DerivedFromSameEvidence(v: Object, w: Object, record: InvestigationRecord, hypotheses: seq<Hypothesis>)
    requires Derived(v, record, hypotheses)
    requires v.key == w.key && v.spec == w.spec && v.status.evidence == w.status.evidence
    ensures Derived(w, record, hypotheses)
  {
    hide Investigated, RecordOf;
    var config, pricing, f, calls :| DerivedBy(v, record, hypotheses, config, pricing, f, calls);
    assert DerivedBy(w, record, hypotheses, config, pricing, f, calls);
  }

  lemma OriginKeepsEvidence(s: State, o: Object)
    requires Inv(s) && o in s.history && o.status.phase.Hypothesized?
    ensures OriginOK(s, o)
    ensures s.origins[o.uid].uid == o.uid ==>
              s.origins[o.uid].spec == o.spec && s.origins[o.uid].status.evidence == o.status.evidence
  {
    hide StatusOK, ObjectsOK, WorkersOK, Derived;
    assert OriginOK(s, o);
    var origin := s.origins[o.uid];
    StoredStatusOK(s, origin);
    if origin.uid == o.uid {
      assert SameObject(origin, o) && SameObject(o, origin);
      EnrichedHasEvidence(origin.status, s.now);
    }
  }

  lemma EnrichedHasEvidence(status: Status, now: int)
    requires StatusOK(status, now)
    ensures status.phase.Enriched? || status.phase.Hypothesized? ==>
              status.evidence.Some? && WellGathered(status.evidence.value)
  {
  }

  /** Findings were computed from exactly the evidence stored with them, however stale the first read
      was, as long as the version that was read is one of the same object. */
  lemma FindingsMatchEvidence(
      hash: string -> string, states: seq<State>, actions: seq<Step>, n: nat, o: Object)
    requires Run(hash, states, actions) && n < |states|
    requires o in states[n].history && o.status.phase.Hypothesized?
    ensures OriginOK(states[n], o)
    ensures states[n].origins[o.uid].uid == o.uid ==>
              states[n].origins[o.uid].status.evidence == o.status.evidence && OwnFindings(o)
  {
    RunKeepsInv(hash, states, actions, n);
    hide Inv, Derived, Run;
    var s := states[n];
    OriginKeepsEvidence(s, o);
    if s.origins[o.uid].uid == o.uid {
      DerivedFromSameEvidence(s.origins[o.uid], o, o.status.investigation.value, o.status.hypotheses);
    }
  }

  // ----- a name that is never deleted has one object -----

  ghost predicate Single(s: State, key: Key) {
    forall v <- s.history :: v.key == key ==> key in s.objects && s.objects[key].uid == v.uid
  }

  lemma StepKeepsSingle(s: State, a: Step, key: Key)
    requires Inv(s) && Enabled(s, a) && Single(s, key) && a != Delete(key)
    ensures Single(Next(s, a), key)
  {
    hide Inv, Next, Enabled, Unwritten, Writes, Single;
    StepShape(s, a);
    ShapeKeepsSingle(s, a, Next(s, a), key);
  }

  lemma ShapeKeepsSingle(s: State, a: Step, t: State, key: Key)
    requires Unwritten(s, a, t) || exists o :: Writes(s, a, t, o)
    requires Single(s, key) && a != Delete(key)
    ensures Single(t, key)
  {
    hide Advances, Stage, WorkerAt;
  }

  lemma {:induction false} RunKeepsSingle(
      hash: string -> string, states: seq<State>, actions: seq<Step>, n: nat, key: Key)
    requires Run(hash, states, actions) && n < |states|
    requires forall i :: 0 <= i < n ==> actions[i] != Delete(key)
    ensures Single(states[n], key)
  {
    hide Inv, Enabled, Next;
    if n > 0 {
      RunKeepsSingle(hash, states, actions, n - 1, key);
      RunKeepsInv(hash, states, actions, n - 1);
      assert StepOf(hash, states[n - 1], actions[n - 1], states[n]);
      hide Single;
      StepKeepsSingle(states[n - 1], actions[n - 1], key);
    }
  }

  /** In any run that never deletes the name, through every race, conflict, stale read and crash, the
      findings on a diagnosis are those of the evidence on it. */
  lemma FindingsMatchUnlessDeleted(
      hash: string -> string, states: seq<State>, actions: seq<Step>, n: nat, o: Object)
    requires Run(hash, states, actions) && n < |states|
    requires forall i :: 0 <= i < n ==> actions[i] != Delete(o.key)
    requires o in states[n].history && o.status.phase.Hypothesized?
    ensures OriginOK(states[n], o) && OwnFindings(o)
    ensures states[n].origins[o.uid].uid == o.uid && states[n].origins[o.uid].status.evidence == o.status.evidence
  {
    RunKeepsSingle(hash, states, actions, n, o.key);
    FindingsMatchEvidence(hash, states, actions, n, o);
    hide Run, Derived, OwnFindings;
    var origin := states[n].origins[o.uid];
    assert origin.key == o.key;
  }

  // ----- what stored findings tell their reader -----

  function SuccessCount(calls: seq<AuditRecord>, n: nat): nat
    requires n <= |calls|
  {
    if n == 0 then 0 else SuccessCount(calls, n - 1) + if calls[n - 1].error.None? then 1 else 0
  }

  lemma {:induction false} SuccessesAreRecorded(trace: seq<Event>, calls: seq<AuditRecord>)
    requires AuditOf(trace, calls)
    ensures |Successes(trace)| == SuccessCount(calls, |calls|)
    decreases |trace|
  {
    if trace != [] {
      var init, last := trace[..|trace| - 1], |trace| - 1;
      assert calls[last] == Record(trace[last].call.name, trace[last].call.arguments, trace[last].outcome,
                                   calls[last].durationMillis);
      SuccessesAreRecorded(init, calls[..last]);
      SuccessCountOfPrefix(calls, last, last);
    }
  }

  lemma {:induction false} SuccessCountOfPrefix(calls: seq<AuditRecord>, m: nat, n: nat)
    requires n <= m <= |calls|
    ensures SuccessCount(calls[..m], n) == SuccessCount(calls, n)
  {
    if n > 0 {
      SuccessCountOfPrefix(calls, m, n - 1);
    }
  }

  /** A citation names an item collected with the evidence, or one of the successful calls of a trail. */
  ghost predicate StoredResolves(ev: Evidence, calls: seq<AuditRecord>, c: string) {
    || (exists i :: 0 <= i < |ev.items| && ev.items[i].status.Collected? && c == "B:" + KindName(ev.items[i].kind))
    || exists k :: 1 <= k <= SuccessCount(calls, |calls|) && c == EvidenceId(k)
  }

  /** A citation names a successful call that the stored trail no longer holds. */
  ghost predicate CutOff(calls: seq<AuditRecord>, c: string) {
    exists k :: SuccessCount(Recorded(calls), |Recorded(calls)|) < k <= SuccessCount(calls, |calls|)
                && c == EvidenceId(k)
  }

  lemma {:induction false} BaselineItems(items: seq<EvidenceItem>, n: nat, b: BaselineItem)
    requires n <= |items|
    ensures b in BaselineOf(items, n) <==>
            exists i :: 0 <= i < n && items[i].status.Collected? && b == BaselineEntry(items[i])
  {
    hide BaselineEntry;
    if n > 0 {
      BaselineItems(items, n - 1, b);
    }
  }

  lemma ResolvesInTrail(
      input: Input, ev: Evidence, trace: seq<Event>, calls: seq<AuditRecord>, c: string)
    requires input.baseline == BaselineOf(ev.items, |ev.items|) && AuditOf(trace, calls) && Resolves(input, trace, c)
    ensures StoredResolves(ev, calls, c)
  {
    SuccessesAreRecorded(trace, calls);
    hide AuditOf, BaselineOf, EvidenceId, KindName, Excerpt, SuccessCount, Successes;
    if b :| b in input.baseline && b.id == c {
      BaselineItems(ev.items, |ev.items|, b);
      var i :| 0 <= i < |ev.items| && ev.items[i].status.Collected? && b == BaselineEntry(ev.items[i]);
    }
  }

  lemma BaselineIsNoRead(k: EvidenceKind, n: nat)
    ensures "B:" + KindName(k) != EvidenceId(n)
  {
    assert ("B:" + KindName(k))[0] == 'B' && EvidenceId(n)[0] == 'E';
  }

  /** A citation that resolves in the whole trail resolves in what is stored of it unless it names a
      call that was cut off. */
  lemma StoredUnlessCutOff(ev: Evidence, calls: seq<AuditRecord>, c: string)
    requires StoredResolves(ev, calls, c)
    ensures StoredResolves(ev, Recorded(calls), c) <==> !CutOff(calls, c)
  {
    hide EvidenceId, KindName, SuccessCount;
    if CutOff(calls, c) {
      var k :| SuccessCount(Recorded(calls), |Recorded(calls)|) < k <= SuccessCount(calls, |calls|)
               && c == EvidenceId(k);
      forall i | 0 <= i < |ev.items| ensures c != "B:" + KindName(ev.items[i].kind) {
        BaselineIsNoRead(ev.items[i].kind, k);
      }
      forall j: nat | j < k ensures c != EvidenceId(j) {
        EvidenceIdInjective(j, k);
      }
    }
  }

  /** A trail of at most thirty calls is stored whole. */
  lemma ShortTrailIsWhole(calls: seq<AuditRecord>, c: string)
    ensures |calls| <= MAX_RECORDED_CALLS ==> Recorded(calls) == calls && !CutOff(calls, c)
  {
    hide SuccessCount;
  }

  /** A concluded investigation of evidence, as its record shows it. */
  lemma InvestigatedMeans(
      namespaceName: string, spec: Spec, ev: Evidence, config: AgentConfig, pricing: Pricing, f: Findings,
      calls: seq<AuditRecord>)
    requires WellGathered(ev) && Investigated(namespaceName, spec, Some(ev), config, pricing, f, calls)
    ensures |f.hypotheses| <= MAX_HYPOTHESES && (f.budgetExhausted <==> f.hypotheses == [])
    ensures f.degraded ==> !f.budgetExhausted && !ev.complete
                           && forall h <- f.hypotheses :: h.confidence <= DEGRADED_CONFIDENCE_CAP
    ensures forall h <- f.hypotheses, c <- h.citations :: StoredResolves(ev, calls, c)
    ensures |calls| == f.toolCalls <= AtLeastZero(config.maxToolCalls)
  {
    var trace, us :| AuditOf(trace, calls)
                     && Reported(InputFor(namespaceName, spec, Some(ev), config, pricing), trace, us, f);
    var input := InputFor(namespaceName, spec, Some(ev), config, pricing);
    InputOfEvidence(namespaceName, spec, ev, config, pricing);
    InputBudget(namespaceName, spec, Some(ev), config, pricing);
    ConcludedXorExhausted(input, trace, us, f);
    hide InputFor, WellGathered, Concluded, Exhausted, AuditOf, StoredResolves, Resolves;
    if Concluded(input, trace, f) {
      DegradedEndToEnd(input, ev, trace, f);
      DegradedMeans(input, trace, f);
      CitationsResolve(input, trace, f);
      forall h <- f.hypotheses, c <- h.citations ensures StoredResolves(ev, calls, c) {
        ResolvesInTrail(input, ev, trace, calls, c);
      }
    } else {
      ExhaustedIsEmpty(input, f);
    }
  }

  lemma ExhaustedIsEmpty(input: Input, f: Findings)
    requires Exhausted(input, f)
    ensures f.hypotheses == [] && !f.degraded && f.budgetExhausted
  {
  }

  lemma InputOfEvidence(namespaceName: string, spec: Spec, ev: Evidence, config: AgentConfig, pricing: Pricing)
    ensures var input := InputFor(namespaceName, spec, Some(ev), config, pricing);
            && input.requirements == RequirementsOf(ev.items, |ev.items|)
            && input.baseline == BaselineOf(ev.items, |ev.items|)
  {
  }

  // ----- what a stored record says of the run -----

  /** The recorded calls are the first thirty made, in order. */
  ghost predicate CallsStored(r: InvestigationRecord, trace: seq<Event>) {
    && |r.toolCalls| == (if |trace| <= 30 then |trace| else 30)
    && forall i :: 0 <= i < |r.toolCalls| ==>
         r.toolCalls[i].tool == trace[i].call.name && (r.toolCalls[i].error.None? <==> trace[i].outcome.Read?)
  }

  /** The usage charged: tokens exactly, the cost rounded down by less than two units a turn or nothing
      without a price, and the turns answered, or one more that was not. */
  ghost predicate UsageStored(r: InvestigationRecord, pricing: Pricing, us: seq<Usage>) {
    && r.tokensUsed == InputTokens(us, |us|) + OutputTokens(us, |us|)
    && |us| <= r.turns <= |us| + 1
    && (pricing.inputRate <= 0 && pricing.outputRate <= 0 ==> r.cost == 0)
    && (pricing.inputRate > 0 || pricing.outputRate > 0 ==>
          var exact := InputTokens(us, |us|) * pricing.inputRate + OutputTokens(us, |us|) * pricing.outputRate;
          -2 * |us| * 999_999 <= exact - 1_000_000 * r.cost <= 2 * |us| * 999_999)
  }

  /** Why the run stopped: a conclusion exactly when there are hypotheses, and otherwise a limit, which the
      counters show to have been reached where they can. */
  ghost predicate StopStored(r: InvestigationRecord, hypotheses: seq<Hypothesis>, config: AgentConfig) {
    && (r.stopReason == "concluded" <==> hypotheses != [])
    && (hypotheses == [] ==>
          || r.stopReason == "wall clock budget exhausted"
          || (r.stopReason == "token budget exhausted" && 0 < config.maxTokens <= r.tokensUsed)
          || (r.stopReason == "cost budget exhausted" && 0 < config.maxCost <= r.cost)
          || (r.stopReason == "turn limit reached without a valid conclusion" && r.turns >= config.maxToolCalls + 6))
  }

  /** The hypotheses are those of one submission, in order, and lowered when evidence was missing: which is
      when some kind missing at enrichment was not read by any call. */
  ghost predicate ConclusionStored(
      r: InvestigationRecord, hypotheses: seq<Hypothesis>, ev: Evidence, trace: seq<Event>)
  {
    && (r.degraded <==> hypotheses != [] && exists k <- ev.missingRequired :: !ReadLater(k, trace))
    && (hypotheses != [] ==> OfOneSubmission(hypotheses, if r.degraded then 70 else 100))
  }

  ghost predicate OfOneSubmission(hypotheses: seq<Hypothesis>, ceiling: int) {
    exists hs, p :: Presented(hypotheses, hs, p, ceiling)
  }

  lemma CallsAreStored(r: InvestigationRecord, trace: seq<Event>, calls: seq<AuditRecord>)
    requires AuditOf(trace, calls) && r.toolCalls == Recorded(calls)
    ensures CallsStored(r, trace)
  {
    forall i | 0 <= i < |r.toolCalls|
      ensures r.toolCalls[i].tool == trace[i].call.name && (r.toolCalls[i].error.None? <==> trace[i].outcome.Read?)
    {
      assert calls[i] == Record(trace[i].call.name, trace[i].call.arguments, trace[i].outcome, calls[i].durationMillis);
    }
  }

  lemma UsageIsStored(r: InvestigationRecord, input: Input, trace: seq<Event>, us: seq<Usage>, f: Findings)
    requires Reported(input, trace, us, f) && r.tokensUsed == f.tokens && r.cost == f.cost && r.turns == f.turns
    ensures UsageStored(r, input.pricing, us)
  {
    TotalsAdd(input.pricing, us, |us|);
    CostError(input.pricing, us, |us|);
    hide Concluded, Exhausted, TokenTotal, CostTotal, ExactTotal, InputTokens, OutputTokens;
  }

  lemma StopIsStored(
      r: InvestigationRecord, config: AgentConfig, input: Input, trace: seq<Event>, us: seq<Usage>, f: Findings)
    requires Reported(input, trace, us, f) && r.stopReason == f.stopReason
    requires r.tokensUsed == f.tokens && r.cost == f.cost && r.turns == f.turns
    requires input.budget == Budget(config.maxToolCalls, config.maxTokens, config.maxCost)
    ensures StopStored(r, f.hypotheses, config)
  {
    ConcludedXorExhausted(input, trace, us, f);
    ReasonsDiffer();
    hide Accounted, WithinLimits, OverrunByLastTurnOnly, Accepts, Conclusion, Missing, AllAfter;
  }

  lemma ReasonsDiffer()
    ensures STOP_CONCLUDED !in {STOP_CLOCK, STOP_TOKENS, STOP_COST, STOP_TURNS}
  {
    assert |STOP_CONCLUDED| == 9 && |STOP_CLOCK| == 27 && |STOP_TOKENS| == 22 && |STOP_COST| == 21 && |STOP_TURNS| == 45;
  }

  lemma ConclusionIsStored(
      r: InvestigationRecord, ev: Evidence, input: Input, trace: seq<Event>, us: seq<Usage>, f: Findings)
    requires WellGathered(ev) && input.requirements == RequirementsOf(ev.items, |ev.items|)
    requires Reported(input, trace, us, f) && r.degraded == f.degraded
    ensures ConclusionStored(r, f.hypotheses, ev, trace)
  {
    ConcludedXorExhausted(input, trace, us, f);
    hide WellGathered, RequirementsOf, Reported, ReadLater, OfOneSubmission, Concluded, Exhausted;
    if Concluded(input, trace, f) {
      DegradedEndToEnd(input, ev, trace, f);
      ConclusionIsOfOneSubmission(input, trace, f);
    } else {
      ExhaustedIsEmpty(input, f);
    }
  }

  lemma ConclusionIsOfOneSubmission(input: Input, trace: seq<Event>, f: Findings)
    requires Concluded(input, trace, f)
    ensures OfOneSubmission(f.hypotheses, if f.degraded then 70 else 100)
  {
    hide ConcludedWith, Presented;
    var hs :| ConcludedWith(input, trace, hs, f);
    var p := ConclusionPresents(input, trace, hs, f);
  }

  /** What the record of a finished diagnosis says, against the calls made and the usage charged. */
  lemma StoredRecordMeans(
      o: Object, now: int, config: AgentConfig, pricing: Pricing, f: Findings, calls: seq<AuditRecord>)
    returns (trace: seq<Event>, us: seq<Usage>)
    requires StatusOK(o.status, now) && o.status.phase.Hypothesized?
    requires DerivedBy(o, o.status.investigation.value, o.status.hypotheses, config, pricing, f, calls)
    ensures o.status.evidence.Some? && RecordTells(o, config, pricing, trace, us)
  {
    EnrichedHasEvidence(o.status, now);
    var r, ev := o.status.investigation.value, o.status.evidence.value;
    var input := InputFor(o.key.namespaceName, o.spec, Some(ev), config, pricing);
    trace, us :| AuditOf(trace, calls) && Reported(input, trace, us, f);
    InputOfEvidence(o.key.namespaceName, o.spec, ev, config, pricing);
    InputScalars(o.key.namespaceName, o.spec, Some(ev), config, pricing);
    hide StatusOK, WellGathered, InputFor, AuditOf, Reported, CallsStored, UsageStored, StopStored, ConclusionStored;
    CallsAreStored(r, trace, calls);
    UsageIsStored(r, input, trace, us, f);
    StopIsStored(r, config, input, trace, us, f);
    ConclusionIsStored(r, ev, input, trace, us, f);
  }

  ghost predicate RecordTells(o: Object, config: AgentConfig, pricing: Pricing, trace: seq<Event>, us: seq<Usage>)
    requires o.status.investigation.Some? && o.status.evidence.Some?
  {
    var r, hs := o.status.investigation.value, o.status.hypotheses;
    CallsStored(r, trace) && UsageStored(r, pricing, us) && StopStored(r, hs, config)
    && ConclusionStored(r, hs, o.status.evidence.value, trace)
  }

  /** What a reader of a finished diagnosis can rely on: an empty list of hypotheses means exactly that
      a budget ended the investigation; complete evidence never yields degraded findings, and degraded
      findings are capped; while the stored trail is not full every citation leads to a collected item or
      to a stored call; and the calls, the usage, the reason for stopping and the conclusion recorded are
      those of one run. */
  lemma StoredFindingsMean(o: Object, now: int)
    requires StatusOK(o.status, now) && o.status.phase.Hypothesized? && OwnFindings(o)
    ensures o.status.evidence.Some?
    ensures var r, hs, ev := o.status.investigation.value, o.status.hypotheses, o.status.evidence.value;
            && |hs| <= MAX_HYPOTHESES && (r.budgetExhausted <==> hs == [])
            && (r.degraded ==> !r.budgetExhausted && !ev.complete
                               && forall h <- hs :: h.confidence <= DEGRADED_CONFIDENCE_CAP)
            && |r.toolCalls| <= MAX_RECORDED_CALLS
            && (|r.toolCalls| < MAX_RECORDED_CALLS ==>
                  forall h <- hs, c <- h.citations :: StoredResolves(ev, r.toolCalls, c))
    ensures exists config, pricing, trace, us :: RecordTells(o, config, pricing, trace, us)
  {
    EnrichedHasEvidence(o.status, now);
    hide RecordTells, StatusOK, WellGathered, Investigated, StoredResolves, CutOff;
    var r, hs := o.status.investigation.value, o.status.hypotheses;
    var config, pricing, f, calls :| DerivedBy(o, r, hs, config, pricing, f, calls);
    InvestigatedMeans(o.key.namespaceName, o.spec, o.status.evidence.value, config, pricing, f, calls);
    if |r.toolCalls| < MAX_RECORDED_CALLS {
      ShortTrailIsWhole(calls, "");
    }
    var trace, us := StoredRecordMeans(o, now, config, pricing, f, calls);
  }

  /** Which citations of stored findings lead to what is stored: exactly those that do not name a
      successful call beyond the thirty that are kept, so all of them under a policy of at most thirty
      calls. */
  lemma CitationsOnRecord(
      o: Object, now: int, config: AgentConfig, pricing: Pricing, f: Findings, calls: seq<AuditRecord>,
      h: Hypothesis, c: string)
    requires StatusOK(o.status, now) && o.status.phase.Hypothesized?
    requires DerivedBy(o, o.status.investigation.value, o.status.hypotheses, config, pricing, f, calls)
    requires h in o.status.hypotheses && c in h.citations
    ensures o.status.evidence.Some?
    ensures StoredResolves(o.status.evidence.value, o.status.investigation.value.toolCalls, c) <==> !CutOff(calls, c)
    ensures config.maxToolCalls <= MAX_RECORDED_CALLS ==> !CutOff(calls, c)
  {
    EnrichedHasEvidence(o.status, now);
    hide StatusOK, WellGathered, Investigated, StoredResolves, CutOff;
    InvestigatedMeans(o.key.namespaceName, o.spec, o.status.evidence.value, config, pricing, f, calls);
    StoredUnlessCutOff(o.status.evidence.value, calls, c);
    ShortTrailIsWhole(calls, c);
  }
}
