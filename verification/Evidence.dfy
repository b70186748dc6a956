/** internal/evidence: the requirement matrix, and collection against it. */
module Evidence {
  import opened Wrappers
  import opened Text
  import opened Kinds

  const CONTENT_LIMIT := 8192
  const TRUNCATION_MARKER := "[...truncated, showing the most recent output...]\n"

  predicate EndsWith(s: string, tail: string) {
    |tail| <= |s| && s[|s| - |tail|..] == tail
  }

  /** Content over the limit keeps its end, after a marker. */
  function Truncate(content: string, limit: nat): (r: string)
    ensures |r| <= limit
    ensures if |content| <= limit then r == content else |r| == limit
    ensures |content| > limit > |TRUNCATION_MARKER| ==>
              TRUNCATION_MARKER <= r && EndsWith(content, r[|TRUNCATION_MARKER|..])
  {
    if |content| <= limit then content
    else if limit <= |TRUNCATION_MARKER| then content[..limit]
    else TRUNCATION_MARKER + content[|content| - (limit - |TRUNCATION_MARKER|)..]
  }

  // ----- the requirement matrix -----

  datatype Need = NotNeeded | Opportunistic | Required

  function RequirementFor(f: FailureType, k: EvidenceKind): Need {
    match (f, k)
    case (CrashLoopBackOff, PreviousLogs) => Required
    case (CrashLoopBackOff, Events) => Required
    case (CrashLoopBackOff, WorkloadSpec) => Required
    case (CrashLoopBackOff, RolloutHistory) => Required
    case (CrashLoopBackOff, CurrentLogs) => Opportunistic
    case (CrashLoopBackOff, SiblingPods) => Opportunistic
    case (OOMKilled, PreviousLogs) => Required
    case (OOMKilled, Events) => Required
    case (OOMKilled, WorkloadSpec) => Required
    case (OOMKilled, RolloutHistory) => Required
    case (OOMKilled, ResourceUsage) => Required
    case (OOMKilled, CurrentLogs) => Opportunistic
    case (OOMKilled, SiblingPods) => Opportunistic
    case (ImagePullBackOff, Events) => Required
    case (ImagePullBackOff, WorkloadSpec) => Required
    case (ImagePullBackOff, RolloutHistory) => Opportunistic
    case (CreateContainerConfigError, Events) => Required
    case (CreateContainerConfigError, WorkloadSpec) => Required
    case (CreateContainerConfigError, ConfigReferences) => Required
    case (CreateContainerConfigError, RolloutHistory) => Opportunistic
    case (RunContainerError, Events) => Required
    case (RunContainerError, WorkloadSpec) => Required
    case (RunContainerError, ConfigReferences) => Opportunistic
    case (Unschedulable, Events) => Required
    case (Unschedulable, WorkloadSpec) => Required
    case (Unschedulable, NodeStatus) => Required
    case (Unschedulable, SiblingPods) => Opportunistic
    case (ProbeFailure, CurrentLogs) => Required
    case (ProbeFailure, Events) => Required
    case (ProbeFailure, WorkloadSpec) => Required
    case (ProbeFailure, ServiceEndpoints) => Required
    case (ProbeFailure, PreviousLogs) => Opportunistic
    case (ProbeFailure, RolloutHistory) => Opportunistic
    case (Evicted, Events) => Required
    case (Evicted, WorkloadSpec) => Required
    case (Evicted, NodeStatus) => Required
    case (Evicted, SiblingPods) => Required
    case (Evicted, PreviousLogs) => Opportunistic
    case (Evicted, ResourceUsage) => Opportunistic
    case _ => NotNeeded
  }

  const ALL_KINDS: seq<EvidenceKind> :=
    [PreviousLogs, CurrentLogs, Events, WorkloadSpec, RolloutHistory, ConfigReferences, ServiceEndpoints, NodeStatus,
     SiblingPods, ResourceUsage]

  function NotApplicableReason(f: FailureType, k: EvidenceKind): string {
    if k.PreviousLogs? || k.CurrentLogs? then
      match f
      case ImagePullBackOff => "no image was pulled, so no container ever ran"
      case CreateContainerConfigError => "the container could not be created, so it produced no output"
      case RunContainerError => "the container could not be created, so it produced no output"
      case Unschedulable => "the pod was never placed on a node"
      case _ => "not relevant to this failure type"
    else if k.NodeStatus? then "the failure is not attributable to the host node"
    else "not relevant to this failure type"
  }

  // ----- collected evidence -----

  datatype CollectionStatus = Collected | NotApplicable | Unavailable

  datatype EvidenceItem = EvidenceItem(
    kind: EvidenceKind,
    status: CollectionStatus,
    required: bool,
    reason: string,
    content: string)

  datatype ContainerFacts = ContainerFacts(
    exitCode: Option<int>,
    restartCount: int,
    terminationReason: string,
    waitingReason: string)

  datatype Evidence = Evidence(
    items: seq<EvidenceItem>,
    complete: bool,
    missingRequired: seq<EvidenceKind>,
    facts: ContainerFacts,
    redactedFields: nat)

  /** What reading one kind from the cluster gives: any content, or any error. */
  datatype Gathered = Content(text: string) | GatherError(reason: string)

  /** Everything collection reads: one outcome per kind, and how content is scrubbed. */
  datatype Source = Source(gather: EvidenceKind -> Gathered, redact: string -> (string, nat))

  predicate Usable(g: Gathered) {
    g.Content? && TrimSpace(g.text) != ""
  }

  function ItemFor(f: FailureType, source: Source, k: EvidenceKind): EvidenceItem {
    var need := RequirementFor(f, k);
    var g := source.gather(k);
    if need.NotNeeded? then EvidenceItem(k, NotApplicable, false, NotApplicableReason(f, k), "")
    else if g.GatherError? then EvidenceItem(k, Unavailable, need.Required?, g.reason, "")
    else if !Usable(g) then EvidenceItem(k, Unavailable, need.Required?, "no content returned", "")
    else EvidenceItem(k, Collected, need.Required?, "", Truncate(source.redact(g.text).0, CONTENT_LIMIT))
  }

  /** How much was scrubbed from one kind: only content that is kept is scrubbed. */
  function RedactionsIn(f: FailureType, source: Source, k: EvidenceKind): nat {
    if ItemFor(f, source, k).status.Collected? then source.redact(source.gather(k).text).1 else 0
  }

  function Redactions(f: FailureType, source: Source, n: nat): nat
    requires n <= |ALL_KINDS|
  {
    if n == 0 then 0 else Redactions(f, source, n - 1) + RedactionsIn(f, source, ALL_KINDS[n - 1])
  }

  /** Required kinds that were not collected, in the order of the items. */
  function RequiredUncollected(items: seq<EvidenceItem>, n: nat): seq<EvidenceKind>
    requires n <= |items|
  {
    if n == 0 then []
    else
      var item := items[n - 1];
      RequiredUncollected(items, n - 1) + if item.required && !item.status.Collected? then [item.kind] else []
  }

  lemma {:induction false} RequiredUncollectedPrefix(items: seq<EvidenceItem>, item: EvidenceItem, n: nat)
    requires n <= |items|
    ensures RequiredUncollected(items + [item], n) == RequiredUncollected(items, n)
  {
    if n > 0 {
      RequiredUncollectedPrefix(items, item, n - 1);
    }
  }

  lemma {:induction false} RequiredUncollectedExact(items: seq<EvidenceItem>, n: nat)
    requires n <= |items|
    ensures RequiredUncollected(items, n) == [] <==>
            forall i :: 0 <= i < n ==> items[i].required ==> items[i].status.Collected?
  {
    if n > 0 {
      RequiredUncollectedExact(items, n - 1);
    }
  }

  /** What later stages rely on: a required item was collected or is unavailable, never merely
      skipped, and the summary fields agree with the items. */
  ghost predicate WellGathered(ev: Evidence) {
    && (forall i :: 0 <= i < |ev.items| && ev.items[i].required ==> !ev.items[i].status.NotApplicable?)
    && (forall i, j :: 0 <= i < j < |ev.items| ==> ev.items[i].kind != ev.items[j].kind)
    && ev.missingRequired == RequiredUncollected(ev.items, |ev.items|)
    && (ev.complete <==> ev.missingRequired == [])
  }

  /** The evidence collected for a failure reports every kind of the catalogue, once, in order. */
  ghost predicate CollectedFor(f: FailureType, source: Source, ev: Evidence) {
    && |ev.items| == |ALL_KINDS|
    && (forall i :: 0 <= i < |ALL_KINDS| ==> ev.items[i] == ItemFor(f, source, ALL_KINDS[i]))
    && WellGathered(ev)
  }

  method Collect(f: FailureType, source: Source, facts: ContainerFacts) returns (ev: Evidence)
    ensures CollectedFor(f, source, ev) && ev.facts == facts
    ensures ev.redactedFields == Redactions(f, source, |ALL_KINDS|)
  {
    hide RequirementFor, NotApplicableReason, TrimSpace, RedactionsIn, ItemFor, Truncate;
    var items: seq<EvidenceItem> := [];
    var missing: seq<EvidenceKind> := [];
    var redactions := 0;
    for i := 0 to |ALL_KINDS|
      invariant |items| == i && forall k :: 0 <= k < i ==> items[k] == ItemFor(f, source, ALL_KINDS[k])
      invariant missing == RequiredUncollected(items, i)
      invariant redactions == Redactions(f, source, i)
    {
      var item, count := CollectOne(f, source, ALL_KINDS[i]);
      RequiredUncollectedPrefix(items, item, i);
      if item.required && !item.status.Collected? {
        missing := missing + [item.kind];
      }
      items := items + [item];
      redactions := redactions + count;
    }
    ev := Evidence(items, missing == [], missing, facts, redactions);
    ItemsAreOfTheirKind(f, source, ev);
  }

  method CollectOne(f: FailureType, source: Source, kind: EvidenceKind) returns (item: EvidenceItem, redactions: nat)
    ensures item == ItemFor(f, source, kind) && redactions == RedactionsIn(f, source, kind)
  {
    var requirement := RequirementFor(f, kind);
    redactions := 0;
    if requirement == NotNeeded {
      return EvidenceItem(kind, NotApplicable, false, NotApplicableReason(f, kind), ""), 0;
    }
    item := EvidenceItem(kind, NotApplicable, requirement == Required, "", "");
    var content := source.gather(kind);
    if content.GatherError? {
      item := item.(status := Unavailable, reason := content.reason);
    } else if TrimSpace(content.text) == "" {
      item := item.(status := Unavailable, reason := "no content returned");
    } else {
      var redacted := source.redact(content.text);
      redactions := redacted.1;
      item := item.(status := Collected, content := Truncate(redacted.0, CONTENT_LIMIT));
    }
  }

  function KindIndex(k: EvidenceKind): (i: nat)
    ensures i < |ALL_KINDS|
  {
    match k
    case PreviousLogs => 0
    case CurrentLogs => 1
    case Events => 2
    case WorkloadSpec => 3
    case RolloutHistory => 4
    case ConfigReferences => 5
    case ServiceEndpoints => 6
    case NodeStatus => 7
    case SiblingPods => 8
    case ResourceUsage => 9
  }

  /** The catalogue lists each kind exactly once. */
  lemma CatalogueExact(i: nat, k: EvidenceKind)
    ensures ALL_KINDS[KindIndex(k)] == k
    ensures i < |ALL_KINDS| ==> KindIndex(ALL_KINDS[i]) == i
  {
    var a := ALL_KINDS;
    assert a[0] == PreviousLogs && a[1] == CurrentLogs && a[2] == Events && a[3] == WorkloadSpec;
    assert a[4] == RolloutHistory && a[5] == ConfigReferences && a[6] == ServiceEndpoints && a[7] == NodeStatus;
    assert a[8] == SiblingPods && a[9] == ResourceUsage;
  }

  lemma ItemMeans(f: FailureType, source: Source, k: EvidenceKind)
    ensures var item := ItemFor(f, source, k);
            && item.kind == k
            && (item.required <==> RequirementFor(f, k) == Required)
            && (item.status.NotApplicable? <==> RequirementFor(f, k) == NotNeeded)
            && (item.status.Collected? <==> RequirementFor(f, k) != NotNeeded && Usable(source.gather(k)))
  {
    hide RequirementFor, NotApplicableReason, Truncate, TrimSpace;
  }

  /** What a stored item says: scrubbed content, whole when it fits and otherwise its end; or the error
      that kept it from being read; or that there was nothing to read. */
  lemma ItemSays(f: FailureType, source: Source, k: EvidenceKind)
    ensures var item, g := ItemFor(f, source, k), source.gather(k);
            && (item.status.Collected? ==>
                  g.Content? && item.reason == ""
                  && var scrubbed := source.redact(g.text).0;
                     if |scrubbed| <= 8192 then item.content == scrubbed
                     else |item.content| == 8192 && TRUNCATION_MARKER <= item.content
                          && EndsWith(scrubbed, item.content[|TRUNCATION_MARKER|..]))
            && (!item.status.Collected? ==> item.content == "")
            && (item.status.Unavailable? ==>
                  item.reason == if g.GatherError? then g.reason else "no content returned")
            && (item.status.NotApplicable? ==> item.reason == NotApplicableReason(f, k))
  {
    hide RequirementFor, NotApplicableReason, TrimSpace, Truncate;
    assert |TRUNCATION_MARKER| == 50;
    var g := source.gather(k);
    if Usable(g) {
      assert |Truncate(source.redact(g.text).0, 8192)| <= 8192;
    }
  }

  /** What is scrubbed counts for items that are kept, and for no other. */
  lemma RedactionsOfItem(f: FailureType, source: Source, k: EvidenceKind)
    ensures RedactionsIn(f, source, k) ==
            if RequirementFor(f, k) != NotNeeded && Usable(source.gather(k)) then source.redact(source.gather(k).text).1
            else 0
  {
    ItemMeans(f, source, k);
    hide ItemFor, RequirementFor, Usable;
  }

  lemma OneMoreKind(f: FailureType, source: Source, n: nat)
    requires n < |ALL_KINDS|
    ensures Redactions(f, source, n + 1) == Redactions(f, source, n) + RedactionsIn(f, source, ALL_KINDS[n])
  {
    hide RedactionsIn;
  }

  /** The total counts each kind once. */
  lemma RedactionsAdd(f: FailureType, source: Source)
    ensures var of := (k: EvidenceKind) => RedactionsIn(f, source, k);
            Redactions(f, source, |ALL_KINDS|) ==
            of(PreviousLogs) + of(CurrentLogs) + of(Events) + of(WorkloadSpec) + of(RolloutHistory)
            + of(ConfigReferences) + of(ServiceEndpoints) + of(NodeStatus) + of(SiblingPods) + of(ResourceUsage)
  {
    assert Redactions(f, source, 0) == 0;
    hide Redactions, RedactionsIn;
    var a := ALL_KINDS;
    assert a[0] == PreviousLogs && a[1] == CurrentLogs && a[2] == Events && a[3] == WorkloadSpec;
    assert a[4] == RolloutHistory && a[5] == ConfigReferences && a[6] == ServiceEndpoints && a[7] == NodeStatus;
    assert a[8] == SiblingPods && a[9] == ResourceUsage;
    OneMoreKind(f, source, 0);
    OneMoreKind(f, source, 1);
    OneMoreKind(f, source, 2);
    OneMoreKind(f, source, 3);
    OneMoreKind(f, source, 4);
    OneMoreKind(f, source, 5);
    OneMoreKind(f, source, 6);
    OneMoreKind(f, source, 7);
    OneMoreKind(f, source, 8);
    OneMoreKind(f, source, 9);
  }

  /** Two sources that fail alike, are blank alike and scrub to the same. */
  ghost predicate ScrubAlike(a: Source, b: Source) {
    forall k ::
      var g, h := a.gather(k), b.gather(k);
      && (g.GatherError? || h.GatherError? ==> g == h)
      && (Usable(g) <==> Usable(h))
      && (Usable(g) ==> a.redact(g.text) == b.redact(h.text))
  }

  /** Nothing of the raw text reaches the evidence but through scrubbing. */
  lemma RawTextNeverStored(f: FailureType, a: Source, b: Source, ev: Evidence, ev': Evidence)
    requires ScrubAlike(a, b) && CollectedFor(f, a, ev) && CollectedFor(f, b, ev')
    ensures ev.items == ev'.items && ev.missingRequired == ev'.missingRequired && ev.complete == ev'.complete
    ensures Redactions(f, a, |ALL_KINDS|) == Redactions(f, b, |ALL_KINDS|)
  {
    hide RequirementFor, NotApplicableReason, TrimSpace, Truncate, RequiredUncollected;
    forall k ensures ItemFor(f, a, k) == ItemFor(f, b, k) && RedactionsIn(f, a, k) == RedactionsIn(f, b, k) {
      ScrubbedItem(f, a, b, k);
    }
    RedactionsAlike(f, a, b, |ALL_KINDS|);
  }

  lemma ScrubbedItem(f: FailureType, a: Source, b: Source, k: EvidenceKind)
    requires ScrubAlike(a, b)
    ensures ItemFor(f, a, k) == ItemFor(f, b, k) && RedactionsIn(f, a, k) == RedactionsIn(f, b, k)
  {
    hide RequirementFor, NotApplicableReason, TrimSpace, Truncate;
    assert a.gather(k).GatherError? || b.gather(k).GatherError? ==> a.gather(k) == b.gather(k);
  }

  lemma {:induction false} RedactionsAlike(f: FailureType, a: Source, b: Source, n: nat)
    requires n <= |ALL_KINDS| && forall k :: RedactionsIn(f, a, k) == RedactionsIn(f, b, k)
    ensures Redactions(f, a, n) == Redactions(f, b, n)
  {
    hide RedactionsIn;
    if n > 0 {
      RedactionsAlike(f, a, b, n - 1);
    }
  }

  /** Whether any container of a pod failing this way can have run. */
  predicate NeverRan(f: FailureType) {
    f.ImagePullBackOff? || f.CreateContainerConfigError? || f.RunContainerError? || f.Unschedulable?
  }

  /** Every failure requires its events and its workload. */
  lemma EveryFailureNeeds(f: FailureType)
    ensures RequirementFor(f, Events) == Required && RequirementFor(f, WorkloadSpec) == Required
  {
  }

  /** Where logs cannot exist none are asked for, and the item says why. */
  lemma LogsWhereTheyExist(f: FailureType)
    ensures NeverRan(f) <==> RequirementFor(f, PreviousLogs) == NotNeeded == RequirementFor(f, CurrentLogs)
    ensures NeverRan(f) <==> NotApplicableReason(f, PreviousLogs) != "not relevant to this failure type"
    ensures f.CrashLoopBackOff? || f.OOMKilled? <==> RequirementFor(f, PreviousLogs) == Required
    ensures f.ProbeFailure? <==> RequirementFor(f, CurrentLogs) == Required
  {
  }

  /** Nodes, endpoints, references and usage are read only for what they can cause. */
  lemma CausesAreRead(f: FailureType)
    ensures RequirementFor(f, NodeStatus) == (if f.Unschedulable? || f.Evicted? then Required else NotNeeded)
    ensures RequirementFor(f, ServiceEndpoints) == (if f.ProbeFailure? then Required else NotNeeded)
    ensures RequirementFor(f, ConfigReferences) ==
            (if f.CreateContainerConfigError? then Required else if f.RunContainerError? then Opportunistic else NotNeeded)
    ensures RequirementFor(f, ResourceUsage) ==
            (if f.OOMKilled? then Required else if f.Evicted? then Opportunistic else NotNeeded)
  {
  }

  lemma ItemsAreOfTheirKind(f: FailureType, source: Source, ev: Evidence)
    requires |ev.items| == |ALL_KINDS|
    requires forall i :: 0 <= i < |ALL_KINDS| ==> ev.items[i] == ItemFor(f, source, ALL_KINDS[i])
    ensures forall i :: 0 <= i < |ALL_KINDS| ==>
              ev.items[i].kind == ALL_KINDS[i] && (ev.items[i].required ==> !ev.items[i].status.NotApplicable?)
    ensures forall i, j :: 0 <= i < j < |ALL_KINDS| ==> ev.items[i].kind != ev.items[j].kind
  {
    hide *;
    forall i | 0 <= i < |ALL_KINDS|
      ensures ev.items[i].kind == ALL_KINDS[i] && KindIndex(ev.items[i].kind) == i
      ensures ev.items[i].required ==> !ev.items[i].status.NotApplicable?
    {
      ItemMeans(f, source, ALL_KINDS[i]);
      CatalogueExact(i, PreviousLogs);
    }
  }

  const NO_FACTS := ContainerFacts(None, 0, "", "")

  /** Recorded when the pod disappeared before evidence could be gathered. */
  const WITHOUT_POD := Evidence(
    [EvidenceItem(PreviousLogs, Unavailable, true, "the pod was deleted before evidence could be gathered", "")],
    false, [PreviousLogs], NO_FACTS, 0)

  lemma WithoutPodIsWellGathered()
    ensures WellGathered(WITHOUT_POD) && !WITHOUT_POD.complete
  {
    assert RequiredUncollected(WITHOUT_POD.items, 0) == [];
  }

  /** Complete means every kind the matrix requires gave usable content, and nothing less. */
  lemma CompleteMeans(f: FailureType, source: Source, ev: Evidence)
    requires CollectedFor(f, source, ev)
    ensures ev.complete <==> forall k :: RequirementFor(f, k) == Required ==> Usable(source.gather(k))
  {
    hide RequirementFor, Usable, ItemFor, RequiredUncollected, KindIndex;
    RequiredUncollectedExact(ev.items, |ev.items|);
    forall k ensures ev.items[KindIndex(k)] == ItemFor(f, source, k) {
      CatalogueExact(0, k);
    }
    forall i | 0 <= i < |ALL_KINDS| ensures ev.items[i] == ItemFor(f, source, ALL_KINDS[i]) {
    }
    forall k ensures ItemFor(f, source, k).required <==> RequirementFor(f, k) == Required
             ensures RequirementFor(f, k) == Required ==>
                       (ItemFor(f, source, k).status.Collected? <==> Usable(source.gather(k)))
    {
      ItemMeans(f, source, k);
    }
  }
}
