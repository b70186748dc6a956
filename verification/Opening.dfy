/** The message that opens an investigation, counted by the closing tags in it: one for each block of
    baseline evidence, and none besides. */
module Opening {
  import opened Wrappers
  import opened Text
  import opened Kinds
  import opened Evidence
  import opened Prompt
  import opened Investigation
  import opened Agent
  import opened Catalog
  import opened Blocks
  import opened Api
  import opened InvestigatorController

  function Tags(s: string): nat {
    Count(s, CLOSING)
  }

  predicate Separates(c: char) {
    c == '\n' || c == ' ' || c == '.' || c == ','
  }

  lemma TagFreeThen(a: string, c: char, b: string)
    requires !Contains(a, CLOSING) && Separates(c)
    ensures Tags(a + ([c] + b)) == Tags(b)
  {
    CountNone(a, CLOSING);
    CountAround(CLOSING, a, c, b);
  }

  lemma PlainThen(a: string, b: string)
    requires '<' !in a
    ensures Tags(a + b) == Tags(b)
  {
    CountAfter(CLOSING, a, b);
  }

  ghost predicate TagFree(texts: seq<string>) {
    forall i :: 0 <= i < |texts| ==> !Contains(texts[i], CLOSING)
  }

  lemma {:induction false} TagFreeLines(texts: seq<string>, rest: string)
    requires TagFree(texts)
    ensures Tags(Lines(texts, rest)) == Tags(rest)
  {
    hide Count;
    if texts != [] {
      TagFreeLines(texts[1..], rest);
      TagFreeThen(texts[0], '\n', Lines(texts[1..], rest));
    }
  }

  lemma {:induction false} TagFreeList(texts: seq<string>, rest: string)
    requires TagFree(texts)
    ensures Tags(Join(texts, ", ") + (['.'] + rest)) == Tags(rest)
  {
    hide Count;
    var tail := ['.'] + rest;
    if texts == [] {
      TagFreeThen("", '.', rest);
    } else if |texts| == 1 {
      TagFreeThen(texts[0], '.', rest);
    } else {
      var others := Join(texts[1..], ", ");
      TagFreeList(texts[1..], rest);
      PlainThen(" ", others + tail);
      TagFreeThen(texts[0], ',', " " + (others + tail));
      assert Join(texts, ", ") + tail == texts[0] + ([','] + (" " + (others + tail)));
    }
  }

  lemma BlockHasOneTag(id: string, source: string, content: string)
    requires !Contains(id, CLOSING) && !Contains(source, CLOSING)
    ensures Tags(WrapEvidence(id, source, content)) == 1
  {
    var w := WrapEvidence(id, source, content);
    WrappedBlockEndsOnce(id, source, content);
    hide WrapEvidence, Contains;
    assert OccursAt(CLOSING, w, |w| - 11);
    CountOne(w, CLOSING, |w| - 11);
  }

  ghost predicate PlainItems(items: seq<BaselineItem>) {
    forall i :: 0 <= i < |items| ==> !Contains(items[i].id, CLOSING) && !Contains(items[i].kind, CLOSING)
  }

  lemma {:induction false} OneTagPerBlock(items: seq<BaselineItem>, rest: string)
    requires PlainItems(items)
    ensures Tags(BaselineText(items, rest)) == |items| + Tags(rest)
  {
    hide Count, WrapEvidence, Contains;
    if items != [] {
      var block := WrapEvidence(items[0].id, items[0].kind, items[0].excerpt);
      OneTagPerBlock(items[1..], rest);
      BlockHasOneTag(items[0].id, items[0].kind, items[0].excerpt);
      CountAround(CLOSING, block, '\n', BaselineText(items[1..], rest));
    }
  }

  lemma UnobtainableHasNoTag(input: Input)
    requires TagFree(MissingUnobtainable(input.requirements, |input.requirements|))
    ensures Tags(Unobtainable(input)) == 0
  {
    hide Count, MissingUnobtainable, Join;
    var kinds := MissingUnobtainable(input.requirements, |input.requirements|);
    if kinds != [] {
      AdviceHasNoTag();
      TagFreeList(kinds, Advice());
      UnobtainableLead(Join(kinds, ", ") + (['.'] + Advice()));
    }
    NoTags();
  }

  lemma UnobtainableLead(rest: string)
    ensures Tags("\nRequired evidence that cannot be " + ("obtained in this cluster: " + rest)) == Tags(rest)
  {
    hide Count;
    PlainThen("obtained in this cluster: ", rest);
    PlainThen("\nRequired evidence that cannot be ", "obtained in this cluster: " + rest);
  }

  lemma NoTags()
    ensures Tags("") == 0
  {
  }

  lemma AdviceHasNoTag()
    ensures Tags(Advice()) == 0
  {
    hide Count;
    var end := "values it would have provided.\n";
    AdviceEndHasNoTag();
    PlainThen(" Reason without it, and do not invent ", end);
  }

  lemma AdviceEndHasNoTag()
    ensures Tags("values it would have provided.\n") == 0
  {
    var end := "values it would have provided.\n";
    NoTagWithoutAngle(end);
    CountNone(end, CLOSING);
  }

  lemma HeaderHasNoTag(rest: string)
    ensures Tags(Header(rest)) == Tags(rest)
  {
    hide Count, HeaderEnd;
    HeaderEndHasNoTag(rest);
    PlainThen("this investigation began. ", HeaderEnd(rest));
    PlainThen("\nBaseline evidence, gathered before ", "this investigation began. " + HeaderEnd(rest));
  }

  lemma HeaderEndHasNoTag(rest: string)
    ensures Tags(HeaderEnd(rest)) == Tags(rest)
  {
    hide Count;
    var e := "for the full content.\n\n" + rest;
    PlainThen("for the full content.\n\n", rest);
    PlainThen("call the corresponding tool ", e);
    PlainThen("Excerpts may be truncated; ", "call the corresponding tool " + e);
  }

  /** What the rest of the message is made of holds no tag of its own. */
  ghost predicate Untagged(input: Input) {
    && !Contains(input.failureType, CLOSING) && !Contains(input.workload, CLOSING)
    && !Contains(input.namespaceName, CLOSING) && !Contains(input.container, CLOSING)
    && TagFree(input.facts)
    && TagFree(MissingUnobtainable(input.requirements, |input.requirements|))
  }

  /** The opening message closes exactly as many blocks as it has baseline items, whatever their
      excerpts hold. */
  lemma OneTagPerBaselineItem(input: Input)
    requires Untagged(input) && PlainItems(input.baseline)
    ensures Tags(InitialContext(input)) == |input.baseline|
  {
    hide Count, Contains, MissingUnobtainable, BaselineText, Unobtainable, Lines, Join, Header;
    var evidence := BaselineText(input.baseline, Unobtainable(input));
    UnobtainableHasNoTag(input);
    OneTagPerBlock(input.baseline, Unobtainable(input));
    HeaderHasNoTag(evidence);
    TagFreeLines(input.facts, Header(evidence));
    ContainerLine(input.container, Lines(input.facts, Header(evidence)));
    TagFreeThen(input.namespaceName, '\n', Known(input));
    var place := "in namespace " + Line(input.namespaceName, Known(input));
    PlainThen("in namespace ", Line(input.namespaceName, Known(input)));
    TagFreeThen(input.workload, ' ', place);
    PlainThen("Workload: ", input.workload + ([' '] + place));
    TagFreeThen(input.failureType, '\n', WorkloadLine(input));
    PlainThen("Failure type: ", Line(input.failureType, WorkloadLine(input)));
  }

  lemma ContainerLine(container: string, rest: string)
    requires !Contains(container, CLOSING)
    ensures Tags((if container == "" then "" else "Container: " + Line(container, "")) + rest) == Tags(rest)
  {
    hide Count, Contains;
    if container == "" {
      assert "" + rest == rest;
    } else {
      TagFreeThen(container, '\n', rest);
      PlainThen("Container: ", Line(container, rest));
      assert ("Container: " + Line(container, "")) + rest == "Container: " + Line(container, rest);
    }
  }

  // ----- for the controller's own input -----

  lemma KindIsPlain(k: EvidenceKind)
    ensures '<' !in KindName(k) && '<' !in "B:" + KindName(k)
  {
  }

  lemma {:induction false} BaselineIsPlain(items: seq<EvidenceItem>, n: nat)
    requires n <= |items|
    ensures PlainItems(BaselineOf(items, n))
  {
    if n > 0 {
      hide KindName, Excerpt, Contains;
      BaselineIsPlain(items, n - 1);
      var k := items[n - 1].kind;
      KindIsPlain(k);
      NoTagWithoutAngle(KindName(k));
      NoTagWithoutAngle("B:" + KindName(k));
    }
  }

  lemma {:induction false} KindsArePlain(items: seq<EvidenceItem>, n: nat, m: nat)
    requires n <= |items| && m <= |RequirementsOf(items, n)|
    ensures forall i :: 0 <= i < |RequirementsOf(items, n)| ==> !Contains(RequirementsOf(items, n)[i].kind, CLOSING)
    ensures TagFree(MissingUnobtainable(RequirementsOf(items, n), m))
  {
    hide KindName, Contains, ToolFor, Satisfier;
    RequirementKindsArePlain(items, n);
    MissingIsPlain(RequirementsOf(items, n), m);
  }

  lemma {:induction false} RequirementKindsArePlain(items: seq<EvidenceItem>, n: nat)
    requires n <= |items|
    ensures forall i :: 0 <= i < |RequirementsOf(items, n)| ==> !Contains(RequirementsOf(items, n)[i].kind, CLOSING)
  {
    if n > 0 {
      hide KindName, Contains, ToolFor, Satisfier;
      RequirementKindsArePlain(items, n - 1);
      KindIsPlain(items[n - 1].kind);
      NoTagWithoutAngle(KindName(items[n - 1].kind));
    }
  }

  lemma {:induction false} MissingIsPlain(rs: seq<Requirement>, m: nat)
    requires m <= |rs| && forall i :: 0 <= i < |rs| ==> !Contains(rs[i].kind, CLOSING)
    ensures TagFree(MissingUnobtainable(rs, m))
  {
    hide Contains;
    if m > 0 {
      MissingIsPlain(rs, m - 1);
    }
  }

  lemma FailureIsPlain(f: FailureType)
    ensures '<' !in FailureName(f)
  {
  }

  /** So whatever was collected, the model is shown one closed block for each item collected, as long as
      the names and the container's own reasons hold no tag. */
  lemma CollectedEvidenceIsClosed(
      namespaceName: string, spec: Spec, ev: Evidence, config: AgentConfig, pricing: Pricing)
    requires !Contains(namespaceName, CLOSING) && !Contains(WorkloadName(spec.target), CLOSING)
    requires !Contains(spec.container, CLOSING) && TagFree(FactsOf(ev.facts))
    ensures var input := InputFor(namespaceName, spec, Some(ev), config, pricing);
            Tags(InitialContext(input)) == |BaselineOf(ev.items, |ev.items|)|
  {
    FailureIsPlain(spec.failureType);
    NoTagWithoutAngle(FailureName(spec.failureType));
    BaselineIsPlain(ev.items, |ev.items|);
    KindsArePlain(ev.items, |ev.items|, |RequirementsOf(ev.items, |ev.items|)|);
    var input := InputFor(namespaceName, spec, Some(ev), config, pricing);
    hide Contains, InitialContext, FactsOf, BaselineOf, RequirementsOf, FailureName, WorkloadName;
    OneTagPerBaselineItem(input);
  }

  // ----- what the message holds -----

  ghost predicate Holds(s: string, part: string) {
    exists a, b :: s == a + (part + b)
  }

  lemma HoldsAfter(lead: string, s: string, part: string)
    requires Holds(s, part)
    ensures Holds(lead + s, part)
  {
    var a, b :| s == a + (part + b);
    assert lead + s == (lead + a) + (part + b);
  }

  lemma HoldsFirst(part: string, rest: string)
    ensures Holds(part + rest, part)
  {
    assert part + rest == "" + (part + rest);
  }

  lemma {:induction false} HoldsLine(texts: seq<string>, rest: string, i: nat)
    requires i < |texts|
    ensures Holds(Lines(texts, rest), texts[i] + "\n")
  {
    var tail := Lines(texts[1..], rest);
    if i == 0 {
      HoldsFirst(texts[0] + "\n", tail);
      assert Line(texts[0], tail) == (texts[0] + "\n") + tail;
    } else {
      HoldsLine(texts[1..], rest, i - 1);
      HoldsAfter(texts[0] + "\n", tail, texts[i] + "\n");
      assert Line(texts[0], tail) == (texts[0] + "\n") + tail;
    }
  }

  lemma {:induction false} HoldsBelowLines(texts: seq<string>, rest: string, part: string)
    requires Holds(rest, part)
    ensures Holds(Lines(texts, rest), part)
  {
    if texts != [] {
      hide Holds;
      var tail := Lines(texts[1..], rest);
      HoldsBelowLines(texts[1..], rest, part);
      HoldsAfter(texts[0] + "\n", tail, part);
      assert Line(texts[0], tail) == (texts[0] + "\n") + tail;
    }
  }

  /** A baseline item's block, on a line of its own. */
  lemma {:induction false} HoldsBlock(items: seq<BaselineItem>, rest: string, i: nat) returns (block: string)
    requires i < |items|
    ensures Shows(block, items[i].id, items[i].kind, items[i].excerpt) && Holds(BaselineText(items, rest), block + "\n")
  {
    hide WrapEvidence, Shows, Holds;
    var first := WrapEvidence(items[0].id, items[0].kind, items[0].excerpt);
    var tail := BaselineText(items[1..], rest);
    assert Line(first, tail) == (first + "\n") + tail;
    if i == 0 {
      block := first;
      BlockShows(items[0].id, items[0].kind, items[0].excerpt);
      HoldsFirst(first + "\n", tail);
    } else {
      block := HoldsBlock(items[1..], rest, i - 1);
      HoldsAfter(first + "\n", tail, block + "\n");
    }
  }

  lemma {:induction false} HoldsBelowBlocks(items: seq<BaselineItem>, rest: string, part: string)
    requires Holds(rest, part)
    ensures Holds(BaselineText(items, rest), part)
  {
    if items != [] {
      hide Holds, WrapEvidence;
      var first, tail := WrapEvidence(items[0].id, items[0].kind, items[0].excerpt), BaselineText(items[1..], rest);
      HoldsBelowBlocks(items[1..], rest, part);
      HoldsAfter(first + "\n", tail, part);
      assert Line(first, tail) == (first + "\n") + tail;
    }
  }

  lemma HoldsUnderHeader(rest: string, part: string)
    requires Holds(rest, part)
    ensures Holds(Header(rest), part)
  {
    hide Holds;
    var e := "for the full content.\n\n" + rest;
    HoldsAfter("for the full content.\n\n", rest, part);
    HoldsAfter("call the corresponding tool ", e, part);
    HoldsAfter("Excerpts may be truncated; ", "call the corresponding tool " + e, part);
    HoldsAfter("this investigation began. ", HeaderEnd(rest), part);
    HoldsAfter("\nBaseline evidence, gathered before ", "this investigation began. " + HeaderEnd(rest), part);
  }

  /** What is known stands in the whole message. */
  lemma KnownIsShown(input: Input, part: string)
    requires Holds(Known(input), part)
    ensures Holds(InitialContext(input), part)
  {
    hide Holds, Known;
    HoldsAfter(input.namespaceName + ['\n'], Known(input), part);
    var place := Line(input.namespaceName, Known(input));
    assert place == (input.namespaceName + ['\n']) + Known(input);
    HoldsAfter("in namespace ", place, part);
    HoldsAfter(input.workload + [' '], "in namespace " + place, part);
    assert input.workload + ([' '] + ("in namespace " + place)) == (input.workload + [' ']) + ("in namespace " + place);
    HoldsAfter("Workload: ", input.workload + ([' '] + ("in namespace " + place)), part);
    HoldsAfter(input.failureType + ['\n'], WorkloadLine(input), part);
    assert Line(input.failureType, WorkloadLine(input)) == (input.failureType + ['\n']) + WorkloadLine(input);
    HoldsAfter("Failure type: ", Line(input.failureType, WorkloadLine(input)), part);
  }

  lemma LinesAreShown(input: Input, part: string)
    requires Holds(Lines(input.facts, Header(BaselineText(input.baseline, Unobtainable(input)))), part)
    ensures Holds(Known(input), part)
  {
    hide Holds, Lines, Header, BaselineText, Unobtainable;
    HoldsAfter(if input.container == "" then "" else "Container: " + Line(input.container, ""),
               Lines(input.facts, Header(BaselineText(input.baseline, Unobtainable(input)))), part);
  }

  /** The message names the failure, the workload and its place, and the container if one is known. */
  lemma OpeningNames(input: Input)
    ensures "Failure type: " + (input.failureType + "\nWorkload: ") <= InitialContext(input)
    ensures Holds(InitialContext(input),
                  "Workload: " + (input.workload + (" in namespace " + (input.namespaceName + "\n"))))
    ensures input.container != "" ==> Holds(InitialContext(input), "Container: " + (input.container + "\n"))
  {
    hide Lines, Header, BaselineText, Unobtainable;
    var s, known := InitialContext(input), Known(input);
    var line := "Workload: " + (input.workload + (" in namespace " + (input.namespaceName + "\n")));
    assert [' '] + "in namespace " == " in namespace ";
    assert WorkloadLine(input) == line + known;
    var lead := "Failure type: " + (input.failureType + "\n");
    assert s == lead + (line + known);
    HoldsFirst(line, known);
    HoldsAfter(lead, line + known, line);
    var start := "Failure type: " + (input.failureType + "\nWorkload: ");
    assert "\n" + "Workload: " == "\nWorkload: ";
    assert start == lead + "Workload: ";
    if input.container != "" {
      ContainerIsNamed(input);
    }
  }

  lemma ContainerIsNamed(input: Input)
    requires input.container != ""
    ensures Holds(InitialContext(input), "Container: " + (input.container + "\n"))
  {
    hide Lines, Header, BaselineText, Unobtainable, Holds, InitialContext;
    var part := "Container: " + (input.container + "\n");
    assert "Container: " + Line(input.container, "") == part;
    HoldsFirst(part, Lines(input.facts, Header(BaselineText(input.baseline, Unobtainable(input)))));
    KnownIsShown(input, part);
  }

  /** Every fact stands on a line of its own, every baseline item in a block that gives back its identifier,
      kind and excerpt, and every kind that cannot be obtained is named. */
  lemma FactIsShown(input: Input, i: nat)
    requires i < |input.facts|
    ensures Holds(InitialContext(input), input.facts[i] + "\n")
  {
    hide Holds, InitialContext, Known, Lines, Header, BaselineText, Unobtainable;
    HoldsLine(input.facts, Header(BaselineText(input.baseline, Unobtainable(input))), i);
    LinesAreShown(input, input.facts[i] + "\n");
    KnownIsShown(input, input.facts[i] + "\n");
  }

  lemma ExcerptIsShown(input: Input, i: nat) returns (block: string)
    requires i < |input.baseline|
    ensures Shows(block, input.baseline[i].id, input.baseline[i].kind, input.baseline[i].excerpt)
    ensures Holds(InitialContext(input), block + "\n")
  {
    hide Holds, InitialContext, Known, Lines, Header, BaselineText, Unobtainable, Shows;
    block := HoldsBlock(input.baseline, Unobtainable(input), i);
    HoldsUnderHeader(BaselineText(input.baseline, Unobtainable(input)), block + "\n");
    HoldsBelowLines(input.facts, Header(BaselineText(input.baseline, Unobtainable(input))), block + "\n");
    LinesAreShown(input, block + "\n");
    KnownIsShown(input, block + "\n");
  }

  lemma UnobtainableIsShown(input: Input)
    ensures var kinds := MissingUnobtainable(input.requirements, |input.requirements|);
            kinds != [] ==> Holds(InitialContext(input), "cluster: " + (Join(kinds, ", ") + "."))
  {
    var kinds := MissingUnobtainable(input.requirements, |input.requirements|);
    hide Holds, InitialContext, Known, Lines, Header, BaselineText, Join, MissingUnobtainable;
    if kinds != [] {
      var part := "cluster: " + (Join(kinds, ", ") + ".");
      UnobtainableHolds(Join(kinds, ", "), Advice());
      HoldsBelowBlocks(input.baseline, Unobtainable(input), part);
      HoldsUnderHeader(BaselineText(input.baseline, Unobtainable(input)), part);
      HoldsBelowLines(input.facts, Header(BaselineText(input.baseline, Unobtainable(input))), part);
      LinesAreShown(input, part);
      KnownIsShown(input, part);
    }
  }

  lemma UnobtainableHolds(list: string, rest: string)
    ensures Holds("\nRequired evidence that cannot be " + ("obtained in this cluster: " + (list + (['.'] + rest))),
                  "cluster: " + (list + "."))
  {
    var part := "cluster: " + (list + ".");
    HoldsFirst(part, rest);
    HoldsAfter("obtained in this ", part + rest, part);
    assert "obtained in this " + "cluster: " == "obtained in this cluster: ";
    assert "obtained in this " + (part + rest) == "obtained in this cluster: " + (list + (['.'] + rest));
    HoldsAfter("\nRequired evidence that cannot be ", "obtained in this " + (part + rest), part);
  }
}
