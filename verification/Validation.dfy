/** internal/agent/findings.go: checking a submission against the evidence gathered, ranking it, and
    capping its confidence. */
module Validation {
  import opened Text
  import opened Prompt

  const SUBMIT_TOOL := "submit_findings"
  const MAX_HYPOTHESES := 5
  const ROOT_CAUSE_LIMIT := 2048
  const ACTION_VALUE_LIMIT := 253
  const DEGRADED_CONFIDENCE_CAP := 70

  datatype Action = Action(kind: string, container: string, value: string)

  datatype Hypothesis = Hypothesis(
    id: string,
    rank: nat,
    rootCause: string,
    confidence: int,
    citations: seq<string>,
    actions: seq<Action>)

  /** One hypothesis as it arrives, decoded from the submission's JSON. */
  datatype Submitted = Submitted(
    rootCause: string,
    confidence: int,
    citations: seq<string>,
    actions: seq<Action>)

  /** A submission either fails strict decoding or is a list of hypotheses. */
  datatype Submission = Undecodable(reason: string) | Decoded(hypotheses: seq<Submitted>)

  // ----- problems -----

  datatype Problem =
    | Malformed(reason: string)
    | TooFew
    | TooMany
    | NoCause(at: nat)
    | LongCause(at: nat)
    | BadConfidence(at: nat)
    | NoCitations(at: nat)
    | UnknownCitation(at: nat, citation: string)
    | UnknownAction(at: nat, kind: string)
    | LongValue(at: nat)
    | EvidenceMissing(requirements: seq<string>)

  function Describe(p: Problem): string {
    match p
    case Malformed(reason) => "the submission is not valid against the schema: " + reason
    case TooFew => "submit at least one hypothesis"
    case TooMany => "submit at most " + Decimal(MAX_HYPOTHESES) + " hypotheses"
    case NoCause(i) => Label(i) + " has no root cause"
    case LongCause(i) => Label(i) + (" root cause exceeds " + Decimal(ROOT_CAUSE_LIMIT) + " characters")
    case BadConfidence(i) => Label(i) + " confidence must be between 0 and 100"
    case NoCitations(i) => Label(i) + " cites no evidence; every hypothesis must cite what supports it"
    case UnknownCitation(i, c) =>
      Label(i) + (" cites " + (Quoted(c) + ", which does not exist; cite only identifiers from the evidence"))
    case UnknownAction(i, t) => Label(i) + (" proposes unknown action type " + Quoted(t))
    case LongValue(i) => Label(i) + (" action value exceeds " + Decimal(ACTION_VALUE_LIMIT) + " characters")
    case EvidenceMissing(rs) => "required evidence has not been gathered yet: " + Join(rs, ", ")
  }

  function Quoted(s: string): string {
    ['"'] + (Escaped(s) + ['"'])
  }

  function Label(i: nat): string {
    "hypothesis " + Decimal(i + 1)
  }

  /** A description names the hypothesis it is about, by its place counted from one, and quotes what is
      unknown in it. */
  lemma DescriptionNames(p: Problem)
    ensures Indexed(p) ==> "hypothesis " + Decimal(p.at + 1) <= Describe(p)
    ensures p.UnknownCitation? ==>
              "hypothesis " + Decimal(p.at + 1) + (" cites " + Quoted(p.citation)) <= Describe(p)
    ensures p.UnknownAction? ==>
              Describe(p) == "hypothesis " + Decimal(p.at + 1) + (" proposes unknown action type " + Quoted(p.kind))
    ensures p.EvidenceMissing? ==>
              Describe(p) == "required evidence has not been gathered yet: " + Join(p.requirements, ", ")
  {
    hide Decimal, Quoted, Join;
    if p.UnknownCitation? {
      var tail := ", which does not exist; cite only identifiers from the evidence";
      PrefixOf(Label(p.at), " cites " + Quoted(p.citation), tail);
      assert " cites " + Quoted(p.citation) + tail == " cites " + (Quoted(p.citation) + tail);
    }
  }

  lemma PrefixOf(a: string, b: string, c: string)
    ensures a + b <= a + (b + c)
  {
    assert (a + (b + c))[..|a + b|] == a + b;
  }

  /** What makes a problem true of a submission, stated without regard to how problems are found. */
  ghost predicate IsProblem(sub: Submission, ledger: set<string>, allowed: set<string>, p: Problem) {
    match sub
    case Undecodable(reason) => p == Malformed(reason)
    case Decoded(hs) =>
      match p
      case Malformed(_) => false
      case EvidenceMissing(_) => false
      case TooFew => |hs| == 0
      case TooMany => |hs| > MAX_HYPOTHESES
      case _ => p.at < |hs| && HoldsOf(hs[p.at], ledger, allowed, p)
  }

  ghost predicate HoldsOf(h: Submitted, ledger: set<string>, allowed: set<string>, p: Problem) {
    match p
    case NoCause(_) => TrimSpace(h.rootCause) == ""
    case LongCause(_) => ByteLength(TrimSpace(h.rootCause)) > ROOT_CAUSE_LIMIT
    case BadConfidence(_) => !(0 <= h.confidence <= 100)
    case NoCitations(_) => h.citations == []
    case UnknownCitation(_, c) => c in h.citations && c !in ledger
    case UnknownAction(_, t) => t !in allowed && exists a <- h.actions :: a.kind == t
    case LongValue(_) => exists a <- h.actions :: ByteLength(a.value) > ACTION_VALUE_LIMIT
    case _ => false
  }

  predicate Indexed(p: Problem) {
    !p.Malformed? && !p.EvidenceMissing? && !p.TooFew? && !p.TooMany?
  }

  /** A hypothesis with nothing to correct. */
  ghost predicate Sound(h: Submitted, ledger: set<string>, allowed: set<string>) {
    && TrimSpace(h.rootCause) != "" && ByteLength(TrimSpace(h.rootCause)) <= ROOT_CAUSE_LIMIT
    && 0 <= h.confidence <= 100
    && h.citations != [] && (forall c <- h.citations :: c in ledger)
    && forall a <- h.actions :: a.kind in allowed && ByteLength(a.value) <= ACTION_VALUE_LIMIT
  }

  // The problems in the order they are reported.

  function Problems(sub: Submission, ledger: set<string>, allowed: set<string>): seq<Problem> {
    match sub
    case Undecodable(reason) => [Malformed(reason)]
    case Decoded(hs) => ProblemsUpTo(hs, |hs|, ledger, allowed)
  }

  /** The problems of the count and of the first n hypotheses. */
  function ProblemsUpTo(hs: seq<Submitted>, n: nat, ledger: set<string>, allowed: set<string>): seq<Problem>
    requires n <= |hs|
  {
    if n == 0 then CountProblems(|hs|)
    else ProblemsUpTo(hs, n - 1, ledger, allowed) + HypothesisProblems(n - 1, hs[n - 1], ledger, allowed)
  }

  function CountProblems(n: nat): seq<Problem> {
    if n == 0 then [TooFew] else if n > MAX_HYPOTHESES then [TooMany] else []
  }

  function HypothesisProblems(i: nat, h: Submitted, ledger: set<string>, allowed: set<string>): seq<Problem> {
    ScalarProblems(i, h)
    + CitationProblems(i, h.citations, |h.citations|, ledger)
    + ActionProblems(i, h.actions, |h.actions|, allowed)
  }

  function ScalarProblems(i: nat, h: Submitted): seq<Problem> {
    var cause := TrimSpace(h.rootCause);
    (if cause == "" then [NoCause(i)] else if ByteLength(cause) > ROOT_CAUSE_LIMIT then [LongCause(i)] else [])
    + (if h.confidence < 0 || h.confidence > 100 then [BadConfidence(i)] else [])
    + (if h.citations == [] then [NoCitations(i)] else [])
  }

  function CitationProblems(i: nat, cs: seq<string>, n: nat, ledger: set<string>): seq<Problem>
    requires n <= |cs|
  {
    if n == 0 then []
    else CitationProblems(i, cs, n - 1, ledger) + if cs[n - 1] in ledger then [] else [UnknownCitation(i, cs[n - 1])]
  }

  function ActionProblems(i: nat, actions: seq<Action>, n: nat, allowed: set<string>): seq<Problem>
    requires n <= |actions|
  {
    if n == 0 then []
    else ActionProblems(i, actions, n - 1, allowed) + OneActionProblems(i, actions[n - 1], allowed)
  }

  function OneActionProblems(i: nat, a: Action, allowed: set<string>): seq<Problem> {
    (if a.kind in allowed then [] else [UnknownAction(i, a.kind)])
    + (if ByteLength(a.value) > ACTION_VALUE_LIMIT then [LongValue(i)] else [])
  }

  // ----- the report is sound and complete -----

  lemma {:induction false} CitationProblemsExact(i: nat, cs: seq<string>, n: nat, ledger: set<string>, p: Problem)
    requires n <= |cs|
    ensures p in CitationProblems(i, cs, n, ledger) <==>
            p.UnknownCitation? && p.at == i && p.citation !in ledger && exists k :: 0 <= k < n && cs[k] == p.citation
  {
    if n > 0 {
      CitationProblemsExact(i, cs, n - 1, ledger, p);
    }
  }

  lemma {:induction false} ActionProblemsExact(i: nat, actions: seq<Action>, n: nat, allowed: set<string>, p: Problem)
    requires n <= |actions|
    ensures p in ActionProblems(i, actions, n, allowed) <==>
            exists k :: 0 <= k < n && p in OneActionProblems(i, actions[k], allowed)
  {
    if n > 0 {
      ActionProblemsExact(i, actions, n - 1, allowed, p);
    }
  }

  lemma ScalarProblemsExact(i: nat, h: Submitted, p: Problem)
    ensures p in ScalarProblems(i, h) <==>
            && (p.NoCause? || p.LongCause? || p.BadConfidence? || p.NoCitations?)
            && p.at == i && HoldsOf(h, {}, {}, p)
  {
    assert ByteLength("") == 0;
    hide TrimSpace, ByteLength;
  }

  lemma HypothesisProblemsExact(i: nat, h: Submitted, ledger: set<string>, allowed: set<string>, p: Problem)
    ensures p in HypothesisProblems(i, h, ledger, allowed) <==> Indexed(p) && p.at == i && HoldsOf(h, ledger, allowed, p)
  {
    hide ScalarProblems, CitationProblems, ActionProblems, TrimSpace, ByteLength;
    ScalarProblemsExact(i, h, p);
    CitationProblemsExact(i, h.citations, |h.citations|, ledger, p);
    ActionProblemsExact(i, h.actions, |h.actions|, allowed, p);
  }

  lemma {:induction false} ProblemsUpToExact(
      hs: seq<Submitted>, n: nat, ledger: set<string>, allowed: set<string>, p: Problem)
    requires n <= |hs|
    ensures p in ProblemsUpTo(hs, n, ledger, allowed) <==>
            p in CountProblems(|hs|) || (Indexed(p) && p.at < n && HoldsOf(hs[p.at], ledger, allowed, p))
  {
    hide HypothesisProblems, HoldsOf;
    if n > 0 {
      ProblemsUpToExact(hs, n - 1, ledger, allowed, p);
      HypothesisProblemsExact(n - 1, hs[n - 1], ledger, allowed, p);
    }
  }

  /** Every problem reported is real and every real problem is reported, in one pass. */
  lemma ProblemsExact(sub: Submission, ledger: set<string>, allowed: set<string>, p: Problem)
    ensures p in Problems(sub, ledger, allowed) <==> IsProblem(sub, ledger, allowed, p)
  {
    if sub.Decoded? {
      ProblemsUpToExact(sub.hypotheses, |sub.hypotheses|, ledger, allowed, p);
    }
  }

  lemma {:induction false} NoCitationProblems(i: nat, cs: seq<string>, n: nat, ledger: set<string>)
    requires n <= |cs|
    ensures CitationProblems(i, cs, n, ledger) == [] <==> forall k :: 0 <= k < n ==> cs[k] in ledger
  {
    if n > 0 {
      NoCitationProblems(i, cs, n - 1, ledger);
    }
  }

  lemma {:induction false} NoActionProblems(i: nat, actions: seq<Action>, n: nat, allowed: set<string>)
    requires n <= |actions|
    ensures ActionProblems(i, actions, n, allowed) == [] <==>
            forall k :: 0 <= k < n ==> actions[k].kind in allowed && ByteLength(actions[k].value) <= ACTION_VALUE_LIMIT
  {
    if n > 0 {
      NoActionProblems(i, actions, n - 1, allowed);
    }
  }

  lemma NoHypothesisProblems(i: nat, h: Submitted, ledger: set<string>, allowed: set<string>)
    ensures HypothesisProblems(i, h, ledger, allowed) == [] <==> Sound(h, ledger, allowed)
  {
    NoCitationProblems(i, h.citations, |h.citations|, ledger);
    NoActionProblems(i, h.actions, |h.actions|, allowed);
  }

  lemma {:induction false} NoProblemsUpTo(hs: seq<Submitted>, n: nat, ledger: set<string>, allowed: set<string>)
    requires n <= |hs|
    ensures ProblemsUpTo(hs, n, ledger, allowed) == [] <==>
            1 <= |hs| <= MAX_HYPOTHESES && forall k :: 0 <= k < n ==> Sound(hs[k], ledger, allowed)
  {
    hide HypothesisProblems, Sound;
    if n > 0 {
      NoProblemsUpTo(hs, n - 1, ledger, allowed);
      NoHypothesisProblems(n - 1, hs[n - 1], ledger, allowed);
    }
  }

  /** A submission passes exactly when it holds one to five sound hypotheses. */
  lemma AcceptedMeans(sub: Submission, ledger: set<string>, allowed: set<string>)
    ensures Problems(sub, ledger, allowed) == [] <==>
            sub.Decoded? && 1 <= |sub.hypotheses| <= MAX_HYPOTHESES
            && forall h <- sub.hypotheses :: Sound(h, ledger, allowed)
  {
    if sub.Decoded? {
      NoProblemsUpTo(sub.hypotheses, |sub.hypotheses|, ledger, allowed);
    }
  }

  // ----- deduplicated citations -----

  /** Each item once, where it first appears. */
  function Distinct(items: seq<string>): seq<string> {
    if items == [] then []
    else
      var init, last := items[..|items| - 1], items[|items| - 1];
      Distinct(init) + if last in init then [] else [last]
  }

  function FirstIndex(items: seq<string>, x: string): (i: nat)
    requires x in items
    ensures i < |items| && items[i] == x && x !in items[..i]
  {
    if items[0] == x then 0 else 1 + FirstIndex(items[1..], x)
  }

  /** The result has the same elements, none twice, in order of first occurrence. */
  lemma {:induction false} DistinctKeepsFirstOccurrences(items: seq<string>)
    ensures forall x :: x in Distinct(items) <==> x in items
    ensures forall i, j :: 0 <= i < j < |Distinct(items)| ==>
              FirstIndex(items, Distinct(items)[i]) < FirstIndex(items, Distinct(items)[j])
  {
    if items != [] {
      var init, last := items[..|items| - 1], items[|items| - 1];
      DistinctKeepsFirstOccurrences(init);
      assert items == init + [last];
      var d, e := Distinct(init), Distinct(items);
      forall i | 0 <= i < |d| ensures e[i] == d[i] && d[i] in init && FirstIndex(items, e[i]) == FirstIndex(init, d[i]) {
        assert d[i] in d;
        FirstIndexUnique(items, d[i], FirstIndex(init, d[i]));
      }
      if last !in init {
        FirstIndexUnique(items, last, |init|);
        assert e[|d|] == last;
      }
      forall i, j | 0 <= i < j < |e| ensures FirstIndex(items, e[i]) < FirstIndex(items, e[j]) {
        assert FirstIndex(items, e[i]) == FirstIndex(init, d[i]);
        assert j < |d| || e[j] == last;
      }
    }
  }

  lemma FirstIndexUnique(items: seq<string>, x: string, i: nat)
    requires i < |items| && items[i] == x && x !in items[..i]
    ensures FirstIndex(items, x) == i
  {
    var j := FirstIndex(items, x);
    assert forall k :: 0 <= k < i ==> items[k] == items[..i][k] && items[k] != x;
    assert forall k :: 0 <= k < j ==> items[k] == items[..j][k] && items[k] != x;
  }

  method Dedupe(items: seq<string>) returns (out: seq<string>)
    ensures out == Distinct(items)
  {
    var seen: map<string, bool> := map[];
    out := [];
    for i := 0 to |items|
      invariant out == Distinct(items[..i])
      invariant forall s :: s in seen <==> s in items[..i]
    {
      var s := items[i];
      assert items[..i + 1] == items[..i] + [s];
      if s !in seen {
        seen := seen[s := true];
        out := out + [s];
      }
    }
    assert items[..|items|] == items;
  }

  // ----- ranking -----

  ghost predicate Descending(s: seq<Hypothesis>) {
    forall i, j :: 0 <= i < j < |s| ==> s[i].confidence >= s[j].confidence
  }

  /** The hypotheses of one confidence, in order: stability is the preservation of every such list. */
  function OfConfidence(s: seq<Hypothesis>, c: int): seq<Hypothesis> {
    if s == [] then []
    else (if s[0].confidence == c then [s[0]] else []) + OfConfidence(s[1..], c)
  }

  function Insert(h: Hypothesis, s: seq<Hypothesis>): seq<Hypothesis> {
    if s == [] || h.confidence >= s[0].confidence then [h] + s
    else [s[0]] + Insert(h, s[1..])
  }

  function StableSort(s: seq<Hypothesis>): (r: seq<Hypothesis>)
    ensures |r| == |s|
  {
    if s == [] then [] else
      InsertLength(s[0], StableSort(s[1..]));
      Insert(s[0], StableSort(s[1..]))
  }

  lemma {:induction false} InsertLength(h: Hypothesis, s: seq<Hypothesis>)
    ensures |Insert(h, s)| == |s| + 1 && multiset(Insert(h, s)) == multiset(s) + multiset{h}
  {
    if s == [] || h.confidence >= s[0].confidence {
    } else {
      InsertLength(h, s[1..]);
      assert s == [s[0]] + s[1..];
    }
  }

  lemma {:induction false} InsertDescending(h: Hypothesis, s: seq<Hypothesis>)
    requires Descending(s)
    ensures Descending(Insert(h, s))
  {
    if s == [] || h.confidence >= s[0].confidence {
    } else {
      InsertDescending(h, s[1..]);
      InsertLength(h, s[1..]);
      var r := Insert(h, s[1..]);
      forall i | 0 <= i < |r| ensures s[0].confidence >= r[i].confidence {
        assert r[i] in multiset(r);
        assert r[i] == h || r[i] in s[1..];
      }
    }
  }

  lemma {:induction false} InsertStable(h: Hypothesis, s: seq<Hypothesis>, c: int)
    requires Descending(s)
    ensures OfConfidence(Insert(h, s), c) == OfConfidence([h] + s, c)
  {
    if s == [] || h.confidence >= s[0].confidence {
    } else {
      InsertStable(h, s[1..], c);
      assert ([h] + s)[1..] == s;
      assert ([h] + s[1..])[1..] == s[1..];
      assert Insert(h, s)[1..] == Insert(h, s[1..]);
    }
  }

  lemma {:induction false} StableSortSorts(s: seq<Hypothesis>)
    ensures Descending(StableSort(s)) && multiset(StableSort(s)) == multiset(s)
    ensures forall c :: OfConfidence(StableSort(s), c) == OfConfidence(s, c)
  {
    if s != [] {
      var rest := StableSort(s[1..]);
      StableSortSorts(s[1..]);
      InsertDescending(s[0], rest);
      InsertLength(s[0], rest);
      assert s == [s[0]] + s[1..];
      forall c ensures OfConfidence(StableSort(s), c) == OfConfidence(s, c) {
        InsertStable(s[0], rest, c);
        assert ([s[0]] + rest)[1..] == rest;
      }
    }
  }

  lemma {:induction false} OfConfidenceMember(s: seq<Hypothesis>, h: Hypothesis)
    ensures h in OfConfidence(s, h.confidence) <==> h in s
    ensures forall x <- OfConfidence(s, h.confidence) :: x in s && x.confidence == h.confidence
  {
    if s != [] {
      OfConfidenceMember(s[1..], h);
      assert s == [s[0]] + s[1..];
    }
  }

  lemma HeadListed(s: seq<Hypothesis>)
    requires s != []
    ensures exists c :: OfConfidence(s, c) != []
  {
    assert OfConfidence(s, s[0].confidence)[0] == s[0];
  }

  /** A stable descending order is unique, so it does not matter which algorithm produced it. */
  lemma {:induction false} StableOrderUnique(t: seq<Hypothesis>, u: seq<Hypothesis>)
    requires Descending(t) && Descending(u)
    requires forall c :: OfConfidence(t, c) == OfConfidence(u, c)
    ensures t == u
  {
    if t == [] {
      if u != [] {
        HeadListed(u);
      }
    } else {
      OfConfidenceMember(t, t[0]);
      OfConfidenceMember(u, t[0]);
      assert t[0] in u;
      OfConfidenceMember(u, u[0]);
      OfConfidenceMember(t, u[0]);
      assert u[0] in t;
      var c := t[0].confidence;
      assert u[0].confidence == c;
      assert OfConfidence(t, c)[0] == t[0] && OfConfidence(u, c)[0] == u[0];
      forall d ensures OfConfidence(t[1..], d) == OfConfidence(u[1..], d) {
        assert OfConfidence(t, d) == (if d == c then [t[0]] else []) + OfConfidence(t[1..], d);
        assert OfConfidence(u, d) == (if d == c then [u[0]] else []) + OfConfidence(u[1..], d);
        var a, b := OfConfidence(t[1..], d), OfConfidence(u[1..], d);
        if d == c {
          assert ([t[0]] + a)[1..] == a && ([t[0]] + b)[1..] == b;
        } else {
          assert [] + a == a && [] + b == b;
        }
      }
      StableOrderUnique(t[1..], u[1..]);
    }
  }

  function Labelled(s: seq<Hypothesis>): (r: seq<Hypothesis>)
    ensures |r| == |s|
    ensures forall i :: 0 <= i < |s| ==> r[i] == s[i].(id := "H" + Decimal(i + 1), rank := i + 1)
  {
    seq(|s|, i requires 0 <= i < |s| => s[i].(id := "H" + Decimal(i + 1), rank := i + 1))
  }

  function Ranked(s: seq<Hypothesis>): seq<Hypothesis> {
    Labelled(StableSort(s))
  }

  /** The library's stable sort, taken as one step: it leaves the only stable descending order. */
  method SliceStable(a: array<Hypothesis>)
    modifies a
    ensures a[..] == StableSort(old(a[..]))
  {
    var sorted := StableSort(a[..]);
    forall i | 0 <= i < a.Length { a[i] := sorted[i]; }
  }

  method Rank(a: array<Hypothesis>)
    modifies a
    ensures a[..] == Ranked(old(a[..]))
  {
    SliceStable(a);
    ghost var sorted := a[..];
    for i := 0 to a.Length
      invariant a[..i] == Labelled(sorted)[..i] && a[i..] == sorted[i..]
    {
      assert a[i] == a[i..][0] == sorted[i];
      a[i] := a[i].(id := "H" + Decimal(i + 1));
      a[i] := a[i].(rank := i + 1);
      assert a[..i + 1] == a[..i] + [a[i]];
    }
    assert a[..a.Length] == a[..];
  }

  // ----- the confidence cap -----

  function CapOne(h: Hypothesis, ceiling: int): Hypothesis {
    if h.confidence > ceiling then h.(confidence := ceiling) else h
  }

  function Capped(s: seq<Hypothesis>, ceiling: int): (r: seq<Hypothesis>)
    ensures |r| == |s| && forall i :: 0 <= i < |s| ==> r[i] == CapOne(s[i], ceiling)
  {
    seq(|s|, i requires 0 <= i < |s| => CapOne(s[i], ceiling))
  }

  method CapConfidence(a: array<Hypothesis>, ceiling: int)
    modifies a
    ensures a[..] == Capped(old(a[..]), ceiling)
  {
    ghost var before := a[..];
    for i := 0 to a.Length
      invariant a[..i] == Capped(before, ceiling)[..i] && a[i..] == before[i..]
    {
      assert a[i] == a[i..][0] == before[i];
      if a[i].confidence > ceiling {
        a[i] := a[i].(confidence := ceiling);
      }
      assert a[..i + 1] == a[..i] + [a[i]];
    }
    assert a[..a.Length] == a[..];
  }

  /** Capping after ranking needs no second ranking: order, identifiers and ranks all still hold. */
  lemma CappingKeepsRanking(s: seq<Hypothesis>, ceiling: int)
    ensures Ranked(Capped(Ranked(s), ceiling)) == Capped(Ranked(s), ceiling)
    ensures forall h <- Capped(Ranked(s), ceiling) :: h.confidence <= ceiling
  {
    var r := Capped(Ranked(s), ceiling);
    StableSortSorts(s);
    assert Descending(r);
    StableSortSorts(r);
    StableOrderUnique(StableSort(r), r);
  }

  // ----- validation -----

  function Draft(h: Submitted): Hypothesis {
    Hypothesis("", 0, TrimSpace(h.rootCause), h.confidence, Distinct(h.citations), h.actions)
  }

  function Drafts(hs: seq<Submitted>, n: nat): (r: seq<Hypothesis>)
    requires n <= |hs|
    ensures |r| == n
  {
    if n == 0 then [] else Drafts(hs, n - 1) + [Draft(hs[n - 1])]
  }

  // ----- what ranking makes of a submission -----

  /** p lists each index below n once. */
  predicate Permutes(p: seq<nat>, n: nat) {
    && |p| == n
    && (forall i :: 0 <= i < n ==> p[i] < n)
    && forall i, j :: 0 <= i < j < n ==> p[i] != p[j]
  }

  /** Along p confidence descends, and equal confidences stay in the order submitted. */
  predicate InOrder(confidence: seq<int>, p: seq<nat>)
    requires Permutes(p, |confidence|)
  {
    forall i, j :: 0 <= i < j < |p| ==>
      confidence[p[i]] > confidence[p[j]] || (confidence[p[i]] == confidence[p[j]] && p[i] < p[j])
  }

  /** The result of rank n says what the submission said, under its rank. */
  predicate Presents(h: Hypothesis, n: nat, s: Submitted, ceiling: int) {
    && h.id == "H" + Decimal(n) && h.rank == n
    && h.rootCause == TrimSpace(s.rootCause)
    && h.confidence == (if s.confidence > ceiling then ceiling else s.confidence)
    && h.citations == Distinct(s.citations)
    && h.actions == s.actions
  }

  /** The submitted hypotheses, each once, by descending confidence. */
  predicate Presented(result: seq<Hypothesis>, hs: seq<Submitted>, p: seq<nat>, ceiling: int) {
    && Permutes(p, |hs|) && |result| == |hs|
    && InOrder(seq(|hs|, i requires 0 <= i < |hs| => hs[i].confidence), p)
    && forall i :: 0 <= i < |hs| ==> Presents(result[i], i + 1, hs[p[i]], ceiling)
  }

  function Confidences(s: seq<Hypothesis>): (r: seq<int>)
    ensures |r| == |s| && forall i :: 0 <= i < |s| ==> r[i] == s[i].confidence
  {
    seq(|s|, i requires 0 <= i < |s| => s[i].confidence)
  }

  /** s with h put before its k-th element. */
  function Put<T>(h: T, s: seq<T>, k: nat): (r: seq<T>)
    requires k <= |s|
    ensures |r| == |s| + 1
    ensures forall i :: 0 <= i < |r| ==> r[i] == if i < k then s[i] else if i == k then h else s[i - 1]
  {
    s[..k] + [h] + s[k..]
  }

  /** Where a hypothesis is inserted: after all of higher confidence and before the rest. */
  lemma {:induction false} InsertAt(h: Hypothesis, s: seq<Hypothesis>) returns (k: nat)
    requires Descending(s)
    ensures k <= |s| && Insert(h, s) == Put(h, s, k)
    ensures forall i :: 0 <= i < k ==> s[i].confidence > h.confidence
    ensures forall i :: k <= i < |s| ==> h.confidence >= s[i].confidence
  {
    if s == [] || h.confidence >= s[0].confidence {
      k := 0;
      assert Put(h, s, 0) == [h] + s;
    } else {
      var tail := s[1..];
      assert forall i :: 1 <= i < |s| ==> s[i] == tail[i - 1];
      var j := InsertAt(h, tail);
      k := j + 1;
      hide Descending;
      assert [s[0]] + Put(h, tail, j) == Put(h, s, k);
    }
  }

  /** The order of a longer list: its tail's, each one further, and the head put in at k. */
  function Placed(q: seq<nat>, k: nat): (r: seq<nat>)
    requires k <= |q|
    ensures |r| == |q| + 1
    ensures forall i :: 0 <= i < |r| ==> r[i] == if i < k then q[i] + 1 else if i == k then 0 else q[i - 1] + 1
  {
    Put(0, seq(|q|, i requires 0 <= i < |q| => q[i] + 1), k)
  }

  ghost predicate SortedBy(t: seq<Hypothesis>, s: seq<Hypothesis>, p: seq<nat>) {
    && Permutes(p, |s|) && |t| == |s|
    && InOrder(Confidences(s), p)
    && forall i :: 0 <= i < |s| ==> t[i] == s[p[i]]
  }

  lemma PlacedPermutes(q: seq<nat>, k: nat)
    requires Permutes(q, |q|) && k <= |q|
    ensures Permutes(Placed(q, k), |q| + 1)
  {
  }

  lemma PlacedInOrder(c: seq<int>, q: seq<nat>, k: nat)
    requires c != [] && Permutes(q, |c| - 1) && InOrder(c[1..], q) && k <= |q|
    requires forall i :: 0 <= i < k ==> c[q[i] + 1] > c[0]
    requires forall i :: k <= i < |q| ==> c[0] >= c[q[i] + 1]
    ensures Permutes(Placed(q, k), |c|) && InOrder(c, Placed(q, k))
  {
    PlacedPermutes(q, k);
    var p := Placed(q, k);
    var tail := c[1..];
    forall i, j | 0 <= i < j < |p| ensures c[p[i]] > c[p[j]] || (c[p[i]] == c[p[j]] && p[i] < p[j]) {
      var i', j' := if i < k then i else i - 1, if j < k then j else j - 1;
      if i != k && j != k {
        assert tail[q[i']] == c[q[i'] + 1] && tail[q[j']] == c[q[j'] + 1];
      }
    }
  }

  lemma {:induction false} SortOrder(s: seq<Hypothesis>) returns (p: seq<nat>)
    ensures SortedBy(StableSort(s), s, p)
  {
    if s == [] {
      p := [];
    } else {
      var rest := StableSort(s[1..]);
      StableSortSorts(s[1..]);
      var q := SortOrder(s[1..]);
      var k := InsertAt(s[0], rest);
      hide SortedBy, Insert, Descending, InOrder;
      p := SortedOn(s, rest, q, k);
    }
  }

  lemma SortedOn(s: seq<Hypothesis>, rest: seq<Hypothesis>, q: seq<nat>, k: nat) returns (p: seq<nat>)
    requires s != [] && SortedBy(rest, s[1..], q) && k <= |rest|
    requires forall i :: 0 <= i < k ==> rest[i].confidence > s[0].confidence
    requires forall i :: k <= i < |rest| ==> s[0].confidence >= rest[i].confidence
    ensures SortedBy(Put(s[0], rest, k), s, p)
  {
    hide InOrder;
    p := Placed(q, k);
    var c := Confidences(s);
    assert c[1..] == Confidences(s[1..]);
    forall i | 0 <= i < |q| ensures rest[i] == s[q[i] + 1] {
      assert rest[i] == s[1..][q[i]];
    }
    PlacedInOrder(c, q, k);
    SortStep(s, rest, q, k);
  }

  lemma SortStep(s: seq<Hypothesis>, rest: seq<Hypothesis>, q: seq<nat>, k: nat)
    requires s != [] && |rest| == |q| == |s| - 1 && k <= |rest| && Permutes(Placed(q, k), |s|)
    requires forall i :: 0 <= i < |q| ==> q[i] + 1 < |s| && rest[i] == s[q[i] + 1]
    ensures forall i :: 0 <= i < |s| ==> Put(s[0], rest, k)[i] == s[Placed(q, k)[i]]
  {
  }

  lemma {:induction false} DraftsAre(hs: seq<Submitted>, n: nat)
    requires n <= |hs|
    ensures forall i :: 0 <= i < n ==>
              && Drafts(hs, n)[i].rootCause == TrimSpace(hs[i].rootCause)
              && Drafts(hs, n)[i].confidence == hs[i].confidence
              && Drafts(hs, n)[i].citations == Distinct(hs[i].citations)
              && Drafts(hs, n)[i].actions == hs[i].actions
  {
    hide TrimSpace, Distinct;
    if n > 0 {
      DraftsAre(hs, n - 1);
    }
  }

  /** An accepted submission comes back as its own hypotheses, each once, with its cause, confidence,
      citations and actions, by descending confidence and otherwise in the order submitted. */
  lemma RankedPresents(hs: seq<Submitted>) returns (p: seq<nat>)
    requires forall h <- hs :: h.confidence <= 100
    ensures Presented(Ranked(Drafts(hs, |hs|)), hs, p, 100)
  {
    var drafts := Drafts(hs, |hs|);
    DraftsAre(hs, |hs|);
    p := SortOrder(drafts);
    hide StableSort, Drafts, TrimSpace, Distinct, Decimal;
    forall i | 0 <= i < |hs| ensures Presents(Ranked(drafts)[i], i + 1, hs[p[i]], 100) {
      assert hs[p[i]] in hs;
    }
  }

  /** And when it is degraded, the same with every confidence above the ceiling lowered to it. */
  lemma CappedPresents(hs: seq<Submitted>, ceiling: int) returns (p: seq<nat>)
    ensures Presented(Capped(Ranked(Drafts(hs, |hs|)), ceiling), hs, p, ceiling)
  {
    var drafts := Drafts(hs, |hs|);
    DraftsAre(hs, |hs|);
    p := SortOrder(drafts);
    hide StableSort, Drafts, TrimSpace, Distinct, Decimal;
  }

  method MakeDraft(h: Submitted) returns (d: Hypothesis)
    ensures d == Draft(h)
  {
    var citations := Dedupe(h.citations);
    d := Hypothesis("", 0, TrimSpace(h.rootCause), h.confidence, citations, h.actions);
  }

  method CheckScalars(i: nat, h: Submitted) returns (problems: seq<Problem>)
    ensures problems == ScalarProblems(i, h)
  {
    problems := [];
    var cause := TrimSpace(h.rootCause);
    if cause == "" {
      problems := problems + [NoCause(i)];
    } else if ByteLength(cause) > ROOT_CAUSE_LIMIT {
      problems := problems + [LongCause(i)];
    }
    if h.confidence < 0 || h.confidence > 100 {
      problems := problems + [BadConfidence(i)];
    }
    if |h.citations| == 0 {
      problems := problems + [NoCitations(i)];
    }
  }

  method CheckCitations(i: nat, cs: seq<string>, ledger: map<string, string>) returns (problems: seq<Problem>)
    ensures problems == CitationProblems(i, cs, |cs|, ledger.Keys)
  {
    problems := [];
    for j := 0 to |cs|
      invariant problems == CitationProblems(i, cs, j, ledger.Keys)
    {
      if cs[j] !in ledger {
        problems := problems + [UnknownCitation(i, cs[j])];
      }
    }
  }

  method CheckActions(i: nat, actions: seq<Action>, allowed: set<string>) returns (problems: seq<Problem>)
    ensures problems == ActionProblems(i, actions, |actions|, allowed)
  {
    problems := [];
    for j := 0 to |actions|
      invariant problems == ActionProblems(i, actions, j, allowed)
    {
      ghost var before := problems;
      if actions[j].kind !in allowed {
        problems := problems + [UnknownAction(i, actions[j].kind)];
      }
      if ByteLength(actions[j].value) > ACTION_VALUE_LIMIT {
        problems := problems + [LongValue(i)];
      }
      assert problems == before + OneActionProblems(i, actions[j], allowed);
    }
  }

  /** The source's one loop over the submission, its body split by what it checks. It collects every
      problem rather than stop at the first. */
  method ValidateSubmission(sub: Submission, ledger: map<string, string>, allowed: set<string>)
    returns (hypotheses: array<Hypothesis>, problems: seq<Problem>)
    ensures fresh(hypotheses)
    ensures problems == Problems(sub, ledger.Keys, allowed)
    ensures hypotheses[..] ==
            if problems == [] then Ranked(Drafts(sub.hypotheses, |sub.hypotheses|)) else []
    ensures problems == [] ==> sub.Decoded? && exists p :: Presented(hypotheses[..], sub.hypotheses, p, 100)
  {
    hypotheses := new Hypothesis[0];
    if sub.Undecodable? {
      return hypotheses, [Malformed(sub.reason)];
    }
    var hs := sub.hypotheses;
    problems := [];
    if |hs| == 0 {
      problems := problems + [TooFew];
    }
    if |hs| > MAX_HYPOTHESES {
      problems := problems + [TooMany];
    }

    var drafts: seq<Hypothesis> := [];
    for i := 0 to |hs|
      invariant problems == ProblemsUpTo(hs, i, ledger.Keys, allowed)
      invariant drafts == Drafts(hs, i)
    {
      var scalar := CheckScalars(i, hs[i]);
      var cited := CheckCitations(i, hs[i].citations, ledger);
      var acted := CheckActions(i, hs[i].actions, allowed);
      problems := problems + (scalar + cited + acted);
      var draft := MakeDraft(hs[i]);
      drafts := drafts + [draft];
    }

    if |problems| > 0 {
      return;
    }
    hypotheses := new Hypothesis[|drafts|](i requires 0 <= i < |drafts| => drafts[i]);
    assert hypotheses[..] == drafts;
    Rank(hypotheses);
    AcceptedMeans(sub, ledger.Keys, allowed);
    ghost var p := RankedPresents(hs);
  }
}
