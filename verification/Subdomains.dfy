/** internal/detector/signature.go: when a diagnosis name is a DNS subdomain, which is what the API server
    asks of an object's name. */
module Subdomains {
  import opened Text
  import opened Kinds
  import opened Signature

  // ----- DNS subdomains, as in section 2.1 of RFC 1123 -----

  predicate DotsGuarded(s: string) {
    forall i :: 0 < i < |s| - 1 && s[i] == '.' ==> Alphanumeric(s[i - 1]) && Alphanumeric(s[i + 1])
  }

  /** Dot-separated labels, each starting and ending alphanumeric: stated at the dots. */
  predicate Subdomain(s: string) {
    Segment(s) && |s| <= MAX_NAME_LENGTH && DotsGuarded(s)
  }

  lemma DotsOfParts(w: string, t: string, signature: string)
    requires Segment(w) && '.' !in t && '.' !in signature
    ensures DotsGuarded(w + ("-" + (t + ("-" + signature)))) <==> DotsGuarded(w)
  {
    var tail := "-" + (t + ("-" + signature));
    var name := w + tail;
    forall i | 0 <= i < |tail| ensures tail[i] != '.' {
      assert 1 <= i < 1 + |t| ==> tail[i] == t[i - 1];
      assert i >= 2 + |t| ==> tail[i] == signature[i - 2 - |t|];
    }
    assert forall i :: 0 <= i < |w| ==> name[i] == w[i];
    assert forall i :: |w| <= i < |name| ==> name[i] == tail[i - |w|];
    assert w[|w| - 1] != '.';
    if DotsGuarded(name) {
      forall i | 0 < i < |w| - 1 && w[i] == '.' ensures Alphanumeric(w[i - 1]) && Alphanumeric(w[i + 1]) {
        assert name[i] == '.' && name[i - 1] == w[i - 1] && name[i + 1] == w[i + 1];
      }
    }
  }

  /** Only the workload segment can spoil a name. */
  lemma SegmentDecides(workload: string, f: FailureType, signature: string)
    requires Hex(signature)
    ensures Subdomain(DiagnosisName(workload, f, signature)) <==> DotsGuarded(WorkloadSegment(workload))
  {
    NameShape(workload, f, signature);
    WorkloadSegmentProperties(workload);
    TypeSegment(f);
    hide WorkloadSegment, Sanitize, FailureName, Lowered, DiagnosisName, DotsGuarded, Segment;
    assert '.' !in Sanitize(FailureName(f)) && '.' !in signature;
    DotsOfParts(WorkloadSegment(workload), Sanitize(FailureName(f)), signature);
  }

  lemma {:induction false} NameCharsUnchanged(s: string)
    requires AllNameChars(s)
    ensures Lowered(s) == s && Collapse(s, false) == s
  {
    if s != [] {
      NameCharsUnchanged(s[1..]);
    }
  }

  /** A workload already named as Kubernetes requires keeps its name, up to the cut, and always yields a
      DNS subdomain. */
  lemma SubdomainWorkload(workload: string, f: FailureType, signature: string)
    requires Subdomain(workload) && Hex(signature)
    ensures Sanitize(workload) == workload && WorkloadSegment(workload) <= workload
    ensures |workload| <= MAX_WORKLOAD_SEGMENT ==> WorkloadSegment(workload) == workload
    ensures Subdomain(DiagnosisName(workload, f, signature))
  {
    NameCharsUnchanged(workload);
    TrimLeftProperties(workload);
    TrimRightProperties(workload);
    assert Sanitize(workload) == workload;
    WorkloadSegmentProperties(workload);
    SegmentDecides(workload, f, signature);
    hide Sanitize, DiagnosisName, TrimLeft, TrimRight;
    var w := WorkloadSegment(workload);
    assert forall i :: 0 <= i < |w| ==> w[i] == workload[i];
  }

  // ----- reading the same off the workload itself -----

  /** The text from the first alphanumeric character to the last, of a workload in lower case. */
  function CoreLeft(s: string): string {
    if s != [] && !Alphanumeric(s[0]) then CoreLeft(s[1..]) else s
  }

  function CoreRight(s: string): string {
    if s != [] && !Alphanumeric(s[|s| - 1]) then CoreRight(s[..|s| - 1]) else s
  }

  function Core(s: string): string {
    CoreRight(CoreLeft(s))
  }

  /** How many of the first n characters the cut keeps: other characters count once a run. */
  function Fitting(s: string, n: nat): (m: nat)
    requires n <= |s|
    ensures m <= n
  {
    if n == 0 || |Collapse(s[..n], false)| <= MAX_WORKLOAD_SEGMENT then n else Fitting(s, n - 1)
  }

  /** The part of a workload that its diagnosis name shows. */
  function Visible(workload: string): string {
    var core := Core(Lowered(workload));
    Core(core[..Fitting(core, |core|)])
  }

  /** Every dot in the visible part stands between alphanumeric characters. */
  predicate DotsSeparate(workload: string) {
    DotsGuarded(Visible(workload))
  }

  lemma {:induction false} CollapseSnoc(s: string, c: char, inRun: bool)
    ensures Collapse(s + [c], inRun) ==
            Collapse(s, inRun)
            + if NameChar(c) then [c]
              else if (if s == [] then inRun else !NameChar(s[|s| - 1])) then [] else ['-']
  {
    if s == [] {
      assert [c][1..] == [];
    } else {
      assert (s + [c])[1..] == s[1..] + [c];
      CollapseSnoc(s[1..], c, !NameChar(s[0]));
    }
  }

  /** The first character is kept, opens a run, or continues one. */
  lemma CollapseCons(s: string, inRun: bool)
    requires s != ""
    ensures var c, t := Collapse(s, inRun), Collapse(s[1..], !NameChar(s[0]));
            if NameChar(s[0]) then c != "" && c[0] == s[0] && c[1..] == t
            else if inRun then c == t
            else c != "" && c[0] == '-' && c[1..] == t
  {
    var t := Collapse(s[1..], !NameChar(s[0]));
    assert [] + t == t;
  }

  lemma {:induction false} TrimLeftOfCollapse(s: string, inRun: bool)
    ensures TrimLeft(Collapse(s, inRun), Edge) == Collapse(CoreLeft(s), false)
  {
    if s != [] && !Alphanumeric(s[0]) {
      TrimLeftOfCollapse(s[1..], !NameChar(s[0]));
      CollapseCons(s, inRun);
    }
  }

  lemma TrimRightDrops(head: string, c: char)
    ensures TrimRight(head + [c], Edge) == if Edge(c) then TrimRight(head, Edge) else head + [c]
  {
    assert (head + [c])[..|head|] == head;
  }

  lemma {:induction false} TrimRightOfCollapse(s: string)
    ensures TrimRight(Collapse(s, false), Edge) == Collapse(CoreRight(s), false)
  {
    if s != [] {
      hide Collapse, TrimRight;
      var init, c := s[..|s| - 1], s[|s| - 1];
      assert s == init + [c];
      TrimRightOfCollapse(init);
      CollapseSnoc(init, c, false);
      assert Collapse(init, false) + [] == Collapse(init, false);
      TrimRightDrops(Collapse(init, false), if NameChar(c) then c else '-');
    }
  }

  lemma TrimOfCollapse(s: string)
    ensures Trim(Collapse(s, false), Edge) == Collapse(Core(s), false)
  {
    TrimLeftOfCollapse(s, false);
    TrimRightOfCollapse(CoreLeft(s));
  }

  lemma {:induction false} CollapsePrefix(s: string, m: nat, n: nat)
    requires m <= n <= |s|
    ensures Collapse(s[..m], false) <= Collapse(s[..n], false)
    ensures |Collapse(s[..n], false)| <= |Collapse(s[..m], false)| + n - m
  {
    if m < n {
      CollapsePrefix(s, m, n - 1);
      assert s[..n] == s[..n - 1] + [s[n - 1]];
      CollapseSnoc(s[..n - 1], s[n - 1], false);
    }
  }

  /** Cutting what a text collapses to is collapsing what the cut keeps of it. */
  lemma {:induction false} CutOfCollapse(s: string, n: nat)
    requires n <= |s|
    ensures var c := Collapse(s[..n], false);
            Collapse(s[..Fitting(s, n)], false) ==
            if |c| <= MAX_WORKLOAD_SEGMENT then c else c[..MAX_WORKLOAD_SEGMENT]
  {
    if n > 0 && |Collapse(s[..n], false)| > MAX_WORKLOAD_SEGMENT {
      CutOfCollapse(s, n - 1);
      CollapsePrefix(s, n - 1, n);
    }
  }

  lemma {:induction false} CoreLeftEnds(s: string)
    ensures CoreLeft(s) != "" ==> Alphanumeric(CoreLeft(s)[0])
    ensures s != "" && Alphanumeric(s[0]) ==> CoreLeft(s) == s
  {
    if s != [] && !Alphanumeric(s[0]) {
      CoreLeftEnds(s[1..]);
    }
  }

  lemma {:induction false} CoreRightEnds(s: string)
    ensures CoreRight(s) <= s
    ensures CoreRight(s) != "" ==> Alphanumeric(CoreRight(s)[|CoreRight(s)| - 1])
    ensures s != "" && Alphanumeric(s[|s| - 1]) ==> CoreRight(s) == s
  {
    if s != [] && !Alphanumeric(s[|s| - 1]) {
      CoreRightEnds(s[..|s| - 1]);
    }
  }

  lemma CoreEnds(s: string)
    ensures var c := Core(s);
            && (c != "" ==> Alphanumeric(c[0]) && Alphanumeric(c[|c| - 1]))
            && Core(c) == c
  {
    CoreLeftEnds(s);
    CoreRightEnds(CoreLeft(s));
    CoreLeftEnds(Core(s));
    CoreRightEnds(Core(s));
  }

  /** The workload segment is the visible part, collapsed, unless nothing is visible. */
  lemma SegmentIsVisible(workload: string)
    ensures WorkloadSegment(workload) == if Visible(workload) == "" then "pod" else Collapse(Visible(workload), false)
  {
    var core := Core(Lowered(workload));
    var kept := core[..Fitting(core, |core|)];
    TrimOfCollapse(Lowered(workload));
    TrimOfCollapse(kept);
    CoreEnds(Lowered(workload));
    CutOfCollapse(core, |core|);
    WorkloadSegmentProperties(workload);
    assert core[..|core|] == core;
    hide Lowered, Trim, Core, Segment;
    if |Sanitize(workload)| <= MAX_WORKLOAD_SEGMENT {
      assert kept == core;
    }
  }

  // ----- the dots of the segment are the dots of the visible part -----

  /** The same as DotsGuarded, read from the left; `after` says what stands before. */
  predicate Guarded(after: bool, s: string)
    decreases |s|
  {
    s == "" ||
    (&& (s[0] == '.' ==> after && |s| > 1 && Alphanumeric(s[1]))
     && Guarded(Alphanumeric(s[0]), s[1..]))
  }

  predicate DotBetween(after: bool, s: string, i: nat)
    requires i < |s|
  {
    s[i] == '.' ==> (if i == 0 then after else Alphanumeric(s[i - 1])) && i + 1 < |s| && Alphanumeric(s[i + 1])
  }

  lemma {:induction false} GuardedMeans(after: bool, s: string)
    ensures Guarded(after, s) <==> forall i :: 0 <= i < |s| ==> DotBetween(after, s, i)
    decreases |s|
  {
    if s != "" {
      var t := s[1..];
      GuardedMeans(Alphanumeric(s[0]), t);
      forall i | 0 <= i < |t| ensures DotBetween(Alphanumeric(s[0]), t, i) <==> DotBetween(after, s, i + 1) {
      }
      assert forall i :: 0 < i < |s| ==> (DotBetween(after, s, i) <==> DotBetween(Alphanumeric(s[0]), t, i - 1));
      assert DotBetween(after, s, 0) <==> (s[0] == '.' ==> after && |s| > 1 && Alphanumeric(s[1]));
    }
  }

  lemma {:induction false} CollapseKeepsGuard(after: bool, s: string, inRun: bool)
    requires inRun ==> !after
    ensures Guarded(after, Collapse(s, inRun)) <==> Guarded(after, s)
    decreases |s|
  {
    if s != "" {
      CollapseKeepsGuard(Alphanumeric(s[0]), s[1..], !NameChar(s[0]));
      CollapseCons(s, inRun);
      if |s| > 1 {
        CollapseCons(s[1..], !NameChar(s[0]));
      }
      hide Collapse, Alphanumeric;
    }
  }

  lemma EndsNeedNoGuard(s: string)
    requires s != "" ==> Alphanumeric(s[0]) && Alphanumeric(s[|s| - 1])
    ensures Guarded(false, s) <==> DotsGuarded(s)
  {
    GuardedMeans(false, s);
    hide Guarded;
    if Guarded(false, s) {
      forall i | 0 < i < |s| - 1 && s[i] == '.' ensures Alphanumeric(s[i - 1]) && Alphanumeric(s[i + 1]) {
        assert DotBetween(false, s, i);
      }
    }
  }

  lemma VisibleDots(workload: string)
    ensures DotsGuarded(WorkloadSegment(workload)) <==> DotsSeparate(workload)
  {
    var v := Visible(workload);
    SegmentIsVisible(workload);
    VisibleEnds(workload);
    WorkloadSegmentProperties(workload);
    hide Visible, WorkloadSegment, Guarded, DotsGuarded, Alphanumeric, Collapse;
    EndsNeedNoGuard(v);
    EndsNeedNoGuard(WorkloadSegment(workload));
    CollapseKeepsGuard(false, v, false);
    NoDots();
  }

  lemma NoDots()
    ensures DotsGuarded("") && DotsGuarded("pod")
  {
  }

  lemma VisibleEnds(workload: string)
    ensures var v := Visible(workload);
            v != "" ==> Alphanumeric(v[0]) && Alphanumeric(v[|v| - 1])
  {
    var core := Core(Lowered(workload));
    CoreEnds(core[..Fitting(core, |core|)]);
    hide Core, Fitting, Lowered;
  }

  /** A generated name is a DNS subdomain exactly when, in the part of the workload that it shows, every
      dot stands between alphanumeric characters. */
  lemma NameIsSubdomainExactly(workload: string, f: FailureType, signature: string)
    requires Hex(signature)
    ensures Subdomain(DiagnosisName(workload, f, signature)) <==> DotsSeparate(workload)
  {
    SegmentDecides(workload, f, signature);
    VisibleDots(workload);
  }

  lemma PlainSegment(w: string)
    requires Segment(w) && |w| <= MAX_WORKLOAD_SEGMENT
    ensures WorkloadSegment(w) == w
  {
    NameCharsUnchanged(w);
    TrimLeftProperties(w);
    TrimRightProperties(w);
    hide Lowered, Collapse, TrimLeft, TrimRight;
  }

  /** So a workload whose name Kubernetes would refuse can yield a name that it refuses. */
  lemma SomeNamesAreRefused()
    ensures !Subdomain(DiagnosisName("a.-b", OOMKilled, "00000000"))
  {
    hide WorkloadSegment, DiagnosisName;
    var w := "a.-b";
    PlainSegment(w);
    SegmentDecides(w, OOMKilled, "00000000");
    assert w[1] == '.' && w[2] == '-';
  }
}
