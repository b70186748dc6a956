/** internal/detector/signature.go: the deduplication key, and the object name derived from it. */
module Signature {
  import opened Wrappers
  import opened Text
  import opened Kinds

  const SIGNATURE_LENGTH := 8
  const MAX_NAME_LENGTH := 253
  const MAX_WORKLOAD_SEGMENT := 180

  // ----- the key that is hashed -----

  /** The five fields joined by NUL, which is what the hash is taken of. */
  function Key(namespaceName: string, kind: string, name: string, container: string, f: FailureType): string {
    namespaceName + (['\0'] + (kind + (['\0'] + (name + (['\0'] + (container + (['\0'] + FailureName(f))))))))
  }

  /** The first eight hexadecimal characters of the hash, whatever the hash is. */
  function Of(hash: string -> string, key: string): string
    requires |hash(key)| >= SIGNATURE_LENGTH
  {
    hash(key)[..SIGNATURE_LENGTH]
  }

  /** The key is the five fields, in that order, joined by NUL. */
  lemma KeyIsJoined(namespaceName: string, kind: string, name: string, container: string, f: FailureType)
    ensures Key(namespaceName, kind, name, container, f) ==
            Join([namespaceName, kind, name, container, FailureName(f)], ['\0'])
  {
    hide FailureName;
    var z := ['\0'];
    var parts := [namespaceName, kind, name, container, FailureName(f)];
    assert parts[1..] == [kind, name, container, FailureName(f)];
    assert parts[1..][1..] == [name, container, FailureName(f)];
    assert parts[1..][1..][1..] == [container, FailureName(f)];
    assert parts[1..][1..][1..][1..] == [FailureName(f)];
    assert Join([container, FailureName(f)], z) == container + (z + FailureName(f));
    assert Join([name, container, FailureName(f)], z) == name + (z + Join([container, FailureName(f)], z));
    assert Join([kind, name, container, FailureName(f)], z) == kind + (z + Join([name, container, FailureName(f)], z));
  }

  lemma SplitAtNul(a: string, x: string, b: string, y: string)
    requires '\0' !in a && '\0' !in b && a + (['\0'] + x) == b + (['\0'] + y)
    ensures a == b && x == y
  {
    var s, t := a + (['\0'] + x), b + (['\0'] + y);
    assert s[|a|] == '\0' && t[|b|] == '\0';
    assert forall i :: 0 <= i < |b| ==> t[i] == b[i];
    assert forall i :: 0 <= i < |a| ==> s[i] == a[i];
    assert s[..|a|] == a && t[..|b|] == b && s[|a| + 1..] == x && t[|b| + 1..] == y;
  }

  /** Keys of fields without NUL are equal only when every field is. */
  lemma PlainKeysDiffer(
      ns1: string, kind1: string, name1: string, c1: string, f1: FailureType,
      ns2: string, kind2: string, name2: string, c2: string, f2: FailureType)
    requires '\0' !in ns1 && '\0' !in kind1 && '\0' !in name1 && '\0' !in c1
    requires '\0' !in ns2 && '\0' !in kind2 && '\0' !in name2 && '\0' !in c2
    requires Key(ns1, kind1, name1, c1, f1) == Key(ns2, kind2, name2, c2, f2)
    ensures ns1 == ns2 && kind1 == kind2 && name1 == name2 && c1 == c2 && f1 == f2
  {
    var e1, e2 := c1 + (['\0'] + FailureName(f1)), c2 + (['\0'] + FailureName(f2));
    var d1, d2 := name1 + (['\0'] + e1), name2 + (['\0'] + e2);
    var b1, b2 := kind1 + (['\0'] + d1), kind2 + (['\0'] + d2);
    SplitAtNul(ns1, b1, ns2, b2);
    SplitAtNul(kind1, d1, kind2, d2);
    SplitAtNul(name1, e1, name2, e2);
    SplitAtNul(c1, FailureName(f1), c2, FailureName(f2));
    NamesOfTypes(f1);
    NamesOfTypes(f2);
  }

  function Nuls(s: string): nat {
    if s == "" then 0 else Nuls(s[1..]) + if s[0] == '\0' then 1 else 0
  }

  lemma {:induction false} NulsAdd(a: string, b: string)
    ensures Nuls(a + b) == Nuls(a) + Nuls(b)
    decreases |a|
  {
    if a == "" {
      assert a + b == b;
    } else {
      assert (a + b)[1..] == a[1..] + b;
      NulsAdd(a[1..], b);
    }
  }

  lemma {:induction false} NoNuls(s: string)
    ensures Nuls(s) == 0 <==> '\0' !in s
  {
    if s != "" {
      NoNuls(s[1..]);
      assert s == [s[0]] + s[1..];
    }
  }

  lemma NulJoin(a: string, b: string)
    ensures Nuls(a + (['\0'] + b)) == Nuls(a) + 1 + Nuls(b)
  {
    NulsAdd(a, ['\0'] + b);
    assert (['\0'] + b)[1..] == b;
  }

  lemma KeyNuls(ns: string, kind: string, name: string, c: string, f: FailureType)
    ensures Nuls(Key(ns, kind, name, c, f)) == Nuls(ns) + Nuls(kind) + Nuls(name) + Nuls(c) + 4 + Nuls(FailureName(f))
  {
    hide Nuls, FailureName;
    var e := c + (['\0'] + FailureName(f));
    var d := name + (['\0'] + e);
    NulJoin(ns, kind + (['\0'] + d));
    NulJoin(kind, d);
    NulJoin(name, e);
    NulJoin(c, FailureName(f));
  }

  predicate Plain(ns: string, kind: string, name: string, c: string) {
    '\0' !in ns && '\0' !in kind && '\0' !in name && '\0' !in c
  }

  /** A failure whose fields hold no NUL shares its key with no other, whatever the other's fields hold. */
  lemma KeyInjective(
      ns1: string, kind1: string, name1: string, c1: string, f1: FailureType,
      ns2: string, kind2: string, name2: string, c2: string, f2: FailureType)
    requires Plain(ns1, kind1, name1, c1)
    requires Key(ns1, kind1, name1, c1, f1) == Key(ns2, kind2, name2, c2, f2)
    ensures ns1 == ns2 && kind1 == kind2 && name1 == name2 && c1 == c2 && f1 == f2
  {
    KeyNuls(ns1, kind1, name1, c1, f1);
    KeyNuls(ns2, kind2, name2, c2, f2);
    NamesHoldNoNul(f1);
    NamesHoldNoNul(f2);
    NoNuls(ns1);
    NoNuls(kind1);
    NoNuls(name1);
    NoNuls(c1);
    NoNuls(ns2);
    NoNuls(kind2);
    NoNuls(name2);
    NoNuls(c2);
    hide Key, Nuls, FailureName;
    PlainKeysDiffer(ns1, kind1, name1, c1, f1, ns2, kind2, name2, c2, f2);
  }

  lemma NamesHoldNoNul(f: FailureType)
    ensures Nuls(FailureName(f)) == 0
  {
    NamesOfTypes(f);
    NoNuls(FailureName(f));
    hide FailureName, Nuls;
  }

  lemma Regroup(a: string, b: string, c: string, t: string)
    ensures (a + (['\0'] + b)) + (['\0'] + (c + (['\0'] + t))) == a + (['\0'] + ((b + (['\0'] + c)) + (['\0'] + t)))
  {
  }

  lemma SplitNul(s: string) returns (a: string, b: string)
    requires '\0' in s
    ensures s == a + (['\0'] + b)
  {
    var i :| 0 <= i < |s| && s[i] == '\0';
    a, b := s[..i], s[i + 1..];
  }

  /** A NUL in any field makes the key another failure's too, so the condition is exact. */
  lemma NulSharesKey(ns: string, kind: string, name: string, c: string, f: FailureType)
    requires !Plain(ns, kind, name, c)
    ensures exists ns', kind', name', c' ::
              !(ns' == ns && kind' == kind && name' == name && c' == c)
              && Key(ns', kind', name', c', f) == Key(ns, kind, name, c, f)
  {
    hide FailureName;
    var z, n := ['\0'], FailureName(f);
    if '\0' in ns {
      var a, b := SplitNul(ns);
      Regroup(a, b, kind, name + (z + (c + (z + n))));
      assert Key(a, b + (z + kind), name, c, f) == Key(ns, kind, name, c, f);
    } else if '\0' in kind {
      var a, b := SplitNul(kind);
      Regroup(ns, a, b, name + (z + (c + (z + n))));
      assert Key(ns + (z + a), b, name, c, f) == Key(ns, kind, name, c, f);
    } else if '\0' in name {
      var a, b := SplitNul(name);
      Regroup(kind, a, b, c + (z + n));
      assert Key(ns, kind + (z + a), b, c, f) == Key(ns, kind, name, c, f);
    } else {
      var a, b := SplitNul(c);
      Regroup(name, a, b, n);
      assert Key(ns, kind, name + (z + a), b, f) == Key(ns, kind, name, c, f);
    }
  }

  // ----- sanitising -----

  predicate Alphanumeric(c: char) {
    'a' <= c <= 'z' || '0' <= c <= '9'
  }

  predicate NameChar(c: char) {
    Alphanumeric(c) || c == '-' || c == '.'
  }

  predicate Edge(c: char) {
    c == '-' || c == '.'
  }

  /** Go's lower-casing as far as a name can show it: ASCII letters, and the two other code points
      whose lower case is an ASCII letter. Anything else stays outside the permitted characters. */
  function Lower(c: char): char {
    if 'A' <= c <= 'Z' then (c as int + 32) as char
    else if c as int == 0x130 then 'i'
    else if c as int == 0x212A then 'k'
    else c
  }

  function Lowered(s: string): (r: string)
    ensures |r| == |s|
  {
    if s == [] then [] else [Lower(s[0])] + Lowered(s[1..])
  }

  /** Each maximal run of other characters becomes one dash; `inRun` says whether one is open. */
  function Collapse(s: string, inRun: bool): string {
    if s == [] then []
    else if NameChar(s[0]) then [s[0]] + Collapse(s[1..], false)
    else (if inRun then [] else ['-']) + Collapse(s[1..], true)
  }

  function Sanitize(s: string): string {
    Trim(Collapse(Lowered(s), false), Edge)
  }

  function WorkloadSegment(workload: string): string {
    var w := Sanitize(workload);
    if w == "" then "pod"
    else if |w| > MAX_WORKLOAD_SEGMENT then Trim(w[..MAX_WORKLOAD_SEGMENT], Edge)
    else w
  }

  function DiagnosisName(workload: string, f: FailureType, signature: string): string {
    var name := WorkloadSegment(workload) + ("-" + (Sanitize(FailureName(f)) + ("-" + signature)));
    if |name| > MAX_NAME_LENGTH then name[..MAX_NAME_LENGTH] else name
  }

  // ----- what trimming and sanitising leave -----

  predicate AllNameChars(s: string) {
    forall i :: 0 <= i < |s| ==> NameChar(s[i])
  }

  /** Non-empty, of permitted characters, with alphanumeric ends. */
  predicate Segment(s: string) {
    s != "" && AllNameChars(s) && Alphanumeric(s[0]) && Alphanumeric(s[|s| - 1])
  }

  lemma {:induction false} CollapsePermitted(s: string, inRun: bool)
    ensures AllNameChars(Collapse(s, inRun))
  {
    if s != [] {
      CollapsePermitted(s[1..], !NameChar(s[0]));
    }
  }

  lemma {:induction false} TrimLeftProperties(s: string)
    requires AllNameChars(s)
    ensures AllNameChars(TrimLeft(s, Edge)) && |TrimLeft(s, Edge)| <= |s|
    ensures TrimLeft(s, Edge) != [] ==> Alphanumeric(TrimLeft(s, Edge)[0])
    ensures s != [] && Alphanumeric(s[0]) ==> TrimLeft(s, Edge) == s
  {
    if s != [] && Edge(s[0]) {
      TrimLeftProperties(s[1..]);
    }
  }

  lemma {:induction false} TrimRightProperties(s: string)
    requires AllNameChars(s)
    ensures TrimRight(s, Edge) <= s
    ensures TrimRight(s, Edge) != [] ==> Alphanumeric(TrimRight(s, Edge)[|TrimRight(s, Edge)| - 1])
    ensures s != [] && Alphanumeric(s[0]) ==> TrimRight(s, Edge) != []
    ensures s != [] && Alphanumeric(s[|s| - 1]) ==> TrimRight(s, Edge) == s
  {
    if s != [] && Edge(s[|s| - 1]) {
      TrimRightProperties(s[..|s| - 1]);
    }
  }

  lemma SanitizeProperties(s: string)
    ensures Sanitize(s) == "" || Segment(Sanitize(s))
  {
    var c := Collapse(Lowered(s), false);
    CollapsePermitted(Lowered(s), false);
    TrimLeftProperties(c);
    TrimRightProperties(TrimLeft(c, Edge));
  }

  lemma WorkloadSegmentProperties(workload: string)
    ensures Segment(WorkloadSegment(workload)) && |WorkloadSegment(workload)| <= MAX_WORKLOAD_SEGMENT
    ensures |Sanitize(workload)| > MAX_WORKLOAD_SEGMENT ==> WorkloadSegment(workload) <= Sanitize(workload)
  {
    var w := Sanitize(workload);
    SanitizeProperties(workload);
    hide Sanitize, TrimLeft, TrimRight;
    if w != "" && |w| > MAX_WORKLOAD_SEGMENT {
      var c := w[..MAX_WORKLOAD_SEGMENT];
      assert AllNameChars(c);
      TrimLeftProperties(c);
      TrimRightProperties(c);
    }
  }

  // ----- what sanitising keeps -----

  /** The letters and digits of a text. */
  function Letters09(s: string): string {
    if s == "" then "" else (if Alphanumeric(s[0]) then [s[0]] else []) + Letters09(s[1..])
  }

  lemma {:induction false} Letters09Add(a: string, b: string)
    ensures Letters09(a + b) == Letters09(a) + Letters09(b)
  {
    if a == "" {
      assert a + b == b;
    } else {
      assert (a + b)[1..] == a[1..] + b;
      Letters09Add(a[1..], b);
    }
  }

  lemma {:induction false} NoLetters(s: string)
    requires forall c <- s :: Edge(c)
    ensures Letters09(s) == ""
  {
    if s != "" {
      assert forall c <- s[1..] :: c in s;
      assert s[0] in s;
      NoLetters(s[1..]);
    }
  }

  lemma {:induction false} CollapseKeepsLetters(s: string, inRun: bool)
    ensures Letters09(Collapse(s, inRun)) == Letters09(s)
  {
    if s != "" {
      CollapseKeepsLetters(s[1..], !NameChar(s[0]));
      var t := Collapse(s[1..], !NameChar(s[0]));
      Letters09Add(if NameChar(s[0]) then [s[0]] else if inRun then [] else ['-'], t);
      assert Letters09(['-']) == "" && Letters09([s[0]]) == if Alphanumeric(s[0]) then [s[0]] else [];
      assert [] + t == t;
    }
  }

  /** Sanitising keeps every letter and digit, in order, in lower case; ASCII capitals become their small
      letters and every other ASCII character stays what it is. */
  lemma SanitizeKeepsLetters(s: string)
    ensures Letters09(Sanitize(s)) == Letters09(Lowered(s))
  {
    var c := Collapse(Lowered(s), false);
    CollapseKeepsLetters(Lowered(s), false);
    var a := TrimLeftCuts(c, Edge);
    var b := TrimRightCuts(TrimLeft(c, Edge), Edge);
    NoLetters(a);
    NoLetters(b);
    Letters09Add(a, TrimLeft(c, Edge));
    Letters09Add(Sanitize(s), b);
    hide Letters09, TrimLeft, TrimRight, Collapse, Lowered;
    assert Letters09(Sanitize(s)) + "" == Letters09(Sanitize(s));
  }

  lemma {:induction false} LoweredMeans(s: string, i: nat)
    requires i < |s|
    ensures 'A' <= s[i] <= 'Z' ==> Lowered(s)[i] as int - 'a' as int == s[i] as int - 'A' as int
    ensures s[i] < '\U{80}' && !('A' <= s[i] <= 'Z') ==> Lowered(s)[i] == s[i]
  {
    if i > 0 {
      LoweredMeans(s[1..], i - 1);
    }
  }

  // ----- failure types -----

  predicate Letters(s: string) {
    forall i :: 0 <= i < |s| ==> 'a' <= s[i] <= 'z' || 'A' <= s[i] <= 'Z'
  }

  lemma {:induction false} LettersOnlyLowered(s: string)
    requires Letters(s)
    ensures Collapse(Lowered(s), false) == Lowered(s)
    ensures forall i :: 0 <= i < |s| ==> Lowered(s)[i] == Lower(s[i]) && 'a' <= Lowered(s)[i] <= 'z'
  {
    if s != [] {
      LettersOnlyLowered(s[1..]);
    }
  }

  function NameLength(f: FailureType): nat {
    match f
    case CrashLoopBackOff => 16
    case OOMKilled => 9
    case ImagePullBackOff => 16
    case CreateContainerConfigError => 26
    case RunContainerError => 17
    case Unschedulable => 13
    case ProbeFailure => 12
    case Evicted => 7
  }

  lemma ErrorNamesAreLetters(f: FailureType)
    requires f.CreateContainerConfigError? || f.RunContainerError?
    ensures Letters(FailureName(f))
  {
  }

  lemma BackOffNamesAreLetters(f: FailureType)
    requires f.CrashLoopBackOff? || f.ImagePullBackOff?
    ensures Letters(FailureName(f))
  {
  }

  lemma OtherNamesAreLetters(f: FailureType)
    requires f.OOMKilled? || f.Unschedulable? || f.ProbeFailure? || f.Evicted?
    ensures Letters(FailureName(f))
  {
  }

  lemma NamesOfTypes(f: FailureType)
    ensures var n := FailureName(f);
            && Letters(n) && |n| == NameLength(f)
            && (f.CrashLoopBackOff? ==> n[0] == 'C') && (f.ImagePullBackOff? ==> n[0] == 'I')
  {
    hide Letters;
    if f.CreateContainerConfigError? || f.RunContainerError? {
      ErrorNamesAreLetters(f);
    } else if f.CrashLoopBackOff? || f.ImagePullBackOff? {
      BackOffNamesAreLetters(f);
    } else {
      OtherNamesAreLetters(f);
    }
  }

  /** A failure type's segment is its name in lower case: it holds no dash and tells the types apart. */
  lemma TypeSegment(f: FailureType)
    ensures Sanitize(FailureName(f)) == Lowered(FailureName(f))
    ensures forall i :: 0 <= i < |FailureName(f)| ==> 'a' <= Lowered(FailureName(f))[i] <= 'z'
  {
    var n := FailureName(f);
    NamesOfTypes(f);
    hide FailureName;
    LettersOnlyLowered(n);
    assert AllNameChars(Lowered(n));
    TrimLeftProperties(Lowered(n));
    TrimRightProperties(Lowered(n));
  }

  lemma TypeSegmentInjective(f: FailureType, g: FailureType)
    ensures Sanitize(FailureName(f)) == Sanitize(FailureName(g)) ==> f == g
  {
    TypeSegment(f);
    TypeSegment(g);
    NamesOfTypes(f);
    NamesOfTypes(g);
    LettersOnlyLowered(FailureName(f));
    LettersOnlyLowered(FailureName(g));
    hide FailureName, Lowered, Sanitize;
    assert Lower('C') == 'c' && Lower('I') == 'i';
  }

  // ----- the name -----

  predicate Hex(s: string) {
    |s| == SIGNATURE_LENGTH && forall i :: 0 <= i < |s| ==> '0' <= s[i] <= '9' || 'a' <= s[i] <= 'f'
  }

  /** The final cut is never reached, and the name is a segment of at most 216 characters. */
  lemma NameShape(workload: string, f: FailureType, signature: string)
    requires Hex(signature)
    ensures var w, t := WorkloadSegment(workload), Sanitize(FailureName(f));
            DiagnosisName(workload, f, signature) == w + ("-" + (t + ("-" + signature)))
    ensures Segment(DiagnosisName(workload, f, signature)) && |DiagnosisName(workload, f, signature)| <= 216
  {
    var w, t := WorkloadSegment(workload), Sanitize(FailureName(f));
    WorkloadSegmentProperties(workload);
    TypeSegment(f);
    NamesOfTypes(f);
    hide WorkloadSegment, Sanitize, FailureName, Lowered;
    var name := w + ("-" + (t + ("-" + signature)));
    assert name[0] == w[0] && name[|name| - 1] == signature[7];
    forall i | 0 <= i < |name| ensures NameChar(name[i]) {
      assert |w| + 1 <= i < |w| + 1 + |t| ==> name[i] == t[i - |w| - 1];
    }
  }

  /** Where the last dash is; the start when there is none. */
  function LastDash(s: string): (i: int)
    ensures -1 <= i < |s|
  {
    if s == [] then -1 else if s[|s| - 1] == '-' then |s| - 1 else LastDash(s[..|s| - 1])
  }

  datatype Parsed = Parsed(workload: string, failure: string, signature: string)

  /** Reading a name back, from its end: the signature, then the type up to the last dash before it. */
  function ParseName(name: string): Option<Parsed> {
    if |name| < SIGNATURE_LENGTH + 1 then None
    else
      var rest := name[..|name| - SIGNATURE_LENGTH - 1];
      var i := LastDash(rest);
      if i < 0 then None
      else Some(Parsed(rest[..i], rest[i + 1..], name[|name| - SIGNATURE_LENGTH..]))
  }

  lemma {:induction false} LastDashBefore(w: string, t: string)
    requires '-' !in t
    ensures LastDash(w + ("-" + t)) == |w|
    decreases |t|
  {
    var s := w + ("-" + t);
    if t != [] {
      assert s[..|s| - 1] == w + ("-" + t[..|t| - 1]);
      LastDashBefore(w, t[..|t| - 1]);
    }
  }

  lemma PartsReadBack(w: string, t: string, signature: string)
    requires '-' !in t && |signature| == SIGNATURE_LENGTH
    ensures ParseName(w + ("-" + (t + ("-" + signature)))) == Some(Parsed(w, t, signature))
  {
    hide LastDash;
    var name, rest := w + ("-" + (t + ("-" + signature))), w + ("-" + t);
    assert |name| == |rest| + 1 + SIGNATURE_LENGTH;
    assert name[..|rest|] == rest && name[|rest| + 1..] == signature;
    LastDashBefore(w, t);
    assert rest[..|w|] == w && rest[|w| + 1..] == t;
  }

  /** The name reads back as exactly its workload segment, failure type and signature. */
  lemma NameRoundTrip(workload: string, f: FailureType, signature: string)
    requires Hex(signature)
    ensures ParseName(DiagnosisName(workload, f, signature)) ==
            Some(Parsed(WorkloadSegment(workload), Sanitize(FailureName(f)), signature))
  {
    NameShape(workload, f, signature);
    TypeSegment(f);
    hide WorkloadSegment, Sanitize, FailureName, Lowered, DiagnosisName, ParseName;
    assert '-' !in Sanitize(FailureName(f));
    PartsReadBack(WorkloadSegment(workload), Sanitize(FailureName(f)), signature);
  }

  /** So names collide only for equal segments, types and signatures: distinct signatures never share
      a name. */
  lemma NameInjective(w1: string, f1: FailureType, s1: string, w2: string, f2: FailureType, s2: string)
    requires Hex(s1) && Hex(s2)
    ensures DiagnosisName(w1, f1, s1) == DiagnosisName(w2, f2, s2) <==>
            WorkloadSegment(w1) == WorkloadSegment(w2) && f1 == f2 && s1 == s2
  {
    NameRoundTrip(w1, f1, s1);
    NameRoundTrip(w2, f2, s2);
    NameShape(w1, f1, s1);
    NameShape(w2, f2, s2);
    TypeSegmentInjective(f1, f2);
    hide WorkloadSegment, Sanitize, FailureName, DiagnosisName, ParseName;
  }
}
