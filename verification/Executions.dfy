/** The reconcilers, executed against a server that others use at the same time, do nothing the protocol
    does not do: whatever one execution leaves on the server, a run of the protocol leaves there. */
module Executions {
  import opened Wrappers
  import opened Evidence
  import opened Validation
  import opened Tools
  import opened Investigation
  import opened Api
  import opened Workload
  import opened InvestigatorController
  import opened Pipeline
  import opened PipelineRuns
  import opened Reconcilers

  // ----- runs of the protocol -----

  ghost predicate Path(hash: string -> string, s: State, steps: seq<Step>, t: State)
    decreases |steps|
  {
    if steps == [] then s == t
    else Takes(hash, s, steps[0]) && Path(hash, Next(s, steps[0]), steps[1..], t)
  }

  ghost predicate Leads(hash: string -> string, s: State, t: State) {
    exists steps :: Path(hash, s, steps, t)
  }

  lemma {:induction false} PathSnoc(hash: string -> string, s: State, steps: seq<Step>, t: State, a: Step)
    requires Path(hash, s, steps, t) && Takes(hash, t, a)
    ensures Path(hash, s, steps + [a], Next(t, a))
    decreases |steps|
  {
    hide Next, Enabled, Opens;
    if steps == [] {
      assert [a][1..] == [] && steps + [a] == [a];
    } else {
      PathSnoc(hash, Next(s, steps[0]), steps[1..], t, a);
      assert (steps + [a])[1..] == steps[1..] + [a];
    }
  }

  lemma LeadsOn(hash: string -> string, s: State, t: State, a: Step)
    requires Leads(hash, s, t) && Takes(hash, t, a)
    ensures Leads(hash, s, Next(t, a))
  {
    hide Takes, Next, Path;
    var steps :| Path(hash, s, steps, t);
    PathSnoc(hash, s, steps, t, a);
  }

  lemma LeadsNowhere(hash: string -> string, s: State)
    ensures Leads(hash, s, s)
  {
    assert Path(hash, s, [], s);
  }

  // ----- what others do meanwhile -----

  /** A step that worker w does not take: time passing, a deletion, or another worker's step. */
  predicate NotBy(w: nat, a: Step) {
    a.Tick? || a.Delete? || a.worker != w
  }

  ghost predicate OthersPath(hash: string -> string, w: nat, s: State, steps: seq<Step>, t: State)
    decreases |steps|
  {
    if steps == [] then s == t
    else NotBy(w, steps[0]) && Takes(hash, s, steps[0]) && OthersPath(hash, w, Next(s, steps[0]), steps[1..], t)
  }

  /** The same to everyone but worker w: the server, the clock and every other worker agree. */
  ghost predicate Alike(w: nat, s: State, p: State) {
    && SameServer(s, p) && s.now == p.now
    && forall x :: x != w ==>
         (x in s.workers <==> x in p.workers) && (x in s.workers ==> s.workers[x] == p.workers[x])
  }

  lemma EnabledAlike(hash: string -> string, w: nat, s: State, p: State, a: Step)
    requires Alike(w, s, p) && NotBy(w, a) && Takes(hash, s, a)
    ensures Takes(hash, p, a)
  {
    hide Opens, EvidenceFor, Investigated;
    assert !a.Tick? && !a.Delete? ==> WorkerAt(s, a.worker) == WorkerAt(p, a.worker);
  }

  lemma WorkerAlike(w: nat, s: State, p: State, x: nat, d: Worker)
    requires Alike(w, s, p) && x != w
    ensures Alike(w, WithWorker(s, x, d), WithWorker(p, x, d)) && WorkerAt(WithWorker(p, x, d), w) == WorkerAt(p, w)
  {
  }

  /** A version written by another worker, whether onto the server or not. */
  lemma WriteAlike(w: nat, s: State, p: State, x: nat, read: Object, status: Status, d: Worker)
    requires Alike(w, s, p) && x != w && Current(s, read)
    ensures Current(p, read)
    ensures var s', p' := Stored(s, Written(s, read, status)), Stored(p, Written(p, read, status));
            Alike(w, WithWorker(s', x, d), WithWorker(p', x, d)) && WorkerAt(WithWorker(p', x, d), w) == WorkerAt(p, w)
  {
    var s', p' := Stored(s, Written(s, read, status)), Stored(p, Written(p, read, status));
    assert Alike(w, s', p');
    hide Alike;
    WorkerAlike(w, s', p', x, d);
  }

  lemma CreateAlike(w: nat, s: State, p: State, x: nat)
    requires Alike(w, s, p) && x != w && WorkerAt(s, x).Opening?
    ensures WorkerAt(p, x) == WorkerAt(s, x)
    ensures Alike(w, AfterCreate(s, x), AfterCreate(p, x)) && WorkerAt(AfterCreate(p, x), w) == WorkerAt(p, w)
  {
    var d := WorkerAt(s, x);
    if d.key in s.objects {
      WorkerAlike(w, s, p, x, Idle);
    } else {
      var o := Object(d.key, s.nextVersion, s.nextUid, d.spec, EMPTY_STATUS);
      var s', p' := Stored(s.(nextUid := s.nextUid + 1), o), Stored(p.(nextUid := p.nextUid + 1), o);
      assert Alike(w, s', p');
      hide Alike, Stored;
      WorkerAlike(w, s', p', x, Worker.Opened(o, s.now));
    }
  }

  lemma FindingsAlike(w: nat, s: State, p: State, x: nat, stamp: int)
    requires Alike(w, s, p) && x != w && WorkerAt(s, x).Recording?
    ensures WorkerAt(p, x) == WorkerAt(s, x)
    ensures Alike(w, AfterWriteFindings(s, x, stamp), AfterWriteFindings(p, x, stamp))
    ensures WorkerAt(AfterWriteFindings(p, x, stamp), w) == WorkerAt(p, w)
  {
    var d := WorkerAt(s, x);
    if Current(s, d.latest) {
      hide HypothesizedStatus;
      WriteAlike(w, s, p, x, d.latest, HypothesizedStatus(d.latest.status, stamp, d.record, d.hypotheses), Idle);
    } else {
      WorkerAlike(w, s, p, x, Idle);
      WorkerAlike(w, s, p, x, Finished(d.seen, d.record, d.hypotheses));
    }
  }

  lemma NextAlike(w: nat, s: State, p: State, a: Step)
    requires Alike(w, s, p) && NotBy(w, a) && Enabled(s, a) && Enabled(p, a)
    ensures Alike(w, Next(s, a), Next(p, a)) && WorkerAt(Next(p, a), w) == WorkerAt(p, w)
  {
    hide Investigated, EvidenceFor, RecordOf, DetectedStatus, EnrichedStatus, Written;
    match a
    case Tick(_) =>
    case Delete(_) =>
    case Create(x) => CreateAlike(w, s, p, x);
    case WriteFindings(x, stamp) => FindingsAlike(w, s, p, x, stamp);
    case MarkDetected(x, stamp) => MarkAlike(w, s, p, x, stamp);
    case WriteEvidence(x, stamp, ev) => EvidenceAlike(w, s, p, x, stamp, ev);
    case _ => QuietAlike(w, s, p, a);
  }

  lemma MarkAlike(w: nat, s: State, p: State, x: nat, stamp: int)
    requires Alike(w, s, p) && x != w && Enabled(s, MarkDetected(x, stamp)) && Enabled(p, MarkDetected(x, stamp))
    ensures Alike(w, Next(s, MarkDetected(x, stamp)), Next(p, MarkDetected(x, stamp)))
    ensures WorkerAt(Next(p, MarkDetected(x, stamp)), w) == WorkerAt(p, w)
  {
    var made := WorkerAt(s, x).created;
    if Current(s, made) {
      hide DetectedStatus;
      WriteAlike(w, s, p, x, made, DetectedStatus(made.status, stamp), Idle);
    } else {
      WorkerAlike(w, s, p, x, Idle);
    }
  }

  lemma EvidenceAlike(w: nat, s: State, p: State, x: nat, stamp: int, ev: Evidence)
    requires Alike(w, s, p) && x != w
    requires Enabled(s, WriteEvidence(x, stamp, ev)) && Enabled(p, WriteEvidence(x, stamp, ev))
    ensures Alike(w, Next(s, WriteEvidence(x, stamp, ev)), Next(p, WriteEvidence(x, stamp, ev)))
    ensures WorkerAt(Next(p, WriteEvidence(x, stamp, ev)), w) == WorkerAt(p, w)
  {
    hide EvidenceFor, EnrichedStatus;
    var seen := WorkerAt(s, x).seen;
    if Current(s, seen) {
      WriteAlike(w, s, p, x, seen, EnrichedStatus(seen.status, stamp, ev), Idle);
    } else {
      WorkerAlike(w, s, p, x, Idle);
    }
  }

  /** Steps that change nothing but the position of the worker that takes them. */
  lemma QuietAlike(w: nat, s: State, p: State, a: Step)
    requires Alike(w, s, p) && NotBy(w, a) && Enabled(s, a) && Enabled(p, a)
    requires a.Miss? || a.ReadDetected? || a.ReadEnriched? || a.Conclude? || a.Reread? || a.Abandon?
    ensures Alike(w, Next(s, a), Next(p, a)) && WorkerAt(Next(p, a), w) == WorkerAt(p, w)
  {
    hide RecordOf, Investigated;
    assert WorkerAt(s, a.worker) == WorkerAt(p, a.worker);
    var d := WorkerAt(Next(s, a), a.worker);
    assert Next(s, a) == WithWorker(s, a.worker, d) && Next(p, a) == WithWorker(p, a.worker, d);
    hide Next, Enabled;
    WorkerAlike(w, s, p, a.worker, d);
  }

  /** What others can do, they can do whatever worker w is at. */
  lemma {:induction false} OthersSimulated(
      hash: string -> string, w: nat, start: State, s: State, steps: seq<Step>, t: State, p: State)
    returns (q: State)
    requires Leads(hash, start, p) && Alike(w, s, p) && OthersPath(hash, w, s, steps, t)
    ensures Leads(hash, start, q) && Alike(w, t, q) && WorkerAt(q, w) == WorkerAt(p, w)
    decreases |steps|
  {
    q := p;
    if steps != [] {
      EnabledAlike(hash, w, s, p, steps[0]);
      NextAlike(w, s, p, steps[0]);
      LeadsOn(hash, start, p, steps[0]);
      hide Next, Enabled, Opens, Leads, Alike;
      q := OthersSimulated(hash, w, start, Next(s, steps[0]), steps[1..], t, Next(p, steps[0]));
    }
  }

  // ----- an execution -----

  /** What a server in this state may answer. A read may be as old as anything ever stored, and a name
      may be reported missing at any time; a conflict is only reported of an object that has changed. */
  predicate Honest(s: State, r: Request, a: Response) {
    match r
    case Get(key) => a.Found? ==> a.current in s.history && a.current.key == key
    case Create(key, spec) =>
      a.Found? ==> key !in s.objects && a.current == Object(key, s.nextVersion, s.nextUid, spec, EMPTY_STATUS)
    case UpdateStatus(read, _) =>
      (a.Found? ==> Current(s, read)) && (a.Conflict? ==> !Current(s, read) && read.key in s.objects)
  }

  /** A request that was answered with success was served; one whose answer was lost may have been. */
  predicate Effect(s: State, r: Request, a: Response, t: State) {
    (t == s && !a.Found?) || (t == Served(s, r) && (a.Found? || a.Failure?))
  }

  function StampOf(s: Status): Option<int> {
    match s.phase
    case NoPhase => None
    case Detected => s.timings.detectedAt
    case Enriched => s.timings.enrichedAt
    case Hypothesized => s.timings.hypothesizedAt
  }

  /** The timestamp written was read off the clock after the last answer and before this request. */
  predicate Timely(since: int, r: Request, now: int) {
    r.UpdateStatus? ==> StampOf(r.status).Some? && since <= StampOf(r.status).value <= now
  }

  /** Others act, and then the request is served. */
  ghost predicate Exchange(
      hash: string -> string, w: nat, s: State, since: int, r: Request, a: Response, between: seq<Step>, u: State,
      v: State)
  {
    OthersPath(hash, w, s, between, u) && Timely(since, r, u.now) && Honest(u, r, a) && Effect(u, r, a, v)
  }

  /** The requests of a log from the i-th on, sent by worker w from this state, and where they lead. */
  ghost predicate Executes(
      hash: string -> string, w: nat, s: State, since: int, log: seq<Request>, answers: Answers,
      i: nat, t: State)
    decreases |log| - i
  {
    if i >= |log| then s == t
    else
      exists between, u, v ::
        && Exchange(hash, w, s, since, log[i], answers(i, log[i]), between, u, v)
        && Executes(hash, w, v, u.now, log, answers, i + 1, t)
  }

  /** A run of the protocol that has left the same on the server, with worker w in the given position. */
  ghost predicate Matches(hash: string -> string, start: State, w: nat, s: State, p: State, d: Worker) {
    Leads(hash, start, p) && Alike(w, s, p) && WorkerAt(p, w) == d
  }

  /** Up to the moment the next request is served. */
  lemma Meanwhile(
      hash: string -> string, start: State, w: nat, s: State, since: int, log: seq<Request>,
      answers: Answers, i: nat, t: State, p: State, d: Worker)
    returns (u: State, v: State, q: State)
    requires Matches(hash, start, w, s, p, d) && i < |log| && Executes(hash, w, s, since, log, answers, i, t)
    ensures Matches(hash, start, w, u, q, d)
    ensures Timely(since, log[i], u.now) && Honest(u, log[i], answers(i, log[i]))
    ensures Effect(u, log[i], answers(i, log[i]), v)
    ensures Executes(hash, w, v, u.now, log, answers, i + 1, t)
  {
    hide Leads, Alike, Honest, Timely, Effect, OthersPath;
    var between;
    between, u, v :| Exchange(hash, w, s, since, log[i], answers(i, log[i]), between, u, v)
                     && Executes(hash, w, v, u.now, log, answers, i + 1, t);
    q := OthersSimulated(hash, w, start, s, between, u, p);
  }

  /** Worker w takes a step of the protocol. */
  lemma Follow(hash: string -> string, start: State, w: nat, u: State, q: State, d: Worker, a: Step, v: State)
    requires Matches(hash, start, w, u, q, d) && Takes(hash, q, a) && Alike(w, v, Next(q, a))
    ensures Matches(hash, start, w, v, Next(q, a), WorkerAt(Next(q, a), w))
  {
    hide Takes, Next, Leads, Alike;
    LeadsOn(hash, start, q, a);
  }

  lemma GiveUp(hash: string -> string, start: State, w: nat, u: State, q: State, d: Worker) returns (q': State)
    requires Matches(hash, start, w, u, q, d)
    ensures Matches(hash, start, w, u, q', Idle)
  {
    hide Leads;
    q' := Next(q, Abandon(w));
    Follow(hash, start, w, u, q, d, Abandon(w), u);
  }

  // ----- the evidence controller -----

  lemma TakesUp(hash: string -> string, start: State, w: nat, u: State, q: State, o: Object) returns (q': State)
    requires Matches(hash, start, w, u, q, Idle) && o in u.history && o.status.phase.Detected?
    ensures Matches(hash, start, w, u, q', Gathering(o, u.now))
  {
    hide Leads;
    q' := Next(q, ReadDetected(w, o));
    Follow(hash, start, w, u, q, Idle, ReadDetected(w, o), u);
  }

  lemma ServedAlike(w: nat, u: State, q: State, read: Object, status: Status, d: Worker)
    requires Alike(w, u, q)
    ensures Current(u, read) <==> Current(q, read)
    ensures Alike(w, Served(u, UpdateStatus(read, status)),
                  WithWorker(if Current(q, read) then Stored(q, Written(q, read, status)) else q, w, d))
  {
  }

  lemma WritesEvidence(
      hash: string -> string, start: State, w: nat, u: State, q: State, o: Object, since: int, stamp: int, ev: Evidence)
    returns (q': State)
    requires Matches(hash, start, w, u, q, Gathering(o, since)) && since <= stamp <= u.now
    requires EvidenceFor(o.spec.failureType, ev)
    ensures Matches(hash, start, w, Served(u, UpdateStatus(o, EnrichedStatus(o.status, stamp, ev))), q', Idle)
  {
    hide Leads, EvidenceFor, EnrichedStatus, Stored, Written, Current, Served;
    var status := EnrichedStatus(o.status, stamp, ev);
    ServedAlike(w, u, q, o, status, Idle);
    q' := Next(q, WriteEvidence(w, stamp, ev));
    Follow(hash, start, w, u, q, Gathering(o, since), WriteEvidence(w, stamp, ev), Served(u, UpdateStatus(o, status)));
  }

  /** Whatever an execution of the evidence controller leaves on the server, a run leaves there. */
  lemma EvidenceExecutionIsRun(
      hash: string -> string, start: State, w: nat, s: State, t: State, p: State,
      log: seq<Request>, answers: Answers, base: nat, key: Key, pods: Pods, source: Source, facts: ContainerFacts,
      stamp: int, ev: Evidence, result: Result)
    requires base <= |log| && EvidenceSent(log, answers, base, key, pods, source, facts, stamp, ev, result)
    requires Matches(hash, start, w, s, p, Idle) && Executes(hash, w, s, s.now, log, answers, base, t)
    ensures exists q :: Matches(hash, start, w, t, q, Idle)
  {
    hide Matches, CollectedFor, EnrichedStatus, Served, Honest;
    assert log[base..][0] == Get(key);
    var u, v, q := Meanwhile(hash, start, w, s, s.now, log, answers, base, t, p, Idle);
    ReadChangesNothing(u, key, answers(base, Get(key)), v);
    if |log| == base + 1 {
      assert Matches(hash, start, w, t, q, Idle);
    } else {
      var o := answers(base, Get(key)).current;
      var write := UpdateStatus(o, EnrichedStatus(o.status, stamp, ev));
      assert log[base..][1] == write;
      FoundIsStored(u, key, answers(base, Get(key)));
      q := TakesUp(hash, start, w, u, q, o);
      var u2, v2, q2 := Meanwhile(hash, start, w, v, u.now, log, answers, base + 1, t, q, Gathering(o, u.now));
      StampOfEnriched(o.status, stamp, ev);
      if v2 == u2 {
        q2 := GiveUp(hash, start, w, u2, q2, Gathering(o, u.now));
      } else {
        q2 := WritesEvidence(hash, start, w, u2, q2, o, u.now, stamp, ev);
      }
    }
  }

  lemma ReadChangesNothing(u: State, key: Key, a: Response, v: State)
    requires Effect(u, Get(key), a, v)
    ensures u == v
  {
  }

  lemma FoundIsStored(u: State, key: Key, a: Response)
    requires Honest(u, Get(key), a) && a.Found?
    ensures a.current in u.history && a.current.key == key
  {
  }

  lemma StampOfEnriched(s: Status, stamp: int, ev: Evidence)
    ensures StampOf(EnrichedStatus(s, stamp, ev)) == Some(stamp)
  {
  }

  // ----- the detector -----

  lemma Looks(hash: string -> string, start: State, w: nat, u: State, q: State, key: Key, spec: Spec) returns (q': State)
    requires Matches(hash, start, w, u, q, Idle) && Opens(hash, key, spec)
    ensures Matches(hash, start, w, u, q', Opening(key, spec))
  {
    hide Leads, Opens;
    q' := Next(q, Miss(w, key, spec));
    Follow(hash, start, w, u, q, Idle, Miss(w, key, spec), u);
  }

  lemma Creates(hash: string -> string, start: State, w: nat, u: State, q: State, key: Key, spec: Spec)
    returns (q': State)
    requires Matches(hash, start, w, u, q, Opening(key, spec)) && key !in u.objects
    ensures var made := Object(key, u.nextVersion, u.nextUid, spec, EMPTY_STATUS);
            Matches(hash, start, w, Served(u, Request.Create(key, spec)), q', Worker.Opened(made, u.now))
  {
    hide Leads;
    q' := Next(q, Step.Create(w));
    Follow(hash, start, w, u, q, Opening(key, spec), Step.Create(w), Served(u, Request.Create(key, spec)));
  }

  lemma Marks(hash: string -> string, start: State, w: nat, u: State, q: State, made: Object, since: int, stamp: int)
    returns (q': State)
    requires Matches(hash, start, w, u, q, Worker.Opened(made, since)) && since <= stamp <= u.now
    ensures Matches(hash, start, w, Served(u, UpdateStatus(made, DetectedStatus(made.status, stamp))), q', Idle)
  {
    hide Leads, DetectedStatus, Stored, Written, Current, Served;
    var status := DetectedStatus(made.status, stamp);
    ServedAlike(w, u, q, made, status, Idle);
    q' := Next(q, MarkDetected(w, stamp));
    Follow(hash, start, w, u, q, Worker.Opened(made, since), MarkDetected(w, stamp),
           Served(u, UpdateStatus(made, status)));
  }

  lemma CreateEffect(u: State, key: Key, spec: Spec, a: Response, v: State)
    requires Honest(u, Request.Create(key, spec), a) && Effect(u, Request.Create(key, spec), a, v)
    ensures v != u ==> key !in u.objects && v == Served(u, Request.Create(key, spec))
    ensures a.Found? ==> v != u && a.current == Object(key, u.nextVersion, u.nextUid, spec, EMPTY_STATUS)
  {
  }

  lemma UpdateEffect(u: State, read: Object, status: Status, a: Response, v: State)
    requires Effect(u, UpdateStatus(read, status), a, v)
    ensures v != u ==> v == Served(u, UpdateStatus(read, status))
  {
  }

  lemma StampOfDetected(s: Status, stamp: int)
    ensures StampOf(DetectedStatus(s, stamp)) == Some(stamp)
  {
  }

  /** From a failure named to whatever the execution leaves. */
  lemma OpeningIsRun(
      hash: string -> string, start: State, w: nat, s: State, since: int, t: State, p: State,
      log: seq<Request>, answers: Answers, i: nat, key: Key, spec: Spec, stamp: int)
    requires Matches(hash, start, w, s, p, Opening(key, spec)) && Executes(hash, w, s, since, log, answers, i, t)
    requires i < |log| && log[i] == Request.Create(key, spec)
    requires var a := answers(i, log[i]);
             if a.Found? then
               |log| == i + 2 && log[i + 1] == UpdateStatus(a.current, DetectedStatus(a.current.status, stamp))
             else |log| == i + 1
    ensures exists q :: Matches(hash, start, w, t, q, Idle)
  {
    hide Matches, DetectedStatus, Served, Honest, Effect;
    var a := answers(i, log[i]);
    var u, v, q := Meanwhile(hash, start, w, s, since, log, answers, i, t, p, Opening(key, spec));
    CreateEffect(u, key, spec, a, v);
    if v == u {
      q := GiveUp(hash, start, w, u, q, Opening(key, spec));
      assert Matches(hash, start, w, t, q, Idle);
    } else {
      var made := Object(key, u.nextVersion, u.nextUid, spec, EMPTY_STATUS);
      q := Creates(hash, start, w, u, q, key, spec);
      if |log| == i + 1 {
        q := GiveUp(hash, start, w, v, q, Worker.Opened(made, u.now));
        assert Matches(hash, start, w, t, q, Idle);
      } else {
        var u2, v2, q2 := Meanwhile(hash, start, w, v, u.now, log, answers, i + 1, t, q, Worker.Opened(made, u.now));
        StampOfDetected(made.status, stamp);
        UpdateEffect(u2, made, DetectedStatus(made.status, stamp), answers(i + 1, log[i + 1]), v2);
        if v2 == u2 {
          q2 := GiveUp(hash, start, w, u2, q2, Worker.Opened(made, u.now));
        } else {
          q2 := Marks(hash, start, w, u2, q2, made, u.now, stamp);
        }
        assert Matches(hash, start, w, t, q2, Idle);
      }
    }
  }

  /** Whatever an execution of the detector leaves on the server, a run leaves there. */
  lemma DetectorExecutionIsRun(
      hash: string -> string, start: State, w: nat, s: State, t: State, p: State,
      log: seq<Request>, answers: Answers, base: nat, limit: int, x: Sighting, key: Key, spec: Spec, result: Result)
    requires base <= |log| && DetectorSent(log, answers, base, limit, x, key, spec, result) && Opens(hash, key, spec)
    requires Matches(hash, start, w, s, p, Idle) && Executes(hash, w, s, s.now, log, answers, base, t)
    ensures exists q :: Matches(hash, start, w, t, q, Idle)
  {
    hide Matches, DetectorSent, Served, Honest, Effect, Opens, DetectedStatus;
    DetectorLog(log, answers, base, limit, x, key, spec, result);
    var u, v, q := Meanwhile(hash, start, w, s, s.now, log, answers, base, t, p, Idle);
    ReadChangesNothing(u, key, answers(base, Get(key)), v);
    if |log| == base + 1 {
      assert Matches(hash, start, w, t, q, Idle);
    } else {
      q := Looks(hash, start, w, u, q, key, spec);
      OpeningIsRun(hash, start, w, v, u.now, t, q, log, answers, base + 1, key, spec, x.stamp);
    }
  }

  /** The requests of a detection, one by one. */
  lemma DetectorLog(
      log: seq<Request>, answers: Answers, base: nat, limit: int, x: Sighting, key: Key, spec: Spec, result: Result)
    requires base <= |log| && DetectorSent(log, answers, base, limit, x, key, spec, result)
    ensures |log| > base && log[base] == Get(key)
    ensures |log| > base + 1 ==>
              && log[base + 1] == Request.Create(key, spec)
              && var a := answers(base + 1, log[base + 1]);
                 if a.Found? then
                   && |log| == base + 3
                   && log[base + 2] == UpdateStatus(a.current, DetectedStatus(a.current.status, x.stamp))
                 else |log| == base + 2
  {
    hide Within, DetectedStatus, Reason;
    var sent := log[base..];
    assert forall k :: 0 <= k < |sent| ==> sent[k] == log[base + k];
  }

  // ----- the investigator -----

  lemma Investigates(
      hash: string -> string, start: State, w: nat, u: State, q: State, d: Object, config: AgentConfig, pricing: Pricing,
      f: Findings, calls: seq<AuditRecord>)
    returns (q': State)
    requires Matches(hash, start, w, u, q, Idle) && d in u.history && d.status.phase.Enriched?
    requires Investigated(d.key.namespaceName, d.spec, d.status.evidence, config, pricing, f, calls)
    ensures Matches(hash, start, w, u, q', Finished(d, RecordOf(f, calls), f.hypotheses))
  {
    hide Leads, Investigated, RecordOf;
    var seen := Next(q, ReadEnriched(w, d));
    Follow(hash, start, w, u, q, Idle, ReadEnriched(w, d), u);
    q' := Next(seen, Conclude(w, config, pricing, f, calls));
    Follow(hash, start, w, u, seen, Investigating(d), Conclude(w, config, pricing, f, calls), u);
  }

  lemma Rereads(hash: string -> string, start: State, w: nat, u: State, q: State, d: Worker, latest: Object)
    returns (q': State)
    requires d.Finished? && Matches(hash, start, w, u, q, d)
    requires latest in u.history && latest.key == d.seen.key && latest.status.phase.Enriched?
    ensures Matches(hash, start, w, u, q', Recording(d.seen, d.record, d.hypotheses, latest, u.now))
  {
    hide Leads;
    q' := Next(q, Reread(w, latest));
    Follow(hash, start, w, u, q, d, Reread(w, latest), u);
  }

  lemma RecordsFindings(hash: string -> string, start: State, w: nat, u: State, q: State, d: Worker, stamp: int)
    returns (q': State)
    requires d.Recording? && Matches(hash, start, w, u, q, d) && d.since <= stamp <= u.now
    requires Current(u, d.latest)
    ensures var write := UpdateStatus(d.latest, HypothesizedStatus(d.latest.status, stamp, d.record, d.hypotheses));
            Matches(hash, start, w, Served(u, write), q', Idle)
  {
    hide Leads, HypothesizedStatus;
    var status := HypothesizedStatus(d.latest.status, stamp, d.record, d.hypotheses);
    ServedAlike(w, u, q, d.latest, status, Idle);
    q' := Next(q, WriteFindings(w, stamp));
    Follow(hash, start, w, u, q, d, WriteFindings(w, stamp), Served(u, UpdateStatus(d.latest, status)));
  }

  lemma StartsOver(hash: string -> string, start: State, w: nat, u: State, q: State, d: Worker, stamp: int)
    returns (q': State)
    requires d.Recording? && Matches(hash, start, w, u, q, d) && d.since <= stamp <= u.now
    requires !Current(u, d.latest) && d.latest.key in u.objects
    ensures Matches(hash, start, w, u, q', Finished(d.seen, d.record, d.hypotheses))
  {
    hide Leads, HypothesizedStatus;
    q' := Next(q, WriteFindings(w, stamp));
    Follow(hash, start, w, u, q, d, WriteFindings(w, stamp), u);
  }

  lemma WriteEffect(u: State, read: Object, status: Status, a: Response, v: State)
    requires Effect(u, UpdateStatus(read, status), a, v) && Honest(u, UpdateStatus(read, status), a)
    ensures v != u ==> Current(u, read) && v == Served(u, UpdateStatus(read, status))
    ensures a.Conflict? ==> v == u && !Current(u, read) && read.key in u.objects
  {
  }

  lemma StampOfHypothesized(s: Status, stamp: int, record: InvestigationRecord, hypotheses: seq<Hypothesis>)
    ensures StampOf(HypothesizedStatus(s, stamp, record, hypotheses)) == Some(stamp)
  {
  }

  /** One attempt, from the findings in hand: over, or back to them after a conflict. */
  lemma AttemptIsRun(
      hash: string -> string, start: State, w: nat, s: State, since: int, t: State, p: State,
      log: seq<Request>, answers: Answers, j: nat, r: Recordable, i: nat, seen: Object)
    returns (s': State, since': int, p': State)
    requires Matches(hash, start, w, s, p, Finished(seen, r.record, r.hypotheses)) && seen.key == r.key
    requires Executes(hash, w, s, since, log, answers, j, t)
    requires j < |log| && log[j] == Get(r.key)
    requires var a := answers(j, log[j]);
             a.Found? && a.current.status.phase.Enriched? && j + 1 < |log| && log[j + 1] == Stamped(r, a.current, i)
    ensures Executes(hash, w, s', since', log, answers, j + 2, t)
    ensures Matches(hash, start, w, s', p',
                    if answers(j + 1, log[j + 1]).Conflict? then Finished(seen, r.record, r.hypotheses) else Idle)
  {
    hide Matches, HypothesizedStatus, Served, Honest, Effect;
    var latest := answers(j, log[j]).current;
    var status := HypothesizedStatus(latest.status, r.stamps(i), r.record, r.hypotheses);
    var u, v, q := Meanwhile(hash, start, w, s, since, log, answers, j, t, p, Finished(seen, r.record, r.hypotheses));
    ReadChangesNothing(u, r.key, answers(j, log[j]), v);
    FoundIsStored(u, r.key, answers(j, log[j]));
    q := Rereads(hash, start, w, u, q, Finished(seen, r.record, r.hypotheses), latest);
    var d := Recording(seen, r.record, r.hypotheses, latest, u.now);
    var u2, v2, q2 := Meanwhile(hash, start, w, v, u.now, log, answers, j + 1, t, q, d);
    StampOfHypothesized(latest.status, r.stamps(i), r.record, r.hypotheses);
    WriteEffect(u2, latest, status, answers(j + 1, log[j + 1]), v2);
    s', since' := v2, u2.now;
    if answers(j + 1, log[j + 1]).Conflict? {
      p' := StartsOver(hash, start, w, u2, q2, d, r.stamps(i));
    } else if v2 == u2 {
      p' := GiveUp(hash, start, w, u2, q2, d);
    } else {
      p' := RecordsFindings(hash, start, w, u2, q2, d, r.stamps(i));
    }
  }

  lemma ExecutionEnds(
      hash: string -> string, w: nat, s: State, since: int, log: seq<Request>, answers: Answers,
      i: nat, t: State)
    requires Executes(hash, w, s, since, log, answers, i, t) && i >= |log|
    ensures s == t
  {
  }

  /** The attempts from the i-th on. */
  lemma {:induction false} RecordingIsRun(
      hash: string -> string, start: State, w: nat, s: State, since: int, t: State, p: State,
      log: seq<Request>, answers: Answers, base: nat, r: Recordable, i: nat, n: nat, err: Option<string>, seen: Object)
    requires Matches(hash, start, w, s, p, Finished(seen, r.record, r.hypotheses)) && seen.key == r.key
    requires Executes(hash, w, s, since, log, answers, base + 2 * i, t) && i <= n
    requires Attempted(log, answers, base, r, n) && Settled(log, answers, base, r, n, err)
    ensures exists q :: Matches(hash, start, w, t, q, Idle)
    decreases n - i
  {
    var j := base + 2 * i;
    hide Matches, Stamped, Reason, Executes;
    if i < n {
      assert MetConflict(answers, base, r, i);
      var s', since', p' := AttemptIsRun(hash, start, w, s, since, t, p, log, answers, j, r, i, seen);
      hide Attempted, Settled;
      RecordingIsRun(hash, start, w, s', since', t, p', log, answers, base, r, i + 1, n, err, seen);
    } else if j == |log| {
      var q := GiveUp(hash, start, w, s, p, Finished(seen, r.record, r.hypotheses));
      ExecutionEnds(hash, w, s, since, log, answers, j, t);
    } else if |log| == j + 1 {
      var u, v, q := Meanwhile(hash, start, w, s, since, log, answers, j, t, p, Finished(seen, r.record, r.hypotheses));
      ReadChangesNothing(u, r.key, answers(j, log[j]), v);
      q := GiveUp(hash, start, w, u, q, Finished(seen, r.record, r.hypotheses));
      ExecutionEnds(hash, w, v, u.now, log, answers, j + 1, t);
    } else {
      var s', since', p' := AttemptIsRun(hash, start, w, s, since, t, p, log, answers, j, r, i, seen);
      ExecutionEnds(hash, w, s', since', log, answers, j + 2, t);
    }
  }

  /** The requests of an investigator that records findings. */
  lemma FindingsExecutionIsRun(
      hash: string -> string, start: State, w: nat, s: State, t: State, p: State,
      log: seq<Request>, answers: Answers, base: nat, key: Key, d: Object,
      policies: (string, string) -> AgentPolicy, pricing: Pricing, stamps: nat -> int, f: Findings,
      calls: seq<AuditRecord>, conflicts: nat, result: Result)
    requires PolicyOf(d, policies).Governs? && base < |log|
    requires answers(base, Get(key)) == Response.Found(d) && d.status.phase.Enriched?
    requires FindingsSent(log, answers, base, key, d, policies, pricing, stamps, f, calls, conflicts, result)
    requires Matches(hash, start, w, s, p, Idle) && Executes(hash, w, s, s.now, log, answers, base, t)
    ensures exists q :: Matches(hash, start, w, t, q, Idle)
  {
    hide Matches, Investigated, RecordOf, Attempted, Settled, Honest, Effect;
    var r := Recordable(key, RecordOf(f, calls), f.hypotheses, stamps);
    var u, v, q := Meanwhile(hash, start, w, s, s.now, log, answers, base, t, p, Idle);
    ReadChangesNothing(u, key, answers(base, Get(key)), v);
    FoundIsStored(u, key, answers(base, Get(key)));
    q := Investigates(hash, start, w, u, q, d, PolicyOf(d, policies).config, pricing, f, calls);
    var err :| Settled(log, answers, base + 1, r, conflicts, err);
    RecordingIsRun(hash, start, w, v, u.now, t, q, log, answers, base + 1, r, 0, conflicts, err, d);
  }

  /** An execution that only reads leaves what others leave. */
  lemma ReadIsRun(
      hash: string -> string, start: State, w: nat, s: State, t: State, p: State,
      log: seq<Request>, answers: Answers, base: nat, key: Key)
    requires base <= |log| && log[base..] == [Get(key)]
    requires Matches(hash, start, w, s, p, Idle) && Executes(hash, w, s, s.now, log, answers, base, t)
    ensures exists q :: Matches(hash, start, w, t, q, Idle)
  {
    hide Matches, Honest, Effect;
    assert log[base..][0] == Get(key);
    var u, v, q := Meanwhile(hash, start, w, s, s.now, log, answers, base, t, p, Idle);
    ReadChangesNothing(u, key, answers(base, Get(key)), v);
  }

  /** Whatever an execution of the investigator leaves on the server, a run leaves there. */
  lemma InvestigatorExecutionIsRun(
      hash: string -> string, start: State, w: nat, s: State, t: State, p: State,
      log: seq<Request>, answers: Answers, base: nat, key: Key, policies: (string, string) -> AgentPolicy,
      pricing: Pricing, hasModel: bool, failure: Option<string>, stamps: nat -> int, f: Findings,
      calls: seq<AuditRecord>, conflicts: nat, result: Result)
    requires base <= |log|
    requires InvestigatorSent(log, answers, base, key, policies, pricing, hasModel, failure, stamps, f, calls,
                              conflicts, result)
    requires Matches(hash, start, w, s, p, Idle) && Executes(hash, w, s, s.now, log, answers, base, t)
    ensures exists q :: Matches(hash, start, w, t, q, Idle)
  {
    hide Matches, Executes, Attempted, Settled, Investigated;
    var read := answers(base, Get(key));
    if CallsForInvestigation(read, policies, hasModel) && failure.None? {
      FindingsExecutionIsRun(hash, start, w, s, t, p, log, answers, base, key, read.current, policies, pricing, stamps,
                             f, calls, conflicts, result);
    } else {
      ReadIsRun(hash, start, w, s, t, p, log, answers, base, key);
    }
  }

  // ----- so what holds of every run holds of every execution -----

  lemma {:induction false} PathKeepsInv(hash: string -> string, s: State, steps: seq<Step>, t: State)
    requires Inv(s) && Path(hash, s, steps, t)
    ensures Inv(t)
    decreases |steps|
  {
    hide Inv, Next, Enabled, Opens;
    if steps != [] {
      StepKeepsInv(s, steps[0]);
      PathKeepsInv(hash, Next(s, steps[0]), steps[1..], t);
    }
  }

  /** Everything ever stored is consistent, of two versions of one object the later is an advance on the
      earlier, and what is live is its newest version. */
  ghost predicate Promises(t: State) {
    && (forall v <- t.history :: StatusOK(v.status, t.now))
    && (forall v <- t.history, v' <- t.history :: v.uid == v'.uid ==> SameObject(v, v'))
    && ObjectsOK(t.objects, t.history)
  }

  lemma RunKeepsPromises(hash: string -> string, w: nat, t: State, q: State, d: Worker)
    requires Matches(hash, INITIAL, w, t, q, d)
    ensures Promises(t)
  {
    hide Path, StatusOK, SameObject, WorkersOK, OriginsOK;
    InitialOK();
    var steps :| Path(hash, INITIAL, steps, q);
    PathKeepsInv(hash, INITIAL, steps, q);
  }

  /** The requests one reconcile of any of the three controllers sent, from `base` on, and how they were
      answered. */
  datatype Session = Session(log: seq<Request>, answers: Answers, base: nat)

  /** One of the three contracts: the detector's, which may send nothing, the evidence controller's or the
      investigator's. */
  ghost predicate SentByDetector(hash: string -> string, x: Session) {
    && x.base <= |x.log|
    && (x.log[x.base..] == []
        || exists limit, seen, key, spec, result ::
             Opens(hash, key, spec) && DetectorSent(x.log, x.answers, x.base, limit, seen, key, spec, result))
  }

  ghost predicate SentByEvidence(x: Session) {
    && x.base <= |x.log|
    && exists key, pods, source, facts, stamp, ev, result ::
         EvidenceSent(x.log, x.answers, x.base, key, pods, source, facts, stamp, ev, result)
  }

  ghost predicate SentByInvestigator(x: Session) {
    && x.base <= |x.log|
    && exists key, policies, pricing, hasModel, failure, stamps, f, calls, conflicts, result ::
         InvestigatorSent(x.log, x.answers, x.base, key, policies, pricing, hasModel, failure, stamps, f, calls,
                          conflicts, result)
  }

  ghost predicate Sent(hash: string -> string, x: Session) {
    SentByDetector(hash, x) || SentByEvidence(x) || SentByInvestigator(x)
  }

  lemma SessionIsRun(hash: string -> string, w: nat, s: State, t: State, p: State, x: Session)
    requires Sent(hash, x) && Matches(hash, INITIAL, w, s, p, Idle)
    requires Executes(hash, w, s, s.now, x.log, x.answers, x.base, t)
    ensures exists q :: Matches(hash, INITIAL, w, t, q, Idle)
  {
    hide Matches, Opens, DetectorSent, EvidenceSent, InvestigatorSent;
    if SentByDetector(hash, x) {
      if x.log[x.base..] == [] {
        ExecutionEnds(hash, w, s, s.now, x.log, x.answers, x.base, t);
      } else {
        hide Executes;
        var limit, seen, key, spec, result :|
          Opens(hash, key, spec) && DetectorSent(x.log, x.answers, x.base, limit, seen, key, spec, result);
        DetectorExecutionIsRun(hash, INITIAL, w, s, t, p, x.log, x.answers, x.base, limit, seen, key, spec, result);
      }
    } else if SentByEvidence(x) {
      hide Executes;
      var key, pods, source, facts, stamp, ev, result :|
        EvidenceSent(x.log, x.answers, x.base, key, pods, source, facts, stamp, ev, result);
      EvidenceExecutionIsRun(hash, INITIAL, w, s, t, p, x.log, x.answers, x.base, key, pods, source, facts, stamp, ev,
                             result);
    } else {
      hide Executes;
      var key, policies, pricing, hasModel, failure, stamps, f, calls, conflicts, result :|
        InvestigatorSent(x.log, x.answers, x.base, key, policies, pricing, hasModel, failure, stamps, f, calls,
                         conflicts, result);
      InvestigatorExecutionIsRun(hash, INITIAL, w, s, t, p, x.log, x.answers, x.base, key, policies, pricing, hasModel,
                                 failure, stamps, f, calls, conflicts, result);
    }
  }

  /** Any number of reconciles by worker w, one after another from an empty server, while others act. */
  ghost predicate Reconciled(hash: string -> string, w: nat, xs: seq<Session>, t: State)
    decreases |xs|
  {
    if xs == [] then t == INITIAL
    else
      var init, x := xs[..|xs| - 1], xs[|xs| - 1];
      exists s ::
        Reconciled(hash, w, init, s) && Sent(hash, x) && Executes(hash, w, s, s.now, x.log, x.answers, x.base, t)
  }

  lemma {:induction false} ReconciledIsRun(hash: string -> string, w: nat, xs: seq<Session>, t: State)
    requires Reconciled(hash, w, xs, t)
    ensures exists q :: Matches(hash, INITIAL, w, t, q, Idle)
    decreases |xs|
  {
    if xs == [] {
      LeadsNowhere(hash, INITIAL);
      assert Matches(hash, INITIAL, w, INITIAL, INITIAL, Idle);
    } else {
      hide Matches, Sent, Executes;
      var init, x := xs[..|xs| - 1], xs[|xs| - 1];
      var s :| Reconciled(hash, w, init, s) && Sent(hash, x)
               && Executes(hash, w, s, s.now, x.log, x.answers, x.base, t);
      ReconciledIsRun(hash, w, init, s);
      var p :| Matches(hash, INITIAL, w, s, p, Idle);
      SessionIsRun(hash, w, s, t, p, x);
    }
  }

  /** However many reconciles of whichever controllers a worker executes, beside any others, the server
      keeps every promise of the protocol. */
  lemma ExecutionsKeepPromises(hash: string -> string, w: nat, xs: seq<Session>, t: State)
    requires Reconciled(hash, w, xs, t)
    ensures Promises(t)
  {
    hide Matches, Promises, Reconciled;
    ReconciledIsRun(hash, w, xs, t);
    var q :| Matches(hash, INITIAL, w, t, q, Idle);
    RunKeepsPromises(hash, w, t, q, Idle);
  }
}
