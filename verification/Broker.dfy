/** internal/tools/broker.go: the one path by which an investigation reads the cluster. */
module Tools {
  import opened Wrappers
  import opened Text
  import opened Conversation
  import Evidence

  const RESULT_LIMIT := 8192
  const DEFAULT_MAX_CALLS := 25
  const AUDIT_FIELD_LIMIT := 512
  const SUMMARY_LINE_LIMIT := 160

  /** A read returns content, is refused, or fails. */
  datatype Outcome = Read(content: string) | Denied(reason: string) | Failed(reason: string)

  datatype AuditRecord = AuditRecord(
    tool: string,
    arguments: string,
    summary: string,
    error: Option<string>,
    durationMillis: int)

  /** The catalogue: which tools exist, what a handler does, how a result is scrubbed, and how long a
      call takes by the clock. The handler and the clock are arbitrary functions of how many calls were
      recorded before, so a registry stands for any behaviour of the cluster over a sequence of calls. */
  datatype Registry = Registry(
    tools: set<string>,
    run: (nat, string, Arguments) -> Outcome,
    redact: string -> string,
    elapsed: nat -> int)

  function Clip(s: string, limit: nat): string
    requires limit >= 3
  {
    if |s| <= limit then s else s[..limit - 3] + "..."
  }

  function FirstLine(s: string): string {
    if s == "" || s[0] == '\n' then "" else [s[0]] + FirstLine(s[1..])
  }

  /** The kind of answer that came back: its size and the start of its first line. */
  function Summarise(result: string): string {
    Decimal(ByteLength(result)) + " bytes: " + Clip(TrimSpace(FirstLine(TrimSpace(result))), SUMMARY_LINE_LIMIT)
  }

  /** What a call leaves behind: a summary of its content, or its error, never both. */
  function Record(name: string, arguments: Arguments, outcome: Outcome, elapsed: int): AuditRecord {
    AuditRecord(
      name,
      Clip(arguments.compact, AUDIT_FIELD_LIMIT),
      if outcome.Read? then Clip(Summarise(outcome.content), AUDIT_FIELD_LIMIT) else "",
      if outcome.Read? then None else Some(Clip(outcome.reason, AUDIT_FIELD_LIMIT)),
      elapsed)
  }

  /** Every field of a record: the call as made, cut after 512 characters where it is longer; the size of
      the content and how its first line begins, or the reason there is none; and how long it took. */
  lemma RecordMeans(name: string, arguments: Arguments, outcome: Outcome, elapsed: int)
    ensures var r := Record(name, arguments, outcome, elapsed);
            && r.tool == name && r.durationMillis == elapsed
            && CutAt(r.arguments, arguments.compact, 512)
            && (outcome.Read? ==>
                  && r.error.None?
                  && exists line :: CutAt(line, TrimSpace(FirstLine(TrimSpace(outcome.content))), 160)
                                    && CutAt(r.summary, Decimal(ByteLength(outcome.content)) + " bytes: " + line, 512))
            && (!outcome.Read? ==> r.summary == "" && r.error.Some? && CutAt(r.error.value, outcome.reason, 512))
  {
    hide TrimSpace, FirstLine, Decimal, ByteLength, Clip;
    ClipCuts(arguments.compact, 512);
    if outcome.Read? {
      var first := TrimSpace(FirstLine(TrimSpace(outcome.content)));
      ClipCuts(first, 160);
      ClipCuts(Summarise(outcome.content), 512);
    } else {
      ClipCuts(outcome.reason, 512);
    }
  }

  /** Whole when it fits, and otherwise its beginning and three dots, filling the limit exactly. */
  predicate CutAt(r: string, s: string, limit: nat)
    requires limit >= 3
  {
    if |s| <= limit then r == s else |r| == limit && r[..limit - 3] <= s && r[limit - 3..] == "..."
  }

  lemma ClipCuts(s: string, limit: nat)
    requires limit >= 3
    ensures CutAt(Clip(s, limit), s, limit)
  {
    if |s| > limit {
      assert Clip(s, limit)[..limit - 3] == s[..limit - 3];
    }
  }

  /** The first line is everything before the first line break. */
  lemma {:induction false} FirstLineMeans(s: string)
    ensures var l := FirstLine(s);
            && l <= s && '\n' !in l && (l == s || s[|l|] == '\n')
  {
    if s != "" && s[0] != '\n' {
      FirstLineMeans(s[1..]);
    }
  }

  function Ceiling(maxCalls: int): string {
    DENIED + "call ceiling of " + Integer(maxCalls) + " reached for this investigation"
  }

  /** What a call answers when `made` records exist: ceiling, then existence, then the handler, whose
      content is scrubbed and then bounded. */
  function Answer(registry: Registry, maxCalls: int, made: nat, name: string, arguments: Arguments): (o: Outcome)
    ensures o.Read? ==> made < maxCalls && name in registry.tools
    ensures o.Read? ==> |o.content| <= RESULT_LIMIT
  {
    if made >= maxCalls then Denied(Ceiling(maxCalls))
    else if name !in registry.tools then Denied(DENIED + "unknown tool " + name)
    else
      match registry.run(made, name, arguments)
      case Read(raw) => Read(Evidence.Truncate(registry.redact(raw), RESULT_LIMIT))
      case refused => refused
  }

  /** A read succeeds, and a call fails, exactly when it is below the ceiling, of a known tool, and the
      handler says so; every other call is denied. Content that fits is the scrubbed content, whole. */
  lemma AnswerMeans(registry: Registry, maxCalls: int, made: nat, name: string, arguments: Arguments)
    ensures var o := Answer(registry, maxCalls, made, name, arguments);
            var run := registry.run(made, name, arguments);
            var served := made < maxCalls && name in registry.tools;
            && (o.Read? <==> served && run.Read?)
            && (o.Failed? <==> served && run.Failed?)
            && (o.Read? && |registry.redact(run.content)| <= RESULT_LIMIT ==> o.content == registry.redact(run.content))
            && (!o.Read? && served ==> o == run)
            && (o.Read? && |registry.redact(run.content)| > RESULT_LIMIT ==>
                  |o.content| == RESULT_LIMIT && Evidence.TRUNCATION_MARKER <= o.content
                  && Evidence.EndsWith(registry.redact(run.content), o.content[|Evidence.TRUNCATION_MARKER|..]))
            && (!served ==> o.Denied? && DENIED <= o.reason)
  {
    assert |Evidence.TRUNCATION_MARKER| == 50;
    hide Evidence.Truncate;
  }

  const DENIED := "tool call denied: "

  lemma CeilingMeans(maxCalls: int)
    ensures EffectiveCeiling(maxCalls) == if maxCalls >= 1 then maxCalls else 25
  {
  }

  function EffectiveCeiling(maxCalls: int): int {
    if maxCalls <= 0 then DEFAULT_MAX_CALLS else maxCalls
  }

  class Broker {
    const registry: Registry
    const maxCalls: int
    var calls: seq<AuditRecord>

    constructor BindTo(registry: Registry, maxCalls: int)
      ensures this.registry == registry && this.maxCalls == EffectiveCeiling(maxCalls) && calls == []
    {
      this.registry := registry;
      this.maxCalls := if maxCalls <= 0 then DEFAULT_MAX_CALLS else maxCalls;
      calls := [];
    }

    /** One call: exactly one record is added, whatever the outcome. */
    method Call(name: string, arguments: Arguments) returns (outcome: Outcome)
      modifies this
      ensures outcome == Answer(registry, maxCalls, old(|calls|), name, arguments)
      ensures calls == old(calls) + [Record(name, arguments, outcome, registry.elapsed(old(|calls|)))]
    {
      var record := AuditRecord(name, Clip(arguments.compact, AUDIT_FIELD_LIMIT), "", None, 0);
      outcome := CheckAndRun(name, arguments);
      record := record.(durationMillis := registry.elapsed(|calls|));
      if !outcome.Read? {
        record := record.(error := Some(Clip(outcome.reason, AUDIT_FIELD_LIMIT)));
      } else {
        record := record.(summary := Clip(Summarise(outcome.content), AUDIT_FIELD_LIMIT));
      }
      calls := calls + [record];
    }

    method CheckAndRun(name: string, arguments: Arguments) returns (outcome: Outcome)
      ensures outcome == Answer(registry, maxCalls, |calls|, name, arguments)
    {
      var made := |calls|;
      if made >= maxCalls {
        return Denied(Ceiling(maxCalls));
      }
      if name !in registry.tools {
        return Denied(DENIED + "unknown tool " + name);
      }
      var raw := registry.run(made, name, arguments);
      if !raw.Read? {
        return raw;
      }
      var scrubbed := registry.redact(raw.content);
      outcome := Read(Evidence.Truncate(scrubbed, RESULT_LIMIT));
    }
  }
}
