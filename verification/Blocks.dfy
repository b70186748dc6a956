/** Reading back what the model is shown: a block of evidence gives its identifier, its source and its
    content to a reader that knows only the form of a block. */
module Blocks {
  import opened Wrappers
  import opened Text
  import opened Prompt
  import opened Validation
  import opened Conversation
  import opened Tools
  import opened Investigation
  import opened Agent

  // ----- a reader of quoted text -----

  function DigitValue(c: char): nat {
    if '0' <= c <= '9' then c as int - '0' as int else if 'a' <= c <= 'f' then c as int - 'a' as int + 10 else 0
  }

  function FromHex(s: string): nat {
    if s == "" then 0 else FromHex(s[..|s| - 1]) * 16 + DigitValue(s[|s| - 1])
  }

  /** The code point that the n digits after a two-character escape denote, and how long that is. */
  function ReadHex(s: string, n: nat): Option<(char, nat)> {
    if |s| < 2 + n then None
    else
      var v := FromHex(s[2..2 + n]);
      if v < 0xD800 || 0xE000 <= v < 0x110000 then Some((v as char, 2 + n)) else None
  }

  /** The first character of quoted text, and how many characters it is written with. */
  function ReadChar(s: string): Option<(char, nat)>
    ensures ReadChar(s).Some? ==> 1 <= ReadChar(s).value.1 <= |s|
  {
    if s == "" then None
    else if s[0] != '\\' then Some((s[0], 1))
    else if |s| == 1 then None
    else
      match s[1]
      case '"' => Some(('"', 2))
      case '\\' => Some(('\\', 2))
      case 'a' => Some((7 as char, 2))
      case 'b' => Some((8 as char, 2))
      case 't' => Some(('\t', 2))
      case 'n' => Some(('\n', 2))
      case 'v' => Some((11 as char, 2))
      case 'f' => Some((12 as char, 2))
      case 'r' => Some(('\r', 2))
      case 'x' => ReadHex(s, 2)
      case 'u' => ReadHex(s, 4)
      case 'U' => ReadHex(s, 8)
      case _ => None
  }

  /** Text up to its closing quotation mark, and what follows that. */
  function Unquote(s: string): Option<(string, string)>
    decreases |s|
  {
    if s != "" && s[0] == '"' then Some(("", s[1..]))
    else
      match ReadChar(s)
      case None => None
      case Some((c, n)) =>
        match Unquote(s[n..])
        case None => None
        case Some((text, rest)) => Some(([c] + text, rest))
  }

  function Power16(n: nat): nat {
    if n == 0 then 1 else 16 * Power16(n - 1)
  }

  lemma {:induction false} HexReadsBack(n: nat, width: nat)
    requires n < Power16(width)
    ensures FromHex(HexDigits(n, width)) == n
  {
    if width > 0 {
      HexReadsBack(n / 16, width - 1);
      assert HexDigits(n, width)[..width - 1] == HexDigits(n / 16, width - 1);
      DigitReadsBack(n % 16);
    }
  }

  lemma DigitReadsBack(d: nat)
    requires d < 16
    ensures DigitValue("0123456789abcdef"[d]) == d
  {
  }

  lemma HexEscapeReads(c: char, kind: char, width: nat, rest: string)
    requires c as int < Power16(width)
    ensures var s := (['\\', kind] + HexDigits(c as int, width)) + rest;
            ReadHex(s, width) == Some((c, 2 + width))
  {
    var s := (['\\', kind] + HexDigits(c as int, width)) + rest;
    HexReadsBack(c as int, width);
    assert s[2..2 + width] == HexDigits(c as int, width);
  }

  lemma Powers()
    ensures Power16(2) == 0x100 && Power16(4) == 0x10000 && Power16(8) == 0x100000000
  {
    assert Power16(1) == 16 && Power16(3) == 0x1000 && Power16(5) == 0x100000 && Power16(6) == 0x1000000;
  }

  /** Whatever a character is written as, it is read as itself. */
  lemma EscapeReads(c: char, rest: string)
    ensures ReadChar(Escape(c) + rest) == Some((c, |Escape(c)|))
  {
    Powers();
    var n := c as int;
    if c == '"' || c == '\\' || ' ' <= c <= '~' || 7 <= n <= 13 {
      hide HexDigits, ReadHex;
    } else if n < 0x80 {
      HexEscapeReads(c, 'x', 2, rest);
    } else if n < 0x10000 {
      HexEscapeReads(c, 'u', 4, rest);
    } else {
      HexEscapeReads(c, 'U', 8, rest);
    }
  }

  lemma EscapeIsNoQuote(c: char)
    ensures Escape(c) != "" && Escape(c)[0] != '"'
  {
  }

  /** Quoting loses nothing: the value is read back, and so is where it ends. */
  lemma {:induction false} QuotedReadsBack(value: string, rest: string)
    ensures Unquote(Escaped(value) + (['"'] + rest)) == Some((value, rest))
  {
    hide Escape, ReadChar;
    var s := Escaped(value) + (['"'] + rest);
    if value == "" {
      assert s == ['"'] + rest && s[1..] == rest;
    } else {
      var tail := Escaped(value[1..]) + (['"'] + rest);
      QuotedReadsBack(value[1..], rest);
      EscapeReads(value[0], tail);
      EscapeIsNoQuote(value[0]);
      assert s == Escape(value[0]) + tail;
      assert s[|Escape(value[0])|..] == tail;
      assert [value[0]] + value[1..] == value;
    }
  }

  // ----- a reader of blocks -----

  datatype Block = Block(id: string, source: string, text: string)

  function Strip(s: string, prefix: string): Option<string> {
    if prefix <= s then Some(s[|prefix|..]) else None
  }

  function StripEnd(s: string, suffix: string): Option<string> {
    if |suffix| <= |s| && s[|s| - |suffix|..] == suffix then Some(s[..|s| - |suffix|]) else None
  }

  /** An attribute: its key, and its value in quotation marks. */
  function ReadAttribute(s: string, key: string): Option<(string, string)> {
    match Strip(s, key + ['"'])
    case None => None
    case Some(rest) => Unquote(rest)
  }

  function ReadBlock(s: string): Option<Block> {
    match ReadAttribute(s, "<evidence id=")
    case None => None
    case Some((id, rest)) =>
      match ReadAttribute(rest, " source=")
      case None => None
      case Some((source, body)) =>
        match Strip(body, ">\n")
        case None => None
        case Some(text) =>
          match StripEnd(text, "\n</evidence>")
          case None => None
          case Some(content) => Some(Block(id, source, content))
  }

  lemma AttributeReadsBack(key: string, value: string, rest: string)
    ensures ReadAttribute(Attribute(key, value, rest), key) == Some((value, rest))
  {
    var s := Attribute(key, value, rest);
    QuotedReadsBack(value, rest);
    hide Escaped, Unquote;
    var lead := key + ['"'];
    assert s == lead + (Escaped(value) + (['"'] + rest));
    assert s[|lead|..] == Escaped(value) + (['"'] + rest);
  }

  lemma BodyReadsBack(content: string)
    ensures Strip(Body(content), ">\n").Some?
    ensures StripEnd(Strip(Body(content), ">\n").value, "\n</evidence>") == Some(Neutralise(content))
  {
    hide Neutralise;
    var b, text := Body(content), Neutralise(content);
    var end := "\n</evidence>";
    assert ['\n'] + "</evidence>" == end;
    assert b == ">\n" + (text + end);
    assert b[2..] == text + end;
    assert (text + end)[|text|..] == end && (text + end)[..|text|] == text;
  }

  /** A block gives back its identifier and its source, whatever they are, and its content rewritten. */
  lemma BlockReadsBack(id: string, source: string, content: string)
    ensures ReadBlock(WrapEvidence(id, source, content)) == Some(Block(id, source, Neutralise(content)))
  {
    var inner := Attribute(" source=", source, Body(content));
    AttributeReadsBack("<evidence id=", id, inner);
    AttributeReadsBack(" source=", source, Body(content));
    BodyReadsBack(content);
    hide ReadAttribute, Attribute, Body, Strip, StripEnd, Neutralise;
  }

  // ----- what rewriting does to the content -----

  /** The first tag of a text is rewritten, and the rest after it; with NeutraliseKeepsHarmlessContent this
      determines the rewriting of every text. */
  lemma {:induction false} FirstTagRewritten(a: string, b: string)
    requires !Contains(a, CLOSING)
    ensures Neutralise(a + ("</evidence" + b)) == a + ("<\\/evidence" + Neutralise(b))
  {
    var s := a + (CLOSING + b);
    if a == "" {
      assert s == CLOSING + b && s[0..] == s && s[|CLOSING|..] == b;
      assert OccursAt(CLOSING, s, 0);
    } else {
      var tail := a[1..] + (CLOSING + b);
      assert s[0..] == s && s[1..] == tail;
      NoTagAtStart(a, b);
      forall i ensures !OccursAt(CLOSING, a[1..], i) {
        if i >= 0 {
          OccursInTail(a, CLOSING, i + 1);
        }
      }
      FirstTagRewritten(a[1..], b);
      assert [a[0]] + a[1..] == a;
    }
  }

  /** A tag cannot begin in front of another and run into it. */
  lemma NoTagAtStart(a: string, b: string)
    requires a != "" && !Contains(a, CLOSING)
    ensures !OccursAt(CLOSING, a + (CLOSING + b), 0)
  {
    var s := a + (CLOSING + b);
    assert s[0..] == s && a[0..] == a;
    assert !OccursAt(CLOSING, a, 0);
    assert forall k :: 1 <= k < |CLOSING| ==> CLOSING[k] != '<';
    assert s[|a|] == '<';
  }

  function Restore(text: string): string {
    ReplaceAll(text, NEUTRALISED, CLOSING)
  }

  /** Content that does not hold the rewritten form itself is recovered from a block exactly. */
  lemma {:induction false} ContentRestored(s: string)
    requires !Contains(s, NEUTRALISED)
    ensures Restore(Neutralise(s)) == s
    decreases |s|
  {
    if s != "" {
      var out := Neutralise(s);
      assert s[0..] == s && out[0..] == out;
      if OccursAt(CLOSING, s, 0) {
        var tail := s[|CLOSING|..];
        forall i ensures !OccursAt(NEUTRALISED, tail, i) {
          if 0 <= i <= |tail| {
            assert tail[i..] == s[|CLOSING| + i..];
            assert !OccursAt(NEUTRALISED, s, |CLOSING| + i);
          }
        }
        ContentRestored(tail);
        assert out == NEUTRALISED + Neutralise(tail) && out[|NEUTRALISED|..] == Neutralise(tail);
        assert OccursAt(NEUTRALISED, out, 0);
        assert CLOSING + tail == s;
      } else {
        var tail := s[1..];
        forall i ensures !OccursAt(NEUTRALISED, tail, i) {
          if i >= 0 {
            OccursInTail(s, NEUTRALISED, i + 1);
          }
        }
        ContentRestored(tail);
        assert out == [s[0]] + Neutralise(tail) && out[1..] == Neutralise(tail);
        NothingRewrittenBefore(s);
        assert [s[0]] + tail == s;
      }
    }
  }

  lemma NothingRewrittenBefore(s: string)
    requires s != "" && !Contains(s, NEUTRALISED)
    ensures !OccursAt(NEUTRALISED, [s[0]] + Neutralise(s[1..]), 0)
  {
    var q, out := NEUTRALISED[1..], [s[0]] + Neutralise(s[1..]);
    CopiedPrefix(s[1..], q);
    assert out[0..] == out && s[0..] == s;
    assert !OccursAt(NEUTRALISED, s, 0);
    assert out[1..] == Neutralise(s[1..]);
  }

  // ----- what a block shows -----

  /** A reader finds the identifier, the source and the content: as it is when it holds no tag, recovered
      when it does not hold the rewritten form, and never with a tag in it. */
  ghost predicate Shows(block: string, id: string, source: string, content: string) {
    exists text ::
      && ReadBlock(block) == Some(Block(id, source, text))
      && text == Neutralise(content) && !Contains(text, "</evidence")
      && (!Contains(content, "</evidence") ==> text == content)
      && (!Contains(content, "<\\/evidence") ==> Restore(text) == content)
  }

  lemma BlockShows(id: string, source: string, content: string)
    ensures Shows(WrapEvidence(id, source, content), id, source, content)
  {
    BlockReadsBack(id, source, content);
    NeutralisedHasNoClosingTag(content);
    if !Contains(content, CLOSING) {
      NeutraliseKeepsHarmlessContent(content);
    }
    if !Contains(content, NEUTRALISED) {
      ContentRestored(content);
    }
    hide WrapEvidence, ReadBlock, Neutralise, Restore, Contains;
  }

  /** Content without a tag stands in the block as it is. */
  lemma BlockEndsWithContent(id: string, source: string, content: string)
    requires !Contains(content, "</evidence")
    ensures exists head :: WrapEvidence(id, source, content) == head + ("\n" + (content + "\n</evidence>"))
  {
    NeutraliseKeepsHarmlessContent(content);
    BodyIs(content);
    var body := "\n" + (content + "\n</evidence>");
    var inner := AttributeEnds(" source=", source, ">", body);
    var head := AttributeEnds("<evidence id=", id, inner, body);
    hide Attribute, Body, Contains;
  }

  lemma BodyIs(content: string)
    ensures Body(content) == ">" + ("\n" + (Neutralise(content) + "\n</evidence>"))
  {
    hide Neutralise;
    assert ['\n'] + "</evidence>" == "\n</evidence>";
  }

  lemma AttributeEnds(key: string, value: string, a: string, b: string) returns (head: string)
    ensures Attribute(key, value, a + b) == head + b
  {
    hide Escaped;
    head := key + (['"'] + (Escaped(value) + (['"'] + a)));
  }

  // ----- what a turn is answered -----

  /** Every read of a handled turn is answered with what it read: shown under the next identifier, or as
      the reason it failed; and it is refused exactly when the budget allowed no more. */
  lemma ReadsAreShown(
      input: Input, before: seq<Event>, added: seq<Event>, calls: seq<ToolCall>, results: seq<ToolResult>, k: nat)
    requires k < |calls| && Handled(input, before, added, calls, results, |calls|) && calls[k].name != SUBMIT_TOOL
    ensures results[k].callId == calls[k].id && results[k].name == calls[k].name
    ensures |ReadCalls(calls, k)| < |added| ==> ReadShown(before, added, calls[k], results[k], |ReadCalls(calls, k)|)
    ensures |ReadCalls(calls, k)| >= |added| ==>
              results[k].content == "The tool call budget is exhausted. Call submit_findings now."
              && |before| + |added| >= input.budget.maxToolCalls
  {
    hide Refused, Shown, Contents, MadeBefore, Successes, ResultOf, Shows, ReadCalls;
    var i := |ReadCalls(calls, k)|;
    PlaceAmongReads(calls, k, |calls|);
    assert ReadAnswered(before, added, calls[k], results[k], i);
    hide Handled, ReadCalls, ResultOf, Shows, Successes;
    if i < |added| {
      AnswerShows(calls[k], added[i].outcome, |Successes(before)| + 1 + |Successes(added[..i])|);
    }
  }

  /** The i-th read of the turn is this call's, and the result is of its outcome. */
  ghost predicate ReadShown(before: seq<Event>, added: seq<Event>, call: ToolCall, r: ToolResult, i: nat) {
    && i < |added| && added[i].call == call
    && OutcomeShown(added[i].outcome, call, r, |Successes(before)| + 1 + |Successes(added[..i])|)
  }

  ghost predicate OutcomeShown(outcome: Outcome, call: ToolCall, r: ToolResult, n: nat) {
    match outcome
    case Read(content) => !r.isError && Shows(r.content, "E" + Decimal(n), call.name, content)
    case Denied(reason) => r.isError && r.content == reason
    case Failed(reason) => r.isError && r.content == reason
  }

  lemma AnswerShows(call: ToolCall, outcome: Outcome, n: nat)
    ensures OutcomeShown(outcome, call, ResultOf(call, outcome, n), n)
  {
    hide WrapEvidence, Shows, Decimal;
    if outcome.Read? {
      BlockShows(EvidenceId(n), call.name, outcome.content);
    }
  }
}
