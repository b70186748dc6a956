/** internal/agent/prompt.go: how untrusted content enters the conversation. */
module Prompt {
  import opened Text

  const CLOSING := "</evidence"
  const NEUTRALISED := "<\\/evidence"

  /** What Go's %q writes between the quotation marks for one code point, taking those outside ASCII as
      not printable. */
  function Escape(c: char): (s: string)
    ensures s == [c] || (|s| >= 2 && s[0] == '\\')
    ensures forall i :: 1 <= i < |s| ==> s[i] != '<'
  {
    if c == '"' then "\\\""
    else if c == '\\' then "\\\\"
    else if ' ' <= c <= '~' then [c]
    else
      var n := c as int;
      if 7 <= n <= 13 then ['\\', "abtnvfr"[n - 7]]
      else if n < 0x80 then "\\x" + HexDigits(n, 2)
      else if n < 0x10000 then "\\u" + HexDigits(n, 4)
      else "\\U" + HexDigits(n, 8)
  }

  /** The last `width` digits of n in base sixteen. */
  function HexDigits(n: nat, width: nat): (s: string)
    ensures |s| == width && '<' !in s
  {
    if width == 0 then "" else HexDigits(n / 16, width - 1) + ["0123456789abcdef"[n % 16]]
  }

  function Escaped(s: string): string {
    if s == [] then [] else Escape(s[0]) + Escaped(s[1..])
  }

  function Neutralise(content: string): string {
    ReplaceAll(content, CLOSING, NEUTRALISED)
  }

  /** The text key="value" followed by the rest of the block. */
  function Attribute(key: string, value: string, rest: string): string {
    key + ['"'] + (Escaped(value) + ['"'] + rest)
  }

  function Body(content: string): string {
    ">" + ['\n'] + (Neutralise(content) + ['\n'] + "</evidence>")
  }

  function WrapEvidence(id: string, source: string, content: string): string {
    Attribute("<evidence id=", id, Attribute(" source=", source, Body(content)))
  }

  // ----- the replacement leaves no closing tag, not even across a replacement boundary -----

  /** A prefix of the output holding no '<' was copied, so it is a prefix of the input. */
  lemma {:induction false} CopiedPrefix(s: string, q: string)
    requires '<' !in q
    ensures q <= Neutralise(s) ==> q <= s
    decreases |q|
  {
    if q != [] && s != [] {
      assert q[0] != '<' == NEUTRALISED[0];
      if !OccursAt(CLOSING, s, 0) {
        var rest := Neutralise(s[1..]);
        assert Neutralise(s) == [s[0]] + rest;
        assert q <= Neutralise(s) ==> q[1..] <= rest;
        CopiedPrefix(s[1..], q[1..]);
        assert q[0] == s[0] && q[1..] <= s[1..] ==> q <= s;
      }
    }
  }

  lemma {:induction false} NoClosingTagAt(s: string, i: int)
    ensures !OccursAt(CLOSING, Neutralise(s), i)
    decreases |s|
  {
    var out := Neutralise(s);
    assert CLOSING[0] == '<' && CLOSING[1] == '/';
    if s == [] {
    } else if OccursAt(CLOSING, s, 0) {
      var rest := Neutralise(s[|CLOSING|..]);
      assert out == NEUTRALISED + rest;
      if i < 0 {
      } else if i == 0 {
        assert out[0..][1] == NEUTRALISED[1] != '/';
      } else if i < |NEUTRALISED| {
        assert out[i..][0] == NEUTRALISED[i] != '<';
      } else if i <= |out| {
        assert out[i..] == rest[i - |NEUTRALISED|..];
        NoClosingTagAt(s[|CLOSING|..], i - |NEUTRALISED|);
      }
    } else {
      var rest := Neutralise(s[1..]);
      assert out == [s[0]] + rest;
      if i == 0 {
        var tail := CLOSING[1..];
        assert out[0..] == out;
        assert CLOSING <= out ==> tail <= rest;
        CopiedPrefix(s[1..], tail);
        assert s[0] == '<' && tail <= s[1..] ==> CLOSING <= s;
        assert s[0..] == s;
      } else if 0 < i <= |out| {
        assert out[i..] == rest[i - 1..];
        NoClosingTagAt(s[1..], i - 1);
      }
    }
  }

  lemma {:induction false} NeutralisedHasNoClosingTag(s: string)
    ensures !Contains(Neutralise(s), CLOSING)
  {
    forall i ensures !OccursAt(CLOSING, Neutralise(s), i) {
      NoClosingTagAt(s, i);
    }
  }

  /** Content that never held the tag is passed through untouched. */
  lemma {:induction false} NeutraliseKeepsHarmlessContent(s: string)
    requires !Contains(s, CLOSING)
    ensures Neutralise(s) == s
    decreases |s|
  {
    if s != [] {
      forall i ensures !OccursAt(CLOSING, s[1..], i) {
        assert 0 <= i < |s| ==> s[1..][i..] == s[i + 1..];
        assert !OccursAt(CLOSING, s, i + 1);
      }
      NeutraliseKeepsHarmlessContent(s[1..]);
      assert !OccursAt(CLOSING, s, 0);
    }
  }

  // ----- quoting neither hides nor creates the tag -----

  predicate Plain(q: string) {
    forall i :: 0 <= i < |q| ==> q[i] != '\\' && Escape(q[i]) == [q[i]]
  }

  lemma {:induction false} EscapedPrefix(s: string, q: string)
    requires Plain(q)
    ensures q <= Escaped(s) <==> q <= s
    decreases |q|
  {
    if q != [] && s != [] {
      EscapedPrefix(s[1..], q[1..]);
      var rest := Escaped(s[1..]);
      if Escape(s[0]) == [s[0]] {
        assert Escaped(s) == [s[0]] + rest;
        assert q <= Escaped(s) <==> q[0] == s[0] && q[1..] <= rest;
        assert q <= s <==> q[0] == s[0] && q[1..] <= s[1..];
      } else {
        assert Escaped(s)[0] == Escape(s[0])[0] == '\\';
        assert q[0] != s[0];
      }
    }
  }

  /** Each occurrence in the quoted text sits where the original character did. */
  lemma {:induction false} EscapedContains(s: string)
    ensures Contains(Escaped(s), CLOSING) <==> Contains(s, CLOSING)
    decreases |s|
  {
    if s != [] {
      var head, rest, tail := Escape(s[0]), Escaped(s[1..]), s[1..];
      EscapedContains(tail);
      EscapedPrefix(s, CLOSING);
      ContainsAfter([s[0]], tail);
      assert [s[0]] + tail == s;
      ContainsAfter(head, rest);
    }
  }

  /** An occurrence in a concatenation starts in the head or lies in the tail; no later position
      of an escaped character starts one. */
  lemma ContainsAfter(head: string, tail: string)
    requires head != [] && forall i :: 1 <= i < |head| ==> head[i] != '<'
    ensures Contains(head + tail, CLOSING) <==> CLOSING <= head + tail || Contains(tail, CLOSING)
  {
    var s := head + tail;
    assert s[0..] == s;
    assert CLOSING <= s ==> OccursAt(CLOSING, s, 0);
    forall i ensures OccursAt(CLOSING, s, i) ==> i == 0 || OccursAt(CLOSING, tail, i - |head|) {
      assert CLOSING[0] == '<';
      if 1 <= i < |head| {
        assert s[i..][0] == head[i];
      } else if |head| <= i <= |s| {
        assert s[i..] == tail[i - |head|..];
      }
    }
    if j :| OccursAt(CLOSING, tail, j) {
      assert s[j + |head|..] == tail[j..];
      assert OccursAt(CLOSING, s, j + |head|);
    }
  }

  // ----- the wrapped block ends exactly once -----

  lemma BodyOccurrences(content: string, i: int)
    ensures OccursAt(CLOSING, Body(content), i) <==> i == |Body(content)| - 11
  {
    var safe := Neutralise(content);
    OccursAroundSeparator(CLOSING, ">", '\n', safe + ['\n'] + "</evidence>", i);
    OccursAroundSeparator(CLOSING, safe, '\n', "</evidence>", i - 2);
    NeutralisedHasNoClosingTag(content);
    assert !OccursAt(CLOSING, safe, i - 2);
    FixedPieces(i, i, i, i - 3 - |safe|);
  }

  lemma AttributeOccurrences(key: string, value: string, rest: string, i: int)
    requires !OccursAt(CLOSING, key, i)
    ensures |Attribute(key, value, rest)| == |key| + 2 + |Escaped(value)| + |rest|
    ensures OccursAt(CLOSING, Attribute(key, value, rest), i) <==>
            || OccursAt(CLOSING, Escaped(value), i - |key| - 1)
            || OccursAt(CLOSING, rest, i - |key| - 2 - |Escaped(value)|)
  {
    OccursAroundSeparator(CLOSING, key, '"', Escaped(value) + ['"'] + rest, i);
    OccursAroundSeparator(CLOSING, Escaped(value), '"', rest, i - |key| - 1);
  }

  /** Where the closing tag occurs in a wrapped block, for any id, source and content. */
  lemma WrappedOccurrences(id: string, source: string, content: string, i: int)
    ensures OccursAt(CLOSING, WrapEvidence(id, source, content), i) <==>
            || OccursAt(CLOSING, Escaped(id), i - 14)
            || OccursAt(CLOSING, Escaped(source), i - 24 - |Escaped(id)|)
            || i == |WrapEvidence(id, source, content)| - 11
  {
    hide Attribute, Body, Escaped, OccursAt;
    var inner := Attribute(" source=", source, Body(content));
    var j := i - 15 - |Escaped(id)|;
    FixedPieces(i, j, 0, 0);
    AttributeOccurrences("<evidence id=", id, inner, i);
    AttributeOccurrences(" source=", source, Body(content), j);
    BodyOccurrences(content, j - 10 - |Escaped(source)|);
  }

  lemma FixedPieces(i: int, j: int, k: int, m: int)
    ensures !OccursAt(CLOSING, "<evidence id=", i) && !OccursAt(CLOSING, " source=", j)
    ensures !OccursAt(CLOSING, ">", k) && (OccursAt(CLOSING, "</evidence>", m) <==> m == 0)
  {
    var p, q := "<evidence id=", "</evidence>";
    assert CLOSING[0] == '<' && CLOSING[1] == '/';
    assert q[0..] == q && CLOSING <= q;
    assert 0 <= m < |q| ==> q[m..][0] == q[m];
    assert 0 <= i < |p| - 1 ==> p[i..][0] == p[i] && p[i..][1] == p[i + 1];
  }

  /** The closing tag occurs exactly once, as the end of the block, exactly when neither the
      identifier nor the source carries it; the content is free to be anything. */
  lemma WrappedBlockEndsOnce(id: string, source: string, content: string)
    ensures (forall i :: OccursAt(CLOSING, WrapEvidence(id, source, content), i) <==>
                         i == |WrapEvidence(id, source, content)| - 11)
            <==> !Contains(id, CLOSING) && !Contains(source, CLOSING)
  {
    var w := WrapEvidence(id, source, content);
    var start := 24 + |Escaped(id)|;
    EscapedContains(id);
    EscapedContains(source);
    forall i ensures OccursAt(CLOSING, w, i) <==>
      (OccursAt(CLOSING, Escaped(id), i - 14) || OccursAt(CLOSING, Escaped(source), i - start) || i == |w| - 11)
    {
      WrappedOccurrences(id, source, content, i);
    }
    if i :| OccursAt(CLOSING, Escaped(id), i) {
      assert OccursAt(CLOSING, Escaped(id), (i + 14) - 14);
      assert OccursAt(CLOSING, w, i + 14);
    }
    if i :| OccursAt(CLOSING, Escaped(source), i) {
      assert OccursAt(CLOSING, Escaped(source), (i + start) - start);
      assert OccursAt(CLOSING, w, i + start);
    }
  }
}
