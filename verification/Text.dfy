/** The string operations the source takes from its standard library: decimal printing, joining,
    white-space trimming, byte length and non-overlapping replacement. Strings are sequences of
    code points. */
module Text {

  // ----- decimal printing -----

  predicate IsNumeral(s: string) {
    forall i :: 0 <= i < |s| ==> '0' <= s[i] <= '9'
  }

  function Decimal(n: nat): (s: string)
    ensures s != [] && IsNumeral(s)
  {
    if n < 10 then [Digit(n)] else Decimal(n / 10) + [Digit(n % 10)]
  }

  function Digit(d: nat): char
    requires d < 10
  {
    ('0' as int + d) as char
  }

  /** The number a string of decimal digits denotes: an independent reading of Decimal's output. */
  function Parse(s: string): nat
    requires IsNumeral(s)
  {
    if s == [] then 0 else Parse(s[..|s| - 1]) * 10 + (s[|s| - 1] as int - '0' as int)
  }

  lemma {:induction false} DecimalRoundTrip(n: nat)
    ensures Parse(Decimal(n)) == n
  {
    if n >= 10 {
      DecimalRoundTrip(n / 10);
      assert Decimal(n)[..|Decimal(n)| - 1] == Decimal(n / 10);
    }
  }

  lemma DecimalInjective(m: nat, n: nat)
    ensures Decimal(m) == Decimal(n) ==> m == n
  {
    DecimalRoundTrip(m);
    DecimalRoundTrip(n);
  }

  function Integer(n: int): string {
    if n < 0 then "-" + Decimal(-n) else Decimal(n)
  }

  // ----- joining, trimming, length -----

  function Join(parts: seq<string>, separator: string): string {
    if parts == [] then ""
    else if |parts| == 1 then parts[0]
    else parts[0] + separator + Join(parts[1..], separator)
  }

  /** The code points Go's unicode.IsSpace accepts. */
  predicate IsSpace(c: char) {
    var n := c as int;
    || 9 <= n <= 13 || n == 32 || n == 0x85 || n == 0xA0 || n == 0x1680
    || 0x2000 <= n <= 0x200A || n == 0x2028 || n == 0x2029 || n == 0x202F
    || n == 0x205F || n == 0x3000
  }

  function TrimLeft(s: string, cut: char -> bool): string {
    if s == [] || !cut(s[0]) then s else TrimLeft(s[1..], cut)
  }

  function TrimRight(s: string, cut: char -> bool): string {
    if s == [] || !cut(s[|s| - 1]) then s else TrimRight(s[..|s| - 1], cut)
  }

  function Trim(s: string, cut: char -> bool): string {
    TrimRight(TrimLeft(s, cut), cut)
  }

  function TrimSpace(s: string): string {
    Trim(s, IsSpace)
  }

  /** Length in bytes of the UTF-8 encoding, which is what Go's len reports. */
  function ByteLength(s: string): nat {
    if s == [] then 0 else ByteLength(s[..|s| - 1]) + CharBytes(s[|s| - 1])
  }

  function CharBytes(c: char): nat {
    var n := c as int;
    if n < 0x80 then 1 else if n < 0x800 then 2 else if n < 0x10000 then 3 else 4
  }

  lemma {:induction false} TrimLeftCuts(s: string, cut: char -> bool) returns (a: string)
    ensures s == a + TrimLeft(s, cut) && (forall c <- a :: cut(c))
    ensures TrimLeft(s, cut) != "" ==> !cut(TrimLeft(s, cut)[0])
  {
    a := "";
    if s != "" && cut(s[0]) {
      var b := TrimLeftCuts(s[1..], cut);
      a := [s[0]] + b;
    }
  }

  lemma {:induction false} TrimRightCuts(s: string, cut: char -> bool) returns (b: string)
    ensures s == TrimRight(s, cut) + b && (forall c <- b :: cut(c))
    ensures TrimRight(s, cut) != "" ==> !cut(TrimRight(s, cut)[|TrimRight(s, cut)| - 1])
  {
    b := "";
    if s != "" && cut(s[|s| - 1]) {
      var a := TrimRightCuts(s[..|s| - 1], cut);
      b := a + [s[|s| - 1]];
    }
  }

  /** Trimming removes exactly the white space at either end: what is left neither begins nor ends with
      any. */
  lemma TrimSpaceMeans(s: string) returns (a: string, b: string)
    ensures var r := TrimSpace(s);
            && s == a + r + b && (forall c <- a + b :: IsSpace(c))
            && (r != "" ==> !IsSpace(r[0]) && !IsSpace(r[|r| - 1]))
  {
    a := TrimLeftCuts(s, IsSpace);
    b := TrimRightCuts(TrimLeft(s, IsSpace), IsSpace);
    hide TrimLeft, TrimRight, IsSpace;
    var t, r := TrimLeft(s, IsSpace), TrimSpace(s);
    assert r != "" ==> r[0] == t[0];
  }

  /** Every character takes one to four bytes, and ASCII takes one. */
  lemma {:induction false} BytesAndCharacters(s: string)
    ensures |s| <= ByteLength(s) <= 4 * |s|
    ensures (forall c <- s :: c < '\U{80}') ==> ByteLength(s) == |s|
  {
    if s != "" {
      var init := s[..|s| - 1];
      BytesAndCharacters(init);
      assert forall c <- init :: c in s;
      assert s[|s| - 1] in s;
    }
  }

  /** The signed number a text denotes. */
  function ParseInteger(s: string): int
    requires IsNumeral(s) || (s != "" && s[0] == '-' && IsNumeral(s[1..]))
  {
    if s != "" && s[0] == '-' then 0 - Parse(s[1..]) else Parse(s)
  }

  lemma IntegerRoundTrip(n: int)
    ensures var s := Integer(n);
            (IsNumeral(s) || (s != "" && s[0] == '-' && IsNumeral(s[1..]))) && ParseInteger(s) == n
  {
    if n < 0 {
      DecimalRoundTrip(-n);
      assert Integer(n)[1..] == Decimal(-n);
    } else {
      DecimalRoundTrip(n);
    }
  }

  /** What a separator splits a text into. */
  function Split(s: string, separator: string): (r: seq<string>)
    requires separator != ""
    ensures r != []
    decreases |s|
  {
    if s == "" then [""]
    else if OccursAt(separator, s, 0) then [""] + Split(s[|separator|..], separator)
    else
      var rest := Split(s[1..], separator);
      [[s[0]] + rest[0]] + rest[1..]
  }

  lemma {:induction false} SplitFirst(a: string, separator: string, b: string)
    requires separator != "" && separator[0] !in a
    ensures Split(a + (separator + b), separator) == [a] + Split(b, separator)
  {
    var s := a + (separator + b);
    if a == "" {
      assert s == separator + b && s[0..] == s && s[|separator|..] == b;
    } else {
      assert s[0..] == s && s[1..] == a[1..] + (separator + b);
      assert s[0] == a[0] != separator[0];
      SplitFirst(a[1..], separator, b);
      assert [a[0]] + a[1..] == a;
      assert ([a[1..]] + Split(b, separator))[1..] == Split(b, separator);
    }
  }

  lemma {:induction false} SplitNone(a: string, separator: string)
    requires separator != "" && separator[0] !in a
    ensures Split(a, separator) == [a]
  {
    if a != "" {
      assert a[0..] == a && a[0] != separator[0];
      SplitNone(a[1..], separator);
      assert [a[0]] + a[1..] == a;
    }
  }

  /** Joined parts are recovered by splitting when none of them begins a separator. */
  lemma {:induction false} SplitJoin(parts: seq<string>, separator: string)
    requires separator != "" && parts != [] && forall p <- parts :: separator[0] !in p
    ensures Split(Join(parts, separator), separator) == parts
  {
    if |parts| == 1 {
      SplitNone(parts[0], separator);
    } else {
      SplitJoin(parts[1..], separator);
      var rest := Join(parts[1..], separator);
      assert Join(parts, separator) == parts[0] + (separator + rest);
      SplitFirst(parts[0], separator, rest);
    }
  }

  // ----- occurrences and replacement -----

  predicate OccursAt(pattern: string, s: string, i: int) {
    0 <= i <= |s| && pattern <= s[i..]
  }

  ghost predicate Contains(s: string, pattern: string) {
    exists i :: OccursAt(pattern, s, i)
  }

  /** Left-to-right, non-overlapping replacement of every occurrence of a non-empty pattern. */
  function ReplaceAll(s: string, pattern: string, replacement: string): string
    requires pattern != []
    decreases |s|
  {
    if s == [] then []
    else if OccursAt(pattern, s, 0) then replacement + ReplaceAll(s[|pattern|..], pattern, replacement)
    else [s[0]] + ReplaceAll(s[1..], pattern, replacement)
  }

  /** A character outside the pattern separates occurrences: each lies wholly on one side of it. */
  lemma OccursAroundSeparator(pattern: string, a: string, c: char, b: string, i: int)
    requires pattern != [] && c !in pattern
    ensures OccursAt(pattern, a + [c] + b, i) <==>
            (i < |a| && OccursAt(pattern, a, i)) || (i > |a| && OccursAt(pattern, b, i - |a| - 1))
  {
    var s := a + [c] + b;
    if 0 <= i <= |a| < i + |pattern| {
      assert pattern[|a| - i] != c == s[i..][|a| - i];
    } else if 0 <= i < |a| {
      assert forall k :: 0 <= k < |pattern| ==> s[i..][k] == a[i..][k];
    } else if |a| < i <= |s| {
      assert s[i..] == b[i - |a| - 1..];
    }
  }

  // ----- how often a pattern occurs -----

  function Count(s: string, pattern: string): nat {
    if s == "" then 0 else (if OccursAt(pattern, s, 0) then 1 else 0) + Count(s[1..], pattern)
  }

  lemma OccursInTail(s: string, pattern: string, i: int)
    requires s != "" && i >= 1
    ensures OccursAt(pattern, s, i) <==> OccursAt(pattern, s[1..], i - 1)
  {
    if i <= |s| {
      assert s[i..] == s[1..][i - 1..];
    }
  }

  lemma {:induction false} CountNone(s: string, pattern: string)
    requires pattern != "" && !Contains(s, pattern)
    ensures Count(s, pattern) == 0
  {
    if s != "" {
      forall i ensures !OccursAt(pattern, s[1..], i) {
        if i >= 0 {
          OccursInTail(s, pattern, i + 1);
        }
      }
      CountNone(s[1..], pattern);
    }
  }

  /** Occurring at exactly one place is occurring once. */
  lemma {:induction false} CountOne(s: string, pattern: string, k: nat)
    requires pattern != "" && forall i :: OccursAt(pattern, s, i) <==> i == k
    ensures Count(s, pattern) == 1
  {
    assert OccursAt(pattern, s, k);
    assert s != "";
    forall i | i >= 0 ensures OccursAt(pattern, s[1..], i) <==> i == k - 1 {
      OccursInTail(s, pattern, i + 1);
    }
    if k > 0 {
      CountOne(s[1..], pattern, k - 1);
    } else {
      CountNone(s[1..], pattern);
    }
  }

  /** A character outside the pattern splits the count. */
  lemma {:induction false} CountAround(pattern: string, a: string, c: char, b: string)
    requires pattern != "" && c !in pattern
    ensures Count(a + ([c] + b), pattern) == Count(a, pattern) + Count(b, pattern)
  {
    var s := a + ([c] + b);
    assert s == a + [c] + b;
    OccursAroundSeparator(pattern, a, c, b, 0);
    if a == "" {
      assert s[1..] == b;
    } else {
      assert s[1..] == a[1..] + ([c] + b);
      CountAround(pattern, a[1..], c, b);
    }
  }

  /** Text without the pattern's first character adds nothing in front. */
  lemma {:induction false} CountAfter(pattern: string, a: string, b: string)
    requires pattern != "" && pattern[0] !in a
    ensures Count(a + b, pattern) == Count(b, pattern)
  {
    if a == "" {
      assert a + b == b;
    } else {
      assert (a + b)[1..] == a[1..] + b;
      assert !OccursAt(pattern, a + b, 0) by {
        assert (a + b)[0..] == a + b;
      }
      CountAfter(pattern, a[1..], b);
    }
  }
}
