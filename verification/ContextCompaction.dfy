/**
 Compaction of tool outputs and conversations (modules/agent_runtime/context/compaction.py).
 Texts are sequences of characters; slices follow Python, negative bounds included.
 */
module ContextCompaction {
  import opened Prelude
  import opened Text

  /** s[:k] */
  function Upto<T>(s: seq<T>, k: int): seq<T> {
    if k >= |s| then s else if k >= 0 then s[..k] else if |s| + k >= 0 then s[..|s| + k] else []
  }

  /** s[k:] */
  function From<T>(s: seq<T>, k: int): seq<T> {
    if k >= |s| then [] else if k >= 0 then s[k..] else if |s| + k >= 0 then s[|s| + k..] else s
  }

  /** The two slices at a bound split the sequence there; a negative bound counts from the end. */
  lemma SlicesExact<T>(s: seq<T>, k: int)
    ensures Upto(s, k) + From(s, k) == s
    ensures |Upto(s, k)| == if k > |s| then |s| else if k >= 0 then k else if |s| + k > 0 then |s| + k else 0
  {
  }

  // ----- numerals -----

  function Digit(d: nat): char
    requires d < 10
  {
    "0123456789"[d]
  }

  function Decimal(n: nat): string {
    if n < 10 then [Digit(n)] else Decimal(n / 10) + [Digit(n % 10)]
  }

  function DigitValue(c: char): int {
    c as int - '0' as int
  }

  function ValueOf(s: string): int {
    if s == "" then 0 else 10 * ValueOf(s[..|s| - 1]) + DigitValue(s[|s| - 1])
  }

  /** A numeral reads back as the number it was written for. */
  lemma {:induction false} DecimalReadsBack(n: nat)
    ensures ValueOf(Decimal(n)) == n && Decimal(n) != ""
  {
    if n >= 10 {
      DecimalReadsBack(n / 10);
    } else {
      assert Decimal(n)[..0] == "";
    }
  }

  lemma {:induction false} DecimalIsShort(n: nat)
    ensures 1 <= |Decimal(n)| <= n / 10 + 1
    ensures n < 10 ==> |Decimal(n)| == 1
    ensures 100 <= n < 1000 ==> |Decimal(n)| == 3
  {
    if n >= 10 {
      DecimalIsShort(n / 10);
      if 100 <= n < 1000 {
        assert 10 <= n / 10 < 100 && n / 100 < 10;
      }
    }
  }

  /** {hash & 0xFFFFFFFF:08x} */
  function Hex8(h: nat): string {
    Hex(h % 0x1_0000_0000, 8)
  }

  function Hex(h: nat, width: nat): (s: string)
    ensures |s| == width
  {
    if width == 0 then "" else Hex(h / 16, width - 1) + [HexDigit(h % 16)]
  }

  function HexNumber(s: string): int {
    if s == "" then 0 else 16 * HexNumber(s[..|s| - 1]) + HexValue(s[|s| - 1])
  }

  function Power16(n: nat): (p: nat)
    ensures p >= 1
  {
    if n == 0 then 1 else 16 * Power16(n - 1)
  }

  /** The hexadecimal digits read back as the number but for what exceeds the width. */
  lemma {:induction false} HexReadsBack(h: nat, width: nat) returns (high: nat)
    ensures h == high * Power16(width) + HexNumber(Hex(h, width)) && 0 <= HexNumber(Hex(h, width)) < Power16(width)
  {
    if width == 0 {
      high := h;
    } else {
      high := HexReadsBack(h / 16, width - 1);
      HexDigitReadsBack(h % 16);
      HexNext(h, width);
      Shift(high, Power16(width - 1), HexNumber(Hex(h / 16, width - 1)), h % 16);
    }
  }

  lemma HexNext(h: nat, width: nat)
    requires width > 0
    ensures HexNumber(Hex(h, width)) == 16 * HexNumber(Hex(h / 16, width - 1)) + h % 16
  {
    hide HexDigit, HexValue;
    HexDigitReadsBack(h % 16);
    assert Hex(h, width)[..width - 1] == Hex(h / 16, width - 1);
  }

  lemma Shift(high: nat, p: nat, low: nat, digit: nat)
    ensures 16 * (high * p + low) + digit == high * (16 * p) + (16 * low + digit)
  {
  }

  // ----- tool results -----

  const DEFAULT_BASE := "artifact://compaction"

  function ArtifactRef(base: string, hash: nat): string {
    base + "/" + "tool_out_" + Hex8(hash) + ".log"
  }

  /** An artifact is named by its base and the low 32 bits of the hash, in eight hexadecimal digits. */
  lemma ArtifactNames(base: string, hash: nat)
    ensures var (ref, n) := (ArtifactRef(base, hash), |base|);
            && |ref| == n + 22 && ref[..n] == base && ref[n..n + 10] == "/tool_out_" && ref[n + 18..] == ".log"
            && HexNumber(ref[n + 10..n + 18]) == hash % 0x1_0000_0000
  {
    hide Hex, HexNumber;
    var (ref, n, name) := (ArtifactRef(base, hash), |base|, Hex8(hash));
    Hex8ReadsBack(hash);
    assert ref == base + "/tool_out_" + name + ".log";
    assert ref[n + 10..n + 18] == name;
  }

  lemma Hex8ReadsBack(hash: nat)
    ensures |Hex8(hash)| == 8 && HexNumber(Hex8(hash)) == hash % 0x1_0000_0000
  {
    hide Hex, HexNumber;
    var high := HexReadsBack(hash % 0x1_0000_0000, 8);
    assert Power16(8) == 0x1_0000_0000 by {
      assert Power16(2) == 256 && Power16(4) == 65536;
    }
  }

  const OPENING := "\n\n... [TRUNCATED "
  const PRESERVED := " CHARACTERS — Full output preserved at "
  const CLOSING := "] ...\n\n"

  function Head(raw: string, maxChars: int): string {
    Upto(raw, maxChars / 2)
  }

  /** -max_chars // 2 rounds down, so the tail is the longer half. */
  function Tail(raw: string, maxChars: int): string {
    From(raw, (-maxChars) / 2)
  }

  /** The marker between the two ends. */
  function Marker(base: string, omitted: nat, hash: nat): string {
    OPENING + Decimal(omitted) + PRESERVED + ArtifactRef(base, hash) + CLOSING
  }

  /** `compact_tool_result`. */
  function CompactToolResult(base: string, raw: string, maxChars: int, hash: nat): (string, string) {
    if |raw| <= maxChars then (raw, "")
    else
      var ref := ArtifactRef(base, hash);
      (Head(raw, maxChars) + Marker(base, |raw| - maxChars, hash) + Tail(raw, maxChars), ref)
  }

  /** Half of the limit from the front, half from the back, nothing twice. */
  lemma KeepsBothEnds(raw: string, maxChars: int)
    requires 0 < maxChars < |raw|
    ensures Head(raw, maxChars) == raw[..maxChars / 2]
    ensures Tail(raw, maxChars) == raw[|raw| - (maxChars - maxChars / 2)..]
    ensures |Head(raw, maxChars)| + |Tail(raw, maxChars)| == maxChars
  {
    assert (-maxChars) / 2 == -(maxChars - maxChars / 2);
  }

  /** A compacted text starts and ends as the original does, with the marker and nothing else in between. */
  lemma EndsAndMarker(base: string, raw: string, maxChars: int, hash: nat)
    requires 0 < maxChars < |raw|
    ensures var (text, head, tail) := (CompactToolResult(base, raw, maxChars, hash).0, maxChars / 2,
                                       maxChars - maxChars / 2);
            && |text| == maxChars + |Marker(base, |raw| - maxChars, hash)|
            && text[..head] == raw[..head] && text[|text| - tail..] == raw[|raw| - tail..]
            && text[head..|text| - tail] == Marker(base, |raw| - maxChars, hash)
            && text[head..|text| - tail]
               == "\n\n... [TRUNCATED " + Decimal(|raw| - maxChars) + " CHARACTERS — Full output preserved at "
                  + CompactToolResult(base, raw, maxChars, hash).1 + "] ...\n\n"
  {
    MarkerReads(base, |raw| - maxChars, hash);
    hide Marker, Head, Tail;
    KeepsBothEnds(raw, maxChars);
    ThreeParts(Head(raw, maxChars), Marker(base, |raw| - maxChars, hash), Tail(raw, maxChars));
  }

  lemma MarkerReads(base: string, omitted: nat, hash: nat)
    ensures Marker(base, omitted, hash)
         == "\n\n... [TRUNCATED " + Decimal(omitted) + " CHARACTERS — Full output preserved at "
            + ArtifactRef(base, hash) + "] ...\n\n"
  {
  }

  /** A text is returned as it is, and without a reference, exactly when it does not exceed the limit. */
  lemma CutExact(base: string, raw: string, maxChars: int, hash: nat)
    ensures var (text, ref) := CompactToolResult(base, raw, maxChars, hash);
            && (ref == "" <==> |raw| <= maxChars) && (|raw| <= maxChars ==> text == raw)
            && (|raw| > maxChars ==> ref == ArtifactRef(base, hash))
  {
    ArtifactNames(base, hash);
  }

  lemma ThreeParts(a: string, m: string, b: string)
    ensures (a + m + b)[..|a|] == a && (a + m + b)[|a|..|a| + |m|] == m && (a + m + b)[|a| + |m|..] == b
  {
  }

  /** The count in the marker is the number of characters left out exactly when the limit is positive. */
  lemma OmittedCountExact(raw: string, maxChars: int)
    requires |raw| > maxChars
    ensures ValueOf(Decimal(|raw| - maxChars)) == |raw| - |Head(raw, maxChars)| - |Tail(raw, maxChars)|
            <==> maxChars > 0
  {
    DecimalReadsBack(|raw| - maxChars);
    if maxChars > 0 {
      KeepsBothEnds(raw, maxChars);
    }
  }

  /** The exact length, and so exactly when compaction makes a text shorter. */
  lemma CompactedLength(base: string, raw: string, maxChars: int, hash: nat)
    requires 0 < maxChars < |raw|
    ensures |CompactToolResult(base, raw, maxChars, hash).0| == maxChars + 85 + |base| + |Decimal(|raw| - maxChars)|
  {
    KeepsBothEnds(raw, maxChars);
  }

  /** With the limit of 800 the pipeline uses. */
  function Compacted(base: string, raw: string, hash: nat): string {
    CompactToolResult(base, raw, 800, hash).0
  }

  lemma DefaultLength(raw: string, hash: nat)
    requires |raw| > 1200
    ensures |Compacted(DEFAULT_BASE, raw, hash)| == 906 + |Decimal(|raw| - 800)|
  {
    CompactedLength(DEFAULT_BASE, raw, 800, hash);
  }

  lemma LongTextsShrink(base: string, raw: string, hash: nat)
    requires |raw| > 1200 && |base| <= 312
    ensures |Compacted(base, raw, hash)| < |raw|
  {
    CompactedLength(base, raw, 800, hash);
    DecimalIsShort(|raw| - 800);
  }

  function Blank(n: nat): (s: string)
    ensures |s| == n
  {
    seq(n, i => ' ')
  }

  /** Every text the pipeline compacts gets shorter exactly when the artifact base has at most 312 characters. */
  lemma ShrinksExact(base: string, hash: nat)
    ensures (forall raw: string :: |raw| > 1200 ==> |Compacted(base, raw, hash)| < |raw|) <==> |base| <= 312
  {
    if |base| <= 312 {
      forall raw: string | |raw| > 1200 ensures |Compacted(base, raw, hash)| < |raw| {
        LongTextsShrink(base, raw, hash);
      }
    } else {
      var raw := Blank(1201);
      CompactedLength(base, raw, 800, hash);
      DecimalIsShort(401);
      assert |Compacted(base, raw, hash)| >= |raw|;
    }
  }

  // ----- conversations -----

  datatype Message = Message(role: Option<string>, content: string)

  const PRESERVE_KEYWORDS := ["decision", "blocker", "error", "acceptance criteria", "failed", "passed", "must",
                              "warning",
                              "policy", "rule", "invariant", "contract", "goal"]

  predicate Contains(s: string, word: string) {
    |s| >= |word| && (s[..|word|] == word || (s != "" && Contains(s[1..], word)))
  }

  predicate IsCritical(text: string) {
    exists k :: 0 <= k < |PRESERVE_KEYWORDS| && Contains(Lower(text), PRESERVE_KEYWORDS[k])
  }

  /** The word stands in the text at this place. */
  predicate Occurs(s: string, word: string, i: nat) {
    i + |word| <= |s| && s[i..i + |word|] == word
  }

  lemma {:induction false} ContainsExact(s: string, word: string)
    ensures Contains(s, word) <==> exists i: nat :: Occurs(s, word, i)
  {
    if |s| >= |word| && s[..|word|] == word {
      assert Occurs(s, word, 0);
    } else if s != "" && |s| >= |word| {
      ContainsExact(s[1..], word);
      forall i: nat | Occurs(s[1..], word, i) ensures Occurs(s, word, i + 1) {
        assert s[1..][i..i + |word|] == s[i + 1..i + 1 + |word|];
      }
      forall i: nat | Occurs(s, word, i) ensures i > 0 && Occurs(s[1..], word, i - 1) {
        assert s[1..][i - 1..i - 1 + |word|] == s[i..i + |word|];
      }
    }
  }

  /** A text is critical exactly when its lower-case form has one of the thirteen keywords somewhere in it. */
  lemma CriticalExact(text: string)
    ensures PRESERVE_KEYWORDS == ["decision", "blocker", "error", "acceptance criteria", "failed", "passed", "must",
                                  "warning", "policy", "rule", "invariant", "contract", "goal"]
    ensures IsCritical(text) <==>
              exists k, i: nat :: 0 <= k < |PRESERVE_KEYWORDS| && Occurs(Lower(text), PRESERVE_KEYWORDS[k], i)
  {
    hide Contains, Occurs;
    var lower := Lower(text);
    if IsCritical(text) {
      var k :| 0 <= k < |PRESERVE_KEYWORDS| && Contains(lower, PRESERVE_KEYWORDS[k]);
      ContainsExact(lower, PRESERVE_KEYWORDS[k]);
      var i: nat :| Occurs(lower, PRESERVE_KEYWORDS[k], i);
      assert Occurs(Lower(text), PRESERVE_KEYWORDS[k], i);
    }
    forall k, i: nat | 0 <= k < |PRESERVE_KEYWORDS| && Occurs(lower, PRESERVE_KEYWORDS[k], i)
      ensures IsCritical(text)
    {
      ContainsExact(lower, PRESERVE_KEYWORDS[k]);
      assert Contains(lower, PRESERVE_KEYWORDS[k]);
    }
  }

  function Critical(messages: seq<Message>): seq<Message> {
    if messages == [] then []
    else
      var n := |messages| - 1;
      Critical(messages[..n]) + if IsCritical(messages[n].content) then [messages[n]] else []
  }

  function Summary(compacted: nat, preserved: nat): Message {
    Message(Some("system"),
            "[SYSTEM SUMMARY: " + Decimal(compacted) + " older messages compacted. Preserved key items: "
                            + Decimal(preserved) + "]")
  }

  lemma SummaryReads()
    ensures forall n, m ::
              && Summary(n, m).role == Some("system")
              && Summary(n, m).content == "[SYSTEM SUMMARY: " + Decimal(n)
                                          + " older messages compacted. Preserved key items: " + Decimal(m) + "]"
  {
  }

  lemma {:induction false} CriticalConcat(a: seq<Message>, b: seq<Message>)
    ensures Critical(a + b) == Critical(a) + Critical(b)
    decreases |b|
  {
    if b == [] {
      assert a + b == a;
    } else {
      CriticalConcat(a, b[..|b| - 1]);
      assert (a + b)[..|a + b| - 1] == a + b[..|b| - 1];
    }
  }

  lemma {:induction false} CriticalAgain(messages: seq<Message>)
    ensures Critical(Critical(messages)) == Critical(messages) && |Critical(messages)| <= |messages|
  {
    if messages != [] {
      var n := |messages| - 1;
      CriticalAgain(messages[..n]);
      CriticalConcat(Critical(messages[..n]), if IsCritical(messages[n].content) then [messages[n]] else []);
      assert [messages[n]][..0] == [];
    }
  }

  /** Whatever the sign of the limit, the two slices split the conversation. */
  lemma SlicesSplit<T>(s: seq<T>, k: int)
    requires |s| > k
    ensures Upto(s, -k) + From(s, -k) == s
  {
  }

  lemma KeepsCritical(older: seq<Message>, recent: seq<Message>)
    ensures Critical(Critical(older) + recent) == Critical(older + recent) && |Critical(older)| <= |older|
  {
    CriticalAgain(older);
    CriticalConcat(older, recent);
    CriticalConcat(Critical(older), recent);
  }

  /**
   `compact_conversation`: a short conversation is returned as it is.  Otherwise the
   result is the summary, the critical older messages and all recent ones; no critical
   message is lost, moved or doubled, and the summary counts what was dropped.
   */
  method CompactConversation(messages: seq<Message>, maxKeepRecent: int) returns (result: seq<Message>)
    ensures |messages| <= maxKeepRecent ==> result == messages
    ensures |messages| > maxKeepRecent ==>
              && result != [] && Critical(result[1..]) == Critical(messages)
              && result[1..] == Critical(Upto(messages, -maxKeepRecent)) + From(messages, -maxKeepRecent)
              && |result| - 1 <= |messages|
              && result[0] == Summary(|messages| - (|result| - 1), |Critical(Upto(messages, -maxKeepRecent))|)
              && result[0].role == Some("system")
              && result[0].content
                 == "[SYSTEM SUMMARY: " + Decimal(|messages| - (|result| - 1))
                    + " older messages compacted. Preserved key items: "
                    + Decimal(|Critical(Upto(messages, -maxKeepRecent))|) + "]"
  {
    SummaryReads();

    if |messages| <= maxKeepRecent {
      return messages;
    }
    hide Upto, From, Summary, IsCritical;
    var older, recent := Upto(messages, -maxKeepRecent), From(messages, -maxKeepRecent);
    SlicesSplit(messages, maxKeepRecent);
    var kept, notes := [], 0;
    for i := 0 to |older|
      invariant kept == Critical(older[..i]) && notes == |kept| && |kept| <= i
    {
      assert older[..i + 1][..i] == older[..i];
      if IsCritical(older[i].content) {
        kept := kept + [older[i]];
        notes := notes + 1;
      }
    }
    assert older[..|older|] == older;
    KeepsCritical(older, recent);
    result := [Summary(|older| - |kept|, notes)] + (kept + recent);
    assert result[1..] == kept + recent;
  }
}
