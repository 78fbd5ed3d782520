/**
 W3C trace identity (platform/observability/context.py, kernel/types/trace.py): the
 traceparent header is parsed, printed and carried from one operation to the next.
 */
module TraceContext {
  import opened Prelude
  import opened Text

  datatype TraceParent = TraceParent(traceId: string, parentId: string, flags: string, version: string)

  predicate IsHex(c: char) {
    '0' <= c <= '9' || 'a' <= c <= 'f'
  }

  predicate AllHex(s: string, size: nat) {
    |s| == size && forall i :: 0 <= i < size ==> IsHex(s[i])
  }

  function Zeros(n: nat): (s: string)
    ensures |s| == n && forall i :: 0 <= i < n ==> s[i] == '0'
  {
    seq(n, i => '0')
  }

  /** `_validated_hex`: None where it raises. */
  function ValidatedHex(value: string, size: nat): Option<string> {
    var candidate := Lower(Strip(value));
    if AllHex(candidate, size) && candidate != Zeros(size) then Some(candidate) else None
  }

  /** A `TraceParent` as its constructor completes it; None where it raises. */
  function NewTraceParent(traceId: string, parentId: string, flags: string, version: string): Option<TraceParent> {
    var (t, p, f, v) := (ValidatedHex(traceId, 32), ValidatedHex(parentId, 16), Lower(Strip(flags)),
                         Lower(Strip(version)));
    if t.Some? && p.Some? && AllHex(f, 2) && AllHex(v, 2) && v != "ff" then Some(TraceParent(t.value, p.value, f, v))
    else None
  }

  function Parse(value: Option<string>): Option<TraceParent> {
    if value.None? || value.value == "" then None
    else
      var parts := Split(Lower(Strip(value.value)), '-');
      if |parts| != 4 then None else NewTraceParent(parts[1], parts[2], parts[3], parts[0])
  }

  function Print(tp: TraceParent): string {
    tp.version + "-" + tp.traceId + "-" + tp.parentId + "-" + tp.flags
  }

  /** The values the constructor can make: section 3.2.2 of W3C Trace Context. */
  ghost predicate Canonical(tp: TraceParent) {
    && AllHex(tp.traceId, 32) && tp.traceId != Zeros(32)
    && AllHex(tp.parentId, 16) && tp.parentId != Zeros(16)
    && AllHex(tp.flags, 2) && AllHex(tp.version, 2) && tp.version != "ff"
  }

  // ----- canonical text is left alone -----

  ghost predicate HexOrDash(s: string) {
    forall i :: 0 <= i < |s| ==> IsHex(s[i]) || s[i] == '-'
  }

  lemma HexStays(s: string)
    requires HexOrDash(s)
    ensures Strip(s) == s && Lower(s) == s
  {
    StrippedStays(s);
  }

  lemma ConstructedIsCanonical(traceId: string, parentId: string, flags: string, version: string)
    ensures var tp := NewTraceParent(traceId, parentId, flags, version);
            tp.Some? ==>
              && Canonical(tp.value)
              && tp.value.traceId == Lower(Strip(traceId)) && tp.value.parentId == Lower(Strip(parentId))
              && tp.value.flags == Lower(Strip(flags)) && tp.value.version == Lower(Strip(version))
  {
  }

  /** A hexadecimal field of a value: only these digits, and not zeros alone. */
  ghost predicate Digits(s: string, size: nat) {
    |s| == size && forall i :: 0 <= i < size ==> s[i] in "0123456789abcdef"
  }

  lemma HexExact(s: string, size: nat)
    ensures AllHex(s, size) <==> Digits(s, size)
    ensures AllHex(s, size) ==> |s| == size && (s != Zeros(size) <==> exists i :: 0 <= i < size && s[i] != '0')
  {
    forall c: char ensures IsHex(c) <==> c in "0123456789abcdef" {
      HexDigitExact(c);
    }
    if |s| == size && forall i :: 0 <= i < size ==> s[i] == '0' {
      assert s == Zeros(size);
    }
  }

  lemma HexDigitExact(c: char)
    ensures IsHex(c) <==> c in "0123456789abcdef"
  {
    var digits := "0123456789abcdef";
    if '0' <= c <= '9' {
      assert digits[c as int - 48] == c;
    } else if 'a' <= c <= 'f' {
      assert digits[c as int - 87] == c;
    }
  }

  /** The canonical values: lower-case hexadecimal digits, an id of zeros alone and version ff excluded. */
  lemma CanonicalExact(tp: TraceParent)
    ensures Canonical(tp) <==>
              && Digits(tp.traceId, 32) && Digits(tp.parentId, 16) && Digits(tp.flags, 2) && Digits(tp.version, 2)
              && (exists i :: 0 <= i < 32 && tp.traceId[i] != '0') && (exists i :: 0 <= i < 16 && tp.parentId[i] != '0')
              && tp.version != "ff"
  {
    hide AllHex, Digits;
    HexExact(tp.traceId, 32);
    HexExact(tp.parentId, 16);
    HexExact(tp.flags, 2);
    HexExact(tp.version, 2);
  }

  /** Making a value again from its own fields changes nothing. */
  lemma ConstructionIsIdempotent(tp: TraceParent)
    requires Canonical(tp)
    ensures NewTraceParent(tp.traceId, tp.parentId, tp.flags, tp.version) == Some(tp)
  {
    HexStays(tp.traceId);
    HexStays(tp.parentId);
    HexStays(tp.flags);
    HexStays(tp.version);
  }

  function Parts(tp: TraceParent): (parts: seq<string>)
    ensures |parts| == 4
  {
    [tp.version, tp.traceId, tp.parentId, tp.flags]
  }

  lemma PrintJoins(tp: TraceParent)
    ensures Print(tp) == Join(Parts(tp), '-')
  {
    var (one, two, three) := ([tp.version], [tp.version, tp.traceId], [tp.version, tp.traceId, tp.parentId]);
    assert two[..1] == one && Join(two, '-') == Join(one, '-') + ['-'] + tp.traceId;
    assert three[..2] == two && Join(three, '-') == Join(two, '-') + ['-'] + tp.parentId;
    assert Parts(tp)[..3] == three && Join(Parts(tp), '-') == Join(three, '-') + ['-'] + tp.flags;
  }

  lemma PrintIsCanonicalText(tp: TraceParent)
    requires Canonical(tp)
    ensures |Print(tp)| == 55 && HexOrDash(Print(tp)) && Split(Print(tp), '-') == Parts(tp)
  {
    PrintJoins(tp);
    JoinSplits(Parts(tp), '-');
  }

  // ----- main results -----

  /** Printing and parsing gives every valid value back. */
  lemma RoundTrip(tp: TraceParent)
    requires Canonical(tp)
    ensures Parse(Some(Print(tp))) == Some(tp)
  {
    PrintIsCanonicalText(tp);
    HexStays(Print(tp));
    ConstructionIsIdempotent(tp);
  }

  /** Whatever parses prints to a canonical 55-character header that parses to the same value. */
  lemma ParsedPrintsCanonically(text: string)
    requires Parse(Some(text)).Some?
    ensures var tp := Parse(Some(text)).value;
            Canonical(tp) && |Print(tp)| == 55 && Parse(Some(Print(tp))) == Some(tp)
  {
    var parts := Split(Lower(Strip(text)), '-');
    ConstructedIsCanonical(parts[1], parts[2], parts[3], parts[0]);
    PrintIsCanonicalText(Parse(Some(text)).value);
    RoundTrip(Parse(Some(text)).value);
  }

  /** Each part between the dashes with the white space around it removed. */
  function StripAll(parts: seq<string>): (r: seq<string>)
    ensures |r| == |parts| && forall i :: 0 <= i < |parts| ==> r[i] == Strip(parts[i])
  {
    if parts == [] then [] else StripAll(parts[..|parts| - 1]) + [Strip(parts[|parts| - 1])]
  }

  function Normal(text: string): string {
    Join(StripAll(Split(Lower(Strip(text)), '-')), '-')
  }

  lemma {:induction false} StripKeepsOut(s: string, c: char)
    requires c !in s
    ensures c !in Strip(s)
  {
    StripLeftKeeps(s, c);
    StripRightEnds(StripLeft(s));
  }

  lemma {:induction false} StripLeftKeeps(s: string, c: char)
    requires c !in s
    ensures c !in StripLeft(s)
  {
    if s != "" && IsSpace(s[0]) {
      StripLeftKeeps(s[1..], c);
    }
  }

  lemma {:induction false} StripLowered(s: string)
    requires forall i :: 0 <= i < |s| ==> LowerChar(s[i]) == s[i]
    ensures Lower(Strip(s)) == Strip(s)
  {
    StripLeftLowered(s);
    StripRightEnds(StripLeft(s));
  }

  lemma {:induction false} StripLeftLowered(s: string)
    requires forall i :: 0 <= i < |s| ==> LowerChar(s[i]) == s[i]
    ensures forall i :: 0 <= i < |StripLeft(s)| ==> LowerChar(StripLeft(s)[i]) == StripLeft(s)[i]
  {
    if s != "" && IsSpace(s[0]) {
      StripLeftLowered(s[1..]);
    }
  }

  /** The parts `parse` looks at, stripped: no dash in them, and nothing left to lower. */
  lemma NormalParts(text: string)
    ensures var parts := Split(Lower(Strip(text)), '-');
            && Split(Normal(text), '-') == StripAll(parts)
            && forall i :: 0 <= i < |parts| ==> Lower(Strip(parts[i])) == StripAll(parts)[i]
  {
    var parts := Split(Lower(Strip(text)), '-');
    SplitJoins(Lower(Strip(text)), '-');
    LoweredParts(parts, Lower(Strip(text)));
    forall i | 0 <= i < |parts| ensures '-' !in StripAll(parts)[i] && Lower(Strip(parts[i])) == Strip(parts[i]) {
      StripKeepsOut(parts[i], '-');
      StripLowered(parts[i]);
    }
    JoinSplits(StripAll(parts), '-');
  }

  /** Four stripped parts make a value exactly when they are the parts of a canonical one. */
  lemma PartsExact(parts: seq<string>, stripped: seq<string>, tp: TraceParent)
    requires |parts| == |stripped| == 4 && forall i :: 0 <= i < 4 ==> Lower(Strip(parts[i])) == stripped[i]
    ensures var made := NewTraceParent(parts[1], parts[2], parts[3], parts[0]);
            made == Some(tp) <==> Canonical(tp) && stripped == Parts(tp)
  {
    hide Lower, Strip;
  }

  /**
   Exactly the texts that are a canonical header up to letter case and white space
   around the whole and around each part are accepted, with that header's value.
   */
  lemma ParseExact(text: string, tp: TraceParent)
    ensures Parse(Some(text)) == Some(tp) <==> Canonical(tp) && Normal(text) == Print(tp)
    ensures Parse(None).None?
  {
    hide Lower, Strip, Split, Join, StripAll, NewTraceParent, Normal;
    var parts := Split(Lower(Strip(text)), '-');
    var stripped := StripAll(parts);
    NormalParts(text);
    NormalJoins(text);
    PrintJoins(tp);
    if |parts| == 4 {
      PartsExact(parts, stripped, tp);
    }
    if Canonical(tp) {
      PrintIsCanonicalText(tp);
    }
    if text == "" {
      NothingParses(tp);
    }
  }

  lemma NormalJoins(text: string)
    ensures Normal(text) == Join(StripAll(Split(Lower(Strip(text)), '-')), '-')
  {
  }

  lemma NothingParses(tp: TraceParent)
    ensures Normal("") != Print(tp)
  {
    assert Split("", '-') == [""] && StripAll([""]) == [""];
  }

  /** The parts of a lower-case text are lower-case. */
  lemma {:induction false} LoweredParts(parts: seq<string>, s: string)
    requires |parts| >= 1 && Join(parts, '-') == s
    requires forall i :: 0 <= i < |s| ==> LowerChar(s[i]) == s[i]
    ensures forall k, i :: 0 <= k < |parts| && 0 <= i < |parts[k]| ==> LowerChar(parts[k][i]) == parts[k][i]
  {
    var n := |parts| - 1;
    if n > 0 {
      var front := Join(parts[..n], '-');
      assert s == front + ['-'] + parts[n];
      assert forall i :: 0 <= i < |front| ==> front[i] == s[i];
      assert forall i :: 0 <= i < |parts[n]| ==> parts[n][i] == s[|front| + 1 + i];
      LoweredParts(parts[..n], front);
    }
  }

  // ----- propagation -----

  /** The tracing part of an `OperationContext`. */
  datatype Context = Context(traceId: string, spanId: string, parentSpanId: Option<string>, flags: string)

  ghost predicate ValidContext(c: Context) {
    && AllHex(c.traceId, 32) && c.traceId != Zeros(32)
    && AllHex(c.spanId, 16) && c.spanId != Zeros(16) && AllHex(c.flags, 2)
  }

  /** `OperationContext.traceparent`: None where the constructor would raise. */
  function Header(c: Context): Option<string> {
    var tp := NewTraceParent(c.traceId, c.spanId, c.flags, "00");
    if tp.Some? then Some(Print(tp.value)) else None
  }

  /** `OperationContext.root(trace_parent=...)` with the span id drawn for it. */
  function Continued(tp: TraceParent, span: string): Option<Context> {
    var (t, s, p, f) := (ValidatedHex(tp.traceId, 32), ValidatedHex(span, 16), ValidatedHex(tp.parentId, 16),
                         Lower(Strip(tp.flags)));
    if t.Some? && s.Some? && p.Some? && AllHex(f, 2) then Some(Context(t.value, s.value, p, f)) else None
  }

  /** `OperationContext.child` with the span id drawn for it. */
  function Child(c: Context, span: string): Option<Context> {
    var (t, s, p, f) := (ValidatedHex(c.traceId, 32), ValidatedHex(span, 16), ValidatedHex(c.spanId, 16),
                         Lower(Strip(c.flags)));
    if t.Some? && s.Some? && p.Some? && AllHex(f, 2) then Some(Context(t.value, s.value, p, f)) else None
  }

  /** A call over the wire: print the header, parse it on the other side, continue the trace there. */
  function Remote(c: Context, span: string): Option<Context> {
    var header := Header(c);
    var tp := Parse(header);
    if tp.None? then None else Continued(tp.value, span)
  }

  /** The header field by field: version 00, the trace, the span as the parent, and the flags, in 55 characters. */
  lemma HeaderExact(c: Context)
    requires ValidContext(c)
    ensures Header(c).Some?
    ensures var h := Header(c).value;
            && |h| == 55 && h[..2] == "00" && h[2] == h[35] == h[52] == '-'
            && h[3..35] == c.traceId && h[36..52] == c.spanId && h[53..] == c.flags
  {
    ConstructionIsIdempotent(TraceParent(c.traceId, c.spanId, c.flags, "00"));
    PrintFields(TraceParent(c.traceId, c.spanId, c.flags, "00"));
  }

  lemma PrintFields(tp: TraceParent)
    requires |tp.version| == 2 && |tp.traceId| == 32 && |tp.parentId| == 16 && |tp.flags| == 2
    ensures var h := Print(tp);
            && |h| == 55 && h[..2] == tp.version && h[2] == h[35] == h[52] == '-'
            && h[3..35] == tp.traceId && h[36..52] == tp.parentId && h[53..] == tp.flags
  {
  }

  /** A remote call continues the trace just as a local child span does. */
  lemma RemoteIsChild(c: Context, span: string)
    requires ValidContext(c)
    ensures Remote(c, span) == Child(c, span)
    ensures Remote(c, span).Some? ==>
              && ValidContext(Remote(c, span).value) && Remote(c, span).value.traceId == c.traceId
              && Remote(c, span).value.flags == c.flags && Remote(c, span).value.parentSpanId == Some(c.spanId)
              && Remote(c, span).value.spanId == Lower(Strip(span))
  {
    var tp := TraceParent(c.traceId, c.spanId, c.flags, "00");
    ConstructionIsIdempotent(tp);
    RoundTrip(tp);
    PrintIsCanonicalText(tp);
    HexStays(c.traceId);
    HexStays(c.spanId);
    HexStays(c.flags);
  }

  /** A chain of contexts, each made from the one before by a local or a remote call. */
  ghost predicate Chain(cs: seq<Context>, spans: seq<string>, remote: seq<bool>) {
    && |cs| == |spans| + 1 && |remote| == |spans|
    && forall i :: 0 <= i < |spans| ==>
         (if remote[i] then Remote(cs[i], spans[i]) else Child(cs[i], spans[i])) == Some(cs[i + 1])
  }

  /** Along every chain of calls the trace id and flags stay, and each span names the one before as its parent. */
  lemma {:induction false} TraceSurvives(cs: seq<Context>, spans: seq<string>, remote: seq<bool>, k: nat)
    requires Chain(cs, spans, remote) && k < |cs| && ValidContext(cs[0])
    ensures ValidContext(cs[k]) && cs[k].traceId == cs[0].traceId && cs[k].flags == cs[0].flags
    ensures k > 0 ==> cs[k].parentSpanId == Some(cs[k - 1].spanId)
  {
    if k > 0 {
      TraceSurvives(cs, spans, remote, k - 1);
      RemoteIsChild(cs[k - 1], spans[k - 1]);
    }
  }
}
