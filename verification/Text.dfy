/** Text as Python handles it: strip, lower case, split and join. */
module Text {

  /** White space up to Latin-1. */
  predicate IsSpace(c: char) {
    c == ' ' || '\t' <= c <= '\r' || (28 as char <= c <= 31 as char) || c == 133 as char || c == 160 as char
  }

  /** Exactly Python's white space up to Latin-1. */
  lemma SpaceExact(c: char)
    ensures IsSpace(c) <==>
              c in {' ', '\t', '\n', '\U{0b}', '\U{0c}', '\r', '\U{1c}', '\U{1d}', '\U{1e}', '\U{1f}', '\U{85}',
                    '\U{a0}'}
  {
    var code := c as int;
    assert c == code as char;
  }

  function StripLeft(s: string): string {
    if s != "" && IsSpace(s[0]) then StripLeft(s[1..]) else s
  }

  function StripRight(s: string): string {
    if s != "" && IsSpace(s[|s| - 1]) then StripRight(s[..|s| - 1]) else s
  }

  function Strip(s: string): string {
    StripRight(StripLeft(s))
  }

  function LowerChar(c: char): char {
    if 'A' <= c <= 'Z' then (c as int + 32) as char else c
  }

  function Lower(s: string): (r: string)
    ensures |r| == |s| && forall i :: 0 <= i < |s| ==> r[i] == LowerChar(s[i])
  {
    if s == "" then "" else [LowerChar(s[0])] + Lower(s[1..])
  }

  /** The 26 capitals become the small letters in their order; nothing else changes. */
  lemma LowerExact(c: char)
    ensures var (capitals, letters) := ("ABCDEFGHIJKLMNOPQRSTUVWXYZ", "abcdefghijklmnopqrstuvwxyz");
            && (forall i :: 0 <= i < 26 ==> LowerChar(capitals[i]) == letters[i])
            && (c !in capitals ==> LowerChar(c) == c)
  {
    var capitals := "ABCDEFGHIJKLMNOPQRSTUVWXYZ";
    if 'A' <= c <= 'Z' {
      assert capitals[c as int - 65] == c;
    }
  }

  lemma {:induction false} StripRightEnds(s: string)
    ensures StripRight(s) <= s
    ensures StripRight(s) != "" ==> !IsSpace(StripRight(s)[|StripRight(s)| - 1])
  {
    if s != "" && IsSpace(s[|s| - 1]) {
      StripRightEnds(s[..|s| - 1]);
    }
  }

  lemma {:induction false} StripLeftEnds(s: string)
    ensures StripLeft(s) != "" ==> !IsSpace(StripLeft(s)[0])
  {
    if s != "" && IsSpace(s[0]) {
      StripLeftEnds(s[1..]);
    }
  }

  /** Stripped text neither starts nor ends with white space. */
  ghost predicate Stripped(s: string) {
    s != "" ==> !IsSpace(s[0]) && !IsSpace(s[|s| - 1])
  }

  lemma StripStrips(s: string)
    ensures Stripped(Strip(s))
  {
    StripLeftEnds(s);
    StripRightEnds(StripLeft(s));
  }

  predicate Blank(s: string) {
    forall i :: 0 <= i < |s| ==> IsSpace(s[i])
  }

  /** Stripping removes white space at both ends, all of it, and nothing else. */
  lemma StripExact(s: string) returns (left: string, right: string)
    ensures s == left + Strip(s) + right && Blank(left) && Blank(right) && Stripped(Strip(s))
  {
    left := LeftBlank(s);
    right := RightBlank(StripLeft(s));
    StripStrips(s);
  }

  lemma {:induction false} LeftBlank(s: string) returns (left: string)
    ensures s == left + StripLeft(s) && Blank(left)
  {
    left := "";
    if s != "" && IsSpace(s[0]) {
      left := LeftBlank(s[1..]);
      left := [s[0]] + left;
    }
  }

  lemma {:induction false} RightBlank(s: string) returns (right: string)
    ensures s == StripRight(s) + right && Blank(right)
  {
    right := "";
    if s != "" && IsSpace(s[|s| - 1]) {
      right := RightBlank(s[..|s| - 1]);
      right := right + [s[|s| - 1]];
    }
  }

  lemma StrippedStays(s: string)
    requires Stripped(s)
    ensures Strip(s) == s
  {
  }

  // ----- repr -----

  function HexDigit(d: nat): char
    requires d < 16
  {
    "0123456789abcdef"[d]
  }

  /** repr of a text: single quotes unless it holds only those, and escapes for what does not print. */
  function Repr(s: string): string {
    var quote := if '\'' in s && '"' !in s then '"' else '\'';
    [quote] + Escaped(s, quote) + [quote]
  }

  function Escaped(s: string, quote: char): string {
    if s == "" then "" else EscapedChar(s[0], quote) + Escaped(s[1..], quote)
  }

  /** Up to Latin-1; later characters are taken to print. */
  function EscapedChar(c: char, quote: char): string {
    var code := c as int;
    if c == quote || c == '\\' then ['\\', c]
    else if c == '\t' then "\\t"
    else if c == '\n' then "\\n"
    else if c == '\r' then "\\r"
    else if code < 32 || 127 <= code <= 160 || code == 173 then "\\x" + [HexDigit(code / 16), HexDigit(code % 16)]
    else [c]
  }

  function HexValue(c: char): int {
    if '0' <= c <= '9' then c as int - '0' as int else c as int - 'a' as int + 10
  }

  lemma HexDigitReadsBack(d: nat)
    requires d < 16
    ensures HexValue(HexDigit(d)) == d && HexDigit(d) in "0123456789abcdef"
  {
  }

  /** What a reader makes of the text between the quotes. */
  function Unescaped(t: string): string {
    if t == "" then ""
    else if t[0] != '\\' || |t| == 1 then [t[0]] + Unescaped(t[1..])
    else if t[1] == 't' then ['\t'] + Unescaped(t[2..])
    else if t[1] == 'n' then ['\n'] + Unescaped(t[2..])
    else if t[1] == 'r' then ['\r'] + Unescaped(t[2..])
    else if t[1] == 'x' && |t| >= 4 && 0 <= 16 * HexValue(t[2]) + HexValue(t[3]) < 256
    then [(16 * HexValue(t[2]) + HexValue(t[3])) as char] + Unescaped(t[4..])
    else [t[1]] + Unescaped(t[2..])
  }

  lemma UnescapedHex(code: nat, rest: string)
    requires code < 256
    ensures Unescaped(['\\', 'x', HexDigit(code / 16), HexDigit(code % 16)] + rest) == [code as char] + Unescaped(rest)
  {
    hide HexDigit, HexValue;
    var t := ['\\', 'x', HexDigit(code / 16), HexDigit(code % 16)] + rest;
    HexDigitReadsBack(code / 16);
    HexDigitReadsBack(code % 16);
    assert t[4..] == rest && 16 * (code / 16) + code % 16 == code;
  }

  lemma UnescapedTwo(d: char, rest: string)
    requires d != 'x'
    ensures Unescaped(['\\', d] + rest)
         == [if d == 't' then '\t' else if d == 'n' then '\n' else if d == 'r' then '\r' else d] + Unescaped(rest)
  {
    var t := ['\\', d] + rest;
    assert t[2..] == rest;
  }

  lemma UnescapedOne(c: char, quote: char, rest: string)
    requires quote == '\'' || quote == '"'
    ensures Unescaped(EscapedChar(c, quote) + rest) == [c] + Unescaped(rest)
  {
    hide Unescaped;
    var e := EscapedChar(c, quote);
    if |e| == 4 {
      UnescapedHex(c as int, rest);
      assert e == ['\\', 'x', HexDigit(c as int / 16), HexDigit(c as int % 16)];
    } else if |e| == 2 {
      UnescapedTwo(e[1], rest);
      assert e == ['\\', e[1]];
    } else {
      UnescapedPlain(c, rest);
    }
  }

  lemma UnescapedPlain(c: char, rest: string)
    requires c != '\\'
    ensures Unescaped([c] + rest) == [c] + Unescaped(rest)
  {
    assert ([c] + rest)[1..] == rest;
  }

  lemma {:induction false} EscapedReadsBack(s: string, quote: char)
    requires quote == '\'' || quote == '"'
    ensures Unescaped(Escaped(s, quote)) == s
  {
    if s != "" {
      EscapedReadsBack(s[1..], quote);
      UnescapedOne(s[0], quote, Escaped(s[1..], quote));
    }
  }

  predicate Prints(c: char) {
    32 <= c as int < 127 || (160 < c as int && c as int != 173)
  }

  lemma HexDigitPrints(d: nat)
    requires d < 16
    ensures Prints(HexDigit(d))
  {
  }

  lemma EscapedCharPrints(c: char, quote: char)
    requires Prints(quote)
    ensures forall i :: 0 <= i < |EscapedChar(c, quote)| ==> Prints(EscapedChar(c, quote)[i])
    ensures Prints(c) && c != quote && c != '\\' ==> EscapedChar(c, quote) == [c]
  {
    hide HexDigit;
    if c as int < 256 {
      HexDigitPrints(c as int / 16);
      HexDigitPrints(c as int % 16);
    }
  }

  lemma {:induction false} EscapedPrints(s: string, quote: char)
    requires Prints(quote)
    ensures forall i :: 0 <= i < |Escaped(s, quote)| ==> Prints(Escaped(s, quote)[i])
    ensures (forall i :: 0 <= i < |s| ==> Prints(s[i]) && s[i] != quote && s[i] != '\\') ==> Escaped(s, quote) == s
  {
    hide EscapedChar, Prints;
    if s != "" {
      EscapedPrints(s[1..], quote);
      EscapedCharPrints(s[0], quote);
      assert s == [s[0]] + s[1..];
    }
  }

  /**
   A text's repr is a quoted text that prints and reads back as the text: double quotes
   exactly for a text with single quotes only, and plain text as it stands.
   */
  lemma ReprExact(s: string)
    ensures var (r, n) := (Repr(s), |Repr(s)|);
            && n >= 2 && r[0] == r[n - 1] == (if '\'' in s && '"' !in s then '"' else '\'')
            && Unescaped(r[1..n - 1]) == s && (forall i :: 0 <= i < n ==> Prints(r[i]))
            && ((forall i :: 0 <= i < |s| ==> Prints(s[i]) && s[i] != '\'' && s[i] != '\\') ==> r[1..n - 1] == s)
  {
    var quote := if '\'' in s && '"' !in s then '"' else '\'';
    assert Repr(s)[1..|Repr(s)| - 1] == Escaped(s, quote);
    EscapedReadsBack(s, quote);
    EscapedPrints(s, quote);
  }

  // ----- split and join -----

  function Split(s: string, sep: char): (parts: seq<string>)
    ensures |parts| >= 1
  {
    if s == "" then [""]
    else
      var (n, parts) := (|s| - 1, Split(s[..|s| - 1], sep));
      if s[n] == sep then parts + [""] else parts[..|parts| - 1] + [parts[|parts| - 1] + [s[n]]]
  }

  function Join(parts: seq<string>, sep: char): string
    requires |parts| >= 1
  {
    if |parts| == 1 then parts[0] else Join(parts[..|parts| - 1], sep) + [sep] + parts[|parts| - 1]
  }

  ghost predicate Free(parts: seq<string>, sep: char) {
    forall i :: 0 <= i < |parts| ==> sep !in parts[i]
  }

  lemma JoinAppend(parts: seq<string>, part: string, sep: char)
    requires |parts| >= 1
    ensures Join(parts + [part], sep) == Join(parts, sep) + [sep] + part
  {
    assert (parts + [part])[..|parts|] == parts;
  }

  /** Extending the last part extends the joined text. */
  lemma JoinExtend(parts: seq<string>, c: char, sep: char)
    requires |parts| >= 1
    ensures Join(parts[..|parts| - 1] + [parts[|parts| - 1] + [c]], sep) == Join(parts, sep) + [c]
  {
    var (front, last) := (parts[..|parts| - 1], parts[|parts| - 1]);
    if front != [] {
      JoinAppend(front, last + [c], sep);
      assert Join(front, sep) + [sep] + (last + [c]) == Join(front, sep) + [sep] + last + [c];
    }
  }

  lemma {:induction false} SplitJoins(s: string, sep: char)
    ensures Join(Split(s, sep), sep) == s && Free(Split(s, sep), sep)
  {
    hide Join;
    if s == "" {
      JoinOne("", sep);
    } else {
      var n := |s| - 1;
      SplitJoins(s[..n], sep);
      assert s == s[..n] + [s[n]];
      if s[n] == sep {
        JoinAppend(Split(s[..n], sep), "", sep);
        assert s[..n] + [sep] + "" == s;
      } else {
        JoinExtend(Split(s[..n], sep), s[n], sep);
      }
    }
  }

  lemma JoinOne(s: string, sep: char)
    ensures Join([s], sep) == s
  {
  }

  lemma SplitStep(s: string, c: char, sep: char)
    ensures var (n, parts) := (|Split(s, sep)|, Split(s, sep));
            Split(s + [c], sep) == if c == sep then parts + [""] else parts[..n - 1] + [parts[n - 1] + [c]]
  {
    assert (s + [c])[..|s|] == s;
  }

  lemma {:induction false} SplitAppend(s: string, sep: char, tail: string)
    requires sep !in tail
    ensures Split(s + [sep] + tail, sep) == Split(s, sep) + [tail]
  {
    hide Split;
    if tail == "" {
      SplitStep(s, sep, sep);
      assert s + [sep] + "" == s + [sep];
    } else {
      var (front, c) := (tail[..|tail| - 1], tail[|tail| - 1]);
      SplitAppend(s, sep, front);
      SplitStep(s + [sep] + front, c, sep);
      assert tail == front + [c] && s + [sep] + tail == s + [sep] + front + [c];
    }
  }

  lemma {:induction false} SplitWhole(s: string, sep: char)
    requires sep !in s
    ensures Split(s, sep) == [s]
  {
    if s != "" {
      SplitWhole(s[..|s| - 1], sep);
      assert s == s[..|s| - 1] + [s[|s| - 1]];
    }
  }

  /** Splitting undoes joining when no part holds the separator. */
  lemma {:induction false} JoinSplits(parts: seq<string>, sep: char)
    requires |parts| >= 1 && Free(parts, sep)
    ensures Split(Join(parts, sep), sep) == parts
  {
    var n := |parts| - 1;
    if n == 0 {
      SplitWhole(parts[0], sep);
    } else {
      JoinSplits(parts[..n], sep);
      SplitAppend(Join(parts[..n], sep), sep, parts[n]);
      assert parts == parts[..n] + [parts[n]];
    }
  }
}
