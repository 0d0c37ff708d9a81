/**
 * The CSV repair pipeline: mojibake repair, a chain of global replacements, NFKC, then one trailing newline. NFKC is
 * any function from texts to texts; what Unicode says about it is a hypothesis where it is needed. The chain without
 * those two stages comes first.
 */
module CsvRepair {
  import opened JsValues
  import opened Mojibake

  const QUOTES: set<char> := {'\U{2018}', '\U{2019}', '\U{201A}', '\U{201B}', '\U{2032}'}
  const DOUBLE_QUOTES: set<char> := {'\U{201C}', '\U{201D}', '\U{201E}', '\U{2033}'}
  const DASHES: set<char> := {'\U{2013}', '\U{2014}', '\U{2015}', '\U{2212}'}
  const ELLIPSIS: set<char> := {'\U{2026}'}
  const SPACES: set<char> := {'\U{00A0}', '\U{202F}', '\U{2007}', '\U{2009}'}
  const INVISIBLE: set<char> := {'\U{200B}', '\U{200C}', '\U{200D}', '\U{00AD}', '\U{FEFF}'}

  /** `s.replace(/[chars]/g, by)`. */
  function ReplaceEach(s: string, chars: set<char>, sub: string): string {
    if s == "" then "" else (if s[0] in chars then sub else [s[0]]) + ReplaceEach(s[1..], chars, sub)
  }

  /** `s.replace(/\r\n/g, "\n")`: left to right, matches do not overlap. */
  function ReplaceCrLf(s: string): string {
    if s == "" then ""
    else if StartsWith(s, "\r\n") then "\n" + ReplaceCrLf(s[2..])
    else [s[0]] + ReplaceCrLf(s[1..])
  }

  /** `s.replace(/^\uFEFF/, "")`. */
  function StripBom(s: string): string {
    if StartsWith(s, "\U{FEFF}") then s[1..] else s
  }

  function FixMarks(s: string): string {
    var s1 := ReplaceEach(s, QUOTES, "'");
    var s2 := ReplaceEach(s1, DOUBLE_QUOTES, "\"");
    ReplaceEach(s2, DASHES, "-")
  }

  function FixBlanks(s: string): string {
    var s1 := ReplaceEach(s, ELLIPSIS, "...");
    var s2 := ReplaceEach(s1, SPACES, " ");
    ReplaceEach(s2, INVISIBLE, "")
  }

  function FixPunctuation(s: string): string {
    FixBlanks(FixMarks(s))
  }

  function FixNewlines(s: string): string {
    ReplaceEach(ReplaceCrLf(s), {'\r'}, "\n")
  }

  /** The chain without mojibake repair and NFKC. */
  function Flatten(text: string): string {
    TrimEnd(FixNewlines(FixPunctuation(StripBom(text)))) + "\n"
  }

  /** `repairCsvPayload`, all of it. */
  function Repair(nfkc: string -> string, text: string): string {
    RepairUnstripped(nfkc, StripBom(text))
  }

  function RepairUnstripped(nfkc: string -> string, text: string): string {
    TrimEnd(FixNewlines(nfkc(FixPunctuation(RepairMojibake(text))))) + "\n"
  }

  /** `decodeCsvBuffer`: strict UTF-8, else Windows-1252. */
  function DecodeCsv(windows1252: seq<Byte> -> string, bs: seq<Byte>): string {
    if DecodeText(bs).Some? then DecodeText(bs).value else windows1252(bs)
  }

  /** What the script writes back over the file it read. */
  function RepairFile(nfkc: string -> string, windows1252: seq<Byte> -> string, bs: seq<Byte>): seq<Byte> {
    Utf8(Repair(nfkc, DecodeCsv(windows1252, bs)))
  }

  // ---- The six replacements are one pass ----

  function FixChar(c: char): string {
    if c in QUOTES then "'"
    else if c in DOUBLE_QUOTES then "\""
    else if c in DASHES then "-"
    else if c in ELLIPSIS then "..."
    else if c in SPACES then " "
    else if c in INVISIBLE then ""
    else [c]
  }

  predicate Plain(c: char) {
    c !in QUOTES && c !in DOUBLE_QUOTES && c !in DASHES && c !in ELLIPSIS && c !in SPACES && c !in INVISIBLE
  }

  function FixEach(s: string): string {
    if s == "" then "" else FixChar(s[0]) + FixEach(s[1..])
  }

  lemma {:induction false} ReplaceEachConcat(s: string, t: string, chars: set<char>, sub: string)
    ensures ReplaceEach(s + t, chars, sub) == ReplaceEach(s, chars, sub) + ReplaceEach(t, chars, sub)
  {
    if s == "" {
      assert s + t == t;
    } else {
      assert (s + t)[1..] == s[1..] + t;
      ReplaceEachConcat(s[1..], t, chars, sub);
    }
  }

  lemma FixMarksConcat(s: string, t: string)
    ensures FixMarks(s + t) == FixMarks(s) + FixMarks(t)
  {
    ReplaceEachConcat(s, t, QUOTES, "'");
    var s1, t1 := ReplaceEach(s, QUOTES, "'"), ReplaceEach(t, QUOTES, "'");
    ReplaceEachConcat(s1, t1, DOUBLE_QUOTES, "\"");
    ReplaceEachConcat(ReplaceEach(s1, DOUBLE_QUOTES, "\""), ReplaceEach(t1, DOUBLE_QUOTES, "\""), DASHES, "-");
  }

  lemma FixBlanksConcat(s: string, t: string)
    ensures FixBlanks(s + t) == FixBlanks(s) + FixBlanks(t)
  {
    ReplaceEachConcat(s, t, ELLIPSIS, "...");
    var s1, t1 := ReplaceEach(s, ELLIPSIS, "..."), ReplaceEach(t, ELLIPSIS, "...");
    ReplaceEachConcat(s1, t1, SPACES, " ");
    ReplaceEachConcat(ReplaceEach(s1, SPACES, " "), ReplaceEach(t1, SPACES, " "), INVISIBLE, "");
  }

  lemma FixPunctuationConcat(s: string, t: string)
    ensures FixPunctuation(s + t) == FixPunctuation(s) + FixPunctuation(t)
  {
    FixMarksConcat(s, t);
    FixBlanksConcat(FixMarks(s), FixMarks(t));
  }

  /** A string without the replaced characters is left alone. */
  lemma {:induction false} ReplaceEachIdle(s: string, chars: set<char>, sub: string)
    requires forall c :: c in s ==> c !in chars
    ensures ReplaceEach(s, chars, sub) == s
  {
    if s != "" {
      assert s == [s[0]] + s[1..];
      ReplaceEachIdle(s[1..], chars, sub);
    }
  }

  lemma ReplaceOne(c: char, chars: set<char>, sub: string)
    ensures ReplaceEach([c], chars, sub) == if c in chars then sub else [c]
  {
    assert [c][1..] == "";
  }

  lemma FixMarksOne(c: char)
    ensures FixMarks([c]) ==
      if c in QUOTES then "'" else if c in DOUBLE_QUOTES then "\"" else if c in DASHES then "-" else [c]
  {
    ReplaceOne(c, QUOTES, "'");
    var c1 := if c in QUOTES then '\'' else c;
    ReplaceOne(c1, DOUBLE_QUOTES, "\"");
    ReplaceOne(if c1 in DOUBLE_QUOTES then '"' else c1, DASHES, "-");
  }

  lemma FixBlanksOne(c: char)
    ensures FixBlanks([c]) ==
      if c in ELLIPSIS then "..." else if c in SPACES then " " else if c in INVISIBLE then "" else [c]
  {
    ReplaceOne(c, ELLIPSIS, "...");
    if c in ELLIPSIS {
      ReplaceEachIdle("...", SPACES, " ");
      ReplaceEachIdle("...", INVISIBLE, "");
    } else {
      ReplaceOne(c, SPACES, " ");
      ReplaceOne(if c in SPACES then ' ' else c, INVISIBLE, "");
    }
  }

  lemma FixPunctuationOne(c: char)
    ensures FixPunctuation([c]) == FixChar(c)
  {
    FixMarksOne(c);
    FixBlanksOne(FixMarks([c])[0]);
  }

  /** The chain of six replacements is one pass: no stage produces what a later one replaces. */
  lemma {:induction false} PunctuationIsOnePass(s: string)
    ensures FixPunctuation(s) == FixEach(s)
  {
    if s != "" {
      assert s == [s[0]] + s[1..];
      FixPunctuationConcat([s[0]], s[1..]);
      FixPunctuationOne(s[0]);
      PunctuationIsOnePass(s[1..]);
    }
  }

  /** The table that single snippet fields are normalised with. */
  const PUNCTUATION_MAP: map<char, string> := map[
    '\U{2018}' := "'", '\U{2019}' := "'", '\U{201A}' := "'", '\U{201B}' := "'", '\U{2032}' := "'",
    '\U{201C}' := "\"", '\U{201D}' := "\"", '\U{201E}' := "\"", '\U{2033}' := "\"",
    '\U{2013}' := "-", '\U{2014}' := "-", '\U{2015}' := "-", '\U{2212}' := "-", '\U{2026}' := "...",
    '\U{00A0}' := " ", '\U{202F}' := " ", '\U{2007}' := " ", '\U{2009}' := " ",
    '\U{200B}' := "", '\U{200C}' := "", '\U{200D}' := "", '\U{FEFF}' := "", '\U{00AD}' := ""]

  /** `normalizePunctuation`. */
  function NormalizePunctuation(s: string): string {
    if s == "" then "" else
    (if s[0] in PUNCTUATION_MAP then PUNCTUATION_MAP[s[0]] else [s[0]]) + NormalizePunctuation(s[1..])
  }

  lemma TableIsChain(c: char)
    ensures (c in PUNCTUATION_MAP <==> !Plain(c)) && (c in PUNCTUATION_MAP ==> PUNCTUATION_MAP[c] == FixChar(c))
  {
  }

  /** CSV files and single snippet fields get the same punctuation: the six replacements equal the table. */
  lemma {:induction false} ChainEqualsTable(s: string)
    ensures FixPunctuation(s) == NormalizePunctuation(s)
  {
    PunctuationIsOnePass(s);
    if s != "" {
      PunctuationIsOnePass(s[1..]);
      ChainEqualsTable(s[1..]);
      TableIsChain(s[0]);
    }
  }

  predicate AllPlain(s: string) {
    forall c :: c in s ==> Plain(c)
  }

  lemma FixCharIsPlain(c: char)
    ensures AllPlain(FixChar(c))
    ensures Plain(c) ==> FixChar(c) == [c]
  {
    assert forall d :: d in "..." ==> d == '.';
  }

  lemma {:induction false} FixEachIsPlain(s: string)
    ensures AllPlain(FixEach(s))
    ensures AllPlain(s) ==> FixEach(s) == s
  {
    if s != "" {
      FixEachIsPlain(s[1..]);
      FixCharIsPlain(s[0]);
      assert s[0] in s && s == [s[0]] + s[1..];
      assert forall c :: c in s[1..] ==> c in s;
    }
  }

  /** Without mojibake repair, stripping a leading byte order mark first would make no difference. */
  lemma BomStripIsRedundant(s: string)
    ensures FixPunctuation(StripBom(s)) == FixPunctuation(s)
    ensures Flatten(s) == TrimEnd(FixNewlines(FixPunctuation(s))) + "\n"
  {
    PunctuationIsOnePass(s);
    PunctuationIsOnePass(StripBom(s));
    if StartsWith(s, "\U{FEFF}") {
      assert FixChar(s[0]) == "";
    }
  }

  // ---- The two newline replacements are one scan ----

  /** One left-to-right scanner: CRLF, a lone CR and a lone LF each end a line. */
  function ScanNewlines(s: string): string {
    if s == "" then ""
    else if s[0] == '\r' then
      "\n" + ScanNewlines(if |s| > 1 && s[1] == '\n' then s[2..] else s[1..])
    else [s[0]] + ScanNewlines(s[1..])
  }

  function LineBreaks(s: string): nat {
    if s == "" then 0
    else if s[0] == '\r' then 1 + LineBreaks(if |s| > 1 && s[1] == '\n' then s[2..] else s[1..])
    else (if s[0] == '\n' then 1 else 0) + LineBreaks(s[1..])
  }

  lemma {:induction false} NewlinesAreOneScan(s: string)
    ensures FixNewlines(s) == ScanNewlines(s)
  {
    if s != "" {
      if StartsWith(s, "\r\n") {
        assert s[0] == '\r' && s[1] == '\n';
        NewlinesAreOneScan(s[2..]);
        ReplaceEachConcat("\n", ReplaceCrLf(s[2..]), {'\r'}, "\n");
        ReplaceOne('\n', {'\r'}, "\n");
      } else {
        assert !(s[0] == '\r' && |s| > 1 && s[1] == '\n');
        NewlinesAreOneScan(s[1..]);
        ReplaceEachConcat([s[0]], ReplaceCrLf(s[1..]), {'\r'}, "\n");
        ReplaceOne(s[0], {'\r'}, "\n");
      }
    }
  }

  lemma LineBreaksAfter(c: char, rest: string)
    requires c != '\r'
    ensures LineBreaks([c] + rest) == (if c == '\n' then 1 else 0) + LineBreaks(rest)
  {
    assert ([c] + rest)[1..] == rest;
  }

  lemma ScanStep(s: string, rest: string)
    requires s != "" && rest == if s[0] == '\r' && |s| > 1 && s[1] == '\n' then s[2..] else s[1..]
    ensures var c := if s[0] == '\r' then '\n' else s[0];
      && ScanNewlines(s) == [c] + ScanNewlines(rest)
      && LineBreaks(s) == (if c == '\n' then 1 else 0) + LineBreaks(rest)
  {
  }

  lemma {:induction false} ScanShape(s: string)
    ensures '\r' !in ScanNewlines(s)
    ensures LineBreaks(ScanNewlines(s)) == LineBreaks(s)
  {
    if s != "" {
      var rest := if s[0] == '\r' && |s| > 1 && s[1] == '\n' then s[2..] else s[1..];
      ScanShape(rest);
      ScanStep(s, rest);
      LineBreaksAfter(if s[0] == '\r' then '\n' else s[0], ScanNewlines(rest));
    }
  }

  /** Besides the newlines themselves, scanning adds no character. */
  lemma {:induction false} ScanAdds(s: string, c: char)
    requires c in ScanNewlines(s)
    ensures c == '\n' || c in s
  {
    var rest := if s[0] == '\r' && |s| > 1 && s[1] == '\n' then s[2..] else s[1..];
    ScanStep(s, rest);
    assert s[0] in s && forall x :: x in rest ==> x in s;
    if c in ScanNewlines(rest) {
      ScanAdds(rest, c);
    }
  }

  lemma {:induction false} ScanIdle(s: string)
    requires '\r' !in s
    ensures ScanNewlines(s) == s
  {
    if s != "" {
      assert s[0] in s && s == [s[0]] + s[1..];
      ScanIdle(s[1..]);
    }
  }

  lemma ScanHead(s: string, c: char, rest: string)
    requires s != "" && rest == if s[0] == '\r' && |s| > 1 && s[1] == '\n' then s[2..] else s[1..]
    requires c in s && c != '\r'
    ensures c in rest || c == if s[0] == '\r' then '\n' else s[0]
  {
    assert s == s[..|s| - |rest|] + rest;
    var i :| 0 <= i < |s| && s[i] == c;
    assert i >= |s| - |rest| ==> rest[i - (|s| - |rest|)] == c;
  }

  /** Scanning keeps every other character. */
  lemma {:induction false} ScanKeeps(s: string, c: char)
    requires c in s && c != '\r'
    ensures c in ScanNewlines(s)
  {
    var rest := if s[0] == '\r' && |s| > 1 && s[1] == '\n' then s[2..] else s[1..];
    ScanStep(s, rest);
    ScanHead(s, c, rest);
    if c in rest {
      ScanKeeps(rest, c);
    }
  }

  /** The two newline replacements preserve the number of line breaks, and leave no carriage return. */
  lemma NewlinesPreserveLineBreaks(s: string)
    ensures FixNewlines(s) == ScanNewlines(s)
    ensures LineBreaks(FixNewlines(s)) == LineBreaks(s)
    ensures '\r' !in FixNewlines(s)
  {
    NewlinesAreOneScan(s);
    ScanShape(s);
  }

  // ---- The chain without mojibake repair and NFKC ----

  /** What a file should look like: nothing left to replace, and ended by exactly one newline. */
  predicate Clean(s: string) {
    && s != "" && s[|s| - 1] == '\n'
    && (|s| >= 2 ==> !IsSpace(s[|s| - 2]))
    && '\r' !in s && AllPlain(s)
  }

  lemma NewlinesKeepPlain(s: string)
    requires AllPlain(s)
    ensures AllPlain(FixNewlines(s)) && '\r' !in FixNewlines(s)
    ensures '\r' !in s ==> FixNewlines(s) == s
  {
    NewlinesAreOneScan(s);
    ScanShape(s);
    forall c | c in FixNewlines(s) ensures Plain(c) {
      ScanAdds(s, c);
    }
    if '\r' !in s {
      ScanIdle(s);
    }
  }

  /** Before trimming, the text is clean already. */
  lemma FixedIsClean(s: string)
    ensures var fixed := FixNewlines(FixPunctuation(s)); '\r' !in fixed && AllPlain(fixed)
  {
    PunctuationIsOnePass(s);
    FixEachIsPlain(s);
    NewlinesKeepPlain(FixPunctuation(s));
  }

  lemma FlattenCleans(text: string)
    ensures Clean(Flatten(text))
  {
    var fixed := FixNewlines(FixPunctuation(StripBom(text)));
    FixedIsClean(StripBom(text));
    TrimEndShape(fixed);
    assert forall c :: c in TrimEnd(fixed) ==> c in fixed;
  }

  lemma TrimEndOfTail(s: string)
    requires s != "" && s[|s| - 1] == '\n' && (|s| >= 2 ==> !IsSpace(s[|s| - 2]))
    ensures TrimEnd(s) + "\n" == s
  {
    var body := s[..|s| - 1];
    assert TrimEnd(s) == TrimEnd(body);
    assert TrimEnd(body) == body;
  }

  /** Flattening changes nothing exactly when the text is clean already. */
  lemma FlattenIdleExact(text: string)
    ensures Flatten(text) == text <==> Clean(text)
  {
    FlattenCleans(text);
    if Clean(text) {
      assert !StartsWith(text, "\U{FEFF}") by {
        assert Plain(text[0]);
      }
      PunctuationIsOnePass(text);
      FixEachIsPlain(text);
      NewlinesKeepPlain(text);
      TrimEndOfTail(text);
    }
  }

  lemma FlattenIdempotent(text: string)
    ensures Flatten(Flatten(text)) == Flatten(text)
  {
    FlattenCleans(text);
    FlattenIdleExact(Flatten(text));
  }

  // ---- What mojibake repair does to a text that will be flattened ----

  /** A measure that replacing punctuation keeps and mojibake repair lowers; characters that are replaced weigh 0. */
  function Weight1(c: char): nat {
    if !Plain(c) || LowByte(c) < 0x80 then 0 else if 0xC2 <= LowByte(c) < 0xE0 then 3 else 2
  }

  function Weight(s: string): nat {
    if s == "" then 0 else Weight1(s[0]) + Weight(s[1..])
  }

  lemma {:induction false} WeightConcat(s: string, t: string)
    ensures Weight(s + t) == Weight(s) + Weight(t)
  {
    if s == "" {
      assert s + t == t;
    } else {
      assert (s + t)[1..] == s[1..] + t;
      WeightConcat(s[1..], t);
    }
  }

  /** Among bytes that may follow a lead byte, only two belong to replaced characters; lead bytes belong to none. */
  lemma ReplacedLowBytes(c: char)
    ensures 0xC2 <= LowByte(c) < 0xF5 ==> Plain(c)
    ensures IsTail(LowByte(c)) && !Plain(c) ==> LowByte(c) in {0xA0, 0xAD}
  {
  }

  /** A character that is encoded with such bytes only, behind the lead byte, weighs less than the lead byte. */
  lemma TwoBytesWeigh(d: char)
    requires |Encode(d)| == 2 && Encode(d)[1] in {0xA0, 0xAD}
    ensures Weight1(d) <= 2
  {
    SixBits(d as int);
    var n: int := d as int;
    assert n % 64 in {0x20, 0x2D};
    LowBits(n);
  }

  lemma LowBits(n: nat)
    ensures n % 256 == n / 64 % 4 * 64 + n % 64
  {
  }

  lemma ThreeBytesWeigh(d: char)
    requires |Encode(d)| == 3 && Encode(d)[1] in {0xA0, 0xAD} && Encode(d)[2] in {0xA0, 0xAD}
    ensures Weight1(d) == 0
  {
    var n: int := d as int;
    LowBits(n);
    assert n / 64 % 64 in {0x20, 0x2D} && n % 64 in {0x20, 0x2D};
    assert n / 64 % 4 == n / 64 % 64 % 4;
  }

  lemma FourBytesWeigh(d: char)
    requires |Encode(d)| == 4
    requires Encode(d)[1] in {0xA0, 0xAD} && Encode(d)[2] in {0xA0, 0xAD} && Encode(d)[3] in {0xA0, 0xAD}
    ensures Weight1(d) == 0
  {
    var n: int := d as int;
    var b, m := n / 4096 % 64, n / 64 % 64;
    assert b in {0x20, 0x2D} && m in {0x20, 0x2D};
    SixBits(n);
    assert n / 1024 == n / 64 / 16 == (n / 4096 * 64 + m) / 16 == n / 4096 * 4 + m / 16;
    assert LowByte(d) == (n / 1024 - 64) % 256;
  }

  lemma {:induction false} LowBytesAt(s: string)
    ensures |LowBytes(s)| == |s| && forall i :: 0 <= i < |s| ==> LowBytes(s)[i] == LowByte(s[i])
  {
    if s != "" {
      LowBytesAt(s[1..]);
      assert forall i :: 0 < i < |s| ==> LowBytes(s)[i] == LowBytes(s[1..])[i - 1] && s[i] == s[1..][i - 1];
    }
  }

  /** A byte of a replaced character that may follow a lead byte. */
  predicate Light(b: Byte) {
    b == 0xA0 || b == 0xAD
  }

  lemma TailWeighs(c: char)
    requires IsTail(LowByte(c))
    ensures Weight1(c) == 2 || (Weight1(c) == 0 && Light(LowByte(c)))
  {
    ReplacedLowBytes(c);
  }

  lemma LeadWeighs(c: char)
    requires 0xC2 <= LowByte(c) < 0xF5
    ensures Weight1(c) == if LowByte(c) < 0xE0 then 3 else 2
  {
    ReplacedLowBytes(c);
  }

  /** What follows a lead byte weighs nothing only if it is light throughout. */
  lemma {:induction false} TailsWeigh(xs: string, bs: seq<Byte>)
    requires bs == LowBytes(xs) && forall b :: b in bs ==> IsTail(b)
    ensures Weight(xs) >= 2 || (Weight(xs) == 0 && forall b :: b in bs ==> Light(b))
  {
    if xs != "" {
      assert bs == [LowByte(xs[0])] + bs[1..] && bs[1..] == LowBytes(xs[1..]) && bs[0] in bs;
      TailWeighs(xs[0]);
      TailsWeigh(xs[1..], bs[1..]);
    }
  }

  lemma LightWeighs(d: char)
    requires |Encode(d)| > 1 && forall i :: 0 < i < |Encode(d)| ==> Light(Encode(d)[i])
    ensures Weight1(d) <= if |Encode(d)| == 2 then 2 else 0
  {
    assert Light(Encode(d)[1]);
    if |Encode(d)| == 2 {
      TwoBytesWeigh(d);
    } else {
      assert Light(Encode(d)[2]);
      if |Encode(d)| == 3 {
        ThreeBytesWeigh(d);
      } else {
        assert Light(Encode(d)[3]);
        FourBytesWeigh(d);
      }
    }
  }

  /** The bytes of one encoded character, and a bound on its weight. */
  predicate EncodedWithin(bs: seq<Byte>, w: nat) {
    && bs != [] && w <= 3
    && (|bs| == 1 ==> w == 0)
    && (|bs| > 1 ==> 0xC2 <= bs[0] < 0xF5)
    && (forall i :: 0 < i < |bs| ==> IsTail(bs[i]))
    && (|bs| > 1 && (forall i :: 0 < i < |bs| ==> Light(bs[i])) ==> w <= if bs[0] < 0xE0 then 2 else 0)
  }

  lemma EncodeWithin(d: char)
    ensures EncodedWithin(Encode(d), Weight1(d))
  {
    if |Encode(d)| > 1 && forall i :: 0 < i < |Encode(d)| ==> Light(Encode(d)[i]) {
      LightWeighs(d);
    }
  }

  /** Characters whose low bytes are one encoded character: at least its weight, and more if they are several. */
  lemma SequenceWeighs(xs: string, w: nat)
    requires EncodedWithin(LowBytes(xs), w)
    ensures Weight(xs) >= w && (|xs| > 1 ==> Weight(xs) > w)
  {
    var bs := LowBytes(xs);
    LowBytesAt(xs);
    if |xs| > 1 {
      LeadWeighs(xs[0]);
      LeadAndTailsWeigh(xs, bs, w);
    }
  }

  lemma LeadAndTailsWeigh(xs: string, bs: seq<Byte>, w: nat)
    requires bs == LowBytes(xs) && EncodedWithin(bs, w) && |bs| > 1 && xs != ""
    requires Weight1(xs[0]) == if bs[0] < 0xE0 then 3 else 2
    ensures Weight(xs) > w
  {
    var tails := xs[1..];
    assert bs == [LowByte(xs[0])] + LowBytes(tails);
    assert bs[1..] == LowBytes(tails);
    TailsWeigh(tails, bs[1..]);
    assert Weight(xs) == Weight1(xs[0]) + Weight(tails);
    if Weight(tails) == 0 {
      forall i | 0 < i < |bs| ensures Light(bs[i]) {
        assert bs[i] == bs[1..][i - 1];
      }
    }
  }

  predicate HasHighByte(s: string) {
    exists i :: 0 <= i < |s| && LowByte(s[i]) >= 0x80
  }

  /** Decoding the low bytes lowers the weight of a text, unless they are all ASCII. */
  lemma {:induction false} DecodedWeighsLess(s: string)
    requires Decode(LowBytes(s)).Some?
    ensures var d := Decode(LowBytes(s)).value;
      Weight(d) <= Weight(s) && (HasHighByte(s) ==> Weight(d) < Weight(s))
    decreases |s|
  {
    if s != "" {
      var bs := LowBytes(s);
      var k := Size(bs);
      LowBytesAt(s);
      assert s == s[..k] + s[k..];
      LowBytesConcat(s[..k], s[k..]);
      LowBytesAt(s[..k]);
      assert LowBytes(s[..k]) == bs[..k] && LowBytes(s[k..]) == bs[k..];
      SizedIsEncoded(bs);
      EncodeWithin(Scalar(bs));
      SequenceWeighs(s[..k], Weight1(Scalar(bs)));
      WeightConcat(s[..k], s[k..]);
      DecodedWeighsLess(s[k..]);
      assert Decode(bs).value[1..] == Decode(bs[k..]).value;
      if HasHighByte(s) && k == 1 {
        var i :| 0 <= i < |s| && LowByte(s[i]) >= 0x80;
        assert i > 0 && s[1..][i - 1] == s[i];
      }
    }
  }

  lemma {:induction false} HintHasHighByte(s: string)
    requires LooksLikeMojibake(s)
    ensures HasHighByte(s)
  {
    if HintAt(s) {
      assert LowByte(s[0]) >= 0x80;
    } else {
      HintHasHighByte(s[1..]);
      var i :| 0 <= i < |s[1..]| && LowByte(s[1..][i]) >= 0x80;
      assert s[i + 1] == s[1..][i];
    }
  }

  /** Whatever mojibake repair changes, it makes lighter. */
  lemma RepairedWeighsLess(s: string)
    requires RepairMojibake(s) != s
    ensures Weight(RepairMojibake(s)) < Weight(s)
  {
    HintHasHighByte(s);
    DecodedWeighsLess(s);
    var d := Decode(LowBytes(s)).value;
    assert StartsWith(d, [BOM]) ==> Weight(d) == Weight(d[1..]);
  }

  lemma {:induction false} FixEachWeighs(s: string)
    ensures Weight(FixEach(s)) == Weight(s)
  {
    if s != "" {
      FixEachWeighs(s[1..]);
      WeightConcat(FixChar(s[0]), FixEach(s[1..]));
      FixCharWeighs(s[0]);
    }
  }

  lemma FixCharWeighs(c: char)
    ensures Weight(FixChar(c)) == Weight1(c)
  {
    assert Weight("...") == Weight1('.') + Weight("..."[1..]) && "..."[1..] == ".." && ".."[1..] == ".";
    assert FixChar(c) != "" ==> FixChar(c)[1..] == if c in ELLIPSIS then ".." else "";
  }

  /** No change that mojibake repair makes is undone or hidden by the replacements that follow. */
  lemma RepairShows(s: string)
    requires RepairMojibake(s) != s
    ensures FixPunctuation(RepairMojibake(s)) != FixPunctuation(s)
  {
    RepairedWeighsLess(s);
    PunctuationIsOnePass(s);
    PunctuationIsOnePass(RepairMojibake(s));
    FixEachWeighs(s);
    FixEachWeighs(RepairMojibake(s));
  }

  // ---- When the byte order mark matters ----

  /** A byte order mark in front blocks mojibake repair: its low byte is in no UTF-8 text. */
  lemma BomBlocksRepair(rest: string)
    ensures RepairMojibake([BOM] + rest) == [BOM] + rest
  {
    assert LowBytes([BOM] + rest)[0] == 0xFF;
  }

  /** The strip changes what NFKC is given exactly when mojibake repair changes the text behind a byte order mark. */
  lemma BomStripExact(s: string)
    ensures FixPunctuation(RepairMojibake(StripBom(s))) == FixPunctuation(RepairMojibake(s))
       <==> !StartsWith(s, [BOM]) || RepairMojibake(StripBom(s)) == StripBom(s)
  {
    if StartsWith(s, [BOM]) {
      var rest := StripBom(s);
      assert s == [BOM] + rest;
      BomBlocksRepair(rest);
      BomStripIsRedundant(s);
      if RepairMojibake(rest) != rest {
        RepairShows(rest);
      }
    }
  }

  // ---- The whole repair ----

  /** Whatever NFKC does: no carriage return, one newline at the end, and clean unless replaced characters came back. */
  lemma RepairEndsLines(nfkc: string -> string, text: string)
    ensures var out := Repair(nfkc, text);
      && '\r' !in out && out[|out| - 1] == '\n' && (|out| >= 2 ==> !IsSpace(out[|out| - 2]))
      && (Clean(out) <==> AllPlain(out))
  {
    var normalised := nfkc(FixPunctuation(RepairMojibake(StripBom(text))));
    NewlinesAreOneScan(normalised);
    ScanShape(normalised);
    TrimEndShape(FixNewlines(normalised));
  }

  /** Characters that NFKC maps to replaced ones: primes, superscript and subscript minus, vertical and small dashes. */
  const MARK_SOURCES: set<char> :=
    {'\U{2034}', '\U{2057}', '\U{207B}', '\U{208B}', '\U{FE31}', '\U{FE32}', '\U{FE58}'}

  predicate NoMarkSources(s: string) {
    forall c :: c in s ==> c !in MARK_SOURCES
  }

  /** What Unicode says of NFKC: from a text with nothing to replace, those and only those bring back such marks. */
  ghost predicate BringsBackMarks(nfkc: string -> string) {
    forall s :: AllPlain(s) ==>
      && (AllPlain(nfkc(s)) <==> NoMarkSources(s))
      && (forall c :: c in nfkc(s) && !Plain(c) ==> !IsSpace(c))
  }

  lemma FixCharKeepsSource(c: char)
    ensures NoMarkSources(FixChar(c)) <==> c !in MARK_SOURCES
  {
    if Plain(c) {
      assert FixChar(c) == [c] && c in [c];
    } else {
      assert forall d :: d in FixChar(c) ==> d in {'\'', '"', '-', '.', ' '};
    }
  }

  lemma {:induction false} FixEachKeepsSources(s: string)
    ensures NoMarkSources(FixEach(s)) <==> NoMarkSources(s)
  {
    if s != "" {
      FixEachKeepsSources(s[1..]);
      FixCharKeepsSource(s[0]);
      NoSourcesConcat(FixChar(s[0]), FixEach(s[1..]));
      NoSourcesConcat([s[0]], s[1..]);
      assert s == [s[0]] + s[1..];
    }
  }

  lemma NoSourcesConcat(s: string, t: string)
    ensures NoMarkSources(s + t) <==> NoMarkSources(s) && NoMarkSources(t)
  {
    assert (forall c :: c in s ==> c in s + t) && (forall c :: c in t ==> c in s + t);
  }

  /** Trimming and newlines keep a replaced character that is no space. */
  lemma {:induction false} TrimKeeps(s: string, c: char)
    requires c in s && !IsSpace(c)
    ensures c in TrimEnd(s)
  {
    if IsSpace(s[|s| - 1]) {
      assert s == s[..|s| - 1] + [s[|s| - 1]];
      TrimKeeps(s[..|s| - 1], c);
    }
  }

  /** What is left to replace after NFKC, other than spaces, stays. */
  lemma EndKeepsMarks(n: string)
    requires forall c :: c in n && !Plain(c) ==> !IsSpace(c)
    ensures AllPlain(TrimEnd(FixNewlines(n)) + "\n") <==> AllPlain(n)
  {
    var lines := FixNewlines(n);
    TrimEndShape(lines);
    NewlinesAreOneScan(n);
    if AllPlain(n) {
      NewlinesKeepPlain(n);
      assert forall c :: c in TrimEnd(lines) ==> c in lines;
    } else {
      var c :| c in n && !Plain(c);
      ScanKeeps(n, c);
      TrimKeeps(lines, c);
    }
  }

  /** A repaired file is clean if and only if its text, mojibake repaired, has none of those characters. */
  lemma RepairCleansExact(nfkc: string -> string, text: string)
    requires BringsBackMarks(nfkc)
    ensures Clean(Repair(nfkc, text)) <==> NoMarkSources(RepairMojibake(StripBom(text)))
  {
    var repaired := RepairMojibake(StripBom(text));
    PunctuationIsOnePass(repaired);
    FixEachIsPlain(repaired);
    FixEachKeepsSources(repaired);
    EndKeepsMarks(nfkc(FixEach(repaired)));
    RepairEndsLines(nfkc, text);
  }

  /** Once repaired and flattened, the text is in normal form already. */
  predicate Settled(nfkc: string -> string, text: string) {
    var fixed := FixEach(RepairMojibake(StripBom(text)));
    nfkc(fixed) == fixed
  }

  lemma SettledRepair(nfkc: string -> string, text: string)
    requires Settled(nfkc, text)
    ensures Repair(nfkc, text) == Flatten(RepairMojibake(StripBom(text)))
  {
    PunctuationIsOnePass(RepairMojibake(StripBom(text)));
    BomStripIsRedundant(RepairMojibake(StripBom(text)));
  }

  lemma {:induction false} TrimEndWeighs(s: string)
    ensures Weight(TrimEnd(s)) <= Weight(s)
  {
    if s != "" && IsSpace(s[|s| - 1]) {
      TrimEndWeighs(s[..|s| - 1]);
      WeightConcat(s[..|s| - 1], [s[|s| - 1]]);
      assert s == s[..|s| - 1] + [s[|s| - 1]];
    }
  }

  lemma {:induction false} ScanWeighs(s: string)
    ensures Weight(ScanNewlines(s)) <= Weight(s)
  {
    if s != "" {
      var rest := if s[0] == '\r' && |s| > 1 && s[1] == '\n' then s[2..] else s[1..];
      var c := if s[0] == '\r' then '\n' else s[0];
      ScanWeighs(rest);
      ScanStep(s, rest);
      WeightConcat([c], ScanNewlines(rest));
      WeightConcat(s[..|s| - |rest|], rest);
      assert s == s[..|s| - |rest|] + rest && s[..1] == [s[0]];
      ControlsWeighNothing();
    }
  }

  lemma ControlsWeighNothing()
    ensures Weight1('\n') == 0 && Weight("\n") == 0 && Weight1('\r') == 0 && Weight("\r") == 0
  {
    assert "\n"[1..] == "" && "\r"[1..] == "";
  }

  lemma FlattenWeighs(s: string)
    ensures Weight(Flatten(s)) <= Weight(s)
  {
    var fixed := FixPunctuation(s);
    BomStripIsRedundant(s);
    PunctuationIsOnePass(s);
    FixEachWeighs(s);
    NewlinesAreOneScan(fixed);
    ScanWeighs(fixed);
    LastLineWeighs(FixNewlines(fixed));
  }

  lemma LastLineWeighs(s: string)
    ensures Weight(TrimEnd(s) + "\n") <= Weight(s)
  {
    TrimEndWeighs(s);
    WeightConcat(TrimEnd(s), "\n");
    ControlsWeighNothing();
  }

  /**
   * Where NFKC has nothing to do, a text is left alone if and only if it is clean and mojibake repair leaves it alone:
   * nothing that is repaired comes back by flattening.
   */
  lemma RepairIdleExact(nfkc: string -> string, text: string)
    requires Settled(nfkc, text)
    ensures Repair(nfkc, text) == text <==> Clean(text) && RepairMojibake(text) == text
  {
    SettledRepair(nfkc, text);
    var repaired := RepairMojibake(StripBom(text));
    FlattenCleans(repaired);
    if Clean(text) {
      assert Plain(text[0]) && !StartsWith(text, [BOM]);
      if RepairMojibake(text) == text {
        FlattenIdleExact(text);
      } else {
        RepairedWeighsLess(text);
        FlattenWeighs(repaired);
      }
    }
  }

  /** A second repair is idle if and only if the first left nothing to replace and nothing that decodes again. */
  lemma RepairAgainExact(nfkc: string -> string, text: string)
    requires Settled(nfkc, Repair(nfkc, text))
    ensures var out := Repair(nfkc, text);
      Repair(nfkc, out) == out <==> AllPlain(out) && RepairMojibake(out) == out
  {
    RepairEndsLines(nfkc, text);
    RepairIdleExact(nfkc, Repair(nfkc, text));
  }

  /** The same of the files: the script, run again on the file it wrote, writes it again. */
  lemma SecondRunExact(nfkc: string -> string, windows1252: seq<Byte> -> string, bs: seq<Byte>)
    requires Settled(nfkc, StripBom(Repair(nfkc, DecodeCsv(windows1252, bs))))
    ensures var out, file := Repair(nfkc, DecodeCsv(windows1252, bs)), RepairFile(nfkc, windows1252, bs);
      RepairFile(nfkc, windows1252, file) == file <==> AllPlain(out) && RepairMojibake(out) == out
  {
    var out, file := Repair(nfkc, DecodeCsv(windows1252, bs)), RepairFile(nfkc, windows1252, bs);
    DecodeUtf8(out);
    assert DecodeCsv(windows1252, file) == StripBom(out);
    var again := Repair(nfkc, StripBom(out));
    Utf8Injective(again, out);
    RepairEndsLines(nfkc, DecodeCsv(windows1252, bs));
    if AllPlain(out) {
      assert Plain(out[0]) && StripBom(out) == out;
      RepairIdleExact(nfkc, out);
    } else {
      SettledRepair(nfkc, StripBom(out));
      FlattenCleans(RepairMojibake(StripBom(StripBom(out))));
    }
  }

  // ---- Where it falls short ----

  /** The chain when its third stage yields a text `n` of one line, ended or not: that line, ended. */
  lemma Chain(nfkc: string -> string, text: string, repaired: string, n: string)
    requires RepairMojibake(text) == repaired && nfkc(FixEach(repaired)) == n && '\r' !in n && n != ""
    requires !IsSpace(n[|n| - 1]) || (n[|n| - 1] == '\n' && |n| >= 2 && !IsSpace(n[|n| - 2]))
    ensures RepairUnstripped(nfkc, text) == if n[|n| - 1] == '\n' then n else n + "\n"
    ensures !StartsWith(text, [BOM]) ==> Repair(nfkc, text) == RepairUnstripped(nfkc, text)
  {
    PunctuationIsOnePass(repaired);
    NewlinesAreOneScan(n);
    ScanIdle(n);
    if n[|n| - 1] == '\n' {
      TrimEndOfTail(n);
    }
  }

  /** A text with none of the characters that mojibake repair looks for and that are replaced. */
  predicate Untouched(s: string) {
    AllPlain(s) && NoLeads(s)
  }

  lemma UntouchedChain(nfkc: string -> string, text: string, n: string)
    requires Untouched(text) && nfkc(text) == n && '\r' !in n && n != ""
    requires !IsSpace(n[|n| - 1]) || (n[|n| - 1] == '\n' && |n| >= 2 && !IsSpace(n[|n| - 2]))
    ensures Repair(nfkc, text) == if n[|n| - 1] == '\n' then n else n + "\n"
  {
    NoHintNoRepair(text);
    FixEachIsPlain(text);
    assert text != "" ==> Plain(text[0]);
    Chain(nfkc, text, text, n);
  }

  /** NFKC, which comes after the replacements, brings replaced characters back; a second repair replaces them. */
  lemma TriplePrimeComesBack(nfkc: string -> string, text: string, out: string, flat: string)
    requires text == "\U{2034}" && out == "\U{2032}\U{2032}\U{2032}\n" && flat == "'''\n"
    requires nfkc(text) == out[..3] && nfkc(flat) == flat
    ensures Repair(nfkc, text) == out && !Clean(out) && Repair(nfkc, out) == flat
  {
    UntouchedChain(nfkc, text, out[..3]);
    assert out[0] in out && !Plain(out[0]);
    PrimesAreFlattened(out);
    assert FixEach(out) == flat;
    assert NoLeads(out) by {
      assert forall c :: c in out ==> c in {'\U{2032}', '\n'};
    }
    NoHintNoRepair(out);
    Chain(nfkc, out, out, flat);
  }

  lemma {:induction false} PrimesAreFlattened(s: string)
    requires s != "" && s[|s| - 1] == '\n' && forall i :: 0 <= i < |s| - 1 ==> s[i] == '\U{2032}'
    ensures |FixEach(s)| == |s| && FixEach(s)[|s| - 1] == '\n'
    ensures forall i :: 0 <= i < |s| - 1 ==> FixEach(s)[i] == '\''
  {
    if |s| > 1 {
      PrimesAreFlattened(s[1..]);
    } else {
      assert s[1..] == "";
    }
  }

  /** A clean text can still change: NFKC takes a ligature apart. */
  lemma LigatureIsTakenApart(nfkc: string -> string, text: string)
    requires text == "\U{FB01}\n" && nfkc(text) == "fi\n"
    ensures Clean(text) && Repair(nfkc, text) == "fi\n"
  {
    UntouchedChain(nfkc, text, nfkc(text));
  }

  /** The texts of the two runs below: a letter in two parts, the damage it composes to, and what that decodes to. */
  lemma ComposedTexts(text: string, out: string, again: string)
    requires text == "A\U{0303}\U{00A9}" && out == "\U{00C3}\U{00A9}\n" && again == "\U{00E9}\n"
    ensures Untouched(text) && AllPlain(out) && Untouched(again)
  {
    assert forall c :: c in text ==> c in {'A', '\U{0303}', '\U{00A9}'};
    assert forall c :: c in out ==> c in {'\U{00C3}', '\U{00A9}', '\n'};
    assert forall c :: c in again ==> c in {'\U{00E9}', '\n'};
  }

  /** NFKC composes a letter that looks like damage, which a second repair decodes. */
  lemma ComposedLetterIsDecoded(nfkc: string -> string, text: string, out: string, again: string)
    requires text == "A\U{0303}\U{00A9}" && out == "\U{00C3}\U{00A9}\n" && again == "\U{00E9}\n"
    requires nfkc(text) == out[..2] && nfkc(again) == again
    ensures Repair(nfkc, text) == out && Clean(out) && Repair(nfkc, out) == again
  {
    ComposedTexts(text, out, again);
    assert out == out[..2] + "\n";
    UntouchedChain(nfkc, text, out[..2]);
    DamagedChain(nfkc, out, again, "\n");
  }

  lemma DamagedChain(nfkc: string -> string, s: string, r: string, rest: string)
    requires s == "\U{00C3}\U{00A9}" + rest && r == "\U{00E9}" + rest && (rest == "" || rest == "\n")
    requires nfkc(r) == r
    ensures Repair(nfkc, s) == RepairUnstripped(nfkc, s) == "\U{00E9}\n"
  {
    DamagedLetter(rest);
    PlainLetter(r, rest);
    FixEachIsPlain(r);
    assert s[0] == '\U{00C3}';
    Chain(nfkc, s, r, r);
  }

  lemma PlainLetter(r: string, rest: string)
    requires r == "\U{00E9}" + rest && (rest == "" || rest == "\n")
    ensures AllPlain(r) && '\r' !in r && !IsSpace(r[0])
  {
    assert forall c :: c in r ==> c in {'\U{00E9}', '\n'};
  }

  /** A line of its own, with nothing to replace. */
  predicate PlainLine(s: string) {
    AllPlain(s) && '\r' !in s && s != "" && !IsSpace(s[|s| - 1])
  }

  lemma LineChain(nfkc: string -> string, text: string, repaired: string)
    requires RepairMojibake(text) == repaired && PlainLine(FixEach(repaired))
    requires nfkc(FixEach(repaired)) == FixEach(repaired)
    ensures RepairUnstripped(nfkc, text) == FixEach(repaired) + "\n"
  {
    Chain(nfkc, text, repaired, FixEach(repaired));
  }

  lemma BomVanishes(rest: string)
    requires AllPlain(rest)
    ensures FixEach([BOM] + rest) == rest && StripBom([BOM] + rest) == rest
  {
    FixEachIsPlain(rest);
    assert ([BOM] + rest)[1..] == rest && FixChar(BOM) == "";
  }

  /** Behind a byte order mark the strip is what lets a line be repaired: without it the line goes through as it is. */
  lemma StripLetsRepair(nfkc: string -> string, rest: string, repaired: string)
    requires RepairMojibake(rest) == repaired && PlainLine(rest) && PlainLine(repaired)
    requires nfkc(repaired) == repaired && nfkc(rest) == rest
    ensures Repair(nfkc, [BOM] + rest) == repaired + "\n"
    ensures RepairUnstripped(nfkc, [BOM] + rest) == rest + "\n"
  {
    BomVanishes(rest);
    FixEachIsPlain(repaired);
    LineChain(nfkc, rest, repaired);
    BomBlocksRepair(rest);
    LineChain(nfkc, [BOM] + rest, [BOM] + rest);
  }

  lemma BomStripMatters(nfkc: string -> string, rest: string, repaired: string)
    requires rest == "\U{00C3}\U{00A9}" && repaired == "\U{00E9}"
    requires nfkc(repaired) == repaired && nfkc(rest) == rest
    ensures Repair(nfkc, [BOM] + rest) == repaired + "\n" != RepairUnstripped(nfkc, [BOM] + rest)
  {
    DamagedLetter("");
    assert rest + "" == rest && repaired + "" == repaired;
    PlainLetter(repaired, "");
    PlainDamage(rest);
    StripLetsRepair(nfkc, rest, repaired);
    assert (rest + "\n")[0] != (repaired + "\n")[0];
  }

  lemma PlainDamage(s: string)
    requires s == "\U{00C3}\U{00A9}"
    ensures PlainLine(s)
  {
    assert forall c :: c in s ==> c in {'\U{00C3}', '\U{00A9}'};
  }
}
