/**
 * Texts whose UTF-8 bytes were read as Latin-1: the detector, the repair that decodes them again, and the codec both
 * rest on. A `char` is a Unicode scalar value, which is what a decoded text consists of.
 */
module Mojibake {
  import opened JsValues

  type Byte = b: int | 0 <= b < 256

  const BOM: char := '\U{FEFF}'
  const REPLACEMENT: char := '\U{FFFD}'

  // ---- UTF-8 ----

  function Encode(c: char): seq<Byte> {
    var n := c as int;
    if n < 0x80 then [n]
    else if n < 0x800 then [0xC0 + n / 64, 0x80 + n % 64]
    else if n < 0x1_0000 then [0xE0 + n / 4096, 0x80 + n / 64 % 64, 0x80 + n % 64]
    else [0xF0 + n / 0x4_0000, 0x80 + n / 4096 % 64, 0x80 + n / 64 % 64, 0x80 + n % 64]
  }

  function Utf8(s: string): seq<Byte> {
    if s == "" then [] else Encode(s[0]) + Utf8(s[1..])
  }

  predicate IsTail(b: Byte) {
    0x80 <= b < 0xC0
  }

  /** How many bytes the well-formed sequence at the front takes; 0 when there is none. */
  function Size(bs: seq<Byte>): nat
    requires bs != []
  {
    var b := bs[0];
    if b < 0x80 then 1
    else if 0xC2 <= b < 0xE0 && |bs| >= 2 && IsTail(bs[1]) then 2
    else if && 0xE0 <= b < 0xF0 && |bs| >= 3 && IsTail(bs[1]) && IsTail(bs[2])
            && (b == 0xE0 ==> bs[1] >= 0xA0) && (b == 0xED ==> bs[1] < 0xA0) then 3
    else if && 0xF0 <= b < 0xF5 && |bs| >= 4 && IsTail(bs[1]) && IsTail(bs[2]) && IsTail(bs[3])
            && (b == 0xF0 ==> bs[1] >= 0x90) && (b == 0xF4 ==> bs[1] < 0x90) then 4
    else 0
  }

  function TailBits(b: Byte): int {
    b - 0x80
  }

  /** The scalar value such a sequence stands for. */
  function Scalar(bs: seq<Byte>): char
    requires bs != [] && Size(bs) > 0
  {
    var b0: int := bs[0];
    match Size(bs)
    case 1 => b0 as char
    case 2 => ((b0 - 0xC0) * 64 + TailBits(bs[1])) as char
    case 3 => ((b0 - 0xE0) * 4096 + TailBits(bs[1]) * 64 + TailBits(bs[2])) as char
    case _ => ((b0 - 0xF0) * 0x4_0000 + TailBits(bs[1]) * 4096 + TailBits(bs[2]) * 64 + TailBits(bs[3])) as char
  }

  /** The text, or `None` for malformed bytes, which a lenient decoder marks with U+FFFD. */
  function Decode(bs: seq<Byte>): Option<string> {
    if bs == [] then Some("")
    else if Size(bs) == 0 then None
    else
      var rest := Decode(bs[Size(bs)..]);
      if rest.None? then None else Some([Scalar(bs)] + rest.value)
  }

  /** The groups of six bits that a scalar value is cut into. */
  lemma SixBits(n: nat)
    ensures n == n / 64 * 64 + n % 64
    ensures n / 64 == n / 4096 * 64 + n / 64 % 64
    ensures n / 4096 == n / 0x4_0000 * 64 + n / 4096 % 64
  {
  }

  lemma SixBitsOne(q: nat, r: nat)
    requires r < 64
    ensures (q * 64 + r) / 64 == q && (q * 64 + r) % 64 == r
  {
  }

  lemma SixBitsBack(a: nat, b: nat, c: nat, d: nat)
    requires b < 64 && c < 64 && d < 64
    ensures var n := a * 0x4_0000 + b * 4096 + c * 64 + d;
      && n / 0x4_0000 == a && n / 4096 == a * 64 + b && n / 4096 % 64 == b
      && n / 64 == a * 4096 + b * 64 + c && n / 64 % 64 == c && n % 64 == d
  {
    SixBitsOne(a, b);
    SixBitsOne(a * 64 + b, c);
    SixBitsOne((a * 64 + b) * 64 + c, d);
  }

  lemma EncodedIsSized(c: char, rest: seq<Byte>)
    ensures Size(Encode(c) + rest) == |Encode(c)| && Scalar(Encode(c) + rest) == c
  {
    var n, bs := c as int, Encode(c) + rest;
    SixBits(n);
    assert bs[0] == Encode(c)[0];
    if n >= 0x80 {
      assert bs[1] == Encode(c)[1];
    }
    if n >= 0x800 {
      assert bs[2] == Encode(c)[2];
    }
    if n >= 0x1_0000 {
      assert bs[3] == Encode(c)[3];
    }
  }

  lemma SizedIsEncoded(bs: seq<Byte>)
    requires bs != [] && Size(bs) > 0
    ensures Encode(Scalar(bs)) == bs[..Size(bs)]
  {
    var b0: int := bs[0];
    match Size(bs)
    case 1 =>
    case 2 => SixBitsBack(0, 0, b0 - 0xC0, TailBits(bs[1]));
    case 3 => SixBitsBack(0, b0 - 0xE0, TailBits(bs[1]), TailBits(bs[2]));
    case _ => SixBitsBack(b0 - 0xF0, TailBits(bs[1]), TailBits(bs[2]), TailBits(bs[3]));
  }

  lemma DecodeFront(c: char, rest: seq<Byte>)
    ensures Decode(Encode(c) + rest) == if Decode(rest).None? then None else Some([c] + Decode(rest).value)
  {
    var bs := Encode(c) + rest;
    EncodedIsSized(c, rest);
    assert bs[Size(bs)..] == rest;
  }

  lemma {:induction false} DecodeUtf8(s: string)
    ensures Decode(Utf8(s)) == Some(s)
  {
    if s != "" {
      DecodeUtf8(s[1..]);
      DecodeFront(s[0], Utf8(s[1..]));
      assert s == [s[0]] + s[1..];
    }
  }

  lemma {:induction false} Utf8Decoded(bs: seq<Byte>)
    requires Decode(bs).Some?
    ensures Utf8(Decode(bs).value) == bs
  {
    if bs != [] {
      SizedIsEncoded(bs);
      Utf8Decoded(bs[Size(bs)..]);
      var s := Decode(bs).value;
      assert s[0] == Scalar(bs) && s[1..] == Decode(bs[Size(bs)..]).value;
    }
  }

  /** Decoding and encoding are inverse: exactly the encoded texts decode, each to itself. */
  lemma Utf8Exact(bs: seq<Byte>, s: string)
    ensures Decode(bs) == Some(s) <==> bs == Utf8(s)
  {
    DecodeUtf8(s);
    if Decode(bs).Some? {
      Utf8Decoded(bs);
    }
  }

  // ---- Detecting and repairing ----

  /** The hint at the front of `s`: two lead bytes of Latin-1 letters with what may follow, or the start of a quote. */
  predicate HintAt(s: string) {
    |s| >= 2 &&
    match s[0]
    case '\U{00C3}' => '\U{0080}' <= s[1] <= '\U{00BF}'
    case '\U{00C2}' => '\U{00A0}' <= s[1] <= '\U{00FF}'
    case '\U{00E2}' => s[1] == '\U{20AC}'
    case _ => false
  }

  predicate LooksLikeMojibake(s: string) {
    s != "" && (HintAt(s) || LooksLikeMojibake(s[1..]))
  }

  predicate IsHint(a: int, b: int) {
    || (a == 0xC3 && 0x80 <= b <= 0xBF)
    || (a == 0xC2 && 0xA0 <= b <= 0xFF)
    || (a == 0xE2 && b == 0x20AC)
  }

  /** A text looks damaged exactly when one of three letters is followed, somewhere, by what the pattern asks for. */
  lemma {:induction false} LooksExact(s: string)
    ensures LooksLikeMojibake(s) <==> exists i :: 0 <= i < |s| - 1 && IsHint(s[i] as int, s[i + 1] as int)
  {
    if s != "" {
      LooksExact(s[1..]);
      assert forall i :: 0 <= i < |s[1..]| ==> s[1..][i] == s[i + 1];
    }
  }

  /** `ch.charCodeAt(0) & 0xff`: of a scalar value beyond the BMP, the high surrogate's low byte. */
  function LowByte(c: char): Byte {
    var n := c as int;
    if n < 0x1_0000 then n % 256 else (n - 0x1_0000) / 1024 % 256
  }

  function LowBytes(s: string): seq<Byte> {
    if s == "" then [] else [LowByte(s[0])] + LowBytes(s[1..])
  }

  /** `new TextDecoder("utf-8")`, which drops a leading byte order mark. */
  function DecodeText(bs: seq<Byte>): Option<string> {
    var decoded := Decode(bs);
    if decoded.Some? && StartsWith(decoded.value, [BOM]) then Some(decoded.value[1..]) else decoded
  }

  function RepairMojibake(s: string): string {
    if s == "" || !LooksLikeMojibake(s) then s
    else
      var decoded := DecodeText(LowBytes(s));
      if decoded.None? || decoded.value == "" || REPLACEMENT in decoded.value then s
      else if LooksLikeMojibake(decoded.value) then s
      else decoded.value
  }

  /** The bytes a text is decoded from: its UTF-8 form, with a byte order mark or without. */
  predicate IsFileOf(bs: seq<Byte>, s: string) {
    bs == Utf8([BOM] + s) || (bs == Utf8(s) && !StartsWith(s, [BOM]))
  }

  lemma DecodeTextExact(bs: seq<Byte>, s: string)
    ensures DecodeText(bs) == Some(s) <==> IsFileOf(bs, s)
  {
    Utf8Exact(bs, s);
    Utf8Exact(bs, [BOM] + s);
    if Decode(bs).Some? {
      Utf8Exact(bs, Decode(bs).value);
    }
  }

  /**
   * A text is repaired to another one exactly when it looks damaged, the other does not, and the other's UTF-8 form,
   * with or without a byte order mark, is the low bytes of the text.
   */
  lemma RepairExact(s: string, r: string)
    requires r != s
    ensures RepairMojibake(s) == r <==>
      && LooksLikeMojibake(s) && !LooksLikeMojibake(r)
      && r != "" && REPLACEMENT !in r && IsFileOf(LowBytes(s), r)
  {
    DecodeTextExact(LowBytes(s), r);
  }

  /** Repairing twice is repairing once. */
  lemma RepairTwice(s: string)
    ensures RepairMojibake(RepairMojibake(s)) == RepairMojibake(s)
  {
    if RepairMojibake(s) != s {
      RepairExact(s, RepairMojibake(s));
    }
  }

  predicate NoLeads(s: string) {
    forall c :: c in s ==> c !in {'\U{00C3}', '\U{00C2}', '\U{00E2}'}
  }

  /** Without one of three letters there is no hint, and nothing is repaired. */
  lemma {:induction false} NoHintNoRepair(s: string)
    requires NoLeads(s)
    ensures RepairMojibake(s) == s && !LooksLikeMojibake(s)
  {
    if s != "" {
      assert s[0] in s && forall c :: c in s[1..] ==> c in s;
      NoHintNoRepair(s[1..]);
    }
  }

  // ---- What it was written for: UTF-8 read as Latin-1 ----

  function Latin1(bs: seq<Byte>): string {
    if bs == [] then "" else [bs[0] as char] + Latin1(bs[1..])
  }

  /** The text that reading the UTF-8 form of `s` as Latin-1 yields. */
  function Misread(s: string): string {
    Latin1(Utf8(s))
  }

  predicate IsLatin1(s: string) {
    forall c :: c in s ==> c as int < 256
  }

  lemma {:induction false} LowBytesOfLatin1(bs: seq<Byte>)
    ensures LowBytes(Latin1(bs)) == bs && |Latin1(bs)| == |bs| && IsLatin1(Latin1(bs))
  {
    if bs != [] {
      LowBytesOfLatin1(bs[1..]);
      assert Latin1(bs)[1..] == Latin1(bs[1..]);
    }
  }

  lemma LowByteExact(c: char)
    ensures LowByte(c) as char == c <==> c as int < 256
  {
  }

  lemma {:induction false} Latin1OfLowBytes(s: string)
    ensures Latin1(LowBytes(s)) == s <==> IsLatin1(s)
  {
    if s != "" {
      var c, rest := s[0], s[1..];
      Latin1OfLowBytes(rest);
      LowByteExact(c);
      assert LowBytes(s)[1..] == LowBytes(rest);
      assert Latin1(LowBytes(s)) == [LowByte(c) as char] + Latin1(LowBytes(rest));
      assert s == [c] + rest;
      Latin1Cons(c, rest);
      if Latin1(LowBytes(s)) == s {
        assert Latin1(LowBytes(s))[0] == s[0] && Latin1(LowBytes(s))[1..] == s[1..];
      }
    }
  }

  lemma Latin1Cons(c: char, rest: string)
    ensures IsLatin1([c] + rest) <==> c as int < 256 && IsLatin1(rest)
  {
    assert c in [c] + rest && forall x :: x in rest ==> x in [c] + rest;
  }

  lemma {:induction false} Latin1Concat(a: seq<Byte>, b: seq<Byte>)
    ensures Latin1(a + b) == Latin1(a) + Latin1(b)
  {
    if a == [] {
      assert a + b == b;
    } else {
      assert (a + b)[1..] == a[1..] + b;
      Latin1Concat(a[1..], b);
    }
  }

  /** A character of the Latin-1 supplement that is no control. */
  predicate InSupplement(c: char) {
    '\U{00A0}' <= c <= '\U{00FF}'
  }

  predicate HasSupplement(s: string) {
    exists c :: c in s && InSupplement(c)
  }

  predicate IsAscii(s: string) {
    forall c :: c in s ==> c as int < 128
  }

  lemma LooksOnward(x: char, rest: string)
    ensures LooksLikeMojibake([x] + rest) <==> HintAt([x] + rest) || LooksLikeMojibake(rest)
  {
    assert ([x] + rest)[1..] == rest;
  }

  /** A byte that follows another in a sequence, read as Latin-1, is no hint. */
  lemma LooksPastTails(tails: string, rest: string)
    requires forall x :: x in tails ==> 0x80 <= x as int < 0xC0
    ensures LooksLikeMojibake(tails + rest) <==> LooksLikeMojibake(rest)
  {
    if tails == "" {
      assert tails + rest == rest;
    } else {
      assert tails[0] in tails && forall x :: x in tails[1..] ==> x in tails;
      LooksPastTails(tails[1..], rest);
      LooksOnward(tails[0], tails[1..] + rest);
      assert tails + rest == [tails[0]] + (tails[1..] + rest);
    }
  }

  /** The lead byte with what follows it is a hint exactly when the character is in the supplement. */
  lemma HintExact(c: char, after: string)
    requires |Encode(c)| > 1 ==> after != "" && after[0] == Encode(c)[1] as char
    ensures HintAt([Encode(c)[0] as char] + after) <==> InSupplement(c)
  {
    var n := c as int;
    if 0x80 <= n < 0x800 {
      SixBits(n);
    }
  }

  /** One character's bytes are a hint exactly when it is in the supplement. */
  lemma LooksAtOne(c: char, rest: string)
    ensures LooksLikeMojibake(Latin1(Encode(c)) + rest) <==> InSupplement(c) || LooksLikeMojibake(rest)
  {
    var bs := Encode(c);
    var lead, tails := bs[0] as char, Latin1(bs[1..]);
    LowBytesOfLatin1(bs[1..]);
    TailsAreTails(bs[1..]);
    LooksPastTails(tails, rest);
    LooksOnward(lead, tails + rest);
    assert Latin1(bs) + rest == [lead] + (tails + rest);
    HintExact(c, tails + rest);
  }

  lemma {:induction false} TailsAreTails(bs: seq<Byte>)
    requires forall b :: b in bs ==> IsTail(b)
    ensures forall x :: x in Latin1(bs) ==> 0x80 <= x as int < 0xC0
  {
    if bs != [] {
      assert IsTail(bs[0]);
      TailsAreTails(bs[1..]);
    }
  }

  lemma {:induction false} MisreadLooks(s: string)
    ensures LooksLikeMojibake(Misread(s)) <==> HasSupplement(s)
  {
    if s != "" {
      MisreadLooks(s[1..]);
      Latin1Concat(Encode(s[0]), Utf8(s[1..]));
      LooksAtOne(s[0], Misread(s[1..]));
      assert HasSupplement(s) <==> InSupplement(s[0]) || HasSupplement(s[1..]) by {
        assert s == [s[0]] + s[1..];
      }
    }
  }

  lemma {:induction false} MisreadAscii(s: string)
    ensures if IsAscii(s) then Misread(s) == s else |Misread(s)| > |s|
  {
    if s != "" {
      var c, rest := s[0], s[1..];
      MisreadAscii(rest);
      Latin1Concat(Encode(c), Utf8(rest));
      LowBytesOfLatin1(Encode(c));
      assert s == [c] + rest && c in s;
      assert forall x :: x in rest ==> x in s;
      if c as int < 128 {
        assert Encode(c)[1..] == [] && Latin1(Encode(c)) == [c];
      }
    }
  }

  /**
   * Every text that was misread once comes back, if and only if it is ASCII, or it has a character of the Latin-1
   * supplement, does not itself look damaged, has no U+FFFD and does not begin with a byte order mark. In particular
   * one whose only other characters are typographic (U+2019, U+0153) does not.
   */
  lemma MisreadRoundTripExact(s: string)
    ensures RepairMojibake(Misread(s)) == s <==>
      || IsAscii(s)
      || (HasSupplement(s) && !LooksLikeMojibake(s) && REPLACEMENT !in s && !StartsWith(s, [BOM]))
  {
    MisreadLooks(s);
    MisreadAscii(s);
    LowBytesOfLatin1(Utf8(s));
    if IsAscii(s) {
      assert !HasSupplement(s);
    } else {
      RepairExact(Misread(s), s);
      Utf8Injective([BOM] + s, s);
    }
  }

  lemma Utf8Injective(s: string, t: string)
    ensures Utf8(s) == Utf8(t) ==> s == t
  {
    DecodeUtf8(s);
    DecodeUtf8(t);
  }

  /** A repair loses nothing but a byte order mark exactly when the damaged text is Latin-1 throughout. */
  lemma RepairIsLosslessExact(s: string)
    requires RepairMojibake(s) != s
    ensures s == Misread(RepairMojibake(s)) || s == Misread([BOM] + RepairMojibake(s)) <==> IsLatin1(s)
  {
    var r := RepairMojibake(s);
    RepairExact(s, r);
    Latin1OfLowBytes(s);
    LowBytesOfLatin1(Utf8(r));
    LowBytesOfLatin1(Utf8([BOM] + r));
  }

  // ---- What it does not repair, and what it damages ----

  lemma {:induction false} BrokenSequence(before: seq<Byte>, after: seq<Byte>)
    requires |after| < 3 || !IsTail(after[2])
    requires |after| >= 1 && 0xE0 <= after[0] < 0xF0
    ensures Decode(before + after).None?
    decreases |before|
  {
    var bs := before + after;
    if before == [] {
      assert bs == after;
    } else if Size(bs) > 0 {
      assert bs[|before|] == after[0];
      assert Size(bs) <= |before|;
      assert bs[Size(bs)..] == before[Size(bs)..] + after;
      BrokenSequence(before[Size(bs)..], after);
    }
  }

  lemma {:induction false} LowBytesConcat(s: string, t: string)
    ensures LowBytes(s + t) == LowBytes(s) + LowBytes(t)
  {
    if s == "" {
      assert s + t == t;
    } else {
      assert (s + t)[1..] == s[1..] + t;
      LowBytesConcat(s[1..], t);
    }
  }

  /**
   * A quote or dash misread as Windows-1252 is hinted at and never repaired: U+20AC has the right low byte, but
   * U+2122, U+0153, U+201C and U+201D do not, and then the whole text stays as it was.
   */
  lemma WindowsQuotesStay(before: string, after: string)
    requires after == "" || !IsTail(LowByte(after[0]))
    ensures RepairMojibake(before + "\U{00E2}\U{20AC}" + after) == before + "\U{00E2}\U{20AC}" + after
  {
    var hint := "\U{00E2}\U{20AC}";
    LowBytesConcat(before + hint, after);
    LowBytesConcat(before, hint);
    assert LowBytes(hint) == [0xE2] + LowBytes(hint[1..]) == [0xE2, 0xAC];
    var bytes := [0xE2, 0xAC] + LowBytes(after);
    assert LowBytes(before + hint + after) == LowBytes(before) + bytes;
    BrokenSequence(LowBytes(before), bytes);
  }

  /** A misread ellipsis becomes another character, U+2B26. */
  lemma MisreadEllipsisChanges()
    ensures RepairMojibake("\U{00E2}\U{20AC}\U{00A6}") == "\U{2B26}"
  {
    var s, r := "\U{00E2}\U{20AC}\U{00A6}", "\U{2B26}";
    assert s[1..] == "\U{20AC}\U{00A6}" && s[1..][1..] == "\U{00A6}" && r[1..] == "";
    assert LowBytes("\U{00A6}") == [0xA6] && LowBytes("\U{20AC}\U{00A6}") == [0xAC, 0xA6];
    assert LowBytes(s) == [0xE2, 0xAC, 0xA6] == Utf8(r);
    RepairExact(s, r);
  }

  /** Next to damage that is repaired, a genuine apostrophe becomes a control character. */
  lemma RepairDamagesOthers()
    ensures RepairMojibake("\U{00C3}\U{00A9}\U{2019}") == "\U{00E9}\U{0019}"
  {
    var s, r := "\U{00C3}\U{00A9}\U{2019}", "\U{00E9}\U{0019}";
    assert s[1..] == "\U{00A9}\U{2019}" && s[1..][1..] == "\U{2019}" && r[1..] == "\U{0019}" && r[1..][1..] == "";
    assert LowBytes("\U{2019}") == [0x19] && LowBytes("\U{00A9}\U{2019}") == [0xA9, 0x19];
    assert Utf8("\U{0019}") == [0x19];
    assert LowBytes(s) == [0xC3, 0xA9, 0x19] == Utf8(r);
    RepairExact(s, r);
  }

  /** Of an emoji next to such damage one byte of its first surrogate is left: U+1F600 becomes an equals sign. */
  lemma RepairDamagesEmoji()
    ensures RepairMojibake("\U{00C3}\U{00A9}\U{1F600}") == "\U{00E9}="
  {
    var s, r := "\U{00C3}\U{00A9}\U{1F600}", "\U{00E9}=";
    assert s[1..] == "\U{00A9}\U{1F600}" && s[1..][1..] == "\U{1F600}" && r[1..] == "=" && r[1..][1..] == "";
    assert LowBytes("\U{1F600}") == [0x3D] && LowBytes("\U{00A9}\U{1F600}") == [0xA9, 0x3D];
    assert Utf8("=") == [0x3D];
    assert LowBytes(s) == [0xC3, 0xA9, 0x3D] == Utf8(r);
    RepairExact(s, r);
  }

  /** A damaged letter before ASCII text is repaired. */
  lemma DamagedLetter(rest: string)
    requires IsAscii(rest)
    ensures RepairMojibake("\U{00C3}\U{00A9}" + rest) == "\U{00E9}" + rest
  {
    var c: char := '\U{00E9}';
    var s := [c] + rest;
    MisreadAscii(rest);
    Latin1Concat(Encode(c), Utf8(rest));
    assert s[1..] == rest && Latin1(Encode(c)) == "\U{00C3}\U{00A9}" by {
      assert Encode(c) == [0xC3, 0xA9] && Encode(c)[1..] == [0xA9] && Encode(c)[1..][1..] == [];
    }
    NoHintNoRepair(s);
    assert s[0] == c && InSupplement(c) && HasSupplement(s);
    MisreadRoundTripExact(s);
  }
}
