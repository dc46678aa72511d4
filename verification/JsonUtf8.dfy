/**
  What the \u escapes of a JSON string append, against an independent strict UTF-8
  decoder (section 3 of RFC 3629) and the surrogate-pair formula of section 2.1 of
  RFC 2781.
*/
module JsonUtf8 {
  import opened Shared
  import opened JsonMachine

  // ---- The decoder of the standard -----------------------------------------

  predicate Tail(b: char) { 0x80 <= b as int <= 0xBF }

  predicate Surrogate(uc: nat) { 0xD800 <= uc <= 0xDFFF }

  /** The code point a byte sequence encodes; overlong forms, surrogates and codes
      above 10FFFF encode nothing. */
  function Decode(bytes: string): Option<nat> {
    if |bytes| == 1 && bytes[0] as int < 0x80 then Some(bytes[0] as int)
    else if |bytes| == 2 && 0xC2 <= bytes[0] as int <= 0xDF && Tail(bytes[1]) then
      Some((bytes[0] as int - 0xC0) * 0x40 + (bytes[1] as int - 0x80))
    else if |bytes| == 3 && 0xE0 <= bytes[0] as int <= 0xEF && Tail(bytes[1]) && Tail(bytes[2]) then
      (var uc := (bytes[0] as int - 0xE0) * 0x1000 + (bytes[1] as int - 0x80) * 0x40 + (bytes[2] as int - 0x80);
       if uc < 0x800 || Surrogate(uc) then None else Some(uc))
    else if |bytes| == 4 && 0xF0 <= bytes[0] as int <= 0xF4 && Tail(bytes[1]) && Tail(bytes[2]) && Tail(bytes[3]) then
      (var uc := (bytes[0] as int - 0xF0) * 0x4_0000 + (bytes[1] as int - 0x80) * 0x1000
                 + (bytes[2] as int - 0x80) * 0x40 + (bytes[3] as int - 0x80);
       if uc < 0x1_0000 || uc > 0x10_FFFF then None else Some(uc))
    else None
  }

  lemma ByteValue(n: nat)
    requires n < 256
    ensures Byte(n) as int == n
  {
  }

  lemma Utf8Short(uc: nat)
    requires uc < 0x800
    ensures Decode(Utf8(uc)) == Some(uc)
  {
    if uc < 0x80 { ByteValue(uc); } else { ByteValue(0xC0 + uc / 0x40); ByteValue(0x80 + uc % 0x40); }
  }

  lemma ThreeBytes(uc: nat, a: nat, b: nat, c: nat)
    requires a < 0x10 && b < 0x40 && c < 0x40
    requires uc == a * 0x1000 + b * 0x40 + c && 0x800 <= uc && !Surrogate(uc)
    ensures Decode([Byte(0xE0 + a), Byte(0x80 + b), Byte(0x80 + c)]) == Some(uc)
  {
    ByteValue(0xE0 + a);
    ByteValue(0x80 + b);
    ByteValue(0x80 + c);
  }

  lemma ThreeParts(uc: nat)
    requires uc < 0x1_0000
    ensures uc / 0x1000 < 0x10 && uc == uc / 0x1000 * 0x1000 + uc / 0x40 % 0x40 * 0x40 + uc % 0x40
  {
    var q := uc / 0x40;
    assert q / 0x40 == uc / 0x1000;
  }

  lemma Utf8Three(uc: nat)
    requires 0x800 <= uc < 0x1_0000 && !Surrogate(uc)
    ensures Decode(Utf8(uc)) == Some(uc)
  {
    hide Decode;
    ThreeParts(uc);
    ThreeBytes(uc, uc / 0x1000, uc / 0x40 % 0x40, uc % 0x40);
  }

  lemma FourParts(uc: nat) returns (a: nat, b: nat, c: nat, d: nat)
    requires 0x1_0000 <= uc <= 0x10_FFFF
    ensures a == uc / 0x4_0000 % 8 <= 4 && b == uc / 0x1000 % 0x40 && c == uc / 0x40 % 0x40 && d == uc % 0x40
    ensures uc == a * 0x4_0000 + b * 0x1000 + c * 0x40 + d
  {
    var q1 := uc / 0x40;
    var q2 := q1 / 0x40;
    var q3 := q2 / 0x40;
    a, b, c, d := q3, q2 % 0x40, q1 % 0x40, uc % 0x40;
    assert q2 == uc / 0x1000 && q3 == uc / 0x4_0000;
  }

  lemma Utf8Four(uc: nat)
    requires 0x1_0000 <= uc <= 0x10_FFFF
    ensures Decode(Utf8(uc)) == Some(uc)
  {
    var a, b, c, d := FourParts(uc);
    FourBytes(uc, a, b, c, d);
    assert Utf8(uc) == [Byte(0xF0 + a), Byte(0x80 + b), Byte(0x80 + c), Byte(0x80 + d)];
  }

  lemma FourBytes(uc: nat, a: nat, b: nat, c: nat, d: nat)
    requires a <= 4 && b < 0x40 && c < 0x40 && d < 0x40
    requires uc == a * 0x4_0000 + b * 0x1000 + c * 0x40 + d && 0x1_0000 <= uc <= 0x10_FFFF
    ensures Decode([Byte(0xF0 + a), Byte(0x80 + b), Byte(0x80 + c), Byte(0x80 + d)]) == Some(uc)
  {
    ByteValue(0xF0 + a);
    ByteValue(0x80 + b);
    ByteValue(0x80 + c);
    ByteValue(0x80 + d);
  }

  /** The bytes written for a Unicode scalar value decode to it and to nothing else. */
  lemma Utf8Correct(uc: nat)
    requires uc <= 0x10_FFFF && !Surrogate(uc)
    ensures Decode(Utf8(uc)) == Some(uc)
  {
    if uc < 0x800 { Utf8Short(uc); } else if uc < 0x1_0000 { Utf8Three(uc); } else { Utf8Four(uc); }
  }

  lemma ReplacementIsFFFD()
    ensures REPLACEMENT == Utf8(0xFFFD) && Decode(REPLACEMENT) == Some(0xFFFD)
  {
    ByteValue(0xEF);
    ByteValue(0xBF);
    ByteValue(0xBD);
    Utf8Three(0xFFFD);
  }

  lemma SurrogateBits(uc: nat)
    requires uc < 0x1_0000
    ensures IsHigh(uc) <==> 0xD800 <= uc <= 0xDBFF
    ensures IsLow(uc) <==> 0xDC00 <= uc <= 0xDFFF
  {
  }

  // ---- Escapes read character by character ----------------------------------

  function StrAll(pb: string, quote: char, esc: Esc, t: string): StrOut
    decreases |t|
  {
    if t == "" then Cont(pb, esc)
    else
      var o := StrFeed(pb, quote, esc, t[0]);
      if o.Cont? then StrAll(o.pb, quote, o.esc, t[1..]) else o
  }

  function Resume(o: StrOut, quote: char, t: string): StrOut {
    if o.Cont? then StrAll(o.pb, quote, o.esc, t) else o
  }

  /** Inside a string value the tokener does exactly this. */
  lemma {:induction false} InString(m: Machine, pb: string, quote: char, esc: Esc, t: string)
    requires m.mode == InStr(pb, quote, esc) && '\0' !in t && StrAll(pb, quote, esc, t).Cont?
    ensures FeedAll(m, t) ==
      More(m.(mode := InStr(StrAll(pb, quote, esc, t).pb, quote, StrAll(pb, quote, esc, t).esc)))
    decreases |t|
  {
    if t != "" {
      var o := StrFeed(pb, quote, esc, t[0]);
      InString(m.(mode := InStr(o.pb, quote, o.esc)), o.pb, quote, o.esc, t[1..]);
    }
  }

  function HexCode(a: char, b: char, c: char, d: char): nat
    requires HexChar(a) && HexChar(b) && HexChar(c) && HexChar(d)
  {
    HexValue(a) * 0x1000 + HexValue(b) * 0x100 + HexValue(c) * 0x10 + HexValue(d)
  }

  lemma StrCons(pb: string, quote: char, esc: Esc, c: char, t: string)
    ensures StrAll(pb, quote, esc, [c] + t) ==
      Resume(StrFeed(pb, quote, esc, c), quote, t)
  {
    assert ([c] + t)[1..] == t;
  }

  lemma FourDigits(pb: string, quote: char, hi: nat, a: char, b: char, c: char, d: char, t: string)
    requires HexChar(a) && HexChar(b) && HexChar(c) && HexChar(d)
    ensures StrAll(pb, quote, Uni(0, 0, hi), [a] + ([b] + ([c] + ([d] + t)))) ==
      Resume(Completed(pb, HexCode(a, b, c, d), hi), quote, t)
  {
    var x, y := HexValue(a) * 0x1000, HexValue(b) * 0x100;
    var z := HexValue(c) * 0x10;
    StrCons(pb, quote, Uni(0, 0, hi), a, [b] + ([c] + ([d] + t)));
    StrCons(pb, quote, Uni(1, x, hi), b, [c] + ([d] + t));
    StrCons(pb, quote, Uni(2, x + y, hi), c, [d] + t);
    StrCons(pb, quote, Uni(3, x + y + z, hi), d, t);
  }

  /** The text of one \u escape. */
  function Escape4(a: char, b: char, c: char, d: char, t: string): string {
    ['\\'] + (['u'] + ([a] + ([b] + ([c] + ([d] + t)))))
  }

  lemma EscapeReads(pb: string, quote: char, a: char, b: char, c: char, d: char, t: string)
    requires HexChar(a) && HexChar(b) && HexChar(c) && HexChar(d) && quote != '\\'
    ensures StrAll(pb, quote, Plain, Escape4(a, b, c, d, t)) ==
      Resume(Completed(pb, HexCode(a, b, c, d), 0), quote, t)
  {
    var digits := [a] + ([b] + ([c] + ([d] + t)));
    StrCons(pb, quote, Plain, '\\', ['u'] + digits);
    StrCons(pb, quote, Back, 'u', digits);
    FourDigits(pb, quote, 0, a, b, c, d, t);
  }

  /** After a complete high surrogate the next escape continues the pair. */
  lemma SecondReads(pb: string, quote: char, hi: nat, a: char, b: char, c: char, d: char, t: string)
    requires HexChar(a) && HexChar(b) && HexChar(c) && HexChar(d)
    ensures StrAll(pb, quote, HiPend(hi), Escape4(a, b, c, d, t)) ==
      Resume(Completed(pb, HexCode(a, b, c, d), hi), quote, t)
  {
    var digits := [a] + ([b] + ([c] + ([d] + t)));
    StrCons(pb, quote, HiPend(hi), '\\', ['u'] + digits);
    StrCons(pb, quote, HiBack(hi), 'u', digits);
    FourDigits(pb, quote, hi, a, b, c, d, t);
  }

  /** An escaped code outside the surrogates appends bytes that decode to it. */
  lemma BmpEscape(pb: string, quote: char, a: char, b: char, c: char, d: char)
    requires HexChar(a) && HexChar(b) && HexChar(c) && HexChar(d) && quote != '\\'
    requires !Surrogate(HexCode(a, b, c, d))
    ensures exists bytes :: StrAll(pb, quote, Plain, Escape4(a, b, c, d, "")) == Cont(pb + bytes, Plain)
                            && Decode(bytes) == Some(HexCode(a, b, c, d))
  {
    var uc := HexCode(a, b, c, d);
    EscapeReads(pb, quote, a, b, c, d, "");
    SurrogateBits(uc);
    Utf8Correct(uc);
    assert StrAll(pb, quote, Plain, Escape4(a, b, c, d, "")) == Cont(pb + Utf8(uc), Plain);
  }

  /** A low surrogate without a high one appends U+FFFD. */
  lemma LoneLow(pb: string, quote: char, a: char, b: char, c: char, d: char)
    requires HexChar(a) && HexChar(b) && HexChar(c) && HexChar(d) && quote != '\\'
    requires 0xDC00 <= HexCode(a, b, c, d) <= 0xDFFF
    ensures StrAll(pb, quote, Plain, Escape4(a, b, c, d, "")) == Cont(pb + Utf8(0xFFFD), Plain)
  {
    EscapeReads(pb, quote, a, b, c, d, "");
    SurrogateBits(HexCode(a, b, c, d));
    ReplacementIsFFFD();
  }

  /** A high surrogate followed by an ordinary character appends U+FFFD and the character. */
  lemma LoneHigh(pb: string, quote: char, a: char, b: char, c: char, d: char, next: char)
    requires HexChar(a) && HexChar(b) && HexChar(c) && HexChar(d) && quote != '\\'
    requires 0xD800 <= HexCode(a, b, c, d) <= 0xDBFF && next != '\\' && next != quote
    ensures StrAll(pb, quote, Plain, Escape4(a, b, c, d, [next])) == Cont(pb + Utf8(0xFFFD) + [next], Plain)
  {
    EscapeReads(pb, quote, a, b, c, d, [next]);
    SurrogateBits(HexCode(a, b, c, d));
    ReplacementIsFFFD();
    StrCons(pb, quote, HiPend(HexCode(a, b, c, d)), next, "");
    assert [next] == [next] + "";
  }

  /** The code point of a surrogate pair. */
  function PairValue(hi: nat, lo: nat): int { 0x1_0000 + (hi - 0xD800) * 0x400 + (lo - 0xDC00) }

  lemma DecodePairIsPairValue(hi: nat, lo: nat)
    requires 0xD800 <= hi <= 0xDBFF && 0xDC00 <= lo <= 0xDFFF
    ensures DecodePair(hi, lo) == PairValue(hi, lo)
    ensures 0x1_0000 <= DecodePair(hi, lo) <= 0x10_FFFF
  {
  }

  /** An escaped surrogate pair appends bytes that decode to its code point exactly
      when the low 16 bits of that code point are not themselves in D800-DFFF; the
      decoder tests the combined code for a surrogate a second time. */
  lemma PairEscape(pb: string, quote: char, a: char, b: char, c: char, d: char, e: char, f: char, g: char, h: char)
    requires HexChar(a) && HexChar(b) && HexChar(c) && HexChar(d) && quote != '\\'
    requires HexChar(e) && HexChar(f) && HexChar(g) && HexChar(h)
    requires 0xD800 <= HexCode(a, b, c, d) <= 0xDBFF && 0xDC00 <= HexCode(e, f, g, h) <= 0xDFFF
    ensures var uc := PairValue(HexCode(a, b, c, d), HexCode(e, f, g, h));
      (exists bytes :: StrAll(pb, quote, Plain, Escape4(a, b, c, d, Escape4(e, f, g, h, ""))) == Cont(pb + bytes, Plain)
                       && Decode(bytes) == Some(uc))
      <==> !Surrogate(uc % 0x1_0000)
  {
    var hi, lo := HexCode(a, b, c, d), HexCode(e, f, g, h);
    var text := Escape4(a, b, c, d, Escape4(e, f, g, h, ""));
    EscapeReads(pb, quote, a, b, c, d, Escape4(e, f, g, h, ""));
    SurrogateBits(hi);
    SurrogateBits(lo);
    SecondReads(pb, quote, hi, e, f, g, h, "");
    DecodePairIsPairValue(hi, lo);
    var uc := DecodePair(hi, lo);
    SurrogateBits(uc % 0x1_0000);
    var out := StrAll(pb, quote, Plain, text);
    assert out == Completed(pb, lo, hi);
    if !Surrogate(uc % 0x1_0000) {
      Utf8Correct(uc);
      assert out == Cont(pb + Utf8(uc), Plain);
    } else {
      ReplacementIsFFFD();
      assert out == Cont(pb, HiPend(uc)) || out == Cont(pb + REPLACEMENT, Plain);
      forall bytes | out == Cont(pb + bytes, Plain) ensures Decode(bytes) != Some(uc) {
        assert (pb + bytes)[|pb|..] == bytes;
        assert (pb + REPLACEMENT)[|pb|..] == REPLACEMENT;
      }
    }
  }
}
