/**
  The tokener inside a string, against the grammar: character by character it gathers the
  units and their bytes.
*/
module JsonUnits {
  import opened JsonGrammar
  import M = JsonMachine
  import U = JsonUtf8

  /** The beginning of an escape. */
  predicate PartOk(part: string) {
    part == "" || (part[0] == '\\' && (|part| == 1 || (part[1] == 'u' && |part| <= 5 && forall i :: 2 <= i < |part| ==> Hex(part[i]))))
  }

  /** What its digits are worth so far. */
  function Worth(part: string): nat
    requires PartOk(part) && |part| >= 2
  {
    (if |part| > 2 then 0x1000 * HexOf(part[2]) else 0) + (if |part| > 3 then 0x100 * HexOf(part[3]) else 0)
    + (if |part| > 4 then 0x10 * HexOf(part[4]) else 0)
  }

  /** The escape state: a half that waits, and the beginning of an escape. */
  function EscOf(half: nat, part: string): M.Esc
    requires PartOk(part)
  {
    if part == "" then (if half == 0 then M.Plain else M.HiPend(half))
    else if |part| == 1 then (if half == 0 then M.Back else M.HiBack(half))
    else M.Uni(|part| - 2, Worth(part), half)
  }

  function LastCode(part: string, c: char): Unit
    requires |part| == 5
  {
    Code(part[2], part[3], part[4], c)
  }

  /** What one more character makes of units and the beginning of an escape. */
  datatype Grown = Grown(us: seq<Unit>, part: string) | Closing | Wrong

  function Grow(us: seq<Unit>, part: string, quote: char, c: char): Grown
    requires PartOk(part)
  {
    if part == "" then
      (if c == quote then Closing else if c == '\\' then Grown(us, "\\") else Grown(us + [Raw(c)], ""))
    else if |part| == 1 then
      (if c == 'u' then Grown(us, "\\u") else if Shorts(c) then Grown(us + [Short(c)], "") else Wrong)
    else if !Hex(c) then Wrong
    else if |part| < 5 then Grown(us, part + [c])
    else Grown(us + [LastCode(part, c)], "")
  }

  lemma SameDigits(c: char)
    ensures Hex(c) <==> M.HexChar(c)
    ensures Hex(c) ==> HexOf(c) == M.HexValue(c)
  {
  }

  lemma Replacement()
    ensures M.REPLACEMENT == Utf8(0xFFFD)
  {
    U.ReplacementIsFFFD();
  }

  lemma Bits(uc: nat)
    ensures M.IsHigh(uc) <==> HighCode(uc % 0x1_0000)
    ensures M.IsLow(uc) <==> LowCode(uc % 0x1_0000)
  {
    U.SurrogateBits(uc % 0x1_0000);
  }

  /** The code of a finished escape. */
  lemma CompletedIs(b: Bytes, uc: nat)
    requires uc < 0x1_0000
    ensures var r := if b.half != 0 && LowCode(uc) then Coded(b.done, Pair(b.half, uc)) else Coded(Flushed(b), uc);
      M.Completed(b.done, uc, b.half) == M.Cont(r.done, EscOf(r.half, ""))
  {
    hide M.IsHigh, M.IsLow, M.Utf8, Pair, M.DecodePair;
    Replacement();
    Bits(uc);
    var full := Pair(b.half, uc);
    PairIs(b.half, uc);
    Bits(full);
    Large(uc);
    Large(full);
  }

  lemma PairIs(half: nat, uc: nat)
    ensures Pair(half, uc) == M.DecodePair(half, uc) && Pair(half, uc) >= 0x1_0000
  {
  }

  lemma Large(uc: nat)
    ensures HighCode(uc % 0x1_0000) || LowCode(uc % 0x1_0000) ==> uc >= 0xD800
  {
  }

  ghost predicate Carries(us: seq<Unit>) { forall i :: 0 <= i < |us| && us[i].Code? ==> UnitOk(us[i], '\"') }

  lemma DecodedSnoc(us: seq<Unit>, u: Unit)
    requires Carries(us) && (u.Code? ==> UnitOk(u, '\"'))
    ensures Carries(us + [u]) && Decoded(us + [u]) == Then(Decoded(us), u)
  {
    assert (us + [u])[..|us|] == us;
  }

  /** One character inside a string. */
  lemma Feeds(us: seq<Unit>, part: string, quote: char, c: char)
    requires Carries(us) && PartOk(part) && (quote == '\"' || quote == '\'')
    ensures var b := Decoded(us); var o := M.StrFeed(b.done, quote, EscOf(b.half, part), c);
      match Grow(us, part, quote, c)
      case Closing => o == M.Close(Flushed(b))
      case Wrong => o == M.Bad
      case Grown(us1, part1) =>
        Carries(us1) && PartOk(part1) && o == M.Cont(Decoded(us1).done, EscOf(Decoded(us1).half, part1))
  {
    hide Decoded, M.Completed, HexOf, M.HexValue, Hex, M.HexChar, Coded;
    Replacement();
    if |part| >= 2 {
      FeedsDigit(us, part, quote, c);
    } else if part == "" {
      DecodedSnoc(us, Raw(c));
    } else if Shorts(c) {
      DecodedSnoc(us, Short(c));
    }
  }

  lemma FeedsDigit(us: seq<Unit>, part: string, quote: char, c: char)
    requires Carries(us) && PartOk(part) && |part| >= 2 && (quote == '\"' || quote == '\'')
    ensures var b := Decoded(us); var o := M.StrFeed(b.done, quote, EscOf(b.half, part), c);
      match Grow(us, part, quote, c)
      case Grown(us1, part1) =>
        Carries(us1) && PartOk(part1) && o == M.Cont(Decoded(us1).done, EscOf(Decoded(us1).half, part1))
      case _ => Grow(us, part, quote, c) == Wrong && o == M.Bad
  {
    hide Decoded, M.Completed, HexOf, M.HexValue, Hex, M.HexChar, Coded, Worth;
    SameDigits(c);
    if Hex(c) {
      if |part| < 5 {
        DigitGrows(part, c);
      } else {
        LastDigit(part, c);
        DecodedSnoc(us, LastCode(part, c));
        CompletedIs(Decoded(us), CodeOf(LastCode(part, c)));
      }
    }
  }

  lemma LastDigit(part: string, c: char)
    requires PartOk(part) && |part| == 5 && Hex(c)
    ensures var u := LastCode(part, c); UnitOk(u, '\"') && CodeOf(u) == Worth(part) + M.HexValue(c) < 0x1_0000
  {
    SameDigits(c);
  }

  lemma DigitGrows(part: string, c: char)
    requires PartOk(part) && 2 <= |part| < 5 && Hex(c)
    ensures PartOk(part + [c]) && Worth(part + [c]) == Worth(part) + M.HexValue(c) * M.DigitWeight(|part| - 2)
  {
    SameDigits(c);
  }
}
