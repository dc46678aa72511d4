/**
  Feeding a text in pieces gives the same result as feeding it whole, unless a piece
  ends inside an escaped surrogate pair.
*/
module JsonChunks {
  import opened JsonValue
  import opened JsonMachine
  import opened JsonCuts
  import JsonUtf8

  /** One call of json_tokener_parse_ex per piece, as long as each earlier piece
      returns json_tokener_continue. */
  function RunPieces(m: Machine, pieces: seq<string>): Final
    decreases |pieces|
  {
    if pieces == [] then Paused(m)
    else match Run(m, pieces[0])
      case Paused(m1) => RunPieces(m1, pieces[1..])
      case Parsed(v, end) => Parsed(v, end)
      case Failed(e) => Failed(e)
  }

  function Join(pieces: seq<string>): string {
    if pieces == [] then "" else pieces[0] + Join(pieces[1..])
  }

  /** Same value, or same error, or same state to go on from. */
  predicate SameVerdict(a: Final, b: Final) {
    match a
    case Parsed(v, _) => b.Parsed? && b.v == v
    case Failed(e) => b == a
    case Paused(_) => b == a
  }

  /** A complete top-level value with nothing but white space after it. */
  predicate Complete(m: Machine) { m.mode.Full? && m.stack == [] }

  lemma {:induction false} RunIsFeedAll(m: Machine, s: string, i: nat)
    requires i <= |s|
    ensures match FeedAll(m, s[i..])
      case More(m1) => RunFrom(m, s, i) == (if Complete(m1) then Parsed(m1.mode.v, |s|) else Paused(EndPiece(m1)))
      case Value(v) => RunFrom(m, s, i).Parsed? && RunFrom(m, s, i).v == v
      case Fail(e) => RunFrom(m, s, i) == Failed(e)
    decreases |s| - i
  {
    if i < |s| {
      assert s[i..][1..] == s[i + 1..];
      match Feed(m, s[i]) {
        case More(m1) => RunIsFeedAll(m1, s, i + 1);
        case _ =>
      }
    }
  }

  lemma AfterPiece(m: Machine, a: string)
    requires Run(m, a).Paused?
    ensures FeedAll(m, a).More? && !Complete(FeedAll(m, a).m) && Run(m, a).m == EndPiece(FeedAll(m, a).m)
  {
    hide RunFrom, FeedAll, EndPiece;
    assert a[0..] == a;
    RunIsFeedAll(m, a, 0);
  }

  /** Machines that meet give the same verdict on the rest of the text. */
  lemma MeetingRuns(w: Machine, p: Machine, b: string, d: nat)
    requires Together(w, p, b, d)
    ensures SameVerdict(Run(w, b), Run(p, b))
  {
    hide RunFrom, FeedAll;
    assert b[0..] == b;
    RunIsFeedAll(w, b, 0);
    RunIsFeedAll(p, b, 0);
    if |b| > d {
      assert b[..d] + b[d..] == b;
      FeedConcat(w, b[..d], b[d..]);
      FeedConcat(p, b[..d], b[d..]);
    }
  }

  /** After piece a has paused, piece b continues as if a + b had been one piece. */
  lemma RunSplit(m: Machine, a: string, b: string)
    requires Sound(m) && Run(m, a).Paused? && !Breaks(Scan(EscOf(m.mode), a), b)
    ensures SameVerdict(Run(m, a + b), Run(Run(m, a).m, b))
  {
    hide RunFrom, FeedAll, EndPiece, Scan, Breaks, Together;
    AfterPiece(m, a);
    var m1 := FeedAll(m, a).m;
    CutExact(m, a, b);
    MeetingRuns(m1, EndPiece(m1), b, CutWindow(Scan(EscOf(m.mode), a)));
    assert (a + b)[0..] == a + b && b[0..] == b;
    FeedConcat(m, a, b);
    RunIsFeedAll(m, a + b, 0);
    RunIsFeedAll(m1, b, 0);
  }

  lemma NoPieces(m: Machine)
    ensures RunPieces(m, []) == Paused(m)
  {
  }

  lemma {:induction false} RunPiecesSnoc(m: Machine, pieces: seq<string>, piece: string)
    requires RunPieces(m, pieces).Paused?
    ensures RunPieces(m, pieces + [piece]) == Run(RunPieces(m, pieces).m, piece)
    decreases |pieces|
  {
    hide RunFrom;
    if pieces == [] {
      assert (pieces + [piece])[1..] == [];
    } else {
      assert (pieces + [piece])[1..] == pieces[1..] + [piece];
      RunPiecesSnoc(Run(m, pieces[0]).m, pieces[1..], piece);
    }
  }

  // ---- Many cuts ---------------------------------------------------------------

  /** Where piece i begins in the text. */
  function CutAt(pieces: seq<string>, i: nat): (k: nat)
    requires i <= |pieces|
    ensures k <= |Join(pieces)|
  {
    if i == 0 then 0 else |pieces[0]| + CutAt(pieces[1..], i - 1)
  }

  /** No piece ends inside an escaped surrogate pair of the text. */
  ghost predicate NoPairCut(pieces: seq<string>) {
    forall i: nat :: 0 < i < |pieces| ==> !InsidePair(Join(pieces), CutAt(pieces, i))
  }

  /** The escape state a pause leaves. */
  function Given(esc: Esc): Esc { EndEsc("", esc).1 }

  /** The same, with what each pause has made of the escape state. */
  predicate Harmless(esc: Esc, pieces: seq<string>)
    decreases |pieces|
  {
    |pieces| <= 1 || (!Breaks(Scan(esc, pieces[0]), Join(pieces[1..])) && Harmless(Given(Scan(esc, pieces[0])), pieces[1..]))
  }

  lemma PauseSound(m: Machine)
    requires Sound(m)
    ensures Sound(EndPiece(m)) && EscOf(EndPiece(m).mode) == Given(EscOf(m.mode))
  {
  }

  lemma {:induction false} PiecesEqualWholeFrom(m: Machine, pieces: seq<string>)
    requires pieces != [] && Sound(m) && Harmless(EscOf(m.mode), pieces)
    requires forall k :: 0 < k < |pieces| ==> RunPieces(m, pieces[..k]).Paused?
    ensures SameVerdict(Run(m, Join(pieces)), RunPieces(m, pieces))
    decreases |pieces|
  {
    hide RunFrom, FeedAll, EndPiece, Scan, Breaks, Given, Sound;
    var rest := pieces[1..];
    if rest == [] {
      assert Join(pieces) == pieces[0];
    } else {
      assert pieces[..1] == [pieces[0]];
      assert RunPieces(m, pieces[..1]).Paused?;
      AfterPiece(m, pieces[0]);
      MachineScans(m, pieces[0]);
      PauseSound(FeedAll(m, pieces[0]).m);
      RunSplit(m, pieces[0], Join(rest));
      var m1 := Run(m, pieces[0]).m;
      forall k | 0 < k < |rest| ensures RunPieces(m1, rest[..k]).Paused? {
        assert RunPieces(m, pieces[..k + 1]).Paused?;
        assert pieces[..k + 1][1..] == rest[..k];
      }
      PiecesEqualWholeFrom(m1, rest);
    }
  }

  /** Escape state w of the uncut text and p of the pieces, in front of the rest. */
  ghost predicate Follows(w: Esc, p: Esc, rest: string) {
    p == w || GivenUp(w, p)
    || (w.Uni? && w.k == 0 && w.hi != 0 && p.Torn? && (rest == "" || !HexChar(rest[0])))
  }

  lemma CompletedEsc(uc: nat, h: nat)
    requires h != 0
    ensures var w, p := Completed("", uc, h), Completed("", uc, 0);
      && w.Cont? && p.Cont?
      && if IsLow(uc) then p.esc == Plain && (w.esc == Plain || w.esc.HiPend?) else w.esc == p.esc
  {
    hide Utf8, DecodePair;
  }

  lemma FollowsStep(w: Esc, p: Esc, c: char, rest: string)
    requires EscSound(w) && Follows(w, p, [c] + rest)
    ensures Follows(EscAfter(w, c), EscAfter(p, c), rest)
  {
    hide Completed, HexValue;
    ScanSoundStep(w, c);
    if GivenUp(w, p) && w.Uni? && w.k == 3 && HexChar(c) { CompletedEsc(w.acc + HexValue(c), w.hi); }
  }

  lemma {:induction false} FollowsScan(w: Esc, p: Esc, t: string, rest: string)
    requires EscSound(w) && Follows(w, p, t + rest)
    ensures EscSound(Scan(w, t)) && Follows(Scan(w, t), Scan(p, t), rest)
    decreases |t|
  {
    hide EscAfter, Follows;
    if t == "" {
      assert t + rest == rest;
    } else {
      assert t + rest == [t[0]] + (t[1..] + rest);
      FollowsStep(w, p, t[0], t[1..] + rest);
      ScanSoundStep(w, t[0]);
      FollowsScan(EscAfter(w, t[0]), EscAfter(p, t[0]), t[1..], rest);
    }
  }

  lemma FollowsPause(w: Esc, p: Esc, rest: string)
    requires EscSound(w) && Follows(w, p, rest) && !Breaks(w, rest)
    ensures !Breaks(p, rest) && Follows(w, Given(p), rest)
  {
  }

  /** The offsets alone tell: what earlier pauses have changed does not matter. */
  lemma {:induction false} OffsetsTell(before: string, p: Esc, pieces: seq<string>)
    requires Follows(Scan(Plain, before), p, Join(pieces))
    requires forall i: nat :: 0 < i < |pieces| ==> !Splits(before + Join(pieces), |before| + CutAt(pieces, i))
    ensures Harmless(p, pieces)
    decreases |pieces|
  {
    hide Scan, Breaks, Given, Follows;
    if |pieces| > 1 {
      var a, rest := pieces[0], pieces[1..];
      var w := Scan(Plain, before + a);
      assert before + Join(pieces) == (before + a) + Join(rest);
      ScanSound(Plain, before);
      ScanConcat(Plain, before, a);
      FollowsScan(Scan(Plain, before), p, a, Join(rest));
      assert !Breaks(w, Join(rest)) by {
        assert CutAt(pieces, 1) == |a| + CutAt(rest, 0);
        assert !Splits(before + Join(pieces), |before| + CutAt(pieces, 1));
        assert (before + Join(pieces))[..|before + a|] == before + a;
        assert (before + Join(pieces))[|before + a|..] == Join(rest);
      }
      FollowsPause(w, Scan(p, a), Join(rest));
      forall i: nat | 0 < i < |rest| ensures !Splits((before + a) + Join(rest), |before + a| + CutAt(rest, i)) {
        assert !Splits(before + Join(pieces), |before| + CutAt(pieces, i + 1));
      }
      OffsetsTell(before + a, Given(Scan(p, a)), rest);
    }
  }

  lemma NoPairCutHarmless(pieces: seq<string>)
    requires NoPairCut(pieces)
    ensures Harmless(Plain, pieces)
  {
    hide InsidePair, Splits, Scan, Harmless;
    var t := Join(pieces);
    assert "" + t == t;
    StartsPlain("");
    forall i: nat | 0 < i < |pieces| ensures !Splits("" + t, |""| + CutAt(pieces, i)) {
      SplitsInside(t, CutAt(pieces, i));
    }
    OffsetsTell("", Plain, pieces);
  }

  /** While every earlier piece asks for more, the pieces give the same value or
      error as the whole text, if no piece ends inside an escaped surrogate pair. */
  lemma PiecesEqualWhole(maxDepth: nat, pieces: seq<string>)
    requires pieces != [] && NoPairCut(pieces)
    requires forall k :: 0 < k < |pieces| ==> RunPieces(Init(maxDepth), pieces[..k]).Paused?
    ensures SameVerdict(Run(Init(maxDepth), Join(pieces)), RunPieces(Init(maxDepth), pieces))
  {
    hide Run, RunPieces, NoPairCut, Harmless, Join;
    NoPairCutHarmless(pieces);
    PiecesEqualWholeFrom(Init(maxDepth), pieces);
  }

  // ---- Texts without high-surrogate escapes --------------------------------

  /** \uD800 - \uDBFF is spelled out at offset i. */
  predicate HighEscapeAt(t: string, i: nat) {
    && i + 4 <= |t| && t[i] == '\\' && t[i + 1] == 'u' && (t[i + 2] == 'd' || t[i + 2] == 'D')
    && (t[i + 3] == '8' || t[i + 3] == '9' || t[i + 3] == 'a' || t[i + 3] == 'A' || t[i + 3] == 'b' || t[i + 3] == 'B')
  }

  ghost predicate NoHighEscapes(t: string) {
    forall i: nat :: i < |t| ==> !HighEscapeAt(t, i)
  }

  lemma HighDigits(a: nat, b: nat, c: nat, d: nat)
    requires a < 16 && b < 16 && c < 16 && d < 16 && IsHigh(a * 0x1000 + b * 0x100 + c * 0x10 + d)
    ensures a == 13 && 8 <= b <= 11
  {
    JsonUtf8.SurrogateBits(a * 0x1000 + b * 0x100 + c * 0x10 + d);
  }

  lemma DigitD(a: char)
    requires HexChar(a) && HexValue(a) == 13
    ensures a == 'd' || a == 'D'
  {
  }

  lemma DigitEightToB(b: char)
    requires HexChar(b) && 8 <= HexValue(b) <= 11
    ensures b == '8' || b == '9' || b == 'a' || b == 'A' || b == 'b' || b == 'B'
  {
  }

  lemma HighCode(t: string, n: nat)
    requires 2 <= n && DigitsAt(t, n, 4) && t[n - 2] == '\\' && t[n - 1] == 'u' && IsHigh(CodeAt(t, n, 4))
    ensures HighEscapeAt(t, n - 2)
  {
    hide IsHigh, HexChar, HexValue;
    FourCode(t, n);
    HighDigits(HexValue(t[n]), HexValue(t[n + 1]), HexValue(t[n + 2]), HexValue(t[n + 3]));
    DigitD(t[n]);
    DigitEightToB(t[n + 1]);
  }

  lemma {:induction false} NoHalf(t: string, e: nat)
    requires NoHighEscapes(t)
    ensures !HalfPending(t, e)
    decreases e
  {
    hide Scan, HexValue, HexChar, IsHigh, IsLow, DecodePair;
    if HalfPending(t, e) {
      HalfIsSpelled(t, e);
      NoHalf(t, e - 6);
      HighCode(t, e - 4);
    }
  }

  lemma WithoutHighEscapes(pieces: seq<string>)
    requires NoHighEscapes(Join(pieces))
    ensures NoPairCut(pieces)
  {
    hide NoHighEscapes, HalfPending, SecondHalf, HexChar;
    forall e: nat ensures !HalfPending(Join(pieces), e) { NoHalf(Join(pieces), e); }
  }

  /** In particular for every text without \uD800 - \uDBFF escapes, however it is cut. */
  lemma AnyCutWithoutHighEscapes(maxDepth: nat, pieces: seq<string>)
    requires pieces != [] && NoHighEscapes(Join(pieces))
    requires forall k :: 0 < k < |pieces| ==> RunPieces(Init(maxDepth), pieces[..k]).Paused?
    ensures SameVerdict(Run(Init(maxDepth), Join(pieces)), RunPieces(Init(maxDepth), pieces))
  {
    hide RunPieces, NoHighEscapes, NoPairCut;
    WithoutHighEscapes(pieces);
    PiecesEqualWhole(maxDepth, pieces);
  }

  // ---- A cut inside a pair -------------------------------------------------

  /** Four hexadecimal digits spelling a code. */
  datatype Code = Code(a: char, b: char, c: char, d: char)

  predicate Spells(x: Code) { HexChar(x.a) && HexChar(x.b) && HexChar(x.c) && HexChar(x.d) }

  function CodeValue(x: Code): nat
    requires Spells(x)
  {
    JsonUtf8.HexCode(x.a, x.b, x.c, x.d)
  }

  function EscapeOf(x: Code): string { JsonUtf8.Escape4(x.a, x.b, x.c, x.d, "") }

  lemma EscapeChars(x: Code)
    ensures EscapeOf(x) == ['\\', 'u', x.a, x.b, x.c, x.d]
  {
  }

  /** Every offset from the end of the first half to the last character of the second is
      such a cut. */
  lemma PairCuts(before: string, x: Code, y: Code, after: string, k: nat)
    requires Scan(Plain, before) == Plain && Spells(x) && Spells(y) && 6 <= k < 12
    requires 0xD800 <= CodeValue(x) <= 0xDBFF && 0xDC00 <= CodeValue(y) <= 0xDFFF
    ensures var t := before + EscapeOf(x) + EscapeOf(y) + after; |before| + k <= |t| && InsidePair(t, |before| + k)
  {
    hide Scan, HexChar, HexValue, EscapeOf, IsHigh, IsLow, CodeAt;
    EscapeChars(x);
    EscapeChars(y);
    var t, e := before + EscapeOf(x) + EscapeOf(y) + after, |before| + 6;
    assert t[..e - 6] == before;
    FourCode(t, e - 4);
    JsonUtf8.SurrogateBits(CodeValue(x));
    SpelledIsHalf(t, e);
    assert SecondHalf(t[e..]);
  }

  lemma NoNul(x: Code)
    requires Spells(x)
    ensures '\0' !in EscapeOf(x)
  {
    EscapeChars(x);
  }

  lemma CompletedHigh(pb: string, uc: nat)
    requires 0xD800 <= uc <= 0xDBFF
    ensures Completed(pb, uc, 0) == Cont(pb, HiPend(uc))
  {
    hide Utf8;
    JsonUtf8.SurrogateBits(uc);
  }

  lemma CompletedPair(pb: string, hi: nat, lo: nat)
    requires 0xD800 <= hi <= 0xDBFF && 0xDC00 <= lo <= 0xDFFF
    requires !JsonUtf8.Surrogate(JsonUtf8.PairValue(hi, lo) % 0x1_0000)
    ensures Completed(pb, lo, hi) == Cont(pb + Utf8(JsonUtf8.PairValue(hi, lo)), Plain)
  {
    hide Utf8, DecodePair, IsHigh, IsLow;
    JsonUtf8.SurrogateBits(lo);
    JsonUtf8.DecodePairIsPairValue(hi, lo);
    SixteenBits(JsonUtf8.PairValue(hi, lo));
  }

  lemma SixteenBits(uc: nat)
    requires !JsonUtf8.Surrogate(uc % 0x1_0000)
    ensures !IsHigh(uc) && !IsLow(uc)
  {
    JsonUtf8.SurrogateBits(uc % 0x1_0000);
  }

  lemma HighAlone(m: Machine, pb: string, x: Code)
    requires m.mode == InStr(pb, '\"', Plain) && Spells(x) && 0xD800 <= CodeValue(x) <= 0xDBFF
    ensures FeedAll(m, EscapeOf(x)) == More(m.(mode := InStr(pb, '\"', HiPend(CodeValue(x)))))
    ensures Run(m, EscapeOf(x)) == Paused(m.(mode := InStr(pb + REPLACEMENT, '\"', Plain)))
  {
    hide RunFrom, FeedAll, Completed, Utf8, HexValue, HexChar, StrFeed, Step;
    NoNul(x);
    var t := EscapeOf(x);
    JsonUtf8.EscapeReads(pb, '\"', x.a, x.b, x.c, x.d, "");
    CompletedHigh(pb, CodeValue(x));
    assert JsonUtf8.StrAll(pb, '\"', HiPend(CodeValue(x)), "") == Cont(pb, HiPend(CodeValue(x)));
    JsonUtf8.InString(m, pb, '\"', Plain, t);
    assert t[0..] == t;
    RunIsFeedAll(m, t, 0);
  }

  lemma LowAlone(m: Machine, pb: string, y: Code)
    requires m.mode == InStr(pb, '\"', Plain) && Spells(y) && 0xDC00 <= CodeValue(y) <= 0xDFFF
    ensures FeedAll(m, EscapeOf(y)) == More(m.(mode := InStr(pb + REPLACEMENT, '\"', Plain)))
  {
    hide RunFrom, FeedAll, Completed, Utf8, HexValue, HexChar, StrFeed, Step;
    NoNul(y);
    JsonUtf8.LoneLow(pb, '\"', y.a, y.b, y.c, y.d);
    JsonUtf8.ReplacementIsFFFD();
    JsonUtf8.InString(m, pb, '\"', Plain, EscapeOf(y));
  }

  lemma LowAfterHigh(m: Machine, pb: string, hi: nat, y: Code)
    requires m.mode == InStr(pb, '\"', HiPend(hi)) && Spells(y) && 0xDC00 <= CodeValue(y) <= 0xDFFF
    requires 0xD800 <= hi <= 0xDBFF
    requires !JsonUtf8.Surrogate(JsonUtf8.PairValue(hi, CodeValue(y)) % 0x1_0000)
    ensures FeedAll(m, EscapeOf(y))
         == More(m.(mode := InStr(pb + Utf8(JsonUtf8.PairValue(hi, CodeValue(y))), '\"', Plain)))
  {
    hide RunFrom, FeedAll, Completed, Utf8, HexValue, HexChar, StrFeed, Step;
    NoNul(y);
    JsonUtf8.SecondReads(pb, '\"', hi, y.a, y.b, y.c, y.d, "");
    CompletedPair(pb, hi, CodeValue(y));
    JsonUtf8.InString(m, pb, '\"', HiPend(hi), EscapeOf(y));
  }

  /** An escaped surrogate pair is its code point when it arrives in one piece, and
      two replacement characters when a piece ends between its halves. */
  lemma CutPairDiffers(m: Machine, pb: string, x: Code, y: Code)
    requires m.mode == InStr(pb, '\"', Plain) && Spells(x) && Spells(y)
    requires 0xD800 <= CodeValue(x) <= 0xDBFF && 0xDC00 <= CodeValue(y) <= 0xDFFF
    requires !JsonUtf8.Surrogate(JsonUtf8.PairValue(CodeValue(x), CodeValue(y)) % 0x1_0000)
    ensures FeedAll(m, EscapeOf(x) + EscapeOf(y))
         == More(m.(mode := InStr(pb + Utf8(JsonUtf8.PairValue(CodeValue(x), CodeValue(y))), '\"', Plain)))
    ensures Run(m, EscapeOf(x)).Paused?
    ensures FeedAll(Run(m, EscapeOf(x)).m, EscapeOf(y))
         == More(m.(mode := InStr(pb + REPLACEMENT + REPLACEMENT, '\"', Plain)))
  {
    HighAlone(m, pb, x);
    FeedConcat(m, EscapeOf(x), EscapeOf(y));
    LowAfterHigh(m.(mode := InStr(pb, '\"', HiPend(CodeValue(x)))), pb, CodeValue(x), y);
    LowAlone(m.(mode := InStr(pb + REPLACEMENT, '\"', Plain)), pb + REPLACEMENT, y);
  }
}
