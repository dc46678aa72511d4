/**
  Where a text may be cut.  The tokener looks ahead for the second half of an escaped
  surrogate pair and cannot see the next piece; this says exactly which cuts that spoils.
*/
module JsonCuts {
  import opened JsonValue
  import opened JsonMachine
  import JsonUtf8

  // ---- What a text leaves pending ---------------------------------------------

  /** The escape state after one more character; it does not depend on the buffer. */
  function EscAfter(esc: Esc, c: char): Esc {
    match StrFeed("", '\"', esc, c) case Cont(_, e) => e case _ => Plain
  }

  /** The escape state after a text.  A backslash occurs only inside strings, so the
      text alone tells it. */
  function Scan(esc: Esc, t: string): Esc
    decreases |t|
  {
    if t == "" then esc else Scan(EscAfter(esc, t[0]), t[1..])
  }

  lemma {:induction false} ScanConcat(esc: Esc, a: string, b: string)
    ensures Scan(esc, a + b) == Scan(Scan(esc, a), b)
    decreases |a|
  {
    if a == "" {
      assert a + b == b;
    } else {
      assert (a + b)[1..] == a[1..] + b;
      ScanConcat(EscAfter(esc, a[0]), a[1..], b);
    }
  }

  lemma ScanSnoc(esc: Esc, t: string, c: char)
    ensures Scan(esc, t + [c]) == EscAfter(Scan(esc, t), c)
  {
    ScanConcat(esc, t, [c]);
    assert [c][1..] == "";
  }

  function EscOf(mode: Mode): Esc {
    if mode.InStr? || mode.InKey? then mode.esc else Plain
  }

  /** Escape states and quotes that occur. */
  predicate EscSound(esc: Esc) {
    match esc
    case HiPend(h) => h != 0
    case HiBack(h) => h != 0
    case Uni(k, _, _) => k <= 3
    case _ => true
  }

  predicate Sound(m: Machine) {
    m.mode.InStr? || m.mode.InKey? ==> (m.mode.quote == '\"' || m.mode.quote == '\'') && EscSound(m.mode.esc)
  }

  /** A character outside strings leaves no escape pending, and is no backslash. */
  lemma {:induction false} PlainStep(m: Machine, c: char)
    requires !m.mode.InStr? && !m.mode.InKey? && Step(m, c).More?
    ensures EscOf(Step(m, c).m.mode) == Plain && Sound(Step(m, c).m) && c != '\\'
    decreases Rank(m.mode)
  {
    hide ParseInt64, IsDouble, CStr, AddField;
    if !(Eats(m.mode) && (Space(c) || c == '/')) {
      match m.mode {
        case Full(v) => if m.stack != [] { PlainStep(Popped(m), c); }
        case Lit(w, n) => if n >= |Text(w)| { PlainStep(m.(mode := Full(WordValue(w))), c); }
        case Num(pb) => if !NumChar(c) && NumEnd(pb, c).Value? { PlainStep(m.(mode := Full(NumEnd(pb, c).v)), c); }
        case ArrOpen(es) => if c != ']' && Room(m) { PlainStep(m.(stack := m.stack + [InArr(es)], mode := Start), c); }
        case ArrComma(es) => if c != ']' && Room(m) { PlainStep(m.(stack := m.stack + [InArr(es)], mode := Start), c); }
        case ObjValue(fs, key) => PlainStep(m.(stack := m.stack + [InObj(fs, key)], mode := Start), c);
        case _ =>
      }
    }
  }

  lemma EscAfterIs(pb: string, quote: char, esc: Esc, c: char)
    requires quote == '\"' || quote == '\''
    requires EscSound(esc)
    ensures var o := StrFeed(pb, quote, esc, c);
      && (o.Cont? ==> o.esc == EscAfter(esc, c) && EscSound(o.esc))
      && (o.Close? ==> EscAfter(esc, c) == Plain)
  {
  }

  lemma StepScans(m: Machine, c: char)
    requires Sound(m) && Feed(m, c).More?
    ensures Sound(Feed(m, c).m) && EscOf(Feed(m, c).m.mode) == EscAfter(EscOf(m.mode), c)
  {
    hide StrFeed, EscAfter, CStr;
    match m.mode {
      case InStr(pb, quote, esc) => EscAfterIs(pb, quote, esc, c);
      case InKey(_, pb, quote, esc) => EscAfterIs(pb, quote, esc, c);
      case _ =>
        PlainStep(m, c);
        PlainScan(c);
    }
  }

  lemma PlainScan(c: char)
    requires c != '\\'
    ensures EscAfter(Plain, c) == Plain
  {
  }

  /** The machine remembers of a text what the text alone tells. */
  lemma {:induction false} MachineScans(m: Machine, t: string)
    requires Sound(m) && FeedAll(m, t).More?
    ensures Sound(FeedAll(m, t).m) && EscOf(FeedAll(m, t).m.mode) == Scan(EscOf(m.mode), t)
    decreases |t|
  {
    hide Feed, EscAfter;
    if t != "" {
      StepScans(m, t[0]);
      MachineScans(Feed(m, t[0]).m, t[1..]);
    }
  }

  // ---- Which cuts matter --------------------------------------------------------

  /** A first half is pending, and the rest completes the second half - or ends right
      behind its "\u", where the end of the text is itself such a cut. */
  predicate Completes(esc: Esc, rest: string)
    decreases |rest|
  {
    match esc
    case HiPend(h) => rest != "" && rest[0] == '\\' && Completes(HiBack(h), rest[1..])
    case HiBack(h) => rest != "" && rest[0] == 'u' && Completes(Uni(0, 0, h), rest[1..])
    case Uni(k, acc, h) =>
      && h != 0 && k <= 3
      && if rest == "" then k == 0
         else
           && HexChar(rest[0])
           && var acc1 := acc + HexValue(rest[0]) * DigitWeight(k);
              if k == 3 then IsLow(acc1) else Completes(Uni(k + 1, acc1, h), rest[1..])
    case _ => false
  }

  /** A cut with this escape state in front of it and this text behind it spoils a pair.
      Right behind the "\u" the next digit fails whatever the code is. */
  predicate Breaks(esc: Esc, rest: string) {
    if esc.Uni? && esc.k == 0 && esc.hi != 0 then rest != "" && HexChar(rest[0]) else Completes(esc, rest)
  }

  /** Offset k of a text is such a cut. */
  predicate Splits(t: string, k: nat)
    requires k <= |t|
  {
    Breaks(Scan(Plain, t[..k]), t[k..])
  }

  // ---- What a cut does -----------------------------------------------------------

  /** How many characters behind the cut decide. */
  function Window(esc: Esc): nat {
    match esc
    case HiPend(_) => 6
    case HiBack(_) => 5
    case Uni(k, _, hi) => if hi == 0 || k > 3 then 0 else 4 - k
    case _ => 0
  }

  function CutWindow(esc: Esc): nat { if esc.Uni? && esc.k == 0 && esc.hi != 0 then 1 else Window(esc) }

  /** What a piece that ends here leaves. */
  function Ended(o: Outcome): Outcome { if o.More? then More(EndPiece(o.m)) else o }

  /** Machine w went on and machine p was cut: after d characters, or at the end of a
      shorter text, they are the same. */
  predicate Together(w: Machine, p: Machine, rest: string, d: nat) {
    if |rest| <= d then Ended(FeedAll(w, rest)) == Ended(FeedAll(p, rest))
    else FeedAll(w, rest[..d]) == FeedAll(p, rest[..d])
  }

  lemma TogetherFirst(w: Machine, p: Machine, rest: string, d: nat)
    requires rest != "" && 0 < d
    ensures match (Feed(w, rest[0]), Feed(p, rest[0]))
      case (More(w1), More(p1)) => Together(w, p, rest, d) <==> Together(w1, p1, rest[1..], d - 1)
      case (a, b) => a == b ==> Together(w, p, rest, d)
  {
    hide Feed;
    if |rest| > d {
      assert rest[..d][1..] == rest[1..][..d - 1];
      assert rest[..d][0] == rest[0];
    }
  }

  lemma TogetherSame(w: Machine, rest: string, d: nat)
    ensures Together(w, w, rest, d)
  {
  }

  /** Inside a string, with any buffer and escape state. */
  predicate InText(m: Machine) {
    (m.mode.InStr? || m.mode.InKey?) && (m.mode.quote == '\"' || m.mode.quote == '\'')
  }

  function WithText(m: Machine, pb: string, esc: Esc): Machine
    requires InText(m)
  {
    if m.mode.InStr? then m.(mode := InStr(pb, m.mode.quote, esc)) else m.(mode := InKey(m.mode.fs, pb, m.mode.quote, esc))
  }

  /** What the string decoder's answer means for the machine. */
  function TextOutcome(m: Machine, o: StrOut, torn: bool, c: char): Outcome
    requires InText(m)
  {
    match o
    case Cont(pb, esc) => if c == '\0' then Fail(Eof) else More(WithText(m, pb, esc))
    case Close(pb) =>
      if c == '\0' then Fail(Eof)
      else More(m.(mode := if m.mode.InStr? then Full(Str(pb)) else ObjColon(m.mode.fs, CStr(pb))))
    case Bad => if torn && HexChar(c) then Fail(Outside) else Fail(if c == '\0' then Eof else StringSequence)
  }

  lemma TextFeed(m: Machine, pb: string, esc: Esc, c: char)
    requires InText(m)
    ensures Feed(WithText(m, pb, esc), c) == TextOutcome(m, StrFeed(pb, m.mode.quote, esc, c), esc.Torn?, c)
  {
    hide StrFeed, CStr;
  }

  /** The machine that was cut has given up the first half: its buffer already holds the
      replacement character. */
  ghost predicate GivenUp(we: Esc, pe: Esc) {
    match we
    case HiPend(h) => h != 0 && pe == Plain
    case HiBack(h) => h != 0 && pe == Back
    case Uni(k, acc, h) => h != 0 && k <= 3 && pe == Uni(k, acc, 0)
    case _ => false
  }

  /** The fourth digit of the second half, where the first half was kept and where it was
      given up: they meet unless the half is completed. */
  lemma LastDigit(pb: string, uc: nat, h: nat)
    requires h != 0
    ensures var w, p := Completed(pb, uc, h), Completed(pb + REPLACEMENT, uc, 0);
      if IsLow(uc) then w.Cont? && (w.esc == Plain || w.esc.HiPend?) && |EndEsc(w.pb, w.esc).0| < |pb| + 6
        && |w.pb| < |pb| + 6 && p == Cont(pb + REPLACEMENT + REPLACEMENT, Plain)
      else w == p
  {
    if IsLow(uc) {
      ShortBytes(DecodePair(h, uc));
      hide Utf8;
    } else {
      hide Utf8, DecodePair;
    }
  }

  lemma ShortBytes(uc: nat)
    ensures |Utf8(uc)| <= 4
  {
  }

  /** One character at both machines: they meet, or the first half stays given up, or it
      is completed at one of them only. */
  lemma GivenUpStep(pb: string, quote: char, we: Esc, pe: Esc, c: char)
    requires GivenUp(we, pe) && (quote == '\"' || quote == '\'')
    ensures var w, p := StrFeed(pb, quote, we, c), StrFeed(pb + REPLACEMENT, quote, pe, c);
      if we.HiPend? && c == '\\' then w == Cont(pb, HiBack(we.high)) && p == Cont(pb + REPLACEMENT, Back)
      else if we.HiBack? && c == 'u' then w == Cont(pb, Uni(0, 0, we.high)) && p == Cont(pb + REPLACEMENT, Uni(0, 0, 0))
      else if we.Uni? && HexChar(c) then
        var acc1 := we.acc + HexValue(c) * DigitWeight(we.k);
        if we.k < 3 then w == Cont(pb, Uni(we.k + 1, acc1, we.hi)) && p == Cont(pb + REPLACEMENT, Uni(we.k + 1, acc1, 0))
        else w == Completed(pb, acc1, we.hi) && p == Completed(pb + REPLACEMENT, acc1, 0)
      else w == p
  {
    hide Completed, Utf8, HexValue;
  }

  /** Where the last digit has been read they are the same or never meet. */
  lemma LastMeets(m: Machine, pb: string, uc: nat, h: nat, rest: string)
    requires InText(m) && h != 0
    ensures var w, p := Completed(pb, uc, h), Completed(pb + REPLACEMENT, uc, 0);
      && w.Cont? && p.Cont?
      && (Together(WithText(m, w.pb, w.esc), WithText(m, p.pb, p.esc), rest, 0) <==> !IsLow(uc))
  {
    LastDigit(pb, uc, h);
    hide IsLow, IsHigh, DecodePair, Utf8;
  }

  /** What was given up is missed exactly if the rest completes it. */
  lemma {:induction false} GivenUpMeets(m: Machine, pb: string, we: Esc, pe: Esc, rest: string)
    requires InText(m) && GivenUp(we, pe)
    ensures Together(WithText(m, pb, we), WithText(m, pb + REPLACEMENT, pe), rest, Window(we)) <==> !Completes(we, rest)
    decreases |rest|
  {
    hide Feed, StrFeed, Completed, HexValue, IsLow;
    if rest != "" {
      var c, q := rest[0], m.mode.quote;
      TogetherFirst(WithText(m, pb, we), WithText(m, pb + REPLACEMENT, pe), rest, Window(we));
      TextFeed(m, pb, we, c);
      TextFeed(m, pb + REPLACEMENT, pe, c);
      GivenUpStep(pb, q, we, pe, c);
      if we.HiPend? && c == '\\' {
        GivenUpMeets(m, pb, HiBack(we.high), Back, rest[1..]);
      } else if we.HiBack? && c == 'u' {
        GivenUpMeets(m, pb, Uni(0, 0, we.high), Uni(0, 0, 0), rest[1..]);
      } else if we.Uni? && HexChar(c) {
        var acc1 := we.acc + HexValue(c) * DigitWeight(we.k);
        if we.k < 3 {
          GivenUpMeets(m, pb, Uni(we.k + 1, acc1, we.hi), Uni(we.k + 1, acc1, 0), rest[1..]);
        } else {
          LastMeets(m, pb, acc1, we.hi, rest[1..]);
        }
      }
    }
  }

  lemma GivenUpExact(m: Machine, rest: string)
    requires InText(m) && GivenUp(EscOf(m.mode), EndEsc(m.mode.pb, EscOf(m.mode)).1)
    ensures Together(m, EndPiece(m), rest, Window(EscOf(m.mode))) <==> !Completes(EscOf(m.mode), rest)
  {
    hide Together, Completes, Window;
    var pb, esc := m.mode.pb, EscOf(m.mode);
    assert m == WithText(m, pb, esc);
    assert EndPiece(m) == WithText(m, pb + REPLACEMENT, EndEsc(pb, esc).1);
    GivenUpMeets(m, pb, esc, EndEsc(pb, esc).1, rest);
  }

  /** Right behind "\u" the piece fails at the next digit. */
  lemma TornExact(m: Machine, rest: string)
    requires InText(m) && EscOf(m.mode).Uni? && EscOf(m.mode).k == 0 && EscOf(m.mode).hi != 0
    ensures Together(m, EndPiece(m), rest, 1) <==> !(rest != "" && HexChar(rest[0]))
  {
    hide Feed, HexChar, HexValue;
    if rest != "" {
      var pb, esc := m.mode.pb, EscOf(m.mode);
      TogetherFirst(m, EndPiece(m), rest, 1);
      assert m == WithText(m, pb, esc);
      assert EndPiece(m) == WithText(m, pb + REPLACEMENT, Torn);
      TextFeed(m, pb, esc, rest[0]);
      TextFeed(m, pb + REPLACEMENT, Torn, rest[0]);
      NulIsNoDigit();
      if !HexChar(rest[0]) { TogetherEnds(m, EndPiece(m), rest); } else { TogetherParts(m, EndPiece(m), rest); }
    }
  }

  lemma NulIsNoDigit()
    ensures !HexChar('\0')
  {
  }

  lemma TogetherParts(w: Machine, p: Machine, rest: string)
    requires rest != "" && Feed(w, rest[0]).More? && Feed(p, rest[0]).Fail?
    ensures !Together(w, p, rest, 1)
  {
    hide Feed;
    FeedOne(w, rest[0]);
    FeedOne(p, rest[0]);
    assert |rest| == 1 ==> rest == [rest[0]];
    assert rest[..1] == [rest[0]];
  }

  lemma TogetherEnds(w: Machine, p: Machine, rest: string)
    requires rest != "" && Feed(w, rest[0]) == Feed(p, rest[0]) && Feed(p, rest[0]).Fail?
    ensures Together(w, p, rest, 1)
  {
    hide Feed;
    TogetherFirst(w, p, rest, 1);
  }

  /** A piece that ends behind text a is continued as if it had not ended - same state, same
      value or same error once the characters that decide are read, and the same state to go
      on from if the text ends before - exactly if the cut spoils no pair. */
  lemma CutExact(m: Machine, a: string, b: string)
    requires Sound(m) && FeedAll(m, a).More?
    ensures var m1, esc := FeedAll(m, a).m, Scan(EscOf(m.mode), a);
      Together(m1, EndPiece(m1), b, CutWindow(esc)) <==> !Breaks(esc, b)
  {
    hide FeedAll, Scan, Together;
    MachineScans(m, a);
    var m1, esc := FeedAll(m, a).m, Scan(EscOf(m.mode), a);
    if EndPiece(m1) == m1 {
      TogetherSame(m1, b, CutWindow(esc));
      KeptBreaksNothing(m1, b);
    } else if esc.Uni? && esc.k == 0 {
      TornExact(m1, b);
    } else {
      GivenUpExact(m1, b);
    }
  }

  lemma KeptBreaksNothing(m: Machine, b: string)
    requires EndPiece(m) == m
    ensures !Breaks(EscOf(m.mode), b)
  {
    if m.mode.InStr? || m.mode.InKey? {
      assert |EndEsc(m.mode.pb, m.mode.esc).0| == |m.mode.pb|;
    }
  }

  // ---- The same condition, on the text -------------------------------------------

  /** The text goes on with an escape \uDC00 - \uDFFF, or ends behind its "\u". */
  predicate SecondHalf(u: string) {
    || u == ['\\', 'u']
    || (|u| >= 6 && u[0] == '\\' && u[1] == 'u' && HexChar(u[2]) && HexChar(u[3]) && HexChar(u[4]) && HexChar(u[5])
        && 0xDC00 <= JsonUtf8.HexCode(u[2], u[3], u[4], u[5]) <= 0xDFFF)
  }

  lemma {:induction false} ScanSound(esc: Esc, t: string)
    requires EscSound(esc)
    ensures EscSound(Scan(esc, t))
    decreases |t|
  {
    hide EscAfter;
    if t != "" {
      ScanSoundStep(esc, t[0]);
      ScanSound(EscAfter(esc, t[0]), t[1..]);
    }
  }

  lemma ScanSoundStep(esc: Esc, c: char)
    requires EscSound(esc)
    ensures EscSound(EscAfter(esc, c))
  {
    EscAfterIs("", '\"', esc, c);
  }

  /** Digit k of the second half. */
  lemma CompletesDigit(k: nat, acc: nat, h: nat, u: string)
    requires h != 0 && k < 3 && u != ""
    ensures Completes(Uni(k, acc, h), u) <==>
      (HexChar(u[0]) && Completes(Uni(k + 1, acc + HexValue(u[0]) * DigitWeight(k), h), u[1..]))
  {
  }

  lemma CompletesDigits(h: nat, u: string)
    requires h != 0
    ensures Completes(Uni(0, 0, h), u) <==>
      u == "" || (|u| >= 4 && HexChar(u[0]) && HexChar(u[1]) && HexChar(u[2]) && HexChar(u[3])
                  && 0xDC00 <= JsonUtf8.HexCode(u[0], u[1], u[2], u[3]) <= 0xDFFF)
  {
    hide HexChar, HexValue, IsLow;
    if u != "" && HexChar(u[0]) {
      var acc1 := HexValue(u[0]) * 0x1000;
      CompletesDigit(0, 0, h, u);
      if |u| > 1 && HexChar(u[1]) {
        var acc2 := acc1 + HexValue(u[1]) * 0x100;
        CompletesDigit(1, acc1, h, u[1..]);
        if |u| > 2 && HexChar(u[2]) {
          var acc3 := acc2 + HexValue(u[2]) * 0x10;
          CompletesDigit(2, acc2, h, u[2..]);
          assert u[2..][1..] == u[3..];
          if |u| > 3 && HexChar(u[3]) {
            assert JsonUtf8.HexCode(u[0], u[1], u[2], u[3]) == acc3 + HexValue(u[3]);
            JsonUtf8.SurrogateBits(acc3 + HexValue(u[3]));
          }
        }
      }
    }
  }

  /** What completes a first half. */
  lemma CompletesMeans(h: nat, u: string)
    requires h != 0
    ensures Completes(HiPend(h), u) <==> SecondHalf(u)
  {
    hide HexChar, HexValue, IsLow;
    if |u| >= 2 && u[0] == '\\' && u[1] == 'u' {
      assert u[1..][1..] == u[2..];
      CompletesDigits(h, u[2..]);
      assert u[2..] == "" <==> u == ['\\', 'u'];
    }
  }

  /** At offset e of the text a first half is waiting for its second half. */
  predicate HalfPending(t: string, e: nat) { e <= |t| && Scan(Plain, t[..e]).HiPend? }

  /** Offset k lies behind a first half and in front of the last character of its second
      half.  Behind the "\u" any digit that follows is spoiled. */
  ghost predicate InsidePair(t: string, k: nat)
    requires k <= |t|
  {
    exists e: nat :: HalfPending(t, e) && e <= k < e + 6
      && if k == e + 2 then t[e] == '\\' && t[e + 1] == 'u' && k < |t| && HexChar(t[k]) else SecondHalf(t[e..])
  }

  lemma StepBack(esc: Esc, c: char, rest: string)
    requires EscSound(esc) && 0 < Window(EscAfter(esc, c)) < 6
    ensures Window(esc) == Window(EscAfter(esc, c)) + 1
    ensures Completes(esc, [c] + rest) <==> Completes(EscAfter(esc, c), rest)
    ensures Window(esc) == 6 ==> c == '\\'
    ensures Window(esc) == 5 ==> c == 'u'
  {
    hide Utf8, DecodePair, HexValue, IsHigh, IsLow;
    assert ([c] + rest)[1..] == rest;
  }

  lemma StepForward(esc: Esc, c: char, rest: string)
    requires EscSound(esc) && Completes(esc, [c] + rest) && Window(esc) >= 2
    ensures Window(EscAfter(esc, c)) == Window(esc) - 1 && Completes(EscAfter(esc, c), rest)
  {
    hide Utf8, DecodePair, HexValue, IsHigh, IsLow;
    assert ([c] + rest)[1..] == rest;
  }

  /** The text up to k + 1 is the text up to k and one character. */
  lemma Onward(t: string, k: nat)
    requires k < |t|
    ensures Scan(Plain, t[..k + 1]) == EscAfter(Scan(Plain, t[..k]), t[k]) && EscSound(Scan(Plain, t[..k]))
    ensures t[k..] == [t[k]] + t[k + 1..]
  {
    hide EscAfter;
    assert t[..k + 1] == t[..k] + [t[k]];
    ScanSnoc(Plain, t[..k], t[k]);
    ScanSound(Plain, t[..k]);
  }

  lemma {:induction false} BackToHalf(t: string, k: nat) returns (e: nat)
    requires k <= |t| && Window(Scan(Plain, t[..k])) > 0
    ensures e + 6 == k + Window(Scan(Plain, t[..k])) && HalfPending(t, e)
    ensures Completes(Scan(Plain, t[..k]), t[k..]) <==> Completes(Scan(Plain, t[..e]), t[e..])
    ensures k > e ==> t[e] == '\\'
    ensures k > e + 1 ==> t[e + 1] == 'u'
    decreases k
  {
    hide EscAfter, Completes, Scan;
    if Window(Scan(Plain, t[..k])) == 6 {
      e := k;
    } else {
      StartsPlain(t);
      Onward(t, k - 1);
      StepBack(Scan(Plain, t[..k - 1]), t[k - 1], t[k..]);
      e := BackToHalf(t, k - 1);
    }
  }

  lemma StartsPlain(t: string)
    ensures Scan(Plain, t[..0]) == Plain
  {
  }

  lemma {:induction false} ForwardFromHalf(t: string, e: nat, k: nat)
    requires HalfPending(t, e) && e <= k <= |t| && k < e + 6 && Completes(Scan(Plain, t[..e]), t[e..])
    ensures Window(Scan(Plain, t[..k])) == 6 - (k - e) && Completes(Scan(Plain, t[..k]), t[k..])
    decreases k
  {
    hide EscAfter, Completes, Scan;
    if k > e {
      ForwardFromHalf(t, e, k - 1);
      Onward(t, k - 1);
      StepForward(Scan(Plain, t[..k - 1]), t[k - 1], t[k..]);
    }
  }

  lemma BehindU(t: string, e: nat)
    requires HalfPending(t, e) && e + 2 <= |t| && t[e] == '\\' && t[e + 1] == 'u'
    ensures Scan(Plain, t[..e + 2]) == Uni(0, 0, Scan(Plain, t[..e]).high)
  {
    hide Scan;
    Onward(t, e);
    Onward(t, e + 1);
  }

  lemma HalfSound(t: string, e: nat)
    requires HalfPending(t, e)
    ensures Scan(Plain, t[..e]).high != 0
  {
    hide Scan;
    ScanSound(Plain, t[..e]);
  }

  /** The cuts that matter are the offsets inside a pair. */
  lemma SplitsInside(t: string, k: nat)
    requires k <= |t|
    ensures Splits(t, k) <==> InsidePair(t, k)
  {
    hide Scan, EscAfter, SecondHalf, HexChar;
    var esc := Scan(Plain, t[..k]);
    if Splits(t, k) {
      var e := BackToHalf(t, k);
      HalfSound(t, e);
      CompletesMeans(Scan(Plain, t[..e]).high, t[e..]);
      assert HalfPending(t, e);
    }
    if InsidePair(t, k) {
      var e: nat :| HalfPending(t, e) && e <= k < e + 6
        && if k == e + 2 then t[e] == '\\' && t[e + 1] == 'u' && k < |t| && HexChar(t[k]) else SecondHalf(t[e..]);
      HalfSound(t, e);
      if k == e + 2 {
        BehindU(t, e);
      } else {
        CompletesMeans(Scan(Plain, t[..e]).high, t[e..]);
        ForwardFromHalf(t, e, k);
      }
    }
  }

  /** k hexadecimal digits from offset n on. */
  predicate DigitsAt(t: string, n: nat, k: nat) {
    n + k <= |t| && forall i: nat :: n <= i < n + k ==> HexChar(t[i])
  }

  function CodeAt(t: string, n: nat, k: nat): nat
    requires DigitsAt(t, n, k)
  {
    if k == 0 then 0 else CodeAt(t, n, k - 1) + HexValue(t[n + k - 1]) * DigitWeight(k - 1)
  }

  lemma FourCode(t: string, n: nat)
    requires DigitsAt(t, n, 4)
    ensures CodeAt(t, n, 4) == JsonUtf8.HexCode(t[n], t[n + 1], t[n + 2], t[n + 3])
  {
    hide HexChar, HexValue;
    assert CodeAt(t, n, 2) == HexValue(t[n]) * 0x1000 + HexValue(t[n + 1]) * 0x100 by { assert CodeAt(t, n, 0) == 0; }
    assert CodeAt(t, n, 3) == CodeAt(t, n, 2) + HexValue(t[n + 2]) * 0x10;
  }

  /** A code, with the half pending before it or 0, that leaves a first half pending. */
  predicate CompletesHalf(uc: nat, hi: nat) {
    if hi != 0 && IsLow(uc) then IsHigh(DecodePair(hi, uc)) else IsHigh(uc)
  }

  /** A first half ends at offset e: \uD800 - \uDBFF is spelled out there, or a second half
      whose code point with the half before it reads as a first half once more. */
  predicate HalfSpelled(t: string, e: nat) {
    && 6 <= e <= |t| && t[e - 6] == '\\' && t[e - 5] == 'u' && DigitsAt(t, e - 4, 4)
    && var before, uc := Scan(Plain, t[..e - 6]), CodeAt(t, e - 4, 4);
       && (before == Plain || before.HiPend?) && CompletesHalf(uc, if before.HiPend? then before.high else 0)
  }

  lemma BeforeUni(esc: Esc, c: char, k: nat, acc: nat, hi: nat)
    requires EscSound(esc) && EscAfter(esc, c) == Uni(k, acc, hi)
    ensures if k == 0 then c == 'u' && acc == 0 && ((esc == Back && hi == 0) || (esc == HiBack(hi) && hi != 0))
            else k <= 3 && HexChar(c) && esc.Uni? && esc.k == k - 1 && esc.hi == hi && acc == esc.acc + HexValue(c) * DigitWeight(k - 1)
  {
    hide Utf8, DecodePair, HexValue, IsHigh, IsLow;
  }

  lemma BeforeBack(esc: Esc, c: char)
    requires EscSound(esc) && (EscAfter(esc, c).Back? || EscAfter(esc, c).HiBack?)
    ensures c == '\\'
    ensures esc == if EscAfter(esc, c).Back? then Plain else HiPend(EscAfter(esc, c).high)
  {
    hide Utf8, DecodePair, HexValue, IsHigh, IsLow;
  }

  lemma {:induction false} BackToEscape(t: string, p: nat, k: nat, acc: nat, hi: nat)
    requires p <= |t| && Scan(Plain, t[..p]) == Uni(k, acc, hi)
    ensures k <= 3 && k + 2 <= p && t[p - k - 2] == '\\' && t[p - k - 1] == 'u'
    ensures DigitsAt(t, p - k, k) && acc == CodeAt(t, p - k, k)
    ensures Scan(Plain, t[..p - k - 2]) == if hi == 0 then Plain else HiPend(hi)
    decreases k
  {
    hide EscAfter, Scan, HexValue, HexChar, DigitWeight;
    StartsPlain(t);
    Onward(t, p - 1);
    var esc := Scan(Plain, t[..p - 1]);
    BeforeUni(esc, t[p - 1], k, acc, hi);
    if k == 0 {
      Onward(t, p - 2);
      BeforeBack(Scan(Plain, t[..p - 2]), t[p - 2]);
    } else {
      BackToEscape(t, p - 1, k - 1, esc.acc, hi);
    }
  }

  lemma BeforeHalf(esc: Esc, c: char)
    requires EscSound(esc) && EscAfter(esc, c).HiPend?
    ensures esc.Uni? && esc.k == 3 && HexChar(c)
    ensures CompletesHalf(esc.acc + HexValue(c), esc.hi)
  {
    hide Utf8, DecodePair, HexValue, IsHigh, IsLow;
  }

  lemma HalfIsSpelled(t: string, e: nat)
    requires HalfPending(t, e)
    ensures HalfSpelled(t, e)
  {
    hide EscAfter, Scan, HexValue, HexChar, IsHigh, IsLow, DecodePair;
    StartsPlain(t);
    Onward(t, e - 1);
    var esc := Scan(Plain, t[..e - 1]);
    BeforeHalf(esc, t[e - 1]);
    BackToEscape(t, e - 1, 3, esc.acc, esc.hi);
    if esc.hi != 0 { assert Scan(Plain, t[..e - 6]).HiPend?; }
  }

  lemma {:induction false} OnToDigits(t: string, n: nat, k: nat, hi: nat)
    requires n <= |t| && DigitsAt(t, n, k) && k <= 3 && Scan(Plain, t[..n]) == Uni(0, 0, hi)
    ensures Scan(Plain, t[..n + k]) == Uni(k, CodeAt(t, n, k), hi)
    decreases k
  {
    hide Scan, HexValue, HexChar;
    if k > 0 {
      OnToDigits(t, n, k - 1, hi);
      Onward(t, n + k - 1);
    }
  }

  lemma OnToHalf(acc: nat, hi: nat, c: char)
    requires HexChar(c) && CompletesHalf(acc + HexValue(c), hi)
    ensures EscAfter(Uni(3, acc, hi), c).HiPend?
  {
    hide Utf8, HexValue;
  }

  lemma SpelledIsHalf(t: string, e: nat)
    requires HalfSpelled(t, e)
    ensures HalfPending(t, e)
  {
    hide Scan, HexValue, HexChar, CompletesHalf, IsLow, IsHigh;
    Onward(t, e - 6);
    Onward(t, e - 5);
    var before := Scan(Plain, t[..e - 6]);
    var hi := if before.HiPend? then before.high else 0;
    OnToDigits(t, e - 4, 3, hi);
    Onward(t, e - 1);
    OnToHalf(CodeAt(t, e - 4, 3), hi, t[e - 1]);
  }

  /** Which texts leave a first half pending. */
  lemma HalfMeans(t: string, e: nat)
    ensures HalfPending(t, e) <==> HalfSpelled(t, e)
  {
    if HalfPending(t, e) { HalfIsSpelled(t, e); }
    if HalfSpelled(t, e) { SpelledIsHalf(t, e); }
  }

  /** The same for a new tokener and a text that is cut at offset k. */
  lemma OneCut(maxDepth: nat, t: string, k: nat)
    requires k <= |t| && FeedAll(Init(maxDepth), t[..k]).More?
    ensures var m1 := FeedAll(Init(maxDepth), t[..k]).m;
      Together(m1, EndPiece(m1), t[k..], CutWindow(Scan(Plain, t[..k]))) <==> !InsidePair(t, k)
  {
    hide FeedAll, Scan, Together, InsidePair;
    CutExact(Init(maxDepth), t[..k], t[k..]);
    SplitsInside(t, k);
  }
}
