/**
  json_tokener as a machine that consumes one character at a time.  A machine state
  holds what json_tokener_parse_ex still needs of its fields: the containers being
  filled on the levels below, and the mode of the current level.  Modes named after
  a position inside a container or a value skip white space first (eatws).
*/
module JsonMachine {
  import opened Shared
  import opened JsonValue

  datatype Err =
    | TooDeep | Eof | Unexpected | NullExpected | BooleanExpected | NumberExpected
    | ArraySeparator | KeyName | KeySeparator | ValueSeparator | StringSequence
    | Outside  // comments, doubles, NaN and Infinity, or a torn surrogate escape

  datatype Word = WNull | WTrue | WFalse

  /** Inside a string: plain text, after a backslash, after \u and k digits worth
      acc (hi is a pending high surrogate or 0), after a complete high surrogate,
      after a high surrogate and a backslash, and the state left by a piece that
      ends between the two halves of a pair. */
  datatype Esc =
    | Plain
    | Back
    | Uni(k: nat, acc: nat, hi: nat)
    | HiPend(high: nat)
    | HiBack(high: nat)
    | Torn

  datatype Mode =
    | Start
    | Full(v: Json)
    | Lit(w: Word, n: nat)
    | Num(pb: string)
    | InStr(pb: string, quote: char, esc: Esc)
    | ArrOpen(es: seq<Json>)
    | ArrComma(es: seq<Json>)
    | ArrSep(es: seq<Json>)
    | ObjOpen(fs: seq<Field>)
    | ObjComma(fs: seq<Field>)
    | InKey(fs: seq<Field>, pb: string, quote: char, esc: Esc)
    | ObjColon(fs: seq<Field>, key: string)
    | ObjValue(fs: seq<Field>, key: string)
    | ObjSep(fs: seq<Field>)

  /** A container on a lower level that waits for the value being parsed. */
  datatype Frame = InArr(es: seq<Json>) | InObj(fs: seq<Field>, key: string)

  datatype Machine = Machine(maxDepth: nat, stack: seq<Frame>, mode: Mode)

  /** More: the character is consumed.  Value: a complete top-level value ends
      before the character.  Fail: the parse stops. */
  datatype Outcome = More(m: Machine) | Value(v: Json) | Fail(e: Err)

  function Init(maxDepth: nat): Machine { Machine(maxDepth, [], Start) }

  // ---- Characters ----------------------------------------------------------

  predicate Space(c: char) {
    c == ' ' || c == '\t' || c == '\n' || c == '\U{B}' || c == '\U{C}' || c == '\r'
  }

  predicate IsDigit(c: char) { '0' <= c <= '9' }

  /** json_number_chars. */
  predicate NumChar(c: char) {
    IsDigit(c) || c == '.' || c == '+' || c == '-' || c == 'e' || c == 'E'
  }

  predicate HexChar(c: char) { IsDigit(c) || 'a' <= c <= 'f' || 'A' <= c <= 'F' }

  function HexValue(c: char): (d: nat)
    requires HexChar(c)
    ensures d < 16
  {
    if c <= '9' then c as int - '0' as int else if c <= 'F' then c as int - 'A' as int + 10 else c as int - 'a' as int + 10
  }

  function Lower(c: char): char {
    if 'A' <= c <= 'Z' then (c as int + 32) as char else c
  }

  function Text(w: Word): string {
    match w case WNull => "null" case WTrue => "true" case WFalse => "false"
  }

  function WordValue(w: Word): Json {
    match w case WNull => Null case WTrue => Bool(true) case WFalse => Bool(false)
  }

  // ---- Numbers -------------------------------------------------------------

  predicate IsDouble(pb: string) {
    exists i :: 0 <= i < |pb| && (pb[i] == '.' || pb[i] == 'e' || pb[i] == 'E')
  }

  /** Length of the longest prefix of digits. */
  function DigitRun(pb: string): (k: nat)
    ensures k <= |pb|
  {
    if pb == "" || !IsDigit(pb[0]) then 0 else 1 + DigitRun(pb[1..])
  }

  function DigitValue(c: char): nat
    requires IsDigit(c)
  {
    c as int - '0' as int
  }

  function DigitsValue(pb: string): nat
    requires forall i :: 0 <= i < |pb| ==> IsDigit(pb[i])
  {
    if pb == "" then 0 else DigitsValue(pb[..|pb| - 1]) * 10 + DigitValue(pb[|pb| - 1])
  }

  lemma DigitRunAll(pb: string)
    ensures forall i :: 0 <= i < DigitRun(pb) ==> IsDigit(pb[i])
  {
  }

  function Clamp(i: int): int {
    if i < INT64_MIN then INT64_MIN else if i > INT64_MAX then INT64_MAX else i
  }

  /** json_parse_int64: an optional sign, then the longest run of digits, clamped. */
  function ParseInt64(pb: string): Option<int> {
    var signed := pb != "" && (pb[0] == '-' || pb[0] == '+');
    var body := if signed then pb[1..] else pb;
    var k := DigitRun(body);
    DigitRunAll(body);
    if k == 0 then None
    else
      var n: int := DigitsValue(body[..k]);
      Some(Clamp(if signed && pb[0] == '-' then -n else n))
  }

  // ---- String escapes ------------------------------------------------------

  predicate IsHigh(uc: nat) { uc % 0x10000 / 0x400 == 0x36 }   // (uc & 0xFC00) == 0xD800
  predicate IsLow(uc: nat) { uc % 0x10000 / 0x400 == 0x37 }    // (uc & 0xFC00) == 0xDC00

  function DecodePair(hi: nat, lo: nat): nat {
    hi % 0x400 * 0x400 + lo % 0x400 + 0x1_0000
  }

  /** A byte as a character. */
  function Byte(n: nat): char { (n % 256) as char }

  const REPLACEMENT: string := [Byte(0xEF), Byte(0xBF), Byte(0xBD)]

  /** The bytes the decoder appends for a code that is no surrogate. */
  function Utf8(uc: nat): string {
    if uc < 0x80 then [Byte(uc)]
    else if uc < 0x800 then [Byte(0xC0 + uc / 0x40), Byte(0x80 + uc % 0x40)]
    else if uc < 0x1_0000 then
      [Byte(0xE0 + uc / 0x1000), Byte(0x80 + uc / 0x40 % 0x40), Byte(0x80 + uc % 0x40)]
    else if uc < 0x11_0000 then
      [Byte(0xF0 + uc / 0x4_0000 % 8), Byte(0x80 + uc / 0x1000 % 0x40),
       Byte(0x80 + uc / 0x40 % 0x40), Byte(0x80 + uc % 0x40)]
    else REPLACEMENT
  }

  datatype StrOut = Cont(pb: string, esc: Esc) | Close(pb: string) | Bad

  /** The fourth hexadecimal digit is read: uc is the 16-bit code, hi the pending
      high surrogate or 0. */
  function Completed(pb: string, uc16: nat, hi: nat): StrOut {
    var uc := if hi != 0 && IsLow(uc16) then DecodePair(hi, uc16) else uc16;
    var pb1 := if hi != 0 && !IsLow(uc16) then pb + REPLACEMENT else pb;
    if uc >= 0x800 && IsHigh(uc) then Cont(pb1, HiPend(uc))
    else if uc >= 0x800 && IsLow(uc) then Cont(pb1 + REPLACEMENT, Plain)
    else Cont(pb1 + Utf8(uc), Plain)
  }

  function StrPlain(pb: string, quote: char, c: char): StrOut {
    if c == quote then Close(pb)
    else if c == '\\' then Cont(pb, Back)
    else Cont(pb + [c], Plain)
  }

  function StrBack(pb: string, c: char): StrOut {
    match c
    case '\"' => Cont(pb + [c], Plain)
    case '\\' => Cont(pb + [c], Plain)
    case '/' => Cont(pb + [c], Plain)
    case 'b' => Cont(pb + ['\U{8}'], Plain)
    case 'n' => Cont(pb + ['\n'], Plain)
    case 'r' => Cont(pb + ['\r'], Plain)
    case 't' => Cont(pb + ['\t'], Plain)
    case 'f' => Cont(pb + ['\U{C}'], Plain)
    case 'u' => Cont(pb, Uni(0, 0, 0))
    case _ => Bad
  }

  /** 1 << ((3 - k) * 4), the weight of hexadecimal digit k. */
  function DigitWeight(k: nat): nat {
    if k == 0 then 0x1000 else if k == 1 then 0x100 else if k == 2 then 0x10 else 1
  }

  function StrUni(pb: string, k: nat, acc: nat, hi: nat, c: char): StrOut {
    if !HexChar(c) || k > 3 then Bad
    else
      var acc1 := acc + HexValue(c) * DigitWeight(k);
      if k == 3 then Completed(pb, acc1, hi) else Cont(pb, Uni(k + 1, acc1, hi))
  }

  function StrFeed(pb: string, quote: char, esc: Esc, c: char): StrOut {
    match esc
    case Plain => StrPlain(pb, quote, c)
    case Back => StrBack(pb, c)
    case Uni(k, acc, hi) => StrUni(pb, k, acc, hi, c)
    case HiPend(hi) => if c == '\\' then Cont(pb, HiBack(hi)) else StrPlain(pb + REPLACEMENT, quote, c)
    case HiBack(hi) => if c == 'u' then Cont(pb, Uni(0, 0, hi)) else StrBack(pb + REPLACEMENT, c)
    case Torn => Bad
  }

  /** strdup stops at the first NUL. */
  function CStr(s: string): string {
    if s == "" || s[0] == '\0' then "" else [s[0]] + CStr(s[1..])
  }

  // ---- One character -------------------------------------------------------

  function Rank(mode: Mode): nat {
    match mode
    case ArrOpen(_) => 4
    case ArrComma(_) => 4
    case ObjValue(_, _) => 4
    case Start => 3
    case Num(_) => 2
    case Lit(_, _) => 2
    case Full(_) => 1
    case _ => 0
  }

  predicate Eats(mode: Mode) {
    !mode.Lit? && !mode.Num? && !mode.InStr? && !mode.InKey?
  }

  function StartChar(m: Machine, c: char): Outcome {
    if c == '{' then More(m.(mode := ObjOpen([])))
    else if c == '[' then More(m.(mode := ArrOpen([])))
    else if c == 'I' || c == 'i' then Fail(Outside)
    else if c == 'N' || c == 'n' then More(m.(mode := Lit(WNull, 1)))
    else if c == '\'' || c == '\"' then More(m.(mode := InStr("", c, Plain)))
    else if c == 'T' || c == 't' then More(m.(mode := Lit(WTrue, 1)))
    else if c == 'F' || c == 'f' then More(m.(mode := Lit(WFalse, 1)))
    else if IsDigit(c) || c == '-' then More(m.(mode := Num([c])))
    else Fail(Unexpected)
  }

  function Popped(m: Machine): Machine
    requires m.mode.Full? && m.stack != []
  {
    var top := |m.stack| - 1;
    var next := match m.stack[top]
      case InArr(es) => ArrSep(es + [m.mode.v])
      case InObj(fs, key) => ObjSep(AddField(fs, key, m.mode.v));
    m.(stack := m.stack[..top], mode := next)
  }

  /** The value of a finished number, or why it has none. */
  function NumEnd(pb: string, c: char): (r: Outcome)
    ensures r.Fail? || r.Value?
  {
    if pb != "" && pb[0] == '-' && (c == 'i' || c == 'I') then Fail(Outside)  // -Infinity
    else if IsDouble(pb) then Fail(Outside)
    else match ParseInt64(pb) case None => Fail(NumberExpected) case Some(i) => Value(Int(i))
  }

  function LitMiss(w: Word, n: nat, c: char): Err {
    if w == WNull && n == 1 && (c == 'a' || c == 'A') then Outside
    else if w == WNull then NullExpected else BooleanExpected
  }

  predicate Room(m: Machine) { |m.stack| + 1 < m.maxDepth }

  /** The transition for any character but NUL. */
  function Step(m: Machine, c: char): Outcome
    decreases Rank(m.mode)
  {
    if Eats(m.mode) && Space(c) then More(m)
    else if Eats(m.mode) && c == '/' then Fail(Outside)
    else match m.mode
    case Start => StartChar(m, c)
    case Full(v) => if m.stack == [] then Value(v) else Step(Popped(m), c)
    case Lit(w, n) =>
      if n < |Text(w)| then (if Lower(c) == Text(w)[n] then More(m.(mode := Lit(w, n + 1))) else Fail(LitMiss(w, n, c)))
      else Step(m.(mode := Full(WordValue(w))), c)
    case Num(pb) =>
      if NumChar(c) then More(m.(mode := Num(pb + [c])))
      else (match NumEnd(pb, c) case Fail(e) => Fail(e) case Value(v) => Step(m.(mode := Full(v)), c))
    case InStr(pb, quote, esc) =>
      (match StrFeed(pb, quote, esc, c)
       case Cont(pb1, esc1) => More(m.(mode := InStr(pb1, quote, esc1)))
       case Close(pb1) => More(m.(mode := Full(Str(pb1))))
       case Bad => Fail(if esc.Torn? && HexChar(c) then Outside else StringSequence))
    case ArrOpen(es) =>
      if c == ']' then More(m.(mode := Full(Arr(es))))
      else if Room(m) then Step(m.(stack := m.stack + [InArr(es)], mode := Start), c) else Fail(TooDeep)
    case ArrComma(es) =>
      if c == ']' then More(m.(mode := Full(Arr(es))))
      else if Room(m) then Step(m.(stack := m.stack + [InArr(es)], mode := Start), c) else Fail(TooDeep)
    case ArrSep(es) =>
      if c == ']' then More(m.(mode := Full(Arr(es))))
      else if c == ',' then More(m.(mode := ArrComma(es))) else Fail(ArraySeparator)
    case ObjOpen(fs) => FieldStart(m, fs, c)
    case ObjComma(fs) => FieldStart(m, fs, c)
    case InKey(fs, pb, quote, esc) =>
      (match StrFeed(pb, quote, esc, c)
       case Cont(pb1, esc1) => More(m.(mode := InKey(fs, pb1, quote, esc1)))
       case Close(pb1) => More(m.(mode := ObjColon(fs, CStr(pb1))))
       case Bad => Fail(if esc.Torn? && HexChar(c) then Outside else StringSequence))
    case ObjColon(fs, key) => if c == ':' then More(m.(mode := ObjValue(fs, key))) else Fail(KeySeparator)
    case ObjValue(fs, key) =>
      if Room(m) then Step(m.(stack := m.stack + [InObj(fs, key)], mode := Start), c) else Fail(TooDeep)
    case ObjSep(fs) =>
      if c == '}' then More(m.(mode := Full(Obj(fs))))
      else if c == ',' then More(m.(mode := ObjComma(fs))) else Fail(ValueSeparator)
  }

  function FieldStart(m: Machine, fs: seq<Field>, c: char): Outcome {
    if c == '}' then More(m.(mode := Full(Obj(fs))))
    else if c == '\"' || c == '\'' then More(m.(mode := InKey(fs, "", c, Plain)))
    else Fail(KeyName)
  }

  /** One character, NUL included: NUL ends the text, and whatever has not become
      a complete top-level value by then is cut short. */
  function Feed(m: Machine, c: char): Outcome {
    var o := Step(m, c);
    if c != '\0' || o.Value? || o == Fail(Outside) then o else Fail(Eof)
  }

  // ---- Texts ---------------------------------------------------------------

  /** Parsed: a value ends at offset `end`.  Paused: the piece is used up. */
  datatype Final = Parsed(v: Json, end: nat) | Failed(e: Err) | Paused(m: Machine)

  /** What a pending escape becomes when a piece ends inside it: the look-ahead for
      the second half of a surrogate pair cannot see the next piece. */
  function EndEsc(pb: string, esc: Esc): (string, Esc) {
    match esc
    case HiPend(_) => (pb + REPLACEMENT, Plain)
    case HiBack(_) => (pb + REPLACEMENT, Back)
    case Uni(k, acc, hi) => if hi == 0 then (pb, esc) else (pb + REPLACEMENT, if k == 0 then Torn else Uni(k, acc, 0))
    case _ => (pb, esc)
  }

  function EndPiece(m: Machine): Machine {
    match m.mode
    case InStr(pb, quote, esc) => m.(mode := InStr(EndEsc(pb, esc).0, quote, EndEsc(pb, esc).1))
    case InKey(fs, pb, quote, esc) => m.(mode := InKey(fs, EndEsc(pb, esc).0, quote, EndEsc(pb, esc).1))
    case _ => m
  }

  /** json_tokener_parse_ex on the rest of a piece, from offset i. */
  function RunFrom(m: Machine, s: string, i: nat): Final
    requires i <= |s|
    decreases |s| - i
  {
    if i == |s| then
      if m.mode.Full? && m.stack == [] then Parsed(m.mode.v, i) else Paused(EndPiece(m))
    else match Feed(m, s[i])
      case More(m1) => RunFrom(m1, s, i + 1)
      case Value(v) => Parsed(v, i)
      case Fail(e) => Failed(e)
  }

  /** json_tokener_parse_ex on a piece of text. */
  function Run(m: Machine, s: string): Final { RunFrom(m, s, 0) }

  /** json_tokener_parse_ex with len == -1 on a new tokener: the C string s. */
  function ParseText(maxDepth: nat, s: string): Final { Run(Init(maxDepth), s + ['\0']) }

  // ---- Sequences of characters ---------------------------------------------

  /** The machine after consuming a text. */
  function FeedAll(m: Machine, t: string): Outcome
    decreases |t|
  {
    if t == "" then More(m)
    else match Feed(m, t[0])
      case More(m1) => FeedAll(m1, t[1..])
      case Value(v) => Value(v)
      case Fail(e) => Fail(e)
  }

  function Then(o: Outcome, t: string): Outcome {
    match o case More(m) => FeedAll(m, t) case Value(v) => Value(v) case Fail(e) => Fail(e)
  }

  lemma {:induction false} FeedConcat(m: Machine, a: string, b: string)
    ensures FeedAll(m, a + b) == Then(FeedAll(m, a), b)
    decreases |a|
  {
    if a == "" {
      assert a + b == b;
    } else {
      assert (a + b)[1..] == a[1..] + b;
      match Feed(m, a[0]) {
        case More(m1) => FeedConcat(m1, a[1..], b);
        case _ =>
      }
    }
  }

  lemma FeedOne(m: Machine, c: char)
    ensures FeedAll(m, [c]) == Feed(m, c)
  {
    assert [c][1..] == "";
  }

  lemma FeedCons(m: Machine, c: char, t: string)
    ensures FeedAll(m, [c] + t) == Then(Feed(m, c), t)
  {
    assert ([c] + t)[1..] == t;
  }

  /** The runner sees the text one character at a time. */
  lemma {:induction false} RunFeeds(m: Machine, pre: string, t: string, post: string)
    ensures match FeedAll(m, t)
      case More(m1) => RunFrom(m, pre + t + post, |pre|) == RunFrom(m1, pre + t + post, |pre| + |t|)
      case Value(_) => RunFrom(m, pre + t + post, |pre|).Parsed?
      case Fail(e) => RunFrom(m, pre + t + post, |pre|) == Failed(e)
    decreases |t|
  {
    if t != "" {
      var s := pre + t + post;
      assert s[|pre|] == t[0];
      match Feed(m, t[0]) {
        case More(m1) =>
          assert s == (pre + [t[0]]) + t[1..] + post;
          RunFeeds(m1, pre + [t[0]], t[1..], post);
        case _ =>
      }
    }
  }
}
