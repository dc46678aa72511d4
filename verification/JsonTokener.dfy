/**
  The tokener as json-c writes it: an explicit stack of levels, a print buffer, a
  state per level, and loops that run over white space, strings and numbers without
  returning to the main loop.  ParseEx is proved to do what the one-character machine
  of JsonMachine does.
*/
module JsonTokener {
  import opened Shared
  import opened JsonValue
  import opened JsonMachine

  datatype TokState =
    | EatWs | StStart | Finish | InNull | InBoolean | InNumber
    | InString | StringEscape | EscapeUnicode
    | Array | ArrayAfterSep | ArrayAdd | ArraySep
    | FieldOpen | FieldOpenAfterSep | FieldName | FieldEnd | FieldValue | ValueAdd | ObjectSep

  /** One level: json_tokener_srec. */
  datatype Level = Level(state: TokState, saved: TokState, current: Json, fieldName: string)

  datatype TokErr = Success | Continue | Error(e: Err)

  /** What follows a case of the switch: goto redo_char, break, goto out. */
  datatype Act = Redo | Next | Out

  const FRESH_LEVEL: Level := Level(EatWs, StStart, Null, "")

  function Elems(v: Json): seq<Json> { if v.Arr? then v.es else [] }
  function Fields(v: Json): seq<Field> { if v.Obj? then v.fs else [] }

  /** The state that decides: eatws only postpones the saved one. */
  function Effective(t: Level): TokState { if t.state == EatWs then t.saved else t.state }

  // ---- Abstraction ---------------------------------------------------------

  function FrameOf(t: Level): Frame {
    if t.state == ArrayAdd then InArr(Elems(t.current)) else InObj(Fields(t.current), t.fieldName)
  }

  function Frames(levels: seq<Level>): (r: seq<Frame>)
    ensures |r| == |levels|
  {
    seq(|levels|, i requires 0 <= i < |levels| => FrameOf(levels[i]))
  }

  /** The scratch fields of the tokener. */
  datatype Scratch = Scratch(pb: string, stPos: nat, ucs: nat, quote: char, isDouble: bool)

  function BoolWord(pb: string): Word {
    if pb != "" && Lower(pb[0]) == 't' then WTrue else WFalse
  }

  function StrMode(t: Level, field: bool, x: Scratch, esc: Esc): Mode {
    if field then InKey(Fields(t.current), x.pb, x.quote, esc) else InStr(x.pb, x.quote, esc)
  }

  /** The abstract mode of the top level; obj is the value a finished level left. */
  function ModeOf(t: Level, x: Scratch, obj: Json): Mode {
    match Effective(t)
    case StStart => Start
    case Finish => Full(t.current)
    case InNull => if x.stPos == 0 then Start else Lit(WNull, x.stPos)
    case InBoolean => if x.stPos == 0 then Start else Lit(BoolWord(x.pb), x.stPos)
    case InNumber => if x.pb == "" then Start else Num(x.pb)
    case InString => StrMode(t, false, x, Plain)
    case FieldName => StrMode(t, true, x, Plain)
    case StringEscape => StrMode(t, t.saved == FieldName, x, Back)
    case EscapeUnicode => StrMode(t, t.saved == FieldName, x, if x.stPos >= 4 then Torn else Uni(x.stPos, x.ucs, 0))
    case Array => ArrOpen(Elems(t.current))
    case ArrayAfterSep => ArrComma(Elems(t.current))
    case ArraySep => ArrSep(Elems(t.current))
    case ArrayAdd => ArrSep(Elems(t.current) + [obj])
    case FieldOpen => ObjOpen(Fields(t.current))
    case FieldOpenAfterSep => ObjComma(Fields(t.current))
    case FieldEnd => ObjColon(Fields(t.current), t.fieldName)
    case FieldValue => ObjValue(Fields(t.current), t.fieldName)
    case ValueAdd => ObjSep(AddField(Fields(t.current), t.fieldName, obj))
    case ObjectSep => ObjSep(Fields(t.current))
    case EatWs => Start
  }

  predicate InArray(k: TokState) { k == Array || k == ArrayAfterSep || k == ArrayAdd || k == ArraySep }

  predicate InObject(k: TokState) {
    k == FieldOpen || k == FieldOpenAfterSep || k == FieldName || k == FieldEnd || k == FieldValue
    || k == ValueAdd || k == ObjectSep
  }

  predicate Spelled(x: Scratch, w: Word) {
    && |x.pb| == x.stPos <= |Text(w)|
    && forall i :: 0 <= i < x.stPos ==> Lower(x.pb[i]) == Text(w)[i]
  }

  /** What the top level and the scratch fields look like whenever a character is
      about to be examined. */
  predicate LevelOk(t: Level, x: Scratch) {
    var k := Effective(t);
    && k != EatWs
    && (t.state == EatWs ==> Awaits(k))
    && (k != Finish ==> t.saved != Finish)
    && (InArray(k) ==> t.current.Arr?)
    && (InObject(k) ==> t.current.Obj?)
    && (k == InNull ==> Spelled(x, WNull))
    && (k == InBoolean ==> Spelled(x, BoolWord(x.pb)))
    && (k == InNumber ==> x.isDouble == IsDouble(x.pb))
    && (k == StringEscape || k == EscapeUnicode ==>
        t.saved == InString || (t.saved == FieldName && t.current.Obj?))
    && (k == StringEscape || k == EscapeUnicode || k == InString || k == FieldName ==>
        x.quote == '\"' || x.quote == '\'')
  }

  /** States in which white space is skipped. */
  predicate Awaits(k: TokState) {
    k == StStart || k == Finish || k == Array || k == ArrayAfterSep || k == ArraySep
    || k == FieldOpen || k == FieldOpenAfterSep || k == FieldEnd || k == FieldValue || k == ObjectSep
  }

  predicate Waiting(t: Level)  // a level below the top: its element is being parsed
  {
    t.saved != Finish && ((t.state == ArrayAdd && t.current.Arr?) || (t.state == ValueAdd && t.current.Obj?))
  }

  /** A level at which the main loop may be left between two pieces. */
  predicate Resting(t: Level, x: Scratch) {
    || t.state == EatWs || t.state == InString || t.state == FieldName
    || t.state == StringEscape || t.state == EscapeUnicode
    || ((t.state == InNull || t.state == InBoolean) && x.stPos > 0)
    || (t.state == InNumber && x.pb != "")
  }

  function StateRank(k: TokState): nat {
    match k
    case Array => 6
    case ArrayAfterSep => 6
    case FieldValue => 6
    case StStart => 5
    case InNull => 4
    case InBoolean => 4
    case InNumber => 4
    case Finish => 3
    case ArrayAdd => 2
    case ValueAdd => 2
    case _ => 0
  }

  /** Decreases with every goto redo_char. */
  function LevelRank(t: Level): nat {
    if t.state == EatWs then 2 * StateRank(t.saved) + 1 else 2 * StateRank(t.state)
  }

  /** What eatws and the start state have found out about the character at hand. */
  predicate Awake(t: Level, x: Scratch, c: char) {
    && (t.state != EatWs && Awaits(t.state) ==> !Space(c) && c != '/')
    && (t.state == InNull && x.stPos == 0 ==> Lower(c) == 'n')
    && (t.state == InBoolean && x.stPos == 0 ==> Lower(c) == 't' || Lower(c) == 'f')
    && (t.state == InNumber && x.pb == "" ==> IsDigit(c) || c == '-')
  }

  /** NUL ends the text whatever the switch made of it. */
  function NulEnds(c: char, e: Err): Err { if c == '\0' && e != Outside then Eof else e }

  lemma FramesPush(levels: seq<Level>, t: Level)
    ensures Frames(levels + [t]) == Frames(levels) + [FrameOf(t)]
  {
  }

  function MachineOf(maxDepth: nat, frames: seq<Frame>, t: Level, x: Scratch, obj: Json): Machine {
    Machine(maxDepth, frames, ModeOf(t, x, obj))
  }

  /** The character is consumed and t1, x1 are the top level and scratch after it. */
  ghost predicate Consumes(m: Machine, c: char, t1: Level, x1: Scratch, obj: Json) {
    LevelOk(t1, x1) && Resting(t1, x1) && c != '\0' && Step(m, c) == More(m.(mode := ModeOf(t1, x1, obj)))
  }

  /** The character is to be examined again with t1, x1. */
  ghost predicate Passes(m: Machine, c: char, t1: Level, x1: Scratch, obj: Json) {
    LevelOk(t1, x1) && Awake(t1, x1, c) && Step(m, c) == Step(m.(mode := ModeOf(t1, x1, obj)), c)
  }

  // ---- How the runner moves ------------------------------------------------

  lemma RunMore(m: Machine, m1: Machine, s: string, i: nat)
    requires i < |s| && Feed(m, s[i]) == More(m1)
    ensures RunFrom(m, s, i) == RunFrom(m1, s, i + 1)
  {
  }

  lemma RunRedo(m: Machine, m1: Machine, s: string, i: nat)
    requires i < |s| && Step(m, s[i]) == Step(m1, s[i])
    ensures RunFrom(m, s, i) == RunFrom(m1, s, i)
  {
  }

  lemma RunFail(m: Machine, e: Err, s: string, i: nat)
    requires i < |s| && Step(m, s[i]) == Fail(e)
    ensures RunFrom(m, s, i) == Failed(NulEnds(s[i], e))
  {
  }

  ghost function UniMode(t: Level, x: Scratch, gotHi: nat): Mode {
    StrMode(t, t.saved == FieldName, x, if x.stPos >= 4 then Torn else Uni(x.stPos, x.ucs, gotHi))
  }

  datatype TextStop = AtQuote | AtBackslash | AtNul | AtEnd

  /** A level whose value is complete. */
  function Ended(t: Level, v: Json): Level { t.(current := v, saved := Finish, state := EatWs) }

  /** strncasecmp(word, pb, n) == 0, for a lower-case word. */
  predicate CaseEq(word: string, pb: string, n: nat)
    requires n <= |word| && n <= |pb|
  {
    forall i :: 0 <= i < n ==> Lower(pb[i]) == word[i]
  }

  function AddedValue(t: Level, obj: Json): Level {
    t.(current := Obj(AddField(Fields(t.current), t.fieldName, obj)), fieldName := "", saved := ObjectSep, state := EatWs)
  }

  // ---- The cases, on values ------------------------------------------------

  /** The machine of a top level that is about to examine c. */
  ghost predicate Cased(m: Machine, t: Level, x: Scratch, obj: Json, c: char) {
    m.mode == ModeOf(t, x, obj) && LevelOk(t, x) && Awake(t, x, c)
  }

  lemma FreshOk(x: Scratch, obj: Json, c: char)
    ensures LevelOk(FRESH_LEVEL, x) && Awake(FRESH_LEVEL, x, c) && ModeOf(FRESH_LEVEL, x, obj) == Start
  {
  }

  lemma RestingCase(m: Machine, t: Level, x: Scratch, obj: Json)
    requires m.mode == ModeOf(t, x, obj) && LevelOk(t, x) && Resting(t, x)
    ensures EndPiece(m) == m && ModeOf(t, x, Null) == m.mode
    ensures m.mode.Full? <==> Effective(t) == Finish
    ensures Effective(t) == Finish ==> t.state == EatWs && m.mode.v == t.current
  {
    hide BoolWord, Spelled, IsDouble, AddField;
  }

  lemma EatWsCase(m: Machine, t: Level, x: Scratch, obj: Json, c: char)
    requires m.mode == ModeOf(t, x, obj) && LevelOk(t, x) && t.state == EatWs
    ensures Resting(t, x)
    ensures Space(c) ==> Feed(m, c) == More(m)
    ensures c == '/' ==> Step(m, c) == Fail(Outside)
    ensures !Space(c) && c != '/' ==>
      var t1 := t.(state := t.saved); Passes(m, c, t1, x, obj) && LevelRank(t1) < LevelRank(t)
  {
    hide Step, Spelled, BoolWord, StrMode, IsDouble, AddField;
    EatStep(m, c);
  }

  /** White space and comments before a value or inside a container. */
  lemma EatStep(m: Machine, c: char)
    requires Eats(m.mode)
    ensures Space(c) ==> Step(m, c) == More(m)
    ensures c == '/' ==> Step(m, c) == Fail(Outside)
  {
  }

  lemma StartCase(m: Machine, t: Level, x: Scratch, obj: Json, c: char)
    requires Cased(m, t, x, obj, c) && t.state == StStart
    ensures t.saved != Finish && Step(m, c) == StartChar(m, c)
    ensures c == '{' ==> Consumes(m, c, t.(state := EatWs, saved := FieldOpen, current := Obj([])), x, obj)
    ensures c == '[' ==> Consumes(m, c, t.(state := EatWs, saved := Array, current := Arr([])), x, obj)
    ensures c == '\'' || c == '\"' ==> Consumes(m, c, t.(state := InString), x.(pb := "", quote := c), obj)
  {
    assert Step(m, c) == StartChar(m, c);
  }

  /** Words and numbers: their first character is examined again in their own state. */
  lemma StartWordCase(m: Machine, t: Level, x: Scratch, obj: Json, c: char)
    requires Cased(m, t, x, obj, c) && t.state == StStart
    ensures c == 'N' || c == 'n' ==>
      var t1 := t.(state := InNull); Passes(m, c, t1, x.(pb := "", stPos := 0), obj) && LevelRank(t1) < LevelRank(t)
    ensures c == 'T' || c == 't' || c == 'F' || c == 'f' ==>
      var t1 := t.(state := InBoolean); Passes(m, c, t1, x.(pb := "", stPos := 0), obj) && LevelRank(t1) < LevelRank(t)
    ensures IsDigit(c) || c == '-' ==>
      var t1 := t.(state := InNumber); Passes(m, c, t1, x.(pb := "", isDouble := false), obj) && LevelRank(t1) < LevelRank(t)
  {
    hide Step;
    assert m == m.(mode := Start);
  }

  lemma FinishCase(m: Machine, t: Level, x: Scratch, obj: Json, c: char)
    requires Cased(m, t, x, obj, c) && t.state == Finish
    ensures m.mode == Full(t.current)
    ensures Step(m, c) == if m.stack == [] then Value(t.current) else Step(Popped(m), c)
  {
  }

  lemma FramesPop(levels: seq<Level>)
    requires levels != []
    ensures Frames(levels)[..|levels| - 1] == Frames(levels[..|levels| - 1])
    ensures Frames(levels)[|levels| - 1] == FrameOf(levels[|levels| - 1])
  {
  }

  /** A finished level hands its value to the waiting level below. */
  lemma FinishPops(m: Machine, t: Level, below: seq<Level>, x: Scratch, obj: Json, c: char)
    requires m.mode == Full(t.current) && obj == t.current && t.state == Finish
    requires below != [] && Waiting(below[|below| - 1]) && m.stack == Frames(below)
    requires Step(m, c) == Step(Popped(m), c)
    ensures var n := |below| - 1; var t1 := below[n];
      && LevelOk(t1, x) && Awake(t1, x, c) && LevelRank(t1) < LevelRank(t)
      && Popped(m) == m.(stack := Frames(below[..n]), mode := ModeOf(t1, x, obj))
  {
    FramesPop(below);
  }

  lemma RunValue(m: Machine, v: Json, s: string, i: nat)
    requires i < |s| && Step(m, s[i]) == Value(v)
    ensures RunFrom(m, s, i) == Parsed(v, i)
  {
  }

  lemma RunMoreMode(m: Machine, mode: Mode, s: string, i: nat)
    requires i < |s| && Step(m, s[i]) == More(m.(mode := mode)) && s[i] != '\0'
    ensures RunFrom(m, s, i) == RunFrom(m.(mode := mode), s, i + 1)
  {
  }

  lemma NullCase(m: Machine, t: Level, x: Scratch, obj: Json, c: char)
    requires Cased(m, t, x, obj, c) && t.state == InNull
    ensures |x.pb| == x.stPos <= 4 && t.saved != Finish
    ensures var pb1 := x.pb + [c];
      if CaseEq("null", pb1, Min(x.stPos + 1, 4)) then
        if x.stPos == 4 then
          Passes(m, c, Ended(t, Null), x.(pb := pb1), obj) && LevelRank(Ended(t, Null)) < LevelRank(t)
        else Consumes(m, c, t, x.(pb := pb1, stPos := x.stPos + 1), obj)
      else Step(m, c) == Fail(if CaseEq("nan", pb1, Min(x.stPos + 1, 3)) then Outside else NullExpected)
  {
    hide Step, StrMode, BoolWord, IsDouble, AddField, Spelled, CaseEq;
    SpellsNull(t, x);
    if x.stPos == 4 {
      WordDone(x, WNull, c);
      WordEnds(m, WNull, c);
    } else {
      NextLetter(x, WNull, c);
      NotNan(x, c);
      NullStep(m, x.stPos, c);
      if Lower(c) == Text(WNull)[x.stPos] { SpelledNext(x, WNull, c); }
    }
  }

  lemma WordEnds(m: Machine, w: Word, c: char)
    requires m.mode == Lit(w, |Text(w)|)
    ensures Step(m, c) == Step(m.(mode := Full(WordValue(w))), c)
  {
  }

  /** One more letter of null, or not. */
  lemma NullStep(m: Machine, n: nat, c: char)
    requires n < 4 && m.mode == (if n == 0 then Start else Lit(WNull, n)) && (n == 0 ==> Lower(c) == 'n')
    ensures Text(WNull) == "null"
    ensures Step(m, c) ==
      if Lower(c) == "null"[n] then More(m.(mode := Lit(WNull, n + 1)))
      else Fail(if n == 1 && (c == 'a' || c == 'A') then Outside else NullExpected)
    ensures n == 0 ==> Lower(c) == "null"[0]
    ensures Lower(c) == "null"[n] ==> c != '\0'
  {
  }

  lemma SpellsNull(t: Level, x: Scratch)
    requires LevelOk(t, x) && t.state == InNull
    ensures Spelled(x, WNull) && Text(WNull) == "null" && |x.pb| == x.stPos <= 4
  {
  }

  lemma SpelledNext(x: Scratch, w: Word, c: char)
    requires Spelled(x, w) && x.stPos < |Text(w)| && Lower(c) == Text(w)[x.stPos]
    ensures Spelled(x.(pb := x.pb + [c], stPos := x.stPos + 1), w)
  {
  }

  /** Only the second letter can turn null into NaN. */
  lemma NotNan(x: Scratch, c: char)
    requires Spelled(x, WNull) && x.stPos < 4
    ensures CaseEq("nan", x.pb + [c], Min(x.stPos + 1, 3)) <==>
      (x.stPos == 0 && Lower(c) == 'n') || (x.stPos == 1 && (c == 'a' || c == 'A'))
  {
    var pb1 := x.pb + [c];
    assert Text(WNull) == "null";
    assert forall i :: 0 <= i < x.stPos ==> pb1[i] == x.pb[i];
    assert pb1[x.stPos] == c;
    if x.stPos > 0 { assert Lower(pb1[0]) == 'n'; }
    if x.stPos > 1 {
      assert Lower(pb1[1]) == 'u' && "nan"[1] == 'a';
    } else if x.stPos == 1 {
      assert Lower(c) == "nan"[1] <==> c == 'a' || c == 'A';
    }
  }

  /** The print buffer spells the first stPos characters of w; c is the next one. */
  lemma NextLetter(x: Scratch, w: Word, c: char)
    requires Spelled(x, w) && x.stPos < |Text(w)|
    ensures CaseEq(Text(w), x.pb + [c], x.stPos + 1) <==> Lower(c) == Text(w)[x.stPos]
  {
    var pb1 := x.pb + [c];
    assert forall i :: 0 <= i < x.stPos ==> pb1[i] == x.pb[i];
  }

  lemma WordDone(x: Scratch, w: Word, c: char)
    requires Spelled(x, w) && x.stPos == |Text(w)|
    ensures CaseEq(Text(w), x.pb + [c], x.stPos)
  {
    var pb1 := x.pb + [c];
    assert forall i :: 0 <= i < x.stPos ==> pb1[i] == x.pb[i];
  }

  /** The two words differ in their first letter, so only one of them is matched. */
  lemma OneWord(pb1: string)
    requires pb1 != "" && (Lower(pb1[0]) == 't' || Lower(pb1[0]) == 'f')
    ensures BoolWord(pb1) == WTrue <==> Lower(pb1[0]) == "true"[0]
    ensures BoolWord(pb1) == WFalse <==> Lower(pb1[0]) == "false"[0]
  {
  }

  /** What a letter does to a partly spelled true or false. */
  lemma LetterCase(m: Machine, t: Level, x: Scratch, obj: Json, c: char, w: Word)
    requires m.mode == ModeOf(t, x, obj) && LevelOk(t, x) && t.state == InBoolean
    requires x.stPos < |Text(w)| && w == BoolWord(x.pb + [c]) && Spelled(x, w)
    requires x.stPos == 0 ==> Lower(c) == Text(w)[0]
    ensures Lower(c) == Text(w)[x.stPos] ==> Consumes(m, c, t, x.(pb := x.pb + [c], stPos := x.stPos + 1), obj)
    ensures Lower(c) != Text(w)[x.stPos] ==> Step(m, c) == Fail(BooleanExpected)
  {
    hide IsDouble, AddField, StrMode, NumEnd, StrFeed, Room;
    var x1 := x.(pb := x.pb + [c], stPos := x.stPos + 1);
    assert x.stPos > 0 ==> (x.pb + [c])[0] == x.pb[0];
    if Lower(c) == Text(w)[x.stPos] {
      NextLetter(x, w, c);
      assert Spelled(x1, w);
      assert ModeOf(t, x1, obj) == Lit(w, x1.stPos);
    }
  }

  lemma WordEndCase(m: Machine, t: Level, x: Scratch, obj: Json, c: char, w: Word)
    requires m.mode == ModeOf(t, x, obj) && LevelOk(t, x) && t.state == InBoolean
    requires x.stPos == |Text(w)| && w == BoolWord(x.pb)
    ensures Passes(m, c, Ended(t, WordValue(w)), x.(pb := x.pb + [c]), obj)
    ensures LevelRank(Ended(t, WordValue(w))) < LevelRank(t)
  {
  }

  lemma BooleanCase(m: Machine, t: Level, x: Scratch, obj: Json, c: char)
    requires Cased(m, t, x, obj, c) && t.state == InBoolean
    ensures |x.pb| == x.stPos <= 5 && t.saved != Finish
    ensures var pb1 := x.pb + [c];
      if CaseEq("true", pb1, Min(x.stPos + 1, 4)) then
        if x.stPos == 4 then
          Passes(m, c, Ended(t, Bool(true)), x.(pb := pb1), obj) && LevelRank(Ended(t, Bool(true))) < LevelRank(t)
        else Consumes(m, c, t, x.(pb := pb1, stPos := x.stPos + 1), obj)
      else if CaseEq("false", pb1, Min(x.stPos + 1, 5)) then
        if x.stPos == 5 then
          Passes(m, c, Ended(t, Bool(false)), x.(pb := pb1), obj) && LevelRank(Ended(t, Bool(false))) < LevelRank(t)
        else Consumes(m, c, t, x.(pb := pb1, stPos := x.stPos + 1), obj)
      else Step(m, c) == Fail(BooleanExpected)
  {
    hide Step, ModeOf, Consumes, Passes, LevelRank;
    var pb1 := x.pb + [c];
    assert Text(WTrue) == "true" && Text(WFalse) == "false";
    assert pb1[0] == if x.stPos == 0 then c else x.pb[0];
    assert Lower(pb1[0]) == 't' || Lower(pb1[0]) == 'f' by {
      if x.stPos > 0 { assert Lower(x.pb[0]) == Text(BoolWord(x.pb))[0]; }
    }
    OneWord(pb1);
    var w := BoolWord(pb1);
    if x.stPos < |Text(w)| {
      LetterCase(m, t, x, obj, c, w);
      NextLetter(x, w, c);
    } else {
      WordEndCase(m, t, x, obj, c, w);
      WordDone(x, w, c);
    }
  }

  lemma NumberStarts(m: Machine, t: Level, x: Scratch, obj: Json, c: char)
    requires Cased(m, t, x, obj, c) && t.state == InNumber
    ensures x.pb == "" ==> IsDigit(c) || c == '-'
    ensures x.(pb := x.pb) == x
  {
  }

  lemma DoubleGrows(pb: string, c: char)
    ensures IsDouble(pb + [c]) <==> IsDouble(pb) || c == '.' || c == 'e' || c == 'E'
  {
    if IsDouble(pb) {
      var i :| 0 <= i < |pb| && (pb[i] == '.' || pb[i] == 'e' || pb[i] == 'E');
      assert (pb + [c])[i] == pb[i];
    }
    assert (pb + [c])[|pb|] == c;
  }

  lemma NumberStep(m: Machine, pb: string, c: char)
    requires m.mode == (if pb == "" then Start else Num(pb)) && NumChar(c)
    requires pb == "" ==> IsDigit(c) || c == '-'
    ensures Step(m, c) == More(m.(mode := Num(pb + [c])))
  {
    assert pb == "" ==> pb + [c] == [c];
  }

  lemma NumberCase(m: Machine, t: Level, x: Scratch, obj: Json, c: char)
    requires m.mode == ModeOf(t, x, obj) && LevelOk(t, x) && t.state == InNumber && NumChar(c)
    requires x.pb == "" ==> IsDigit(c) || c == '-'
    ensures var x1 := x.(pb := x.pb + [c], isDouble := x.isDouble || c == '.' || c == 'e' || c == 'E');
      LevelOk(t, x1) && c != '\0' && Step(m, c) == More(m.(mode := ModeOf(t, x1, obj)))
  {
    hide Step, IsDouble;
    DoubleGrows(x.pb, c);
    NumberStep(m, x.pb, c);
  }

  lemma SignOrDigit(c: char)
    ensures IsDigit(c) || c == '-' ==> NumChar(c)
  {
  }

  lemma NumberEnds(m: Machine, t: Level, x: Scratch, obj: Json, c: char)
    requires m.mode == ModeOf(t, x, obj) && LevelOk(t, x) && t.state == InNumber && !NumChar(c) && x.pb != ""
    ensures t.saved != Finish
    ensures x.pb[0] == '-' && (c == 'i' || c == 'I') ==> Step(m, c) == Fail(Outside)
    ensures x.isDouble ==> Step(m, c) == Fail(Outside)
    ensures !(x.pb[0] == '-' && (c == 'i' || c == 'I')) && !x.isDouble ==>
      match ParseInt64(x.pb)
      case None => Step(m, c) == Fail(NumberExpected)
      case Some(i) => Passes(m, c, Ended(t, Int(i)), x, obj) && LevelRank(Ended(t, Int(i))) < LevelRank(t)
  {
    hide ParseInt64, IsDouble, AddField, StrMode, BoolWord, Spelled, StrFeed;
  }

  predicate InText(k: TokState) { k == InString || k == FieldName }

  lemma TextCase(m: Machine, t: Level, x: Scratch, obj: Json, c: char)
    requires m.mode == ModeOf(t, x, obj) && LevelOk(t, x) && InText(t.state)
    ensures x.quote != '\\' && x.quote != '\0'
    ensures c != x.quote && c != '\\' ==>
      var x1 := x.(pb := x.pb + [c]);
      LevelOk(t, x1) && Step(m, c) == More(m.(mode := ModeOf(t, x1, obj)))
  {
  }

  lemma RunNul(m: Machine, s: string, i: nat)
    requires i < |s| && s[i] == '\0' && Step(m, s[i]).More?
    ensures RunFrom(m, s, i) == Failed(Eof)
  {
  }

  lemma TextEnds(m: Machine, t: Level, x: Scratch, obj: Json, c: char)
    requires m.mode == ModeOf(t, x, obj) && LevelOk(t, x) && t.state == InString
    ensures c == x.quote ==> Consumes(m, c, Ended(t, Str(x.pb)), x, obj)
    ensures c == '\\' ==> Consumes(m, c, t.(saved := InString, state := StringEscape), x, obj)
  {
  }

  lemma NameEnds(m: Machine, t: Level, x: Scratch, obj: Json, c: char)
    requires m.mode == ModeOf(t, x, obj) && LevelOk(t, x) && t.state == FieldName
    ensures c == x.quote ==>
      Consumes(m, c, t.(fieldName := CStr(x.pb), saved := FieldEnd, state := EatWs), x, obj)
    ensures c == '\\' ==> Consumes(m, c, t.(saved := FieldName, state := StringEscape), x, obj)
  {
    hide CStr;
  }

  lemma EscapeCase(m: Machine, t: Level, x: Scratch, obj: Json, c: char)
    requires Cased(m, t, x, obj, c) && t.state == StringEscape
    ensures t.saved != Finish
    ensures var o := StrBack(x.pb, c);
      && (o.Bad? ==> Step(m, c) == Fail(StringSequence))
      && (c == 'u' ==> Consumes(m, c, t.(state := EscapeUnicode), x.(ucs := 0, stPos := 0), obj))
      && (o.Cont? && c != 'u' ==> Consumes(m, c, t.(state := t.saved), x.(pb := o.pb), obj))
  {
    hide Step, BoolWord, Spelled, IsDouble, AddField;
    StrStep(m, t, t.saved == FieldName, x, Back, c);
  }

  /** A character inside a string or a field name. */
  lemma StrStep(m: Machine, t: Level, field: bool, x: Scratch, esc: Esc, c: char)
    requires m.mode == StrMode(t, field, x, esc)
    ensures var o := StrFeed(x.pb, x.quote, esc, c);
      && (o.Bad? ==> Step(m, c) == Fail(if esc.Torn? && HexChar(c) then Outside else StringSequence))
      && (o.Cont? ==> Step(m, c) == More(m.(mode := StrMode(t, field, x.(pb := o.pb), o.esc))))
  {
    hide StrFeed;
  }

  /** A character inside a \u escape. */
  lemma DigitCase(m: Machine, t: Level, x: Scratch, gotHi: nat, c: char)
    requires m.mode == UniMode(t, x, gotHi) && x.stPos < 4
    ensures !HexChar(c) ==> Step(m, c) == Fail(StringSequence)
    ensures HexChar(c) && x.stPos < 3 ==>
      var uc := x.ucs + HexValue(c) * DigitWeight(x.stPos);
      c != '\0' && Step(m, c) == More(m.(mode := UniMode(t, x.(stPos := x.stPos + 1, ucs := uc), gotHi)))
  {
    hide HexChar, HexValue, Step, Completed;
    HexNotNul(c);
    StrStep(m, t, t.saved == FieldName, x, Uni(x.stPos, x.ucs, gotHi), c);
  }

  lemma LastDigitCase(m: Machine, t: Level, x: Scratch, gotHi: nat, c: char)
    requires m.mode == UniMode(t, x, gotHi) && x.stPos == 3 && HexChar(c)
    ensures var o := Completed(x.pb, x.ucs + HexValue(c) * DigitWeight(3), gotHi);
      c != '\0' && o.Cont? && Step(m, c) == More(m.(mode := StrMode(t, t.saved == FieldName, x.(pb := o.pb), o.esc)))
  {
    hide HexChar, HexValue, Step;
    HexNotNul(c);
    StrStep(m, t, t.saved == FieldName, x, Uni(3, x.ucs, gotHi), c);
  }

  /** In an escape the level asks nothing of the scratch fields but the quote. */
  lemma EscapeOk(t: Level, x: Scratch, y: Scratch)
    requires LevelOk(t, x) && t.state == EscapeUnicode && x.quote == y.quote
    ensures LevelOk(t, y) && LevelOk(t.(state := t.saved), y) && t.saved != Finish
    ensures x.quote == '\"' || x.quote == '\''
    ensures Resting(t, y) && Resting(t.(state := t.saved), y)
  {
  }

  lemma HexNotNul(c: char)
    ensures HexChar(c) ==> c != '\0'
  {
  }

  /** String modes use nothing of the scratch fields but the buffer and the quote. */
  lemma ScratchOnly(t: Level, x: Scratch, y: Scratch, esc: Esc)
    requires x.quote == y.quote
    ensures StrMode(t, t.saved == FieldName, x.(pb := y.pb), esc) == StrMode(t, t.saved == FieldName, y, esc)
  {
  }

  lemma LeftMode(t: Level, x: Scratch, obj: Json)
    requires t.state == EscapeUnicode && LevelOk(t, x)
    ensures ModeOf(t.(state := t.saved), x, obj) == StrMode(t, t.saved == FieldName, x, Plain)
  {
  }

  lemma UniEnds(m: Machine, t: Level, x: Scratch, gotHi: nat)
    requires m.mode == UniMode(t, x, gotHi) && t.state == EscapeUnicode && LevelOk(t, x)
    requires gotHi != 0 ==> 0 < x.stPos < 4
    ensures !m.mode.Full?
    ensures EndPiece(m) == m.(mode := ModeOf(t, if gotHi != 0 then x.(pb := x.pb + REPLACEMENT) else x, Null))
  {
  }

  lemma TornEnds(m: Machine, t: Level, x: Scratch, high: nat)
    requires m.mode == StrMode(t, t.saved == FieldName, x, Uni(0, 0, high)) && high != 0
    requires t.state == EscapeUnicode && x.stPos == 4
    ensures !m.mode.Full?
    ensures EndPiece(m) == m.(mode := ModeOf(t, x.(pb := x.pb + REPLACEMENT), Null))
  {
  }

  /** Two machines that do the same to the next character, or are about to pause alike. */
  lemma RunAlike(m: Machine, m1: Machine, s: string, i: nat)
    requires i <= |s| && !m.mode.Full? && !m1.mode.Full?
    requires if i < |s| then Step(m, s[i]) == Step(m1, s[i]) else EndPiece(m) == EndPiece(m1)
    ensures RunFrom(m, s, i) == RunFrom(m1, s, i)
  {
  }

  lemma NoPairRuns(m: Machine, t: Level, x: Scratch, high: nat, s: string, i: nat)
    requires i <= |s| && (i == |s| || i + 1 == |s| || s[i] != '\\' || s[i + 1] != 'u')
    requires m.mode == StrMode(t, t.saved == FieldName, x, HiPend(high))
    requires x.quote == '\"' || x.quote == '\''
    ensures RunFrom(m, s, i)
         == RunFrom(m.(mode := StrMode(t, t.saved == FieldName, x.(pb := x.pb + REPLACEMENT), Plain)), s, i)
  {
    hide RunFrom, Feed, Step, Frames, Waiting;
    var field := t.saved == FieldName;
    var x1 := x.(pb := x.pb + REPLACEMENT);
    var m1 := m.(mode := StrMode(t, field, x1, Plain));
    if i == |s| || s[i] != '\\' {
      if i < |s| { PendingPlain(m, t, field, x, high, s[i]); }
      RunAlike(m, m1, s, i);
    } else {
      var m2 := m.(mode := StrMode(t, field, x, HiBack(high)));
      var m3 := m.(mode := StrMode(t, field, x1, Back));
      StrStep(m, t, field, x, HiPend(high), '\\');
      StrStep(m1, t, field, x1, Plain, '\\');
      RunMoreMode(m, m2.mode, s, i);
      RunMoreMode(m1, m3.mode, s, i);
      if i + 1 < |s| { PendingBack(m2, t, field, x, high, s[i + 1]); }
      RunAlike(m2, m3, s, i + 1);
    }
  }

  lemma PendingPlain(m: Machine, t: Level, field: bool, x: Scratch, high: nat, c: char)
    requires m.mode == StrMode(t, field, x, HiPend(high)) && c != '\\'
    ensures Step(m, c) == Step(m.(mode := StrMode(t, field, x.(pb := x.pb + REPLACEMENT), Plain)), c)
  {
  }

  lemma PendingBack(m: Machine, t: Level, field: bool, x: Scratch, high: nat, c: char)
    requires m.mode == StrMode(t, field, x, HiBack(high)) && c != 'u'
    ensures Step(m, c) == Step(m.(mode := StrMode(t, field, x.(pb := x.pb + REPLACEMENT), Back)), c)
  {
  }

  lemma RestingAwake(t: Level, x: Scratch, c: char)
    requires Resting(t, x)
    ensures Awake(t, x, c)
  {
  }

  lemma ArrayCase(m: Machine, t: Level, x: Scratch, obj: Json, c: char)
    requires Cased(m, t, x, obj, c) && (t.state == Array || t.state == ArrayAfterSep)
    ensures t.saved != Finish && LevelRank(FRESH_LEVEL) < LevelRank(t)
    ensures c == ']' ==> Consumes(m, c, t.(saved := Finish, state := EatWs), x, obj)
    ensures c != ']' && Room(m) ==>
      var t1 := t.(state := ArrayAdd);
      Waiting(t1) && Step(m, c) == Step(m.(stack := m.stack + [FrameOf(t1)], mode := Start), c)
    ensures c != ']' && !Room(m) ==> Step(m, c) == Fail(TooDeep)
  {
    hide IsDouble, AddField, BoolWord, Spelled, StrMode, ParseInt64, NumEnd, StrFeed;
  }

  lemma ArrayAddCase(m: Machine, t: Level, x: Scratch, obj: Json, c: char)
    requires Cased(m, t, x, obj, c) && t.state == ArrayAdd
    ensures var t1 := t.(current := Arr(Elems(t.current) + [obj]), saved := ArraySep, state := EatWs);
      Passes(m, c, t1, x, obj) && LevelRank(t1) < LevelRank(t)
  {
    hide IsDouble, AddField, BoolWord, Spelled, StrMode, ParseInt64, NumEnd, StrFeed;
  }

  /** White space before the next state. */
  lemma ParkedOk(t: Level, x: Scratch, k: TokState)
    requires Awaits(k) && (InArray(k) ==> t.current.Arr?) && (InObject(k) ==> t.current.Obj?)
    ensures LevelOk(t.(saved := k, state := EatWs), x) && Resting(t.(saved := k, state := EatWs), x)
  {
    hide Spelled, BoolWord, IsDouble;
  }

  lemma ArraySepCase(m: Machine, t: Level, x: Scratch, obj: Json, c: char)
    requires Cased(m, t, x, obj, c) && t.state == ArraySep
    ensures t.saved != Finish
    ensures c == ']' ==> Consumes(m, c, t.(saved := Finish, state := EatWs), x, obj)
    ensures c == ',' ==> Consumes(m, c, t.(saved := ArrayAfterSep, state := EatWs), x, obj)
    ensures c != ']' && c != ',' ==> Step(m, c) == Fail(ArraySeparator)
  {
    hide IsDouble, AddField, BoolWord, Spelled, StrMode, ParseInt64, NumEnd, StrFeed;
    ParkedOk(t, x, Finish);
    ParkedOk(t, x, ArrayAfterSep);
  }

  lemma FieldOpenCase(m: Machine, t: Level, x: Scratch, obj: Json, c: char)
    requires Cased(m, t, x, obj, c) && (t.state == FieldOpen || t.state == FieldOpenAfterSep)
    ensures t.saved != Finish
    ensures c == '}' ==> Consumes(m, c, t.(saved := Finish, state := EatWs), x, obj)
    ensures c == '\"' || c == '\'' ==> Consumes(m, c, t.(state := FieldName), x.(pb := "", quote := c), obj)
    ensures c != '}' && c != '\"' && c != '\'' ==> Step(m, c) == Fail(KeyName)
  {
    hide IsDouble, AddField, BoolWord, Spelled, ParseInt64, NumEnd, StrFeed;
    ParkedOk(t, x, Finish);
  }

  lemma FieldEndCase(m: Machine, t: Level, x: Scratch, obj: Json, c: char)
    requires Cased(m, t, x, obj, c) && t.state == FieldEnd
    ensures t.saved != Finish
    ensures c == ':' ==> Consumes(m, c, t.(saved := FieldValue, state := EatWs), x, obj)
    ensures c != ':' ==> Step(m, c) == Fail(KeySeparator)
  {
    hide IsDouble, AddField, BoolWord, Spelled, StrMode, ParseInt64, NumEnd, StrFeed;
  }

  lemma FieldValueCase(m: Machine, t: Level, x: Scratch, obj: Json, c: char)
    requires Cased(m, t, x, obj, c) && t.state == FieldValue
    ensures t.saved != Finish && LevelRank(FRESH_LEVEL) < LevelRank(t)
    ensures Room(m) ==>
      var t1 := t.(state := ValueAdd);
      Waiting(t1) && Step(m, c) == Step(m.(stack := m.stack + [FrameOf(t1)], mode := Start), c)
    ensures !Room(m) ==> Step(m, c) == Fail(TooDeep)
  {
    hide IsDouble, AddField, BoolWord, Spelled, StrMode, ParseInt64, NumEnd, StrFeed;
  }

  lemma ValueAddCase(m: Machine, t: Level, x: Scratch, obj: Json, c: char)
    requires Cased(m, t, x, obj, c) && t.state == ValueAdd
    ensures Passes(m, c, AddedValue(t, obj), x, obj) && LevelRank(AddedValue(t, obj)) < LevelRank(t)
  {
    hide Step, AddField, StrMode, BoolWord, Spelled, IsDouble;
  }

  lemma ObjSepStep(m: Machine, fs: seq<Field>, c: char)
    requires m.mode == ObjSep(fs) && !Space(c) && c != '/'
    ensures Step(m, c) ==
      if c == '}' then More(m.(mode := Full(Obj(fs))))
      else if c == ',' then More(m.(mode := ObjComma(fs))) else Fail(ValueSeparator)
  {
  }

  lemma AtObjectSep(m: Machine, t: Level, x: Scratch, obj: Json, c: char)
    requires Cased(m, t, x, obj, c) && t.state == ObjectSep
    ensures t.saved != Finish && t.current.Obj? && !Space(c) && c != '/'
    ensures m.mode == ObjSep(Fields(t.current))
  {
    hide Step, Spelled, BoolWord, IsDouble, AddField, StrMode;
  }

  lemma ParkedObject(t: Level, x: Scratch, obj: Json)
    requires t.current.Obj?
    ensures ModeOf(t.(saved := Finish, state := EatWs), x, obj) == Full(Obj(Fields(t.current)))
    ensures ModeOf(t.(saved := FieldOpenAfterSep, state := EatWs), x, obj) == ObjComma(Fields(t.current))
  {
    hide AddField, StrMode, BoolWord;
  }

  lemma ObjectSepCase(m: Machine, t: Level, x: Scratch, obj: Json, c: char)
    requires Cased(m, t, x, obj, c) && t.state == ObjectSep
    ensures t.saved != Finish
    ensures c == '}' ==> Consumes(m, c, t.(saved := Finish, state := EatWs), x, obj)
    ensures c == ',' ==> Consumes(m, c, t.(saved := FieldOpenAfterSep, state := EatWs), x, obj)
    ensures c != '}' && c != ',' ==> Step(m, c) == Fail(ValueSeparator)
  {
    hide Step, LevelOk, Resting, Awake, ModeOf;
    AtObjectSep(m, t, x, obj, c);
    ObjSepStep(m, Fields(t.current), c);
    ParkedOk(t, x, Finish);
    ParkedOk(t, x, FieldOpenAfterSep);
    ParkedObject(t, x, obj);
  }

  lemma SliceGrows(str: string, i: nat, j: nat, pb: string)
    requires i <= j < |str|
    ensures pb + str[i..j + 1] == (pb + str[i..j]) + [str[j]]
  {
  }

  // ---- Tight loops -----------------------------------------------------------

  /** The call that will end in w stands at offset i, if the scratch fields were x: inside
      a tight loop the print buffer has not caught up yet. */
  ghost predicate VirtualAt(w: Final, str: string, m: Machine, t: Level, obj: Json, x: Scratch, i: nat) {
    LevelOk(t, x) && i <= |str| && w == RunFrom(m.(mode := ModeOf(t, x, obj)), str, i)
  }

  lemma NumberMoves(w: Final, str: string, m: Machine, t: Level, obj: Json, x: Scratch, i: nat)
    requires VirtualAt(w, str, m, t, obj, x, i) && i < |str| && NumChar(str[i])
    requires t.state == InNumber && (x.pb == "" ==> IsDigit(str[i]) || str[i] == '-')
    ensures var c := str[i];
      VirtualAt(w, str, m, t, obj, x.(pb := x.pb + [c], isDouble := x.isDouble || c == '.' || c == 'e' || c == 'E'), i + 1)
  {
    hide RunFrom, ModeOf, Step, LevelOk;
    var c := str[i];
    var x1 := x.(pb := x.pb + [c], isDouble := x.isDouble || c == '.' || c == 'e' || c == 'E');
    var m1 := m.(mode := ModeOf(t, x, obj));
    NumberCase(m1, t, x, obj, c);
    RunMoreMode(m1, ModeOf(t, x1, obj), str, i);
  }

  lemma TextMoves(w: Final, str: string, m: Machine, t: Level, obj: Json, x: Scratch, i: nat)
    requires VirtualAt(w, str, m, t, obj, x, i) && i < |str| && InText(t.state)
    ensures x.quote != '\\'
    ensures str[i] != x.quote && str[i] != '\\' ==>
      if str[i] == '\0' then w == Failed(Eof)
      else VirtualAt(w, str, m, t, obj, x.(pb := x.pb + [str[i]]), i + 1)
  {
    hide RunFrom, ModeOf, Step, LevelOk;
    var c := str[i];
    var x1 := x.(pb := x.pb + [c]);
    var m1 := m.(mode := ModeOf(t, x, obj));
    TextCase(m1, t, x, obj, c);
    if c != x.quote && c != '\\' {
      if c == '\0' { RunNul(m1, str, i); } else { RunMoreMode(m1, ModeOf(t, x1, obj), str, i); }
    }
  }

  // ---- The class -------------------------------------------------------------

  class Tokener {
    const maxDepth: nat
    const stack: array<Level>
    var depth: nat
    var pb: string
    var stPos: nat
    var ucsChar: nat
    var quoteChar: char
    var isDouble: bool
    var err: TokErr
    var charOffset: nat

    ghost predicate Sized()
      reads this`depth
    {
      0 < maxDepth == stack.Length && depth < maxDepth
    }

    function Scr(): Scratch
      reads this`pb, this`stPos, this`ucsChar, this`quoteChar, this`isDouble
    {
      Scratch(pb, stPos, ucsChar, quoteChar, isDouble)
    }

    ghost function Below(): seq<Frame>
      requires Sized()
      reads this`depth, stack
    {
      Frames(stack[..depth])
    }

    /** The abstract machine; obj is the pending value of a finished level. */
    ghost function Abs(obj: Json): Machine
      requires Sized()
      reads this, stack
    {
      MachineOf(maxDepth, Below(), stack[depth], Scr(), obj)
    }

    ghost predicate Live()
      reads this, stack
    {
      && Sized()
      && LevelOk(stack[depth], Scr())
      && WaitingBelow()
    }

    /** The call that will end in w stands at offset i. */
    ghost predicate At(w: Final, str: string, obj: Json, i: nat)
      reads this, stack
    {
      Live() && i <= |str| && w == RunFrom(Abs(obj), str, i)
    }

    /** The character at charOffset is examined next. */
    ghost predicate Examines(w: Final, str: string, obj: Json)
      reads this, stack
    {
      At(w, str, obj, charOffset) && charOffset < |str| && Awake(stack[depth], Scr(), str[charOffset])
    }

    /** goto out: err and the top level tell how the call ends. */
    ghost predicate Ends(w: Final, str: string)
      reads this, stack
    {
      Sized() && charOffset <= |str| &&
      match err
      case Success =>
        depth == 0 && Effective(stack[0]) == Finish && w == Parsed(stack[0].current, charOffset)
      case Continue => charOffset == |str| && Live() && Resting(stack[depth], Scr()) && w == Paused(Abs(Null))
      case Error(e) =>
        (e != Outside ==> stack[depth].state != Finish && stack[depth].saved != Finish) && w == Failed(e)
    }

    /** The three ways a case of the switch is left. */
    ghost predicate Leaves(w: Final, str: string, obj: Json, act: Act, rank: nat)
      reads this, stack
    {
      match act
      case Redo => Examines(w, str, obj) && LevelRank(stack[depth]) < rank
      case Next =>
        && charOffset < |str| && str[charOffset] != '\0'
        && At(w, str, obj, charOffset + 1) && Resting(stack[depth], Scr())
      case Out => Ends(w, str)
    }

    ghost predicate WaitingBelow()
      requires Sized()
      reads this`depth, stack
    {
      forall i :: 0 <= i < depth ==> Waiting(stack[i])
    }

    method Put(t: Level)
      requires Sized()
      modifies stack
      ensures stack[depth] == t && stack[..depth] == old(stack[..depth])
    {
      stack[depth] := t;
    }

    /** break: the character is consumed and t1 becomes the top level. */
    method GoNext(ghost w: Final, str: string, ghost obj: Json, ghost m: Machine, t1: Level) returns (act: Act)
      requires Sized() && WaitingBelow() && charOffset < |str|
      requires w == RunFrom(m, str, charOffset) && m.stack == Below() && m.maxDepth == maxDepth
      requires Consumes(m, str[charOffset], t1, Scr(), obj)
      modifies stack
      ensures act == Next && forall rank :: Leaves(w, str, obj, act, rank)
    {
      hide ModeOf, Step, LevelOk, Resting, StateRank, Frames, Waiting;
      RunMore(m, MachineOf(maxDepth, Below(), t1, Scr(), obj), str, charOffset);
      Put(t1);
      act := Next;
    }

    /** goto redo_char with t1 as the top level. */
    method GoRedo(ghost w: Final, str: string, ghost obj: Json, ghost m: Machine, t1: Level) returns (act: Act)
      requires Sized() && WaitingBelow() && charOffset < |str|
      requires w == RunFrom(m, str, charOffset) && m.stack == Below() && m.maxDepth == maxDepth
      requires Passes(m, str[charOffset], t1, Scr(), obj)
      modifies stack
      ensures act == Redo && forall rank :: LevelRank(t1) < rank ==> Leaves(w, str, obj, act, rank)
    {
      hide ModeOf, Step, LevelOk, StateRank, Awake, LevelRank, Frames, Waiting;
      RunRedo(m, MachineOf(maxDepth, Below(), t1, Scr(), obj), str, charOffset);
      Put(t1);
      act := Redo;
    }

    /** A new level on top of t1, which waits for its element. */
    method GoPush(ghost w: Final, str: string, ghost obj: Json, ghost m: Machine, t1: Level) returns (act: Act)
      requires Sized() && WaitingBelow() && charOffset < |str| && depth + 1 < maxDepth
      requires w == RunFrom(m, str, charOffset) && m.stack == Below() && m.maxDepth == maxDepth
      requires Waiting(t1)
      requires Step(m, str[charOffset]) == Step(m.(stack := m.stack + [FrameOf(t1)], mode := Start), str[charOffset])
      modifies stack, this`depth
      ensures act == Redo && forall rank :: LevelRank(FRESH_LEVEL) < rank ==> Leaves(w, str, obj, act, rank)
    {
      hide ModeOf, Step, LevelOk, StateRank, Awake, LevelRank, Waiting, FrameOf, Frames;
      ghost var below := stack[..depth];
      RunRedo(m, m.(stack := m.stack + [FrameOf(t1)], mode := Start), str, charOffset);
      stack[depth] := t1;
      depth := depth + 1;
      stack[depth] := FRESH_LEVEL;
      assert stack[..depth] == below + [t1];
      FramesPush(below, t1);
      FreshOk(Scr(), obj, str[charOffset]);
      act := Redo;
    }

    /** An error case: the level is left as it is. */
    method FailAt(ghost w: Final, str: string, ghost obj: Json, ghost m: Machine, e: Err) returns (act: Act)
      requires Sized() && charOffset < |str|
      requires w == RunFrom(m, str, charOffset)
      requires e != Outside ==> stack[depth].state != Finish && stack[depth].saved != Finish
      requires Step(m, str[charOffset]) == Fail(e)
      modifies this`err
      ensures act == Out && forall rank :: Leaves(w, str, obj, act, rank)
    {
      hide ModeOf, Step, LevelOk, StateRank, Frames, Waiting;
      RunFail(m, e, str, charOffset);
      err := Error(NulEnds(str[charOffset], e));
      act := Out;
    }

    // ---- The cases of the switch --------------------------------------------

    method DoArray(ghost w: Final, str: string, ghost obj: Json) returns (act: Act)
      requires Examines(w, str, obj) && (stack[depth].state == Array || stack[depth].state == ArrayAfterSep)
      modifies stack, this`err, this`depth
      ensures Leaves(w, str, obj, act, old(LevelRank(stack[depth])))
    {
      hide RunFrom, ModeOf, Step, LevelOk, StateRank, LevelRank, Frames, Waiting;
      var c, t := str[charOffset], stack[depth];
      ghost var m := Abs(obj);
      ArrayCase(m, t, Scr(), obj, c);
      if c == ']' {
        act := GoNext(w, str, obj, m, t.(saved := Finish, state := EatWs));
      } else if depth >= maxDepth - 1 {
        act := FailAt(w, str, obj, m, TooDeep);
      } else {
        act := GoPush(w, str, obj, m, t.(state := ArrayAdd));
      }
    }

    method DoArrayAdd(ghost w: Final, str: string, obj: Json) returns (act: Act)
      requires Examines(w, str, obj) && stack[depth].state == ArrayAdd
      modifies stack
      ensures Leaves(w, str, obj, act, old(LevelRank(stack[depth])))
    {
      hide RunFrom, ModeOf, Step, LevelOk, StateRank, LevelRank, Frames, Waiting;
      var c, t := str[charOffset], stack[depth];
      ghost var m := Abs(obj);
      ArrayAddCase(m, t, Scr(), obj, c);
      act := GoRedo(w, str, obj, m, t.(current := Arr(Elems(t.current) + [obj]), saved := ArraySep, state := EatWs));
    }

    method DoArraySep(ghost w: Final, str: string, ghost obj: Json) returns (act: Act)
      requires Examines(w, str, obj) && stack[depth].state == ArraySep
      modifies stack, this`err
      ensures Leaves(w, str, obj, act, old(LevelRank(stack[depth])))
    {
      hide RunFrom, ModeOf, Step, LevelOk, StateRank, LevelRank, Frames, Waiting;
      var c, t := str[charOffset], stack[depth];
      ghost var m := Abs(obj);
      ArraySepCase(m, t, Scr(), obj, c);
      if c == ']' {
        act := GoNext(w, str, obj, m, t.(saved := Finish, state := EatWs));
      } else if c == ',' {
        act := GoNext(w, str, obj, m, t.(saved := ArrayAfterSep, state := EatWs));
      } else {
        act := FailAt(w, str, obj, m, ArraySeparator);
      }
    }

    method DoFieldOpen(ghost w: Final, str: string, ghost obj: Json) returns (act: Act)
      requires Examines(w, str, obj) && (stack[depth].state == FieldOpen || stack[depth].state == FieldOpenAfterSep)
      modifies stack, this`err, this`pb, this`quoteChar
      ensures Leaves(w, str, obj, act, old(LevelRank(stack[depth])))
    {
      hide RunFrom, ModeOf, Step, LevelOk, StateRank, LevelRank, Frames, Waiting;
      var c, t := str[charOffset], stack[depth];
      ghost var m := Abs(obj);
      FieldOpenCase(m, t, Scr(), obj, c);
      if c == '}' {
        act := GoNext(w, str, obj, m, t.(saved := Finish, state := EatWs));
      } else if c == '\"' || c == '\'' {
        quoteChar, pb := c, "";
        act := GoNext(w, str, obj, m, t.(state := FieldName));
      } else {
        act := FailAt(w, str, obj, m, KeyName);
      }
    }

    method DoFieldEnd(ghost w: Final, str: string, ghost obj: Json) returns (act: Act)
      requires Examines(w, str, obj) && stack[depth].state == FieldEnd
      modifies stack, this`err
      ensures Leaves(w, str, obj, act, old(LevelRank(stack[depth])))
    {
      hide RunFrom, ModeOf, Step, LevelOk, StateRank, LevelRank, Frames, Waiting;
      var c, t := str[charOffset], stack[depth];
      ghost var m := Abs(obj);
      FieldEndCase(m, t, Scr(), obj, c);
      if c == ':' {
        act := GoNext(w, str, obj, m, t.(saved := FieldValue, state := EatWs));
      } else {
        act := FailAt(w, str, obj, m, KeySeparator);
      }
    }

    method DoFieldValue(ghost w: Final, str: string, ghost obj: Json) returns (act: Act)
      requires Examines(w, str, obj) && stack[depth].state == FieldValue
      modifies stack, this`err, this`depth
      ensures Leaves(w, str, obj, act, old(LevelRank(stack[depth])))
    {
      hide RunFrom, ModeOf, Step, LevelOk, StateRank, LevelRank, Frames, Waiting;
      var c, t := str[charOffset], stack[depth];
      ghost var m := Abs(obj);
      FieldValueCase(m, t, Scr(), obj, c);
      if depth >= maxDepth - 1 {
        act := FailAt(w, str, obj, m, TooDeep);
      } else {
        act := GoPush(w, str, obj, m, t.(state := ValueAdd));
      }
    }

    method DoValueAdd(ghost w: Final, str: string, obj: Json) returns (act: Act)
      requires Examines(w, str, obj) && stack[depth].state == ValueAdd
      modifies stack
      ensures Leaves(w, str, obj, act, old(LevelRank(stack[depth])))
    {
      hide RunFrom, ModeOf, Step, LevelOk, StateRank, LevelRank, Frames, Waiting;
      var c, t := str[charOffset], stack[depth];
      ghost var m := Abs(obj);
      ValueAddCase(m, t, Scr(), obj, c);
      act := GoRedo(w, str, obj, m, AddedValue(t, obj));
    }

    method DoObjectSep(ghost w: Final, str: string, ghost obj: Json) returns (act: Act)
      requires Examines(w, str, obj) && stack[depth].state == ObjectSep
      modifies stack, this`err
      ensures Leaves(w, str, obj, act, old(LevelRank(stack[depth])))
    {
      hide RunFrom, ModeOf, Step, LevelOk, StateRank, LevelRank, Frames, Waiting;
      var c, t := str[charOffset], stack[depth];
      ghost var m := Abs(obj);
      ObjectSepCase(m, t, Scr(), obj, c);
      if c == '}' {
        act := GoNext(w, str, obj, m, t.(saved := Finish, state := EatWs));
      } else if c == ',' {
        act := GoNext(w, str, obj, m, t.(saved := FieldOpenAfterSep, state := EatWs));
      } else {
        act := FailAt(w, str, obj, m, ValueSeparator);
      }
    }

    // ---- White space, the first character of a value, the end of a value ------

    /** PEEK_CHAR with no character left. */
    method PeekEnd(ghost w: Final, str: string, ghost obj: Json) returns (act: Act)
      requires At(w, str, obj, charOffset) && charOffset == |str| && Resting(stack[depth], Scr())
      modifies this`err
      ensures act == Out && Ends(w, str)
    {
      hide ModeOf, Step, LevelOk, StateRank, Feed, Frames, Waiting;
      RestingCase(Abs(obj), stack[depth], Scr(), obj);
      if depth == 0 && stack[depth].state == EatWs && stack[depth].saved == Finish {
        err := Success;
      } else {
        err := Continue;
      }
      act := Out;
    }

    method DoEatWs(ghost w: Final, str: string, ghost obj: Json) returns (act: Act)
      requires Examines(w, str, obj) && stack[depth].state == EatWs
      modifies stack, this`err, this`charOffset
      ensures Leaves(w, str, obj, act, old(LevelRank(stack[depth])))
      ensures old(charOffset) <= charOffset <= |str|
    {
      hide RunFrom, ModeOf, Step, LevelOk, StateRank, LevelRank, Feed, Awake, Frames, Waiting;
      var c, t := str[charOffset], stack[depth];
      ghost var m := Abs(obj);
      while Space(c)
        invariant charOffset < |str| && c == str[charOffset] && stack[depth] == t
        invariant old(charOffset) <= charOffset
        invariant At(w, str, obj, charOffset) && Abs(obj) == m && LevelOk(t, Scr())
        decreases |str| - charOffset
      {
        EatWsCase(m, t, Scr(), obj, c);
        RunMore(m, m, str, charOffset);
        charOffset := charOffset + 1;
        if charOffset == |str| {
          act := PeekEnd(w, str, obj);
          return;
        }
        c := str[charOffset];
      }
      EatWsCase(m, t, Scr(), obj, c);
      if c == '/' {
        act := FailAt(w, str, obj, m, Outside);
      } else {
        act := GoRedo(w, str, obj, m, t.(state := t.saved));
      }
    }

    method DoStart(ghost w: Final, str: string, ghost obj: Json) returns (act: Act)
      requires Examines(w, str, obj) && stack[depth].state == StStart
      modifies stack, this`err, this`pb, this`stPos, this`quoteChar, this`isDouble
      ensures Leaves(w, str, obj, act, old(LevelRank(stack[depth])))
    {
      hide RunFrom, ModeOf, Step, LevelOk, StateRank, LevelRank, Awake, Frames, Waiting;
      var c, t := str[charOffset], stack[depth];
      ghost var m := Abs(obj);
      StartCase(m, t, Scr(), obj, c);
      StartWordCase(m, t, Scr(), obj, c);
      if c == '{' {
        act := GoNext(w, str, obj, m, t.(state := EatWs, saved := FieldOpen, current := Obj([])));
      } else if c == '[' {
        act := GoNext(w, str, obj, m, t.(state := EatWs, saved := Array, current := Arr([])));
      } else if c == 'I' || c == 'i' {
        act := FailAt(w, str, obj, m, Outside);
      } else if c == 'N' || c == 'n' {
        pb, stPos := "", 0;
        act := GoRedo(w, str, obj, m, t.(state := InNull));
      } else if c == '\'' || c == '\"' {
        pb, quoteChar := "", c;
        act := GoNext(w, str, obj, m, t.(state := InString));
      } else if c == 'T' || c == 't' || c == 'F' || c == 'f' {
        pb, stPos := "", 0;
        act := GoRedo(w, str, obj, m, t.(state := InBoolean));
      } else if IsDigit(c) || c == '-' {
        pb, isDouble := "", false;
        act := GoRedo(w, str, obj, m, t.(state := InNumber));
      } else {
        act := FailAt(w, str, obj, m, Unexpected);
      }
    }

    method DoFinish(ghost w: Final, str: string, obj0: Json) returns (act: Act, obj: Json)
      requires Examines(w, str, obj0) && stack[depth].state == Finish
      modifies stack, this`err, this`depth
      ensures Leaves(w, str, obj, act, old(LevelRank(stack[depth])))
      ensures act != Next
    {
      hide ModeOf, Step, LevelOk, StateRank, LevelRank, Awake, FrameOf, Feed, RunFrom, Frames, Waiting;
      var c, t := str[charOffset], stack[depth];
      ghost var m := Abs(obj0);
      FinishCase(m, t, Scr(), obj0, c);
      if depth == 0 {
        obj := obj0;
        RunValue(m, t.current, str, charOffset);
        err := Success;
        act := Out;
      } else {
        obj := t.current;
        ghost var below := stack[..depth];
        assert forall i :: 0 <= i < |below| ==> Waiting(below[i]);
        FramesPop(below);
        stack[depth] := FRESH_LEVEL;  // json_tokener_reset_level
        depth := depth - 1;
        assert stack[..depth] == below[..depth] && stack[depth] == below[depth];
        FinishPops(m, t, below, Scr(), obj, c);
        RunRedo(m, Abs(obj), str, charOffset);
        act := Redo;
      }
    }

    // ---- Words and numbers ---------------------------------------------------

    method DoNull(ghost w: Final, str: string, ghost obj: Json) returns (act: Act)
      requires Examines(w, str, obj) && stack[depth].state == InNull
      modifies stack, this`err, this`pb, this`stPos
      ensures Leaves(w, str, obj, act, old(LevelRank(stack[depth])))
    {
      hide RunFrom, ModeOf, Step, LevelOk, StateRank, LevelRank, Awake, CaseEq, Frames, Waiting, Passes, Consumes, Leaves;
      var c, t := str[charOffset], stack[depth];
      ghost var m := Abs(obj);
      NullCase(m, t, Scr(), obj, c);
      pb := pb + [c];
      if CaseEq("null", pb, Min(stPos + 1, 4)) {
        if stPos == 4 {
          act := GoRedo(w, str, obj, m, Ended(t, Null));
          return;
        }
      } else if CaseEq("nan", pb, Min(stPos + 1, 3)) {
        act := FailAt(w, str, obj, m, Outside);
        return;
      } else {
        act := FailAt(w, str, obj, m, NullExpected);
        return;
      }
      stPos := stPos + 1;
      act := GoNext(w, str, obj, m, t);
    }

    method DoBoolean(ghost w: Final, str: string, ghost obj: Json) returns (act: Act)
      requires Examines(w, str, obj) && stack[depth].state == InBoolean
      modifies stack, this`err, this`pb, this`stPos
      ensures Leaves(w, str, obj, act, old(LevelRank(stack[depth])))
    {
      hide RunFrom, ModeOf, Step, LevelOk, StateRank, LevelRank, Awake, CaseEq, Frames, Waiting, Passes, Consumes, Leaves;
      var c, t := str[charOffset], stack[depth];
      ghost var m := Abs(obj);
      BooleanCase(m, t, Scr(), obj, c);
      pb := pb + [c];
      if CaseEq("true", pb, Min(stPos + 1, 4)) {
        if stPos == 4 {
          act := GoRedo(w, str, obj, m, Ended(t, Bool(true)));
          return;
        }
      } else if CaseEq("false", pb, Min(stPos + 1, 5)) {
        if stPos == 5 {
          act := GoRedo(w, str, obj, m, Ended(t, Bool(false)));
          return;
        }
      } else {
        act := FailAt(w, str, obj, m, BooleanExpected);
        return;
      }
      stPos := stPos + 1;
      act := GoNext(w, str, obj, m, t);
    }

    lemma AtIsVirtual(w: Final, str: string, obj: Json, m: Machine, i: nat)
      requires Sized() && WaitingBelow() && m.maxDepth == maxDepth && m.stack == Below()
      ensures At(w, str, obj, i) <==> VirtualAt(w, str, m, stack[depth], obj, Scr(), i)
    {
      hide RunFrom, LevelOk, Waiting, Frames, ModeOf;
    }

    lemma NumberBegins(w: Final, str: string, obj: Json)
      requires Examines(w, str, obj) && stack[depth].state == InNumber
      ensures charOffset < |str| && Sized() && At(w, str, obj, charOffset)
      ensures pb == "" ==> IsDigit(str[charOffset]) || str[charOffset] == '-'
    {
      hide RunFrom, Frames, Waiting;
      NumberStarts(Abs(obj), stack[depth], Scr(), obj, str[charOffset]);
    }

    /** The tight loop of the number state; true if the piece is used up. */
    method ScanNumber(ghost w: Final, str: string, ghost obj: Json) returns (atEnd: bool)
      requires Examines(w, str, obj) && stack[depth].state == InNumber
      modifies this`pb, this`isDouble, this`charOffset
      ensures old(charOffset) <= charOffset <= |str| && At(w, str, obj, charOffset)
      ensures stack[depth] == old(stack[depth]) && atEnd == (charOffset == |str|)
      ensures pb != "" && (!atEnd ==> !NumChar(str[charOffset]))
    {
      hide RunFrom, ModeOf, Step, LevelOk, Feed, Awake, NumChar, IsDouble, IsDigit, Frames, StateRank, Waiting,
        VirtualAt;
      NumberBegins(w, str, obj);
      var c := str[charOffset];
      var caseStart := charOffset;
      ghost var x, m, t := Scr(), Abs(obj), stack[depth];
      AtIsVirtual(w, str, obj, m, charOffset);
      atEnd := false;
      while !atEnd && NumChar(c)
        invariant caseStart <= charOffset <= |str| && atEnd == (charOffset == |str|)
        invariant !atEnd ==> c == str[charOffset]
        invariant x == Scr().(pb := x.pb) && x.pb == pb + str[caseStart..charOffset]
        invariant VirtualAt(w, str, m, t, obj, x, charOffset)
        invariant x.pb == "" ==> !atEnd && (IsDigit(c) || c == '-')
        decreases |str| - charOffset
      {
        NumberMoves(w, str, m, t, obj, x, charOffset);
        x := x.(pb := x.pb + [c], isDouble := x.isDouble || c == '.' || c == 'e' || c == 'E');
        if c == '.' || c == 'e' || c == 'E' {
          isDouble := true;
        }
        SliceGrows(str, caseStart, charOffset, pb);
        charOffset := charOffset + 1;
        if charOffset == |str| {
          atEnd := true;
        } else {
          c := str[charOffset];
        }
      }
      if x.pb == "" { SignOrDigit(c); }
      pb := pb + str[caseStart..charOffset];
      assert x == Scr();
      AtIsVirtual(w, str, obj, m, charOffset);
    }

    method DoNumber(ghost w: Final, str: string, ghost obj: Json) returns (act: Act)
      requires Examines(w, str, obj) && stack[depth].state == InNumber
      modifies stack, this`err, this`pb, this`isDouble, this`charOffset
      ensures Leaves(w, str, obj, act, old(LevelRank(stack[depth])))
      ensures old(charOffset) <= charOffset <= |str|
    {
      hide RunFrom, ModeOf, Step, LevelOk, StateRank, LevelRank, Feed, Awake, NumChar, ParseInt64, Frames, Waiting;
      var t := stack[depth];
      var atEnd := ScanNumber(w, str, obj);
      if atEnd {
        act := PeekEnd(w, str, obj);
        return;
      }
      var c := str[charOffset];
      ghost var m := Abs(obj);
      NumberEnds(m, t, Scr(), obj, c);
      if pb[0] == '-' && (c == 'i' || c == 'I') {
        act := FailAt(w, str, obj, m, Outside);
      } else if isDouble {
        act := FailAt(w, str, obj, m, Outside);
      } else {
        match ParseInt64(pb) {
          case None => act := FailAt(w, str, obj, m, NumberExpected);
          case Some(num64) => act := GoRedo(w, str, obj, m, Ended(t, Int(num64)));
        }
      }
    }

    // ---- Strings ---------------------------------------------------------------

    /** The tight loop of the string and field-name states: it stops at the closing
        quote, at a backslash, past a NUL, or at the end of the piece. */
    method ScanText(ghost w: Final, str: string, ghost obj: Json) returns (stop: TextStop)
      requires Examines(w, str, obj) && InText(stack[depth].state)
      modifies this`pb, this`charOffset
      ensures old(charOffset) <= charOffset <= |str|
      ensures stop == AtNul ==> w == Failed(Eof)
      ensures stop != AtNul ==> At(w, str, obj, charOffset) && (stop == AtEnd <==> charOffset == |str|)
      ensures stop == AtQuote ==> str[charOffset] == quoteChar
      ensures stop == AtBackslash ==> str[charOffset] == '\\'
    {
      hide RunFrom, ModeOf, Step, LevelOk, Feed, Awake, Frames, StateRank, InText, Waiting, VirtualAt;
      var c := str[charOffset];
      var caseStart := charOffset;
      ghost var x, m, t := Scr(), Abs(obj), stack[depth];
      AtIsVirtual(w, str, obj, m, charOffset);
      stop := AtEnd;
      while true
        invariant caseStart <= charOffset < |str| && c == str[charOffset]
        invariant x == Scr().(pb := x.pb) && x.pb == pb + str[caseStart..charOffset]
        invariant VirtualAt(w, str, m, t, obj, x, charOffset)
        decreases |str| - charOffset
      {
        TextMoves(w, str, m, t, obj, x, charOffset);
        if c == quoteChar {
          stop := AtQuote;
          break;
        } else if c == '\\' {
          stop := AtBackslash;
          break;
        }
        x := x.(pb := x.pb + [c]);
        SliceGrows(str, caseStart, charOffset, pb);
        charOffset := charOffset + 1;
        if c == '\0' {
          stop := AtNul;
          break;
        }
        if charOffset == |str| {
          stop := AtEnd;
          break;
        }
        c := str[charOffset];
      }
      pb := pb + str[caseStart..charOffset];
      assert x == Scr();
      AtIsVirtual(w, str, obj, m, charOffset);
    }

    method DoString(ghost w: Final, str: string, ghost obj: Json) returns (act: Act)
      requires Examines(w, str, obj) && stack[depth].state == InString
      modifies stack, this`err, this`pb, this`charOffset
      ensures Leaves(w, str, obj, act, old(LevelRank(stack[depth])))
      ensures old(charOffset) <= charOffset <= |str|
    {
      hide RunFrom, ModeOf, Step, StateRank, LevelRank, Feed, Awake, FrameOf, Waiting, Frames;
      var t := stack[depth];
      var stop := ScanText(w, str, obj);
      ghost var m := Abs(obj);
      match stop {
        case AtEnd => act := PeekEnd(w, str, obj);
        case AtNul => err := Error(Eof); act := Out;
        case AtQuote =>
          TextEnds(m, t, Scr(), obj, str[charOffset]);
          act := GoNext(w, str, obj, m, Ended(t, Str(pb)));
        case AtBackslash =>
          TextEnds(m, t, Scr(), obj, str[charOffset]);
          act := GoNext(w, str, obj, m, t.(saved := InString, state := StringEscape));
      }
    }

    method DoFieldName(ghost w: Final, str: string, ghost obj: Json) returns (act: Act)
      requires Examines(w, str, obj) && stack[depth].state == FieldName
      modifies stack, this`err, this`pb, this`charOffset
      ensures Leaves(w, str, obj, act, old(LevelRank(stack[depth])))
      ensures old(charOffset) <= charOffset <= |str|
    {
      hide RunFrom, ModeOf, Step, StateRank, LevelRank, Feed, Awake, FrameOf, Waiting, CStr, Frames;
      var t := stack[depth];
      var stop := ScanText(w, str, obj);
      ghost var m := Abs(obj);
      match stop {
        case AtEnd => act := PeekEnd(w, str, obj);
        case AtNul => err := Error(Eof); act := Out;
        case AtQuote =>
          NameEnds(m, t, Scr(), obj, str[charOffset]);
          act := GoNext(w, str, obj, m, t.(fieldName := CStr(pb), saved := FieldEnd, state := EatWs));
        case AtBackslash =>
          NameEnds(m, t, Scr(), obj, str[charOffset]);
          act := GoNext(w, str, obj, m, t.(saved := FieldName, state := StringEscape));
      }
    }

    method DoEscape(ghost w: Final, str: string, ghost obj: Json) returns (act: Act)
      requires Examines(w, str, obj) && stack[depth].state == StringEscape
      modifies stack, this`err, this`pb, this`stPos, this`ucsChar
      ensures Leaves(w, str, obj, act, old(LevelRank(stack[depth])))
    {
      hide RunFrom, ModeOf, Step, LevelOk, StateRank, LevelRank, Awake, FrameOf, Waiting, Frames;
      var c, t := str[charOffset], stack[depth];
      ghost var m := Abs(obj);
      EscapeCase(m, t, Scr(), obj, c);
      match c {
        case '\"' => pb := pb + [c];
        case '\\' => pb := pb + [c];
        case '/' => pb := pb + [c];
        case 'b' => pb := pb + ['\U{8}'];
        case 'n' => pb := pb + ['\n'];
        case 'r' => pb := pb + ['\r'];
        case 't' => pb := pb + ['\t'];
        case 'f' => pb := pb + ['\U{C}'];
        case 'u' =>
          ucsChar, stPos := 0, 0;
          act := GoNext(w, str, obj, m, t.(state := EscapeUnicode));
          return;
        case _ =>
          act := FailAt(w, str, obj, m, StringSequence);
          return;
      }
      act := GoNext(w, str, obj, m, t.(state := t.saved));
    }

    // ---- \u escapes ------------------------------------------------------------

    /** The machine inside a \u escape; gotHi is the local of the source. */
    ghost function UniMachine(gotHi: nat): Machine
      requires Sized()
      reads this, stack
    {
      Machine(maxDepth, Below(), UniMode(stack[depth], Scr(), gotHi))
    }

    ghost predicate UniAt(w: Final, str: string, gotHi: nat, i: nat)
      reads this, stack
    {
      && Sized() && WaitingBelow() && LevelOk(stack[depth], Scr()) && stack[depth].state == EscapeUnicode
      && i <= |str| && w == RunFrom(UniMachine(gotHi), str, i)
      && (gotHi != 0 ==> stPos < 4)
    }

    /** The machine after the escape, back in the text of the string. */
    ghost function TextMachine(x: Scratch, esc: Esc): Machine
      requires Sized()
      reads this`depth, stack
    {
      Machine(maxDepth, Below(), StrMode(stack[depth], stack[depth].saved == FieldName, x, esc))
    }

    /** What the fourth digit completes: true if it is a high surrogate, which is
        left in ucsChar. */
    method CompleteCode(gotHi: nat) returns (high: bool)
      modifies this`pb, this`ucsChar
      ensures var o := Completed(old(pb), old(ucsChar), gotHi);
        o.Cont? && pb == o.pb && (if high then o.esc == HiPend(ucsChar) && ucsChar > 0 else o.esc == Plain)
    {
      if gotHi != 0 {
        if IsLow(ucsChar) {
          ucsChar := DecodePair(gotHi, ucsChar);
        } else {
          pb := pb + REPLACEMENT;
        }
      }
      high := false;
      if ucsChar < 0x800 {
        pb := pb + Utf8(ucsChar);
      } else if IsHigh(ucsChar) {
        high := true;
      } else if IsLow(ucsChar) {
        pb := pb + REPLACEMENT;
      } else {
        pb := pb + Utf8(ucsChar);
      }
    }

    /** One more hexadecimal digit that is not the last. */
    method AddDigit(ghost w: Final, str: string, gotHi: nat)
      requires UniAt(w, str, gotHi, charOffset) && charOffset < |str| && HexChar(str[charOffset]) && stPos < 3
      modifies this`stPos, this`ucsChar, this`charOffset
      ensures UniAt(w, str, gotHi, charOffset) && charOffset == old(charOffset) + 1 && stPos == old(stPos) + 1
    {
      hide RunFrom, Step, LevelOk, Feed, StrMode, HexValue, HexChar, Frames, Waiting;
      ghost var m, x := UniMachine(gotHi), Scr();
      var c := str[charOffset];
      DigitCase(m, stack[depth], x, gotHi, c);
      ucsChar := ucsChar + HexValue(c) * DigitWeight(stPos);
      stPos := stPos + 1;
      EscapeOk(stack[depth], x, Scr());
      RunMoreMode(m, UniMode(stack[depth], Scr(), gotHi), str, charOffset);
      charOffset := charOffset + 1;
    }

    /** The fourth digit; afterwards charOffset still stands on it. */
    method LastDigit(ghost w: Final, str: string, gotHi: nat) returns (high: bool)
      requires UniAt(w, str, gotHi, charOffset) && charOffset < |str| && HexChar(str[charOffset]) && stPos == 3
      modifies this`pb, this`stPos, this`ucsChar
      ensures Sized() && WaitingBelow() && LevelOk(stack[depth], Scr()) && str[charOffset] != '\0'
      ensures stPos == 4 && (high ==> ucsChar > 0)
      ensures w == RunFrom(TextMachine(Scr(), if high then HiPend(ucsChar) else Plain), str, charOffset + 1)
    {
      hide RunFrom, Step, Feed, StrMode, HexValue, HexChar, Completed, UniMode, Frames, Waiting, LevelOk;
      ghost var m, x := UniMachine(gotHi), Scr();
      var c := str[charOffset];
      LastDigitCase(m, stack[depth], x, gotHi, c);
      ucsChar := ucsChar + HexValue(c) * DigitWeight(stPos);
      stPos := stPos + 1;
      high := CompleteCode(gotHi);
      EscapeOk(stack[depth], x, Scr());
      ScratchOnly(stack[depth], x, Scr(), if high then HiPend(ucsChar) else Plain);
      RunMoreMode(m, StrMode(stack[depth], stack[depth].saved == FieldName, Scr(), if high then HiPend(ucsChar) else Plain), str, charOffset);
    }

    /** The escape is complete: back to the state it interrupted. */
    method LeaveEscape(ghost w: Final, str: string, ghost obj: Json) returns (act: Act)
      requires Sized() && WaitingBelow() && LevelOk(stack[depth], Scr()) && stack[depth].state == EscapeUnicode
      requires charOffset < |str| && str[charOffset] != '\0'
      requires w == RunFrom(TextMachine(Scr(), Plain), str, charOffset + 1)
      modifies stack
      ensures act == Next && forall rank :: Leaves(w, str, obj, act, rank)
    {
      hide RunFrom, LevelOk, Resting, Waiting, Frames;
      var t := stack[depth];
      EscapeOk(t, Scr(), Scr());
      LeftMode(t, Scr(), obj);
      Put(t.(state := t.saved));
      act := Next;
    }

    /** The piece ends inside the escape. */
    method EscapeEnds(ghost w: Final, str: string, gotHi: nat) returns (act: Act)
      requires UniAt(w, str, gotHi, charOffset) && charOffset == |str| && (gotHi != 0 ==> stPos > 0)
      modifies this`pb, this`err
      ensures act == Out && Ends(w, str)
    {
      hide LevelOk, Resting, Waiting, Frames, Feed;
      ghost var t, x := stack[depth], Scr();
      UniEnds(UniMachine(gotHi), t, x, gotHi);
      if gotHi != 0 {
        pb := pb + REPLACEMENT;
      }
      EscapeOk(t, x, Scr());
      err := Continue;
      act := Out;
    }

    /** The piece ends after a high surrogate and `\u`; st_pos still says 4. */
    method TornPair(ghost w: Final, str: string, ghost high: nat) returns (act: Act)
      requires Sized() && WaitingBelow() && LevelOk(stack[depth], Scr()) && stack[depth].state == EscapeUnicode
      requires charOffset == |str| && stPos == 4 && high != 0
      requires w == RunFrom(TextMachine(Scr(), Uni(0, 0, high)), str, charOffset)
      modifies this`pb, this`err
      ensures act == Out && Ends(w, str)
    {
      hide LevelOk, Resting, Waiting, Frames, Feed;
      ghost var t, x := stack[depth], Scr();
      TornEnds(TextMachine(x, Uni(0, 0, high)), t, x, high);
      pb := pb + REPLACEMENT;
      EscapeOk(t, x, Scr());
      err := Continue;
      act := Out;
    }

    method DoUnicode(ghost w: Final, str: string, ghost obj: Json) returns (act: Act)
      requires Examines(w, str, obj) && stack[depth].state == EscapeUnicode
      modifies stack, this`err, this`pb, this`stPos, this`ucsChar, this`charOffset
      ensures Leaves(w, str, obj, act, old(LevelRank(stack[depth])))
      ensures old(charOffset) <= charOffset <= |str|
    {
      hide RunFrom, Step, LevelOk, Feed, StrMode, HexChar, Frames, Waiting, Awake, LevelRank, StateRank, TextMachine, ModeOf, Resting, HexValue, Ends, Examines, At;
      var gotHi: nat := 0;
      UniStarts(w, str, obj);
      while true
        invariant old(charOffset) <= charOffset < |str| && UniAt(w, str, gotHi, charOffset)
        invariant stack[depth] == old(stack[depth])
        decreases |str| - charOffset
      {
        var c := str[charOffset];
        if !HexChar(c) || stPos >= 4 {
          act := BadDigit(w, str, obj, gotHi);
          return;
        }
        if stPos < 3 {
          AddDigit(w, str, gotHi);
          if charOffset == |str| {
            act := EscapeEnds(w, str, gotHi);
            return;
          }
        } else {
          var go;
          go, act, gotHi := FourthDigit(w, str, obj, gotHi);
          if !go { return; }
        }
      }
    }

    /** The last digit of an escape: the string goes on, or go tells that the second
        half of a surrogate pair follows. */
    method FourthDigit(ghost w: Final, str: string, ghost obj: Json, hi: nat) returns (go: bool, act: Act, gotHi: nat)
      requires UniAt(w, str, hi, charOffset) && charOffset < |str| && HexChar(str[charOffset]) && stPos == 3
      modifies stack, this`err, this`pb, this`stPos, this`ucsChar, this`charOffset
      ensures old(charOffset) <= charOffset <= |str|
      ensures go ==> old(charOffset) < charOffset < |str| && UniAt(w, str, gotHi, charOffset)
      ensures go ==> stack[depth] == old(stack[depth])
      ensures !go ==> Leaves(w, str, obj, act, old(LevelRank(stack[depth])))
    {
      hide RunFrom, Step, LevelOk, Feed, StrMode, HexChar, Frames, Awake, LevelRank, StateRank, TextMachine, ModeOf,
        Resting, HexValue, Ends, Examines, At;
      var high := LastDigit(w, str, hi);
      go, gotHi, act := false, 0, Out;
      if !high {
        act := LeaveEscape(w, str, obj);
        return;
      }
      gotHi := ucsChar;
      if charOffset + 1 != |str| && charOffset + 2 != |str| && str[charOffset + 1] == '\\' && str[charOffset + 2] == 'u' {
        PairMoves(w, str, gotHi, charOffset + 1);
        charOffset := charOffset + 3;
        if charOffset == |str| {
          act := TornPair(w, str, gotHi);
          return;
        }
        StartSecond(w, str, gotHi);
        go := true;
      } else {
        NoPair(w, str, gotHi, charOffset + 1);
        EscapeOk(stack[depth], Scr(), Scr().(pb := pb + REPLACEMENT));
        pb := pb + REPLACEMENT;
        act := LeaveEscape(w, str, obj);
      }
    }

    method BadDigit(ghost w: Final, str: string, ghost obj: Json, ghost gotHi: nat) returns (act: Act)
      requires UniAt(w, str, gotHi, charOffset) && charOffset < |str|
      requires !HexChar(str[charOffset]) || stPos >= 4
      modifies this`err
      ensures act == Out && Ends(w, str)
    {
      hide RunFrom, LevelOk, Feed, HexChar, Frames, Waiting;
      var c := str[charOffset];
      StrStep(UniMachine(gotHi), stack[depth], stack[depth].saved == FieldName, Scr(),
              if stPos >= 4 then Torn else Uni(stPos, ucsChar, gotHi), c);
      EscapeOk(stack[depth], Scr(), Scr());
      act := FailAt(w, str, obj, UniMachine(gotHi), if HexChar(c) then Outside else StringSequence);
      assert Leaves(w, str, obj, act, 0);
    }

    method StartSecond(ghost w: Final, str: string, ghost high: nat)
      requires Sized() && WaitingBelow() && LevelOk(stack[depth], Scr()) && stack[depth].state == EscapeUnicode
      requires charOffset <= |str|
      requires w == RunFrom(TextMachine(Scr(), Uni(0, 0, high)), str, charOffset)
      modifies this`stPos, this`ucsChar
      ensures UniAt(w, str, high, charOffset)
    {
      hide RunFrom, LevelOk, Frames, Waiting;
      ghost var x := Scr();
      ucsChar, stPos := 0, 0;
      EscapeOk(stack[depth], x, Scr());
    }

    lemma UniStarts(w: Final, str: string, obj: Json)
      requires Examines(w, str, obj) && stack[depth].state == EscapeUnicode
      ensures charOffset < |str| && UniAt(w, str, 0, charOffset)
    {
      hide RunFrom, LevelOk, Waiting, Frames, StrMode;
    }

    lemma PairMoves(w: Final, str: string, high: nat, i: nat)
      requires Sized() && i + 1 < |str| && str[i] == '\\' && str[i + 1] == 'u'
      requires w == RunFrom(TextMachine(Scr(), HiPend(high)), str, i)
      ensures w == RunFrom(TextMachine(Scr(), Uni(0, 0, high)), str, i + 2)
    {
      hide RunFrom, Frames, Step, StrMode, Feed, Waiting;
      var t := stack[depth];
      var field := t.saved == FieldName;
      StrStep(TextMachine(Scr(), HiPend(high)), t, field, Scr(), HiPend(high), '\\');
      RunMoreMode(TextMachine(Scr(), HiPend(high)), StrMode(t, field, Scr(), HiBack(high)), str, i);
      StrStep(TextMachine(Scr(), HiBack(high)), t, field, Scr(), HiBack(high), 'u');
      RunMoreMode(TextMachine(Scr(), HiBack(high)), StrMode(t, field, Scr(), Uni(0, 0, high)), str, i + 1);
    }

    /** A high surrogate that is not followed by \u in this piece is replaced. */
    lemma NoPair(w: Final, str: string, high: nat, i: nat)
      requires Sized() && i <= |str| && LevelOk(stack[depth], Scr()) && stack[depth].state == EscapeUnicode
      requires i == |str| || i + 1 == |str| || str[i] != '\\' || str[i + 1] != 'u'
      requires w == RunFrom(TextMachine(Scr(), HiPend(high)), str, i)
      ensures w == RunFrom(TextMachine(Scr().(pb := pb + REPLACEMENT), Plain), str, i)
    {
      hide RunFrom, Frames, Step, Feed, LevelOk, Waiting;
      EscapeOk(stack[depth], Scr(), Scr());
      NoPairRuns(TextMachine(Scr(), HiPend(high)), stack[depth], Scr(), high, str, i);
    }

    // ---- The main loop -----------------------------------------------------------

    method SwitchContainers(ghost w: Final, str: string, obj: Json) returns (act: Act)
      requires Examines(w, str, obj) && (InArray(stack[depth].state) || InObject(stack[depth].state))
      modifies this, stack
      ensures Leaves(w, str, obj, act, old(LevelRank(stack[depth])))
      ensures old(charOffset) <= charOffset <= |str|
    {
      hide RunFrom, ModeOf, Step, LevelOk, StateRank, LevelRank, Awake, Feed, Frames, Waiting, Leaves, Resting;
      match stack[depth].state {
        case Array => act := DoArray(w, str, obj);
        case ArrayAfterSep => act := DoArray(w, str, obj);
        case ArrayAdd => act := DoArrayAdd(w, str, obj);
        case ArraySep => act := DoArraySep(w, str, obj);
        case FieldOpen => act := DoFieldOpen(w, str, obj);
        case FieldOpenAfterSep => act := DoFieldOpen(w, str, obj);
        case FieldName => act := DoFieldName(w, str, obj);
        case FieldEnd => act := DoFieldEnd(w, str, obj);
        case FieldValue => act := DoFieldValue(w, str, obj);
        case ValueAdd => act := DoValueAdd(w, str, obj);
        case ObjectSep => act := DoObjectSep(w, str, obj);
      }
    }

    /** One pass through the switch. */
    method Switch(ghost w: Final, str: string, obj0: Json) returns (act: Act, obj: Json)
      requires Examines(w, str, obj0)
      modifies this, stack
      ensures Leaves(w, str, obj, act, old(LevelRank(stack[depth])))
      ensures old(charOffset) <= charOffset <= |str|
    {
      hide RunFrom, ModeOf, Step, LevelOk, StateRank, LevelRank, Awake, Feed, Frames, Waiting, Leaves, Resting;
      obj := obj0;
      match stack[depth].state {
        case EatWs => act := DoEatWs(w, str, obj);
        case StStart => act := DoStart(w, str, obj);
        case Finish => act, obj := DoFinish(w, str, obj);
        case InNull => act := DoNull(w, str, obj);
        case InBoolean => act := DoBoolean(w, str, obj);
        case InNumber => act := DoNumber(w, str, obj);
        case InString => act := DoString(w, str, obj);
        case StringEscape => act := DoEscape(w, str, obj);
        case EscapeUnicode => act := DoUnicode(w, str, obj);
        case _ => act := SwitchContainers(w, str, obj);
      }
    }

    /** Everything that happens at one character: redo_char until break or out. */
    method OneCharacter(ghost w: Final, str: string, obj0: Json) returns (act: Act, obj: Json)
      requires At(w, str, obj0, charOffset) && charOffset < |str| && Resting(stack[depth], Scr())
      modifies this, stack
      ensures act != Redo && Leaves(w, str, obj, act, 0)
      ensures old(charOffset) <= charOffset <= |str|
    {
      hide RunFrom, ModeOf, Step, LevelOk, StateRank, LevelRank, Feed, Frames, Waiting, Awake, Resting;
      RestingAwake(stack[depth], Scr(), str[charOffset]);
      act, obj := Redo, obj0;
      ghost var rank: nat := LevelRank(stack[depth]) + 1;
      while act == Redo
        invariant old(charOffset) <= charOffset <= |str|
        invariant Leaves(w, str, obj, act, rank)
        decreases rank
      {
        rank := LevelRank(stack[depth]);
        act, obj := Switch(w, str, obj);
      }
    }

    /** Between two pieces, or before the first. */
    ghost predicate Ready()
      reads this, stack
    {
      Live() && Resting(stack[depth], Scr())
    }

    /** json_tokener_parse_ex on one piece of text; a C string is passed with its NUL. */
    method ParseEx(str: string) returns (ret: Json)
      requires Ready()
      modifies this, stack
      ensures Sized()
      ensures match Run(old(Abs(Null)), str)
        case Parsed(v, end) => err == Success && ret == v && charOffset == end && Ready() && Abs(Null) == Init(maxDepth)
        case Paused(m) => err == Continue && ret == Null && charOffset == |str| && Ready() && Abs(Null) == m
        case Failed(e) => err == Error(e) && ret == Null
    {
      hide RunFrom, ModeOf, Step, LevelOk, StateRank, LevelRank, Feed, Frames, Waiting, Awake, Resting;
      ghost var w := Run(Abs(Null), str);
      RestingCase(Abs(Null), stack[depth], Scr(), Null);
      var obj: Json := Null;
      charOffset, err := 0, Success;
      while true
        invariant At(w, str, obj, charOffset) && Resting(stack[depth], Scr())
        decreases |str| - charOffset
      {
        if charOffset == |str| {
          var act := PeekEnd(w, str, obj);
          break;
        }
        var act;
        act, obj := OneCharacter(w, str, obj);
        if act == Out {
          break;
        }
        charOffset := charOffset + 1;
      }
      ret := Null;
      if err == Success {
        ret := stack[depth].current;
        Reset();
      }
    }

    /** json_tokener_reset. */
    method Reset()
      requires Sized()
      modifies stack, this`depth, this`err
      ensures Ready() && Abs(Null) == Init(maxDepth) && err == Success
    {
      var i := depth;
      while i > 0
        invariant 0 <= i <= depth < stack.Length
      {
        stack[i] := FRESH_LEVEL;
        i := i - 1;
      }
      stack[0] := FRESH_LEVEL;
      depth, err := 0, Success;
      FreshOk(Scr(), Null, ' ');
    }

    /** json_tokener_new_ex. */
    constructor (maxDepth: nat)
      requires 0 < maxDepth
      ensures this.maxDepth == maxDepth && fresh(stack)
      ensures Ready() && Abs(Null) == Init(maxDepth)
    {
      this.maxDepth := maxDepth;
      stack := new Level[maxDepth](_ => FRESH_LEVEL);
      depth, pb, stPos, ucsChar, quoteChar, isDouble := 0, "", 0, 0, '\0', false;
      err, charOffset := Success, 0;
      new;
      FreshOk(Scr(), Null, ' ');
    }
  }

  /** json_tokener_parse_verbose: a new tokener and the whole C string s. */
  method Parse(s: string) returns (v: Json, err: TokErr)
    ensures match ParseText(32, s)
      case Parsed(x, _) => v == x && err == Success
      case Failed(e) => v == Null && err == Error(e)
      case Paused(_) => v == Null && err == Continue
  {
    var tok := new Tokener(32);
    v := tok.ParseEx(s + ['\0']);
    err := tok.err;
  }
}
