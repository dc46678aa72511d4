/**
  Whatever the tokener accepts is a text of the grammar, and means the value it returns:
  the machine is followed with the part of a syntax tree that it has read.
*/
module JsonAccepts {
  import opened Shared
  import opened JsonValue
  import opened JsonGrammar
  import opened JsonUnits
  import opened M = JsonMachine
  import opened R = JsonReads

  // ---- Parts of syntax trees -------------------------------------------------------

  /** What has been read on one level. */
  datatype Part =
    | Begun
    | WordPart(letters: string)
    | NumPart(text: string)
    | StrPart(quote: char, us: seq<Unit>, esc: string)
    | Done(x: Text, after: string)
    | ArrPlace(items: seq<Item>, ws: string)                     // an element or the end comes next
    | ObjPlace(members: seq<Member>, ws: string)                 // a key or the end comes next
    | KeyPart(members: seq<Member>, before: string, quote: char, us: seq<Unit>, esc: string)
    | ColonPlace(members: seq<Member>, before: string, quote: char, us: seq<Unit>, ws: string)
    | ValuePlace(members: seq<Member>, key: Key, ws: string)

  function SpellFields(members: seq<Member>): string { "{" + SpellMembers(members) + Sep(|members|) }

  function SpellPart(p: Part): string {
    match p
    case Begun => ""
    case WordPart(letters) => letters
    case NumPart(text) => text
    case StrPart(quote, us, esc) => [quote] + SpellUnits(us) + esc
    case Done(x, after) => Spell(x) + after
    case ArrPlace(items, ws) => "[" + SpellItems(items) + Sep(|items|) + ws
    case ObjPlace(members, ws) => SpellFields(members) + ws
    case KeyPart(members, before, quote, us, esc) => SpellFields(members) + before + [quote] + SpellUnits(us) + esc
    case ColonPlace(members, before, quote, us, ws) => SpellFields(members) + before + SpellQuoted(quote, us) + ws
    case ValuePlace(members, key, ws) => SpellFields(members) + SpellKey(key) + ws
  }

  function WordOf(c: char): M.Word {
    if c == 't' || c == 'T' then WTrue else if c == 'f' || c == 'F' then WFalse else WNull
  }

  predicate Begins(t: string) {
    t != "" && (t[0] == 'n' || t[0] == 'N' || t[0] == 't' || t[0] == 'T' || t[0] == 'f' || t[0] == 'F')
    && |t| <= |M.Text(WordOf(t[0]))| && forall i :: 0 <= i < |t| ==> Lower(t[i]) == M.Text(WordOf(t[0]))[i]
  }

  predicate Quote(c: char) { c == '\"' || c == '\'' }

  ghost predicate PartOk1(p: Part) {
    match p
    case Begun => true
    case WordPart(letters) => Begins(letters)
    case NumPart(text) => text != "" && (DecimalDigit(text[0]) || text[0] == '-') && forall i :: 0 <= i < |text| ==> NumChar(text[i])
    case StrPart(quote, us, esc) => Quote(quote) && UnitsOk(us, quote) && PartOk(esc)
    case Done(x, after) => Ok(x) && Ws(after)
    case ArrPlace(items, ws) => ItemsOk(items) && Ws(ws)
    case ObjPlace(members, ws) => MembersOk(members) && Ws(ws)
    case KeyPart(members, before, quote, us, esc) =>
      MembersOk(members) && Ws(before) && Quote(quote) && UnitsOk(us, quote) && PartOk(esc)
    case ColonPlace(members, before, quote, us, ws) =>
      MembersOk(members) && Ws(before) && Quote(quote) && UnitsOk(us, quote) && Ws(ws)
    case ValuePlace(members, key, ws) => MembersOk(members) && KeyOk(key) && Ws(ws)
  }

  lemma UnitsCarry(us: seq<Unit>, quote: char)
    requires UnitsOk(us, quote)
    ensures Carries(us)
  {
  }

  /** The mode of the machine. */
  ghost function ModeOf(p: Part): Mode
    requires PartOk1(p)
  {
    match p
    case Begun => Start
    case WordPart(letters) => Lit(WordOf(letters[0]), |letters|)
    case NumPart(text) => Num(text)
    case StrPart(quote, us, esc) => InStr(Decoded(us).done, quote, EscOf(Decoded(us).half, esc))
    case Done(x, _) => Full(ValueOf(x))
    case ArrPlace(items, _) => if items == [] then ArrOpen([]) else ArrComma(ValuesOf(items))
    case ObjPlace(members, _) => if members == [] then ObjOpen([]) else ObjComma(FieldsOf(members))
    case KeyPart(members, _, quote, us, esc) =>
      InKey(FieldsOf(members), Decoded(us).done, quote, EscOf(Decoded(us).half, esc))
    case ColonPlace(members, _, _, us, _) => ObjColon(FieldsOf(members), UpToNul(StringOf(us)))
    case ValuePlace(members, key, _) => ObjValue(FieldsOf(members), KeyOf(key))
  }

  function LevelsOf(p: Part): nat {
    match p
    case Done(x, _) => Levels(x)
    case ArrPlace(items, _) => LevelsAll(items)
    case ObjPlace(members, _) => LevelsMembers(members)
    case KeyPart(members, _, _, _, _) => LevelsMembers(members)
    case ColonPlace(members, _, _, _, _) => LevelsMembers(members)
    case ValuePlace(members, _, _) => LevelsMembers(members)
    case _ => 0
  }

  /** A container that waits for the value on the next level. */
  ghost predicate Waits(p: Part) { PartOk1(p) && (p.ArrPlace? || p.ValuePlace?) }

  ghost function FrameOf(p: Part): Frame
    requires Waits(p)
  {
    if p.ArrPlace? then InArr(ValuesOf(p.items)) else InObj(FieldsOf(p.members), KeyOf(p.key))
  }

  // ---- Everything read so far --------------------------------------------------------

  datatype State = State(lead: string, below: seq<Part>, top: Part)

  function SpellAll(ps: seq<Part>): string {
    if ps == [] then "" else SpellAll(ps[..|ps| - 1]) + SpellPart(ps[|ps| - 1])
  }

  function TextOf(s: State): string { s.lead + SpellAll(s.below) + SpellPart(s.top) }

  ghost predicate Fine(s: State, maxDepth: nat) {
    && Ws(s.lead) && PartOk1(s.top) && |s.below| + LevelsOf(s.top) < maxDepth && (s.top.Begun? ==> s.below == [])
    && forall i :: 0 <= i < |s.below| ==> Waits(s.below[i]) && i + LevelsOf(s.below[i]) < maxDepth
  }

  ghost function Stack(ps: seq<Part>): seq<Frame>
    requires forall i :: 0 <= i < |ps| ==> Waits(ps[i])
  {
    seq(|ps|, i requires 0 <= i < |ps| => FrameOf(ps[i]))
  }

  ghost function Abs(s: State, maxDepth: nat): Machine
    requires Fine(s, maxDepth)
  {
    Machine(maxDepth, Stack(s.below), ModeOf(s.top))
  }

  /** A number is only known to be over by the character behind it. */
  predicate Settled(p: Part) { p.Done? && p.x.Number? ==> p.after != "" }

  /** s1 has read c behind s, and is at the machine m1. */
  ghost predicate Follows(s: State, c: char, s1: State, m1: Machine) {
    Settled(s1.top) && Fine(s1, m1.maxDepth) && Abs(s1, m1.maxDepth) == m1 && TextOf(s1) == TextOf(s) + [c]
  }

  lemma SpellSame(s: State, top: Part, c: char)
    requires SpellPart(top) == SpellPart(s.top) + [c]
    ensures TextOf(s.(top := top)) == TextOf(s) + [c]
  {
  }

  /** The top level alone changes. */
  lemma TopFollows(s: State, c: char, top: Part, m: Machine, m1: Machine)
    requires Fine(s, m.maxDepth) && m == Abs(s, m.maxDepth) && PartOk1(top) && !top.Begun?
    requires SpellPart(top) == SpellPart(s.top) + [c] && LevelsOf(top) <= LevelsOf(s.top)
    requires m1 == m.(mode := ModeOf(top)) && Settled(top)
    ensures Follows(s, c, s.(top := top), m1)
  {
    hide PartOk1, ModeOf, LevelsOf, SpellPart, Waits;
    SpellSame(s, top, c);
  }

  // ---- White space -----------------------------------------------------------------

  lemma WsGrows(t: string, c: char)
    requires Ws(t) && Space(c)
    ensures Ws(t + [c])
  {
  }

  function Wider(p: Part, c: char): Part {
    match p
    case Done(x, after) => Done(x, after + [c])
    case ArrPlace(items, ws) => ArrPlace(items, ws + [c])
    case ObjPlace(members, ws) => ObjPlace(members, ws + [c])
    case ColonPlace(members, before, quote, us, ws) => ColonPlace(members, before, quote, us, ws + [c])
    case ValuePlace(members, key, ws) => ValuePlace(members, key, ws + [c])
    case _ => p
  }

  lemma Widens(p: Part, c: char)
    requires PartOk1(p) && Space(c) && Eats(ModeOf(p)) && !p.Begun?
    ensures PartOk1(Wider(p, c)) && SpellPart(Wider(p, c)) == SpellPart(p) + [c]
    ensures ModeOf(Wider(p, c)) == ModeOf(p) && LevelsOf(Wider(p, c)) == LevelsOf(p) && !Wider(p, c).Begun?
  {
    hide Spell, SpellItems, SpellFields, SpellQuoted, SpellKey, Ok, ValueOf, UnitsOk;
    match p {
      case Done(x, after) => WsGrows(after, c);
      case ArrPlace(items, ws) => WsGrows(ws, c);
      case ObjPlace(members, ws) => WsGrows(ws, c);
      case ColonPlace(members, before, quote, us, ws) => WsGrows(ws, c);
      case ValuePlace(members, key, ws) => WsGrows(ws, c);
      case _ =>
    }
  }

  lemma SpaceFollows(s: State, c: char, m: Machine) returns (s1: State)
    requires Fine(s, m.maxDepth) && m == Abs(s, m.maxDepth) && Space(c) && Eats(m.mode)
    ensures Follows(s, c, s1, m)
  {
    hide PartOk1, ModeOf, LevelsOf, SpellPart, Waits;
    if s.top.Begun? {
      s1 := s.(lead := s.lead + [c]);
      WsGrows(s.lead, c);
      BegunSpells(s.top);
      EmptyBelow(s.below);
      assert s.lead + "" + "" + [c] == s.lead + [c] + "" + "";
    } else {
      Widens(s.top, c);
      s1 := s.(top := Wider(s.top, c));
      TopFollows(s, c, s1.top, m, m);
    }
  }

  lemma BegunSpells(p: Part)
    requires p.Begun?
    ensures SpellPart(p) == "" && PartOk1(p) && ModeOf(p) == Start && LevelsOf(p) == 0
  {
  }

  lemma EmptyBelow(ps: seq<Part>)
    ensures ps == [] ==> SpellAll(ps) == ""
  {
  }

  // ---- The first character of a value -------------------------------------------------

  function BeginOf(c: char): Part {
    if c == '{' then ObjPlace([], "")
    else if c == '[' then ArrPlace([], "")
    else if Quote(c) then StrPart(c, [], "")
    else if DecimalDigit(c) || c == '-' then NumPart([c])
    else WordPart([c])
  }

  lemma BeginsWith(m: Machine, c: char)
    requires m.mode == Start && StartChar(m, c).More?
    ensures var p := BeginOf(c);
      PartOk1(p) && SpellPart(p) == [c] && StartChar(m, c) == More(m.(mode := ModeOf(p))) && LevelsOf(p) == 0 && !p.Begun?
  {
    var p := BeginOf(c);
    if p.StrPart? { assert Decoded([]) == Bytes("", 0); }
  }

  lemma StartStep(m: Machine, c: char)
    requires m.mode == Start && !Space(c) && Step(m, c).More?
    ensures StartChar(m, c) == Step(m, c)
  {
  }

  /** A value begins at the top. */
  lemma BeginFollows(s: State, c: char, m: Machine) returns (s1: State)
    requires Fine(s, m.maxDepth) && m == Abs(s, m.maxDepth) && s.top.Begun? && !Space(c) && Step(m, c).More?
    ensures Follows(s, c, s1, Step(m, c).m)
  {
    hide Step, StartChar, Space;
    BegunSpells(s.top);
    StartStep(m, c);
    BeginsWith(m, c);
    s1 := s.(top := BeginOf(c));
    TopFollows(s, c, s1.top, m, Step(m, c).m);
  }

  lemma PushStep(m: Machine, c: char)
    requires R.Inside(m.mode).Some? && !Space(c) && Step(m, c).More? && ((m.mode.ArrOpen? || m.mode.ArrComma?) ==> c != ']')
    ensures Room(m) && Step(m, c) == Step(R.Pushed(m, R.Inside(m.mode).value, Start), c)
  {
  }

  lemma WaitsInside(p: Part)
    requires Waits(p)
    ensures R.Inside(ModeOf(p)) == Some(FrameOf(p)) && !p.Begun?
  {
  }

  /** A value begins on the next level. */
  lemma PushFollows(s: State, c: char, m: Machine) returns (s1: State)
    requires Fine(s, m.maxDepth) && m == Abs(s, m.maxDepth) && Waits(s.top) && !Space(c) && Step(m, c).More?
    requires s.top.ArrPlace? ==> c != ']'
    ensures Follows(s, c, s1, Step(m, c).m)
  {
    hide Step, StartChar, Space, PartOk1, ModeOf, LevelsOf, SpellPart, Waits, FrameOf;
    WaitsInside(s.top);
    PlaceMode(s.top);
    PushStep(m, c);
    var m1 := R.Pushed(m, FrameOf(s.top), Start);
    StartStep(m1, c);
    BeginsWith(m1, c);
    s1 := State(s.lead, s.below + [s.top], BeginOf(c));
    assert s1.below[..|s.below|] == s.below;
    assert Stack(s1.below) == Stack(s.below) + [FrameOf(s.top)];
  }

  lemma PlaceMode(p: Part)
    requires PartOk1(p)
    ensures ModeOf(p).ArrOpen? || ModeOf(p).ArrComma? <==> p.ArrPlace?
  {
  }

  // ---- The end of a container ------------------------------------------------------------

  lemma CloseStep(m: Machine, c: char)
    requires !Space(c)
    ensures m.mode.ArrOpen? && c == ']' ==> Step(m, c) == More(m.(mode := Full(Arr(m.mode.es))))
    ensures m.mode.ArrComma? && c == ']' ==> Step(m, c) == More(m.(mode := Full(Arr(m.mode.es))))
    ensures m.mode.ObjOpen? && c == '}' ==> Step(m, c) == More(m.(mode := Full(Obj(m.mode.fs))))
    ensures m.mode.ObjComma? && c == '}' ==> Step(m, c) == More(m.(mode := Full(Obj(m.mode.fs))))
  {
  }

  function ClosedOf(p: Part): Part {
    match p
    case ArrPlace(items, ws) => Done(Array(items, items != [], ws), "")
    case ObjPlace(members, ws) => Done(Object(members, members != [], ws), "")
    case _ => p
  }

  lemma ClosesPart(p: Part)
    requires PartOk1(p) && (p.ArrPlace? || p.ObjPlace?)
    ensures var q := ClosedOf(p);
      && PartOk1(q) && SpellPart(q) == SpellPart(p) + (if p.ArrPlace? then "]" else "}") && LevelsOf(q) == LevelsOf(p)
      && ModeOf(q) == Full(if p.ArrPlace? then Arr(ValuesOf(p.items)) else Obj(FieldsOf(p.members)))
  {
    hide SpellItems, SpellMembers, ItemOk, MemberOk;
    match p {
      case ArrPlace(items, ws) => ArrayText(items, items != [], ws);
      case ObjPlace(members, ws) => ObjectText(members, members != [], ws);
    }
  }

  lemma ArrayText(items: seq<Item>, comma: bool, last: string)
    requires Ok(Array(items, comma, last))
    ensures Spell(Array(items, comma, last)) + "" == "[" + SpellItems(items) + (if comma then "," else "") + last + "]"
    ensures ValueOf(Array(items, comma, last)) == Arr(ValuesOf(items)) && Levels(Array(items, comma, last)) == LevelsAll(items)
  {
  }

  lemma ObjectText(members: seq<Member>, comma: bool, last: string)
    requires Ok(Object(members, comma, last))
    ensures Spell(Object(members, comma, last)) + "" == "{" + SpellMembers(members) + (if comma then "," else "") + last + "}"
    ensures ValueOf(Object(members, comma, last)) == Obj(FieldsOf(members))
    ensures Levels(Object(members, comma, last)) == LevelsMembers(members)
  {
  }

  lemma CloseFollows(s: State, c: char, m: Machine) returns (s1: State)
    requires Fine(s, m.maxDepth) && m == Abs(s, m.maxDepth) && !Space(c)
    requires (s.top.ArrPlace? && c == ']') || (s.top.ObjPlace? && c == '}')
    ensures Step(m, c).More? && Follows(s, c, s1, Step(m, c).m)
  {
    hide Step, Space, LevelsOf, SpellPart, Waits;
    ClosesPart(s.top);
    CloseStep(m, c);
    s1 := s.(top := ClosedOf(s.top));
    hide PartOk1, ModeOf;
    TopFollows(s, c, s1.top, m, Step(m, c).m);
  }

  // ---- Words and numbers -------------------------------------------------------------------

  lemma LetterStep(m: Machine, c: char)
    requires m.mode.Lit? && m.mode.n < |M.Text(m.mode.w)| && Step(m, c).More?
    ensures Lower(c) == M.Text(m.mode.w)[m.mode.n] && Step(m, c) == More(m.(mode := Lit(m.mode.w, m.mode.n + 1)))
  {
  }

  lemma LetterFollows(s: State, c: char, m: Machine) returns (s1: State)
    requires Fine(s, m.maxDepth) && m == Abs(s, m.maxDepth) && s.top.WordPart? && Step(m, c).More?
    requires |s.top.letters| < |M.Text(WordOf(s.top.letters[0]))|
    ensures Follows(s, c, s1, Step(m, c).m)
  {
    hide Step, Waits;
    LetterStep(m, c);
    s1 := s.(top := WordPart(s.top.letters + [c]));
    TopFollows(s, c, s1.top, m, Step(m, c).m);
  }

  lemma LowerMeans(c: char, l: char)
    requires Lower(c) == l && 'a' <= l <= 'z'
    ensures c == l || c as int + 32 == l as int
  {
  }

  /** All letters have been read. */
  lemma WordDone(t: string)
    requires Begins(t) && |t| == |M.Text(WordOf(t[0]))|
    ensures Ok(Word(t)) && R.Held(Word(t)) == Lit(WordOf(t[0]), |t|)
  {
    forall i | 0 <= i < |t| ensures t[i] == M.Text(WordOf(t[0]))[i] || t[i] as int + 32 == M.Text(WordOf(t[0]))[i] as int {
      LowerMeans(t[i], M.Text(WordOf(t[0]))[i]);
    }
  }

  lemma {:induction false} RunEnds(t: string)
    ensures var k := DigitRun(t); (forall i :: 0 <= i < k ==> DecimalDigit(t[i])) && (k < |t| ==> !DecimalDigit(t[k]))
    decreases |t|
  {
    if t != "" && IsDigit(t[0]) { RunEnds(t[1..]); }
  }

  lemma NoDoubleChars(t: string, c: char)
    requires PartOk1(NumPart(t)) && NumEnd(t, c).Value?
    ensures (forall i :: 0 <= i < |t| ==> SignOrDigit(t[i])) && !(t[0] == '-' && (c == 'i' || c == 'I')) && ParseInt64(t).Some?
  {
    hide ParseInt64;
    forall i | 0 <= i < |t| ensures SignOrDigit(t[i]) {
      assert NumChar(t[i]);
    }
  }

  lemma HasDigits(t: string)
    requires t != "" && (DecimalDigit(t[0]) || t[0] == '-') && ParseInt64(t).Some?
    ensures DigitRun(if t[0] == '-' then t[1..] else t) > 0
  {
    hide DigitsValue, Clamp;
  }

  /** A gathered number that has a value is sign, digits and what is ignored. */
  lemma NumSplit(t: string, c: char) returns (x: Text)
    requires PartOk1(NumPart(t)) && NumEnd(t, c).Value?
    ensures x.Number? && Ok(x) && Spell(x) == t && !(x.neg && (c == 'i' || c == 'I'))
  {
    hide DigitsValue, ParseInt64, IsDouble, NumEnd, DigitRun, Ok;
    NoDoubleChars(t, c);
    HasDigits(t);
    var neg := t[0] == '-';
    var body := if neg then t[1..] else t;
    var k := DigitRun(body);
    RunEnds(body);
    BodyOk(neg, body, k);
    x := Number(neg, body[..k], body[k..]);
    assert t == (if neg then "-" else "") + body;
  }

  lemma BodyOk(neg: bool, body: string, k: nat)
    requires 0 < k <= |body| && (forall i :: 0 <= i < k ==> DecimalDigit(body[i])) && (k < |body| ==> !DecimalDigit(body[k]))
    requires forall i :: 0 <= i < |body| ==> SignOrDigit(body[i])
    ensures Ok(Number(neg, body[..k], body[k..]))
    ensures Spell(Number(neg, body[..k], body[k..])) == (if neg then "-" else "") + body
  {
    assert body == body[..k] + body[k..];
  }

  /** A word or a number that c ends is a value. */
  lemma Finishes(s: State, c: char, m: Machine) returns (x: Text)
    requires Fine(s, m.maxDepth) && m == Abs(s, m.maxDepth) && !Step(m, c).Fail?
    requires (s.top.WordPart? && |s.top.letters| == |M.Text(WordOf(s.top.letters[0]))|) || (s.top.NumPart? && !NumChar(c))
    ensures Ok(x) && Spell(x) == SpellPart(s.top) && Levels(x) == 0 && R.Free(x, c)
    ensures Step(m, c) == Step(m.(mode := Full(ValueOf(x))), c)
  {
    hide Step, IsDouble, ParseInt64, R.NumText, R.KindOf;
    if s.top.WordPart? {
      x := Word(s.top.letters);
      WordDone(s.top.letters);
    } else {
      NumberStep(m, c);
      x := NumSplit(s.top.text, c);
      R.NumberIs(x.neg, x.digits, x.rest);
    }
    R.Settles(m, x, c);
  }

  lemma NumberStep(m: Machine, c: char)
    requires m.mode.Num? && !NumChar(c) && !Step(m, c).Fail?
    ensures NumEnd(m.mode.pb, c).Value?
  {
    hide IsDouble, ParseInt64;
  }

  lemma DigitFollows(s: State, c: char, m: Machine) returns (s1: State)
    requires Fine(s, m.maxDepth) && m == Abs(s, m.maxDepth) && s.top.NumPart? && NumChar(c)
    ensures Step(m, c).More? && Follows(s, c, s1, Step(m, c).m)
  {
    hide Waits;
    s1 := s.(top := NumPart(s.top.text + [c]));
    NumCharStep(m, c);
    hide Step;
    TopFollows(s, c, s1.top, m, Step(m, c).m);
  }

  lemma NumCharStep(m: Machine, c: char)
    requires m.mode.Num? && NumChar(c)
    ensures Step(m, c) == More(m.(mode := Num(m.mode.pb + [c])))
  {
  }

  // ---- The end of an element -----------------------------------------------------------------

  lemma PopStep(m: Machine, c: char)
    requires m.mode.Full? && m.stack != [] && !Space(c) && Step(m, c).More?
    ensures var f := m.stack[|m.stack| - 1]; var m0 := m.(stack := m.stack[..|m.stack| - 1]);
      && (c == ',' || c == R.CloseChar(f))
      && Step(m, c) == More(m0.(mode := if c == ',' then R.NextPlace(f, m.mode.v) else Full(R.Closed(f, m.mode.v))))
  {
    hide AddField;
  }

  /** The place behind an element, and the container that it closes. */
  function NextOf(p: Part, x: Text, after: string): Part {
    match p
    case ArrPlace(items, ws) => ArrPlace(items + [Item(ws, x, after)], "")
    case ValuePlace(members, key, ws) => ObjPlace(members + [Member(key, Item(ws, x, after))], "")
    case _ => p
  }

  function LastOf(p: Part, x: Text, after: string): Part {
    match p
    case ArrPlace(items, ws) => Done(Array(items + [Item(ws, x, after)], false, ""), "")
    case ValuePlace(members, key, ws) => Done(Object(members + [Member(key, Item(ws, x, after))], false, ""), "")
    case _ => p
  }

  lemma ItemsSnoc(items: seq<Item>, i: Item)
    requires ItemsOk(items) && ItemOk(i)
    ensures var all := items + [i];
      && ItemsOk(all) && ValuesOf(all) == ValuesOf(items) + [ItemValue(i)]
      && SpellItems(all) == SpellItems(items) + (Sep(|items|) + SpellItem(i)) && LevelsAll(all) == Max(LevelsAll(items), LevelsItem(i))
  {
    assert (items + [i])[..|items|] == items;
  }

  lemma MembersSnoc(members: seq<Member>, x: Member)
    requires MembersOk(members) && MemberOk(x)
    ensures var all := members + [x];
      && MembersOk(all) && FieldsOf(all) == AddField(FieldsOf(members), KeyOf(x.key), ItemValue(x.item))
      && SpellMembers(all) == SpellMembers(members) + (Sep(|members|) + SpellMember(x))
      && LevelsMembers(all) == Max(LevelsMembers(members), LevelsItem(x.item))
  {
    hide AddField, KeyOf, SpellMember;
    assert (members + [x])[..|members|] == members;
    R.FieldsSnoc(members + [x]);
  }

  lemma Regroup(bracket: string, a: string, b: string, c: string, d: string, e: string)
    ensures bracket + (a + (b + (c + d))) + e + "" == bracket + a + b + c + d + e
    ensures bracket + (a + (b + (c + d))) + "" + "" + e == bracket + a + b + c + d + e
  {
  }

  lemma RegroupKey(bracket: string, a: string, b: string, k: string, c: string, d: string, e: string)
    ensures bracket + (a + (b + (k + (c + d)))) + e + "" == bracket + a + b + k + c + d + e
    ensures bracket + (a + (b + (k + (c + d)))) + "" + "" + e == bracket + a + b + k + c + d + e
  {
  }

  lemma ItemSpells(items: seq<Item>, ws: string, x: Text, after: string, e: string)
    requires ItemsOk(items) && ItemOk(Item(ws, x, after))
    ensures var all := SpellItems(items + [Item(ws, x, after)]); var goal := SpellPart(ArrPlace(items, ws)) + (Spell(x) + after) + e;
      "[" + all + e + "" == goal && "[" + all + "" + "" + e == goal
  {
    hide Spell, SpellItems, ItemOk, ValuesOf, LevelsAll;
    ItemsSnoc(items, Item(ws, x, after));
    Regroup("[", SpellItems(items), Sep(|items|), ws, Spell(x) + after, e);
  }

  lemma MemberSpells(members: seq<Member>, key: Key, ws: string, x: Text, after: string, e: string)
    requires MembersOk(members) && KeyOk(key) && ItemOk(Item(ws, x, after))
    ensures var all := SpellMembers(members + [Member(key, Item(ws, x, after))]);
      var goal := SpellPart(ValuePlace(members, key, ws)) + (Spell(x) + after) + e;
      "{" + all + e + "" == goal && "{" + all + "" + "" + e == goal
  {
    hide Spell, SpellMembers, SpellKey, ItemOk, KeyOk, FieldsOf, LevelsMembers, AddField;
    MemberIsOk(key, Item(ws, x, after));
    MembersSnoc(members, Member(key, Item(ws, x, after)));
    RegroupKey("{", SpellMembers(members), Sep(|members|), SpellKey(key), ws, Spell(x) + after, e);
  }

  lemma MemberIsOk(key: Key, i: Item)
    requires KeyOk(key) && ItemOk(i)
    ensures MemberOk(Member(key, i))
  {
  }

  lemma NextPart(p: Part, x: Text, after: string)
    requires Waits(p) && Ok(x) && Ws(after)
    ensures var q := NextOf(p, x, after);
      && PartOk1(q) && !q.Begun? && SpellPart(q) == SpellPart(p) + (Spell(x) + after) + ","
      && ModeOf(q) == R.NextPlace(FrameOf(p), ValueOf(x)) && LevelsOf(q) == Max(LevelsOf(p), 1 + Levels(x))
  {
    if p.ArrPlace? { NextItem(p.items, p.ws, x, after); } else { NextMember(p.members, p.key, p.ws, x, after); }
  }

  lemma NextItem(items: seq<Item>, ws: string, x: Text, after: string)
    requires Waits(ArrPlace(items, ws)) && Ok(x) && Ws(after)
    ensures var p := ArrPlace(items, ws); var q := NextOf(p, x, after);
      && PartOk1(q) && SpellPart(q) == SpellPart(p) + (Spell(x) + after) + ","
      && ModeOf(q) == R.NextPlace(FrameOf(p), ValueOf(x)) && LevelsOf(q) == Max(LevelsOf(p), 1 + Levels(x))
  {
    hide Spell, SpellItems, ValuesOf, Ok, LevelsAll;
    ItemsSnoc(items, Item(ws, x, after));
    ItemSpells(items, ws, x, after, ",");
  }

  lemma NextMember(members: seq<Member>, key: Key, ws: string, x: Text, after: string)
    requires Waits(ValuePlace(members, key, ws)) && Ok(x) && Ws(after)
    ensures var p := ValuePlace(members, key, ws); var q := NextOf(p, x, after);
      && PartOk1(q) && SpellPart(q) == SpellPart(p) + (Spell(x) + after) + ","
      && ModeOf(q) == R.NextPlace(FrameOf(p), ValueOf(x)) && LevelsOf(q) == Max(LevelsOf(p), 1 + Levels(x))
  {
    hide Spell, SpellMembers, SpellKey, FieldsOf, Ok, LevelsMembers, AddField, KeyOk, KeyOf;
    MemberIsOk(key, Item(ws, x, after));
    MembersSnoc(members, Member(key, Item(ws, x, after)));
    MemberSpells(members, key, ws, x, after, ",");
  }

  lemma LastPart(p: Part, x: Text, after: string)
    requires Waits(p) && Ok(x) && Ws(after)
    ensures var q := LastOf(p, x, after);
      && PartOk1(q) && !q.Begun? && SpellPart(q) == SpellPart(p) + (Spell(x) + after) + [R.CloseChar(FrameOf(p))]
      && ModeOf(q) == Full(R.Closed(FrameOf(p), ValueOf(x))) && LevelsOf(q) == Max(LevelsOf(p), 1 + Levels(x))
  {
    if p.ArrPlace? { LastItem(p.items, p.ws, x, after); } else { LastMember(p.members, p.key, p.ws, x, after); }
  }

  lemma LastItem(items: seq<Item>, ws: string, x: Text, after: string)
    requires Waits(ArrPlace(items, ws)) && Ok(x) && Ws(after)
    ensures var p := ArrPlace(items, ws); var q := LastOf(p, x, after);
      && PartOk1(q) && SpellPart(q) == SpellPart(p) + (Spell(x) + after) + "]"
      && ModeOf(q) == Full(R.Closed(FrameOf(p), ValueOf(x))) && LevelsOf(q) == Max(LevelsOf(p), 1 + Levels(x))
  {
    hide Spell, SpellItems, ValuesOf, Ok, LevelsAll, Levels, ValueOf, ItemOk;
    var i := Item(ws, x, after);
    ItemIsOk(ws, x, after);
    ItemsSnoc(items, i);
    LastIsOk(items + [i]);
    ItemSpells(items, ws, x, after, "]");
    ArrayText(items + [i], false, "");
    DoneIs(Array(items + [i], false, ""));
  }

  lemma ItemIsOk(ws: string, x: Text, after: string)
    requires Ws(ws) && Ok(x) && Ws(after)
    ensures var i := Item(ws, x, after); ItemOk(i) && ItemValue(i) == ValueOf(x) && LevelsItem(i) == 1 + Levels(x)
  {
  }

  lemma DoneIs(x: Text)
    requires Ok(x)
    ensures var q := Done(x, ""); PartOk1(q) && SpellPart(q) == Spell(x) + "" && ModeOf(q) == Full(ValueOf(x)) && LevelsOf(q) == Levels(x)
  {
  }

  lemma LastIsOk(items: seq<Item>)
    requires ItemsOk(items) && items != []
    ensures Ok(Array(items, false, ""))
  {
  }

  lemma LastMemberOk(members: seq<Member>)
    requires MembersOk(members) && members != []
    ensures Ok(Object(members, false, ""))
  {
  }

  lemma LastMember(members: seq<Member>, key: Key, ws: string, x: Text, after: string)
    requires Waits(ValuePlace(members, key, ws)) && Ok(x) && Ws(after)
    ensures var p := ValuePlace(members, key, ws); var q := LastOf(p, x, after);
      && PartOk1(q) && SpellPart(q) == SpellPart(p) + (Spell(x) + after) + "}"
      && ModeOf(q) == Full(R.Closed(FrameOf(p), ValueOf(x))) && LevelsOf(q) == Max(LevelsOf(p), 1 + Levels(x))
  {
    hide Spell, SpellMembers, SpellKey, FieldsOf, LevelsMembers, Levels, AddField, KeyOk, KeyOf, Ok, ValueOf, ItemOk, MemberOk;
    var i := Item(ws, x, after);
    ItemIsOk(ws, x, after);
    MemberIsOk(key, i);
    MembersSnoc(members, Member(key, i));
    LastMemberOk(members + [Member(key, i)]);
    MemberSpells(members, key, ws, x, after, "}");
    ObjectText(members + [Member(key, i)], false, "");
    DoneIs(Object(members + [Member(key, i)], false, ""));
  }

  /** The last level below is the one that the finished value returns to. */
  lemma LevelBelow(s: State, maxDepth: nat)
    requires Fine(s, maxDepth) && s.below != []
    ensures var k := |s.below| - 1; var front, p := s.below[..k], s.below[k];
      && Waits(p) && k + LevelsOf(p) < maxDepth && s.below == front + [p]
      && (forall i :: 0 <= i < k ==> Waits(front[i]) && i + LevelsOf(front[i]) < maxDepth)
      && Stack(s.below)[..k] == Stack(front) && Stack(s.below)[k] == FrameOf(p)
      && TextOf(s) == s.lead + SpellAll(front) + (SpellPart(p) + SpellPart(s.top))
  {
    hide PartOk1, ModeOf, LevelsOf, SpellPart, Waits, FrameOf;
  }

  /** What the machine does: it goes on from the frame of the level below. */
  lemma PopMachine(s: State, c: char, m: Machine)
    requires Fine(s, m.maxDepth) && m == Abs(s, m.maxDepth) && s.top.Done? && s.below != [] && !Space(c) && Step(m, c).More?
    ensures var k := |s.below| - 1; var v := ValueOf(s.top.x);
      && Waits(s.below[k])
      && var f := FrameOf(s.below[k]);
         && (c == ',' || c == R.CloseChar(f))
         && Step(m, c) == More(Machine(m.maxDepth, Stack(s.below)[..k], if c == ',' then R.NextPlace(f, v) else Full(R.Closed(f, v))))
  {
    hide Step, Space, Waits, AddField, SpellPart, SpellAll, LevelsOf, FrameOf, TextOf, ValueOf;
    DoneMode(s.top.x, s.top.after);
    LevelBelow(s, m.maxDepth);
    PopStep(m, c);
  }

  lemma PopFollows(s: State, c: char, m: Machine) returns (s1: State)
    requires Fine(s, m.maxDepth) && m == Abs(s, m.maxDepth) && s.top.Done? && s.below != [] && !Space(c) && Step(m, c).More?
    ensures Follows(s, c, s1, Step(m, c).m)
  {
    hide Step, Space, Waits, Stack, PartOk1, ModeOf, LevelsOf, SpellPart, FrameOf, AddField, TextOf, Abs, Follows;
    var k := |s.below| - 1;
    var p, x, after := s.below[k], s.top.x, s.top.after;
    PopMachine(s, c, m);
    DoneMode(x, after);
    var q := if c == ',' then NextOf(p, x, after) else LastOf(p, x, after);
    if c == ',' { NextPart(p, x, after); } else { LastPart(p, x, after); }
    s1 := State(s.lead, s.below[..k], q);
    BackBelow(s, c, q, m.maxDepth, Step(m, c).m);
  }

  /** The state after a value has returned to the level below. */
  lemma BackBelow(s: State, c: char, q: Part, maxDepth: nat, m1: Machine)
    requires Fine(s, maxDepth) && s.below != [] && PartOk1(q) && !q.Begun? && Settled(q)
    requires var k := |s.below| - 1;
      && SpellPart(q) == SpellPart(s.below[k]) + SpellPart(s.top) + [c]
      && LevelsOf(q) == Max(LevelsOf(s.below[k]), 1 + LevelsOf(s.top))
      && m1.maxDepth == maxDepth && m1.stack == Stack(s.below)[..k] && m1.mode == ModeOf(q)
    ensures Follows(s, c, State(s.lead, s.below[..|s.below| - 1], q), m1)
  {
    hide PartOk1, ModeOf, LevelsOf, SpellPart, FrameOf, TextOf, Waits;
    LevelBelow(s, maxDepth);
    BackText(s, c, q);
  }

  lemma DoneMode(x: Text, after: string)
    requires PartOk1(Done(x, after))
    ensures Ok(x) && Ws(after) && ModeOf(Done(x, after)) == Full(ValueOf(x)) && LevelsOf(Done(x, after)) == Levels(x)
    ensures SpellPart(Done(x, after)) == Spell(x) + after
  {
  }

  lemma BackText(s: State, c: char, q: Part)
    requires s.below != []
    requires var k := |s.below| - 1;
      TextOf(s) == s.lead + SpellAll(s.below[..k]) + (SpellPart(s.below[k]) + SpellPart(s.top))
      && SpellPart(q) == SpellPart(s.below[k]) + SpellPart(s.top) + [c]
    ensures TextOf(State(s.lead, s.below[..|s.below| - 1], q)) == TextOf(s) + [c]
  {
    hide SpellPart, SpellAll;
  }

  // ---- Strings and keys ------------------------------------------------------------------------

  lemma StringStep(m: Machine, c: char)
    requires m.mode.InStr? || m.mode.InKey?
    ensures match StrFeed(m.mode.pb, m.mode.quote, m.mode.esc, c)
      case Cont(pb, esc) => Step(m, c) == More(m.(mode := if m.mode.InStr? then InStr(pb, m.mode.quote, esc)
                                                          else InKey(m.mode.fs, pb, m.mode.quote, esc)))
      case Close(pb) => Step(m, c) == More(m.(mode := if m.mode.InStr? then Full(Str(pb)) else ObjColon(m.mode.fs, CStr(pb))))
      case Bad => Step(m, c).Fail?
  {
    hide StrFeed, CStr;
  }

  /** Units and escape grow by the character. */
  lemma GrowSpells(us: seq<Unit>, esc: string, quote: char, c: char)
    requires UnitsOk(us, quote) && PartOk(esc) && Quote(quote) && c != '\0'
    ensures match Grow(us, esc, quote, c)
      case Grown(us1, esc1) => UnitsOk(us1, quote) && PartOk(esc1) && SpellUnits(us1) + esc1 == SpellUnits(us) + esc + [c]
      case Closing => esc == "" && c == quote
      case Wrong => true
  {
    hide SpellUnits;
    if esc == "" && c != quote && c != '\\' {
      SpellSnoc(us, Raw(c));
    } else if |esc| == 1 && Shorts(c) {
      SpellSnoc(us, Short(c));
    } else if |esc| == 5 && Hex(c) {
      SpellSnoc(us, LastCode(esc, c));
    } else if |esc| >= 2 && Hex(c) {
      DigitGrows(esc, c);
    }
  }

  lemma SpellSnoc(us: seq<Unit>, u: Unit)
    ensures SpellUnits(us + [u]) == SpellUnits(us) + SpellUnit(u)
  {
    assert (us + [u])[..|us|] == us;
  }

  lemma StringText(pre: string, quote: char, u: string, esc: string, u1: string, esc1: string, c: char)
    ensures u1 + esc1 == u + esc + [c] ==> pre + [quote] + u1 + esc1 == pre + [quote] + u + esc + [c]
    ensures esc == "" && c == quote ==> pre + ([quote] + u + [quote]) + "" == pre + [quote] + u + esc + [c]
  {
    if u1 + esc1 == u + esc + [c] {
      assert pre + [quote] + u1 + esc1 == pre + [quote] + (u1 + esc1);
      assert pre + [quote] + (u + esc + [c]) == pre + [quote] + u + esc + [c];
    }
  }

  lemma StrFollows(s: State, c: char, m: Machine) returns (s1: State)
    requires Fine(s, m.maxDepth) && m == Abs(s, m.maxDepth) && s.top.StrPart? && Step(m, c).More? && c != '\0'
    ensures Follows(s, c, s1, Step(m, c).m)
  {
    hide Step, StrFeed, Decoded, Grow, Waits, CStr, SpellUnits;
    var us, esc, quote := s.top.us, s.top.esc, s.top.quote;
    UnitsCarry(us, quote);
    Feeds(us, esc, quote, c);
    StringStep(m, c);
    GrowSpells(us, esc, quote, c);
    assert "" + [quote] == [quote] && "" + SpellQuoted(quote, us) + "" == SpellQuoted(quote, us) + "";
    match Grow(us, esc, quote, c) {
      case Grown(us1, esc1) =>
        StringText("", quote, SpellUnits(us), esc, SpellUnits(us1), esc1, c);
        s1 := s.(top := StrPart(quote, us1, esc1));
      case Closing =>
        StringText("", quote, SpellUnits(us), esc, "", "", c);
        s1 := s.(top := Done(Quoted(quote, us), ""));
      case Wrong =>
    }
    TopFollows(s, c, s1.top, m, Step(m, c).m);
  }

  lemma KeyFollows(s: State, c: char, m: Machine) returns (s1: State)
    requires Fine(s, m.maxDepth) && m == Abs(s, m.maxDepth) && s.top.KeyPart? && Step(m, c).More? && c != '\0'
    ensures Follows(s, c, s1, Step(m, c).m)
  {
    hide Step, StrFeed, Decoded, Grow, Waits, CStr, SpellUnits, UpToNul, SpellFields, FieldsOf;
    var us, esc, quote := s.top.us, s.top.esc, s.top.quote;
    UnitsCarry(us, quote);
    Feeds(us, esc, quote, c);
    StringStep(m, c);
    GrowSpells(us, esc, quote, c);
    R.UpToNulIs(StringOf(us));
    var pre := SpellFields(s.top.members) + s.top.before;
    match Grow(us, esc, quote, c) {
      case Grown(us1, esc1) =>
        StringText(pre, quote, SpellUnits(us), esc, SpellUnits(us1), esc1, c);
        s1 := s.(top := KeyPart(s.top.members, s.top.before, quote, us1, esc1));
      case Closing =>
        StringText(pre, quote, SpellUnits(us), esc, "", "", c);
        s1 := s.(top := ColonPlace(s.top.members, s.top.before, quote, us, ""));
      case Wrong =>
    }
    TopFollows(s, c, s1.top, m, Step(m, c).m);
  }

  lemma KeyBegins(m: Machine, c: char)
    requires (m.mode.ObjOpen? || m.mode.ObjComma?) && !Space(c) && c != '}' && Step(m, c).More?
    ensures Quote(c) && Step(m, c) == More(m.(mode := InKey(m.mode.fs, "", c, Plain)))
  {
  }

  lemma PlaceFollows(s: State, c: char, m: Machine) returns (s1: State)
    requires Fine(s, m.maxDepth) && m == Abs(s, m.maxDepth) && s.top.ObjPlace? && !Space(c) && c != '}' && Step(m, c).More?
    ensures Follows(s, c, s1, Step(m, c).m)
  {
    hide Step, Waits, Space, FieldsOf, SpellFields;
    KeyBegins(m, c);
    NoFields();
    s1 := s.(top := KeyPart(s.top.members, s.top.ws, c, [], ""));
    assert Decoded([]) == Bytes("", 0) && SpellUnits([]) == "";
    TopFollows(s, c, s1.top, m, Step(m, c).m);
  }

  lemma NoFields()
    ensures FieldsOf([]) == []
  {
  }

  lemma ColonStep(m: Machine, c: char)
    requires m.mode.ObjColon? && !Space(c) && Step(m, c).More?
    ensures c == ':' && Step(m, c) == More(m.(mode := ObjValue(m.mode.fs, m.mode.key)))
  {
  }

  lemma ColonFollows(s: State, c: char, m: Machine) returns (s1: State)
    requires Fine(s, m.maxDepth) && m == Abs(s, m.maxDepth) && s.top.ColonPlace? && !Space(c) && Step(m, c).More?
    ensures Follows(s, c, s1, Step(m, c).m)
  {
    hide Step, Waits, Space, FieldsOf, SpellFields, SpellQuoted, UpToNul;
    ColonStep(m, c);
    var k := Key(s.top.before, s.top.quote, s.top.us, s.top.ws);
    s1 := s.(top := ValuePlace(s.top.members, k, ""));
    TopFollows(s, c, s1.top, m, Step(m, c).m);
  }

  // ---- Every character --------------------------------------------------------------------------

  /** A word or number that c ends has the same text as its value. */
  lemma FinishedSame(s: State, c: char, m: Machine, x: Text)
    requires Fine(s, m.maxDepth) && m == Abs(s, m.maxDepth) && (s.top.WordPart? || s.top.NumPart?)
    requires Ok(x) && Spell(x) == SpellPart(s.top) && Levels(x) == 0
    ensures var s2 := s.(top := Done(x, ""));
      Fine(s2, m.maxDepth) && Abs(s2, m.maxDepth) == m.(mode := Full(ValueOf(x))) && TextOf(s2) == TextOf(s)
  {
    hide Waits, Spell, Ok;
    assert Spell(x) + "" == Spell(x);
  }

  lemma Follow(s: State, c: char, m: Machine) returns (s1: State)
    requires Fine(s, m.maxDepth) && m == Abs(s, m.maxDepth) && c != '\0' && Step(m, c).More?
    ensures Follows(s, c, s1, Step(m, c).m)
  {
    hide Step, Fine, Abs, Follows, Space;
    ModeKind(s, m);
    EatsStep(m, c);
    if Eats(m.mode) && Space(c) {
      s1 := SpaceFollows(s, c, m);
    } else {
      match s.top {
        case Begun => s1 := BeginFollows(s, c, m);
        case WordPart(t) =>
          if |t| < |M.Text(WordOf(t[0]))| { s1 := LetterFollows(s, c, m); } else { s1 := FinishFollows(s, c, m); }
        case NumPart(_) => if NumChar(c) { s1 := DigitFollows(s, c, m); } else { s1 := FinishFollows(s, c, m); }
        case StrPart(_, _, _) => s1 := StrFollows(s, c, m);
        case Done(_, _) =>
          NotTop(m, c);
          s1 := PopFollows(s, c, m);
        case ArrPlace(_, _) => if c == ']' { s1 := CloseFollows(s, c, m); } else { s1 := PushFollows(s, c, m); }
        case ObjPlace(_, _) => if c == '}' { s1 := CloseFollows(s, c, m); } else { s1 := PlaceFollows(s, c, m); }
        case KeyPart(_, _, _, _, _) => s1 := KeyFollows(s, c, m);
        case ColonPlace(_, _, _, _, _) => s1 := ColonFollows(s, c, m);
        case ValuePlace(_, _, _) => s1 := PushFollows(s, c, m);
      }
    }
  }

  lemma FinishFollows(s: State, c: char, m: Machine) returns (s1: State)
    requires Fine(s, m.maxDepth) && m == Abs(s, m.maxDepth) && Step(m, c).More?
    requires (s.top.WordPart? && |s.top.letters| == |M.Text(WordOf(s.top.letters[0]))|) || (s.top.NumPart? && !NumChar(c))
    ensures Follows(s, c, s1, Step(m, c).m)
  {
    hide Step, Fine, Abs, Follows, Space;
    var x := Finishes(s, c, m);
    FinishedSame(s, c, m, x);
    var s2 := s.(top := Done(x, ""));
    var m2 := m.(mode := Full(ValueOf(x)));
    if Space(c) {
      FullSpace(m2, c);
      s1 := SpaceFollows(s2, c, m2);
    } else {
      StackOf(s2, m2);
      NotTop(m2, c);
      s1 := PopFollows(s2, c, m2);
    }
    SameText(s, s2, c, s1, Step(m, c).m);
  }

  lemma SameText(s: State, s2: State, c: char, s1: State, m1: Machine)
    requires TextOf(s) == TextOf(s2) && Follows(s2, c, s1, m1)
    ensures Follows(s, c, s1, m1)
  {
  }

  /** What the part on top tells of the mode. */
  lemma ModeKind(s: State, m: Machine)
    requires Fine(s, m.maxDepth) && m == Abs(s, m.maxDepth)
    ensures PartOk1(s.top) && (s.top.Done? ==> m.mode.Full?) && (m.stack == [] <==> s.below == [])
    ensures !s.top.WordPart? && !s.top.NumPart? && !s.top.StrPart? && !s.top.KeyPart? ==> Eats(m.mode)
    ensures s.top.ArrPlace? || s.top.ValuePlace? ==> Waits(s.top)
    ensures s.top.WordPart? ==> s.top.letters != "" && |s.top.letters| <= |M.Text(WordOf(s.top.letters[0]))|
  {
  }

  lemma StackOf(s: State, m: Machine)
    requires Fine(s, m.maxDepth) && m == Abs(s, m.maxDepth)
    ensures m.stack == [] <==> s.below == []
  {
  }

  lemma FullSpace(m: Machine, c: char)
    requires m.mode.Full? && Space(c)
    ensures Step(m, c) == More(m) && Eats(m.mode)
  {
  }

  lemma EatsStep(m: Machine, c: char)
    ensures Eats(m.mode) && Space(c) ==> Step(m, c) == More(m)
  {
  }

  lemma NotTop(m: Machine, c: char)
    requires m.mode.Full? && !Space(c) && Step(m, c).More?
    ensures m.stack != []
  {
  }

  // ---- Whole texts ---------------------------------------------------------------------------

  /** The first end characters of t are a value with white space around it, and what follows is
      neither more white space nor the rest of a number, nor the beginning of a comment. */
  ghost predicate Reading(t: string, end: nat, lead: string, x: Text, after: string) {
    && end <= |t| && Ws(lead) && Ok(x) && Ws(after) && t[..end] == lead + (Spell(x) + after)
    && (end < |t| ==> !Ws([t[end]]) && t[end] != '/' && (after == "" ==> R.Free(x, t[end])))
  }

  lemma StepValue(m: Machine, c: char)
    requires Step(m, c).Value?
    ensures !(Eats(m.mode) && Space(c))
    ensures (m.mode.Full? && m.stack == [] && Step(m, c) == Value(m.mode.v) && c != '/')
            || (m.mode.Lit? && m.mode.n >= |M.Text(m.mode.w)|) || (m.mode.Num? && !NumChar(c))
  {
    hide StrFeed, AddField, CStr, IsDouble, ParseInt64;
  }

  lemma {:induction false} StepDepth(m: Machine, c: char)
    requires Step(m, c).More?
    ensures Step(m, c).m.maxDepth == m.maxDepth
    decreases Rank(m.mode)
  {
    hide NumEnd, StrFeed, AddField, CStr;
    if !(Eats(m.mode) && (Space(c) || c == '/')) {
      match m.mode {
        case Full(v) => if m.stack != [] { StepDepth(Popped(m), c); }
        case Lit(w, n) => if n >= |M.Text(w)| { StepDepth(m.(mode := Full(WordValue(w))), c); }
        case Num(pb) => if !NumChar(c) && NumEnd(pb, c).Value? { StepDepth(m.(mode := Full(NumEnd(pb, c).v)), c); }
        case ArrOpen(es) => if c != ']' && Room(m) { StepDepth(m.(stack := m.stack + [InArr(es)], mode := Start), c); }
        case ArrComma(es) => if c != ']' && Room(m) { StepDepth(m.(stack := m.stack + [InArr(es)], mode := Start), c); }
        case ObjValue(fs, key) => if Room(m) { StepDepth(m.(stack := m.stack + [InObj(fs, key)], mode := Start), c); }
        case _ =>
      }
    }
  }

  /** A value that nothing waits for is complete in front of c. */
  lemma DoneEnds(s: State, c: char, m: Machine)
    requires Fine(s, m.maxDepth) && m == Abs(s, m.maxDepth) && s.top.Done? && Step(m, c).Value?
    ensures Ok(s.top.x) && Ws(s.lead) && Ws(s.top.after) && Levels(s.top.x) < m.maxDepth
    ensures ValueOf(s.top.x) == Step(m, c).v && !Space(c) && c != '/'
    ensures TextOf(s) == s.lead + (Spell(s.top.x) + s.top.after)
  {
    hide Step, Space, Ok, ValueOf, Spell, Levels;
    StepValue(m, c);
    StackOf(s, m);
    EmptyBelow(s.below);
    assert m.mode.Full? && Eats(m.mode) by { hide Fine, TextOf; }
  }

  /** The value is complete in front of c. */
  lemma ValueFollows(s: State, c: char, m: Machine) returns (x: Text, after: string)
    requires Fine(s, m.maxDepth) && m == Abs(s, m.maxDepth) && Settled(s.top) && Step(m, c).Value?
    ensures Ws(s.lead) && Ok(x) && Ws(after) && ValueOf(x) == Step(m, c).v && Levels(x) < m.maxDepth
    ensures TextOf(s) == s.lead + (Spell(x) + after) && !Space(c) && c != '/' && (after == "" ==> R.Free(x, c))
  {
    hide Step, Space, Fine, Abs, TextOf, Spell, R.Free;
    if s.top.Done? {
      x, after := s.top.x, s.top.after;
      DoneFree(s, c, m);
      DoneEnds(s, c, m);
    } else {
      EndsByValue(s, c, m);
      x := Finishes(s, c, m);
      after := "";
      FinishedSame(s, c, m, x);
      DoneEnds(s.(top := Done(x, "")), c, m.(mode := Full(ValueOf(x))));
    }
  }

  /** Only a word or a number is ended by the character behind it. */
  lemma EndsByValue(s: State, c: char, m: Machine)
    requires Fine(s, m.maxDepth) && m == Abs(s, m.maxDepth) && !s.top.Done? && Step(m, c).Value?
    ensures (s.top.WordPart? && |s.top.letters| == |M.Text(WordOf(s.top.letters[0]))|) || (s.top.NumPart? && !NumChar(c))
  {
    hide Step, Space;
    StepValue(m, c);
    ModeKind(s, m);
  }

  lemma DoneFree(s: State, c: char, m: Machine)
    requires Fine(s, m.maxDepth) && m == Abs(s, m.maxDepth) && s.top.Done? && Settled(s.top)
    ensures Ok(s.top.x) && Ws(s.top.after) && m.mode == Full(ValueOf(s.top.x)) && |s.below| + Levels(s.top.x) < m.maxDepth
    ensures s.top.after == "" ==> R.Free(s.top.x, c)
  {
  }

  /** Following the tokener to the end of the value. */
  lemma {:induction false} Traces(s: State, str: string, i: nat, m: Machine) returns (lead: string, x: Text, after: string)
    requires Fine(s, m.maxDepth) && m == Abs(s, m.maxDepth) && Settled(s.top)
    requires str != "" && i < |str| && str[|str| - 1] == '\0' && (forall k :: 0 <= k < |str| - 1 ==> str[k] != '\0')
    requires TextOf(s) == str[..i] && RunFrom(m, str, i).Parsed?
    ensures var r := RunFrom(m, str, i); var t := str[..|str| - 1];
      Reading(t, r.end, lead, x, after) && ValueOf(x) == r.v && Levels(x) < m.maxDepth
    decreases |str| - i
  {
    hide Step, Fine, Abs, TextOf, Spell, Ok, Settled;
    var c := str[i];
    if Feed(m, c).Value? {
      x, after := ValueFollows(s, c, m);
      lead := s.lead;
      NotSpace(c);
      assert str[..|str| - 1][..i] == str[..i];
    } else {
      MoreIsNoNul(m, c);
      var s1 := Follow(s, c, m);
      OneMore(str, i);
      FollowedIs(s, c, s1, Step(m, c).m);
      StepDepth(m, c);
      lead, x, after := Traces(s1, str, i + 1, Step(m, c).m);
    }
  }

  lemma FollowedIs(s: State, c: char, s1: State, m1: Machine)
    requires Follows(s, c, s1, m1)
    ensures Fine(s1, m1.maxDepth) && m1 == Abs(s1, m1.maxDepth) && Settled(s1.top) && TextOf(s1) == TextOf(s) + [c]
  {
  }

  lemma OneMore(str: string, i: nat)
    requires i < |str|
    ensures str[..i + 1] == str[..i] + [str[i]]
  {
  }

  lemma MoreIsNoNul(m: Machine, c: char)
    requires !Feed(m, c).Value? && !Feed(m, c).Fail?
    ensures c != '\0' && Step(m, c) == Feed(m, c)
  {
    hide Step;
  }

  lemma NotSpace(c: char)
    ensures Space(c) <==> Ws([c])
  {
    assert [c][0] == c;
  }

  /** Every C string that is accepted is a text of the grammar, and what is returned is what
      it means. */
  lemma AcceptsOnlyTexts(maxDepth: nat, t: string) returns (lead: string, x: Text, after: string)
    requires 0 < maxDepth && '\0' !in t && ParseText(maxDepth, t).Parsed?
    ensures var r := ParseText(maxDepth, t); Reading(t, r.end, lead, x, after) && ValueOf(x) == r.v && Levels(x) < maxDepth
  {
    var s, str := State("", [], Begun), t + ['\0'];
    assert Stack([]) == [];
    assert str[..0] == "" && str[..|str| - 1] == t;
    lead, x, after := Traces(s, str, 0, Init(maxDepth));
  }

  lemma EndsHere(m: Machine, x: Text, after: string, c: char)
    requires Ok(x) && Ws(after) && m.stack == [] && !Ws([c]) && c != '/' && (after == "" ==> R.Free(x, c))
    ensures Feed(m.(mode := R.Rest(Item("", x, after))), c) == Value(ValueOf(x))
  {
    hide Ok, ValueOf, R.Held;
    NotSpace(c);
    if after == "" { R.Settles(m, x, c); }
  }

  /** Every text of the grammar is accepted, or too deep. */
  lemma TextsAreAccepted(maxDepth: nat, t: string, end: nat, lead: string, x: Text, after: string)
    requires 0 < maxDepth && '\0' !in t && Reading(t, end, lead, x, after)
    ensures ParseText(maxDepth, t) == if Levels(x) < maxDepth then Parsed(ValueOf(x), end) else Failed(TooDeep)
  {
    hide Ok, ValueOf, Spell, R.Held, Step, Feed, FeedAll, RunFrom;
    var m := Init(maxDepth);
    R.WsFeeds(m, lead);
    FeedConcat(m, lead, Spell(x) + after);
    R.Reads(m, x);
    FeedConcat(m, Spell(x), after);
    var rest := t[end..] + ['\0'];
    RunFeeds(m, "", t[..end], rest);
    assert "" + t[..end] + rest == t + ['\0'];
    if Levels(x) < maxDepth {
      var i := Item("", x, after);
      WholeItem(x, after);
      R.WsAfter(m, i);
      EndsHere(m, x, after, (t + ['\0'])[end]);
      RunValue(m.(mode := R.Rest(i)), t + ['\0'], end);
    }
  }

  lemma WholeItem(x: Text, after: string)
    requires Ok(x) && Ws(after)
    ensures ItemOk(Item("", x, after))
  {
  }

  lemma RunValue(m: Machine, s: string, i: nat)
    requires i < |s| && Feed(m, s[i]).Value?
    ensures RunFrom(m, s, i) == Parsed(Feed(m, s[i]).v, i)
  {
    hide Feed;
  }

  /** What the tokener accepts, exactly: a C string is parsed to v, up to offset end, if and
      only if it reads as a text of the grammar that means v and is not too deep. */
  lemma ParsesExactly(maxDepth: nat, t: string, v: Json, end: nat)
    requires 0 < maxDepth && '\0' !in t
    ensures ParseText(maxDepth, t) == Parsed(v, end) <==>
      exists lead, x, after :: Reading(t, end, lead, x, after) && ValueOf(x) == v && Levels(x) < maxDepth
  {
    hide ParseText, ValueOf, Levels, Spell, Ok;
    if ParseText(maxDepth, t) == Parsed(v, end) {
      var lead, x, after := AcceptsOnlyTexts(maxDepth, t);
      assert Reading(t, end, lead, x, after) && ValueOf(x) == v && Levels(x) < maxDepth;
    }
    if exists lead, x, after :: Reading(t, end, lead, x, after) && ValueOf(x) == v && Levels(x) < maxDepth {
      var lead, x, after :| Reading(t, end, lead, x, after) && ValueOf(x) == v && Levels(x) < maxDepth;
      TextsAreAccepted(maxDepth, t, end, lead, x, after);
    }
  }
}
