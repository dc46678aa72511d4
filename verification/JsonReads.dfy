/**
  Every text of the grammar is read as what it means: the tokener's machine, fed with what
  a syntax tree spells, arrives at its value, or at the depth error.
*/
module JsonReads {
  import opened Shared
  import opened JsonValue
  import opened JsonGrammar
  import opened JsonUnits
  import opened M = JsonMachine
  import C = JsonCuts

  // ---- White space ---------------------------------------------------------------

  lemma {:induction false} WsFeeds(m: Machine, t: string)
    requires Eats(m.mode) && Ws(t)
    ensures FeedAll(m, t) == More(m)
    decreases |t|
  {
    if t != "" { WsFeeds(m, t[1..]); }
  }

  // ---- Strings -------------------------------------------------------------------

  /** Inside a string, behind some units and the beginning of an escape. */
  ghost function At(m: Machine, us: seq<Unit>, part: string): Machine
    requires C.InText(m) && Carries(us) && PartOk(part)
  {
    C.WithText(m, Decoded(us).done, EscOf(Decoded(us).half, part))
  }

  /** What the end of the string makes of the machine. */
  ghost function Ended(m: Machine, us: seq<Unit>): Machine
    requires C.InText(m) && Carries(us)
  {
    m.(mode := if m.mode.InStr? then Full(Str(StringOf(us))) else ObjColon(m.mode.fs, CStr(StringOf(us))))
  }

  lemma CharFeeds(m: Machine, us: seq<Unit>, part: string, c: char)
    requires C.InText(m) && Carries(us) && PartOk(part) && c != '\0'
    ensures match Grow(us, part, m.mode.quote, c)
      case Grown(us1, part1) => Carries(us1) && PartOk(part1) && Feed(At(m, us, part), c) == More(At(m, us1, part1))
      case Closing => Feed(At(m, us, part), c) == More(Ended(m, us))
      case Wrong => Feed(At(m, us, part), c) == Fail(StringSequence)
  {
    hide Feed, StrFeed, Decoded, Grow, CStr;
    Feeds(us, part, m.mode.quote, c);
    C.TextFeed(m, Decoded(us).done, EscOf(Decoded(us).half, part), c);
  }

  lemma TwoFeeds(m: Machine, m1: Machine, c: char, d: char)
    requires Feed(m, c) == More(m1)
    ensures FeedAll(m, [c, d]) == Feed(m1, d)
  {
    hide Feed;
    assert [c, d] == [c] + [d];
    FeedCons(m, c, [d]);
    FeedOne(m1, d);
  }

  lemma UnitFeeds(m: Machine, us: seq<Unit>, u: Unit)
    requires C.InText(m) && Carries(us) && UnitOk(u, m.mode.quote)
    ensures Carries(us + [u]) && FeedAll(At(m, us, ""), SpellUnit(u)) == More(At(m, us + [u], ""))
  {
    hide Feed, FeedAll, At;
    match u {
      case Raw(c) =>
        CharFeeds(m, us, "", c);
        FeedOne(At(m, us, ""), c);
      case Short(c) =>
        CharFeeds(m, us, "", '\\');
        CharFeeds(m, us, "\\", c);
        TwoFeeds(At(m, us, ""), At(m, us, "\\"), '\\', c);
      case Code(a, b, c, d) => CodeFeeds(m, us, a, b, c, d);
    }
  }

  lemma CodeFeeds(m: Machine, us: seq<Unit>, a: char, b: char, c: char, d: char)
    requires C.InText(m) && Carries(us) && Hex(a) && Hex(b) && Hex(c) && Hex(d)
    ensures var u := Code(a, b, c, d); Carries(us + [u]) && FeedAll(At(m, us, ""), SpellUnit(u)) == More(At(m, us + [u], ""))
  {
    hide Feed, FeedAll, At;
    CharFeeds(m, us, "", '\\');
    CharFeeds(m, us, "\\", 'u');
    CharFeeds(m, us, "\\u", a);
    CharFeeds(m, us, "\\u" + [a], b);
    CharFeeds(m, us, "\\u" + [a] + [b], c);
    CharFeeds(m, us, "\\u" + [a] + [b] + [c], d);
    TwoFeeds(At(m, us, ""), At(m, us, "\\"), '\\', 'u');
    TwoFeeds(At(m, us, "\\u"), At(m, us, "\\u" + [a]), a, b);
    TwoFeeds(At(m, us, "\\u" + [a] + [b]), At(m, us, "\\u" + [a] + [b] + [c]), c, d);
    FeedConcat(At(m, us, ""), ['\\', 'u'], [a, b]);
    FeedConcat(At(m, us, ""), ['\\', 'u', a, b], [c, d]);
    assert ['\\', 'u'] + [a, b] == ['\\', 'u', a, b] && ['\\', 'u', a, b] + [c, d] == SpellUnit(Code(a, b, c, d));
  }

  lemma {:induction false} UnitsFeed(m: Machine, us: seq<Unit>)
    requires C.InText(m) && UnitsOk(us, m.mode.quote)
    ensures Carries(us) && FeedAll(At(m, [], ""), SpellUnits(us)) == More(At(m, us, ""))
    decreases |us|
  {
    hide Feed, FeedAll, At, SpellUnit;
    if us == [] {
      EmptyFeeds(At(m, [], ""));
    } else {
      var k := |us| - 1;
      UnitsFeed(m, us[..k]);
      UnitFeeds(m, us[..k], us[k]);
      assert us[..k] + [us[k]] == us;
      FeedConcat(At(m, [], ""), SpellUnits(us[..k]), SpellUnit(us[k]));
    }
  }

  lemma EmptyFeeds(m: Machine)
    ensures FeedAll(m, "") == More(m)
  {
  }

  /** A quoted text, when the opening quote leads to open. */
  lemma QuotedFeeds(m: Machine, open: Machine, quote: char, us: seq<Unit>)
    requires Feed(m, quote) == More(open) && C.InText(open) && open.mode.quote == quote && UnitsOk(us, quote)
    requires open == C.WithText(open, "", Plain)
    ensures Carries(us) && FeedAll(m, SpellQuoted(quote, us)) == More(Ended(open, us))
  {
    hide Feed, FeedAll, CStr;
    UnitsFeed(open, us);
    CharFeeds(open, us, "", quote);
    assert At(open, [], "") == open;
    FeedConcat(m, [quote], SpellUnits(us));
    FeedOne(m, quote);
    FeedConcat(m, [quote] + SpellUnits(us), [quote]);
    FeedOne(At(open, us, ""), quote);
  }

  lemma {:induction false} UpToNulIs(s: string)
    ensures UpToNul(s) == CStr(s)
  {
    if s != "" { UpToNulIs(s[1..]); }
  }

  lemma StringFeeds(m: Machine, quote: char, us: seq<Unit>)
    requires m.mode == Start && (quote == '\"' || quote == '\'') && UnitsOk(us, quote)
    ensures Carries(us) && FeedAll(m, SpellQuoted(quote, us)) == More(m.(mode := Full(Str(StringOf(us)))))
  {
    QuotedFeeds(m, m.(mode := InStr("", quote, Plain)), quote, us);
  }

  /** A key with its white space and the colon. */
  lemma KeyFeeds(m: Machine, fs: seq<Field>, k: Key)
    requires (m.mode == ObjOpen(fs) || m.mode == ObjComma(fs)) && KeyOk(k)
    ensures FeedAll(m, SpellKey(k)) == More(m.(mode := ObjValue(fs, KeyOf(k))))
  {
    hide FeedAll, SpellQuoted, CStr, UpToNul, StringOf, Ws;
    WsFeeds(m, k.before);
    FeedConcat(m, k.before, SpellQuoted(k.quote, k.units) + (k.after + ":"));
    QuotedFeeds(m, m.(mode := InKey(fs, "", k.quote, Plain)), k.quote, k.units);
    FeedConcat(m, SpellQuoted(k.quote, k.units), k.after + ":");
    UpToNulIs(StringOf(k.units));
    var colon := m.(mode := ObjColon(fs, KeyOf(k)));
    WsFeeds(colon, k.after);
    FeedConcat(colon, k.after, ":");
    FeedOne(colon, ':');
  }

  // ---- Words ---------------------------------------------------------------------

  function KindOf(t: string): M.Word {
    if |t| == 5 then WFalse else if t != "" && (t[0] == 't' || t[0] == 'T') then WTrue else WNull
  }

  predicate WordOk(t: string) { Cases(t, "null", "NULL") || Cases(t, "true", "TRUE") || Cases(t, "false", "FALSE") }

  lemma WordLetters(t: string)
    requires WordOk(t)
    ensures |t| == |M.Text(KindOf(t))| && forall i :: 0 <= i < |t| ==> Lower(t[i]) == M.Text(KindOf(t))[i] && t[i] != '\0'
  {
  }

  lemma {:induction false} LettersFeed(m: Machine, w: M.Word, n: nat, t: string)
    requires n + |t| == |M.Text(w)| && forall i :: 0 <= i < |t| ==> Lower(t[i]) == M.Text(w)[n + i] && t[i] != '\0'
    ensures FeedAll(m.(mode := Lit(w, n)), t) == More(m.(mode := Lit(w, |M.Text(w)|)))
    decreases |t|
  {
    hide Step, Feed;
    if t != "" {
      LetterFeeds(m, w, n, t[0]);
      LettersFeed(m, w, n + 1, t[1..]);
    }
  }

  lemma LetterFeeds(m: Machine, w: M.Word, n: nat, c: char)
    requires n < |M.Text(w)| && Lower(c) == M.Text(w)[n] && c != '\0'
    ensures Feed(m.(mode := Lit(w, n)), c) == More(m.(mode := Lit(w, n + 1)))
  {
  }

  lemma WordBegins(m: Machine, t: string)
    requires m.mode == Start && WordOk(t)
    ensures Feed(m, t[0]) == More(m.(mode := Lit(KindOf(t), 1)))
  {
  }

  lemma WordFeeds(m: Machine, t: string)
    requires m.mode == Start && WordOk(t)
    ensures FeedAll(m, t) == More(m.(mode := Lit(KindOf(t), |t|)))
  {
    hide Feed, FeedAll, KindOf;
    WordLetters(t);
    WordBegins(m, t);
    assert t == [t[0]] + t[1..];
    FeedCons(m, t[0], t[1..]);
    LettersFeed(m, KindOf(t), 1, t[1..]);
  }

  // ---- Numbers -------------------------------------------------------------------

  lemma {:induction false} NumFeeds(m: Machine, pb: string, t: string)
    requires forall k :: 0 <= k < |t| ==> NumChar(t[k])
    ensures FeedAll(m.(mode := Num(pb)), t) == More(m.(mode := Num(pb + t)))
    decreases |t|
  {
    if t == "" {
      assert pb + t == pb;
    } else {
      NumFeeds(m, pb + [t[0]], t[1..]);
      assert pb + [t[0]] + t[1..] == pb + t;
    }
  }

  lemma NumBegins(m: Machine, c: char)
    requires m.mode == Start && (DecimalDigit(c) || c == '-')
    ensures Feed(m, c) == More(m.(mode := Num([c])))
  {
  }

  function NumText(neg: bool, digits: string, rest: string): string { (if neg then "-" else "") + digits + rest }

  lemma NumberChars(neg: bool, digits: string, rest: string)
    requires digits != "" && AllDigits(digits) && Ignored(rest)
    ensures var t := NumText(neg, digits, rest);
      && t != "" && (DecimalDigit(t[0]) || t[0] == '-') && (neg <==> t[0] == '-')
      && (forall k :: 0 <= k < |t| ==> NumChar(t[k])) && !IsDouble(t)
  {
    var t := NumText(neg, digits, rest);
    forall k | 0 <= k < |t| ensures SignOrDigit(t[k]) {
      var n := if neg then 1 else 0;
      if n <= k < n + |digits| { assert t[k] == digits[k - n]; }
      if n + |digits| <= k { assert t[k] == rest[k - n - |digits|]; }
    }
  }

  lemma NumberFeeds(m: Machine, neg: bool, digits: string, rest: string)
    requires m.mode == Start && digits != "" && AllDigits(digits) && Ignored(rest)
    ensures FeedAll(m, NumText(neg, digits, rest)) == More(m.(mode := Num(NumText(neg, digits, rest))))
  {
    hide Feed, FeedAll, NumText, IsDouble;
    var t := NumText(neg, digits, rest);
    NumberChars(neg, digits, rest);
    NumBegins(m, t[0]);
    assert t == [t[0]] + t[1..];
    FeedCons(m, t[0], t[1..]);
    NumFeeds(m, [t[0]], t[1..]);
  }

  lemma {:induction false} DecimalIs(t: string)
    requires AllDigits(t)
    ensures DecimalOf(t) == DigitsValue(t)
    decreases |t|
  {
    if t != "" { DecimalIs(t[..|t| - 1]); }
  }

  lemma {:induction false} RunOfDigits(digits: string, rest: string)
    requires AllDigits(digits) && Ignored(rest)
    ensures DigitRun(digits + rest) == |digits|
    decreases |digits|
  {
    if digits == "" {
      assert digits + rest == rest;
    } else {
      assert (digits + rest)[1..] == digits[1..] + rest;
      RunOfDigits(digits[1..], rest);
    }
  }

  lemma NumberMeans(neg: bool, digits: string, rest: string)
    requires digits != "" && AllDigits(digits) && Ignored(rest)
    ensures var n: int := DecimalOf(digits); ParseInt64(NumText(neg, digits, rest)) == Some(Saturated(if neg then -n else n))
  {
    hide DecimalOf, DigitsValue, DigitRun;
    var t, body := NumText(neg, digits, rest), digits + rest;
    RunOfDigits(digits, rest);
    DecimalIs(digits);
    assert body[..|digits|] == digits;
    if neg { assert t[1..] == body; } else { assert t == body; }
  }

  // ---- The end of a value ----------------------------------------------------------

  /** The mode behind the last character of a value: a word or a number only ends with the
      character that follows. */
  ghost function Held(x: Text): Mode
    requires Ok(x)
  {
    match x
    case Word(t) => Lit(KindOf(t), |t|)
    case Number(neg, digits, rest) => Num(NumText(neg, digits, rest))
    case _ => Full(ValueOf(x))
  }

  /** The character does not belong to the value in front of it. */
  predicate Free(x: Text, c: char) {
    x.Number? ==> !(SignOrDigit(c) || c == '.' || c == 'e' || c == 'E') && !(x.neg && (c == 'i' || c == 'I'))
  }

  lemma Settles(m: Machine, x: Text, c: char)
    requires Ok(x) && Free(x, c)
    ensures Step(m.(mode := Held(x)), c) == Step(m.(mode := Full(ValueOf(x))), c)
    ensures Feed(m.(mode := Held(x)), c) == Feed(m.(mode := Full(ValueOf(x))), c)
  {
    hide IsDouble, ParseInt64, NumText;
    match x {
      case Word(t) => WordLetters(t);
      case Number(neg, digits, rest) =>
        NumberChars(neg, digits, rest);
        NumberMeans(neg, digits, rest);
      case _ =>
    }
  }

  // ---- Elements --------------------------------------------------------------------

  /** Characters a value can begin with. */
  predicate Opener(c: char) {
    c == '{' || c == '[' || c == '\"' || c == '\'' || c == '-' || DecimalDigit(c)
    || c == 'n' || c == 'N' || c == 't' || c == 'T' || c == 'f' || c == 'F'
  }

  lemma SpellOpens(x: Text)
    requires Ok(x)
    ensures Spell(x) != "" && Opener(Spell(x)[0])
  {
    match x {
      case Word(t) => WordLetters(t);
      case _ =>
    }
  }

  /** Where an element may start. */
  function Inside(mode: Mode): Option<Frame> {
    match mode
    case ArrOpen(es) => Some(InArr(es))
    case ArrComma(es) => Some(InArr(es))
    case ObjValue(fs, key) => Some(InObj(fs, key))
    case _ => None
  }

  function Pushed(m: Machine, f: Frame, mode: Mode): Machine { m.(stack := m.stack + [f], mode := mode) }

  lemma ElementOpens(m: Machine, c: char)
    requires Inside(m.mode).Some? && Opener(c)
    ensures Feed(m, c) == if Room(m) then Feed(Pushed(m, Inside(m.mode).value, Start), c) else Fail(TooDeep)
  {
  }

  /** Feeding an element's text pushes a level first. */
  lemma ElementFeeds(m: Machine, t: string)
    requires Inside(m.mode).Some? && t != "" && Opener(t[0])
    ensures FeedAll(m, t) == if Room(m) then FeedAll(Pushed(m, Inside(m.mode).value, Start), t) else Fail(TooDeep)
  {
    hide Feed;
    ElementOpens(m, t[0]);
  }

  /** The machine behind a value, or the depth error. */
  ghost function After(m: Machine, x: Text): Outcome
    requires Ok(x)
  {
    if |m.stack| + Levels(x) < m.maxDepth then More(m.(mode := Held(x))) else Fail(TooDeep)
  }

  /** The mode behind an item: white space ends words and numbers. */
  ghost function Rest(i: Item): Mode
    requires ItemOk(i)
  {
    if i.after == "" then Held(i.x) else Full(ItemValue(i))
  }

  lemma WsAfter(m: Machine, i: Item)
    requires ItemOk(i)
    ensures FeedAll(m.(mode := Held(i.x)), i.after) == More(m.(mode := Rest(i)))
  {
    hide Feed, FeedAll, Held, Ok;
    var t := i.after;
    if t == "" {
      EmptyFeeds(m.(mode := Held(i.x)));
    } else {
      WsFree(i.x, t[0]);
      Settles(m, i.x, t[0]);
      FullEats(m, ItemValue(i), t[0]);
      assert t == [t[0]] + t[1..];
      FeedCons(m.(mode := Held(i.x)), t[0], t[1..]);
      WsFeeds(m.(mode := Full(ItemValue(i))), t[1..]);
    }
  }

  lemma WsFree(x: Text, c: char)
    requires Ws([c])
    ensures Free(x, c)
  {
    assert [c][0] == c;
  }

  lemma FullEats(m: Machine, v: Json, c: char)
    requires Ws([c])
    ensures Feed(m.(mode := Full(v)), c) == More(m.(mode := Full(v)))
  {
    assert [c][0] == c;
  }

  predicate Delimiter(c: char) { c == ',' || c == ']' || c == '}' }

  lemma RestSettles(m: Machine, i: Item, c: char)
    requires ItemOk(i) && Delimiter(c)
    ensures Feed(m.(mode := Rest(i)), c) == Feed(m.(mode := Full(ItemValue(i))), c)
  {
    hide Feed, Held, Ok;
    Settles(m, i.x, c);
  }

  ghost function AfterItem(m: Machine, f: Frame, i: Item): Outcome
    requires ItemOk(i)
  {
    if |m.stack| + LevelsItem(i) < m.maxDepth then More(Pushed(m, f, Rest(i))) else Fail(TooDeep)
  }

  /** A value between white space, from the place of an element, if its own text is read. */
  lemma ItemFeeds(m: Machine, i: Item)
    requires Inside(m.mode).Some? && ItemOk(i)
    requires Room(m) ==>
      FeedAll(Pushed(m, Inside(m.mode).value, Start), Spell(i.x)) == After(Pushed(m, Inside(m.mode).value, Start), i.x)
    ensures FeedAll(m, SpellItem(i)) == AfterItem(m, Inside(m.mode).value, i)
  {
    hide Feed, FeedAll, Spell, Held, Ok, Levels;
    var f := Inside(m.mode).value;
    WsFeeds(m, i.before);
    FeedConcat(m, i.before, Spell(i.x) + i.after);
    FeedConcat(m, Spell(i.x), i.after);
    SpellOpens(i.x);
    ElementFeeds(m, Spell(i.x));
    if AfterItem(m, f, i).More? { WsAfter(Pushed(m, f, Start), i); }
  }

  // ---- Between elements --------------------------------------------------------------

  /** A finished container, and the place for its next element. */
  function Closed(f: Frame, v: Json): Json {
    match f case InArr(es) => Arr(es + [v]) case InObj(fs, key) => Obj(AddField(fs, key, v))
  }

  function NextPlace(f: Frame, v: Json): Mode {
    match f case InArr(es) => ArrComma(es + [v]) case InObj(fs, key) => ObjComma(AddField(fs, key, v))
  }

  function CloseChar(f: Frame): char { if f.InArr? then ']' else '}' }

  lemma PopActs(m: Machine, f: Frame, v: Json)
    ensures Feed(Pushed(m, f, Full(v)), CloseChar(f)) == More(m.(mode := Full(Closed(f, v))))
    ensures Feed(Pushed(m, f, Full(v)), ',') == More(m.(mode := NextPlace(f, v)))
  {
    hide AddField;
    var n := Pushed(m, f, Full(v));
    var next := match f case InArr(es) => ArrSep(es + [v]) case InObj(fs, key) => ObjSep(AddField(fs, key, v));
    assert (m.stack + [f])[..|m.stack|] == m.stack;
    assert Popped(n) == m.(mode := next);
    assert Feed(n, CloseChar(f)) == Step(m.(mode := next), CloseChar(f));
    assert Feed(n, ',') == Step(m.(mode := next), ',');
  }

  /** Behind an item: the comma, or the closing bracket, or both. */
  lemma CommaFeeds(m: Machine, f: Frame, i: Item)
    requires ItemOk(i)
    ensures FeedAll(Pushed(m, f, Rest(i)), ",") == More(m.(mode := NextPlace(f, ItemValue(i))))
  {
    hide Feed, FeedAll, Rest;
    RestSettles(Pushed(m, f, Start), i, ',');
    PopActs(m, f, ItemValue(i));
    FeedOne(Pushed(m, f, Rest(i)), ',');
  }

  lemma CloseFeeds(m: Machine, f: Frame, i: Item)
    requires ItemOk(i)
    ensures FeedAll(Pushed(m, f, Rest(i)), [CloseChar(f)]) == More(m.(mode := Full(Closed(f, ItemValue(i)))))
  {
    hide Feed, FeedAll, Rest;
    RestSettles(Pushed(m, f, Start), i, CloseChar(f));
    PopActs(m, f, ItemValue(i));
    FeedOne(Pushed(m, f, Rest(i)), CloseChar(f));
  }

  /** The end of a container whose next element could start here. */
  lemma BracketFeeds(m: Machine, last: string, v: Json)
    requires Ws(last)
    requires (v.Arr? && (m.mode == ArrComma(v.es) || (v.es == [] && m.mode == ArrOpen([]))))
          || (v.Obj? && (m.mode == ObjComma(v.fs) || (v.fs == [] && m.mode == ObjOpen([]))))
    ensures FeedAll(m, last + (if v.Arr? then "]" else "}")) == More(m.(mode := Full(v)))
  {
    var c := if v.Arr? then ']' else '}';
    WsFeeds(m, last);
    FeedConcat(m, last, [c]);
    FeedOne(m, c);
  }

  // ---- Fields ------------------------------------------------------------------------

  lemma {:induction false} AddFieldAt(fs: seq<Field>, key: string, v: Json, i: nat)
    requires i < |fs| && fs[i].key == key && forall k :: 0 <= k < i ==> fs[k].key != key
    ensures AddField(fs, key, v) == fs[i := Field(key, v)]
    decreases |fs|
  {
    if i == 0 {
      assert [Field(key, v)] + fs[1..] == fs[0 := Field(key, v)];
    } else {
      AddFieldAt(fs[1..], key, v, i - 1);
      assert [fs[0]] + fs[1..][i - 1 := Field(key, v)] == fs[i := Field(key, v)];
    }
  }

  lemma AddFieldIs(fs: seq<Field>, key: string, v: Json)
    requires DistinctKeys(fs)
    ensures AddField(fs, key, v) == WithField(fs, key, v) && DistinctKeys(WithField(fs, key, v))
  {
    if KeyIn(fs, key) {
      var i :| 0 <= i < |fs| && fs[i].key == key;
      AddFieldAt(fs, key, v, i);
      forall k | 0 <= k < |fs| && k != i ensures fs[k].key != key {}
      assert WithField(fs, key, v) == fs[i := Field(key, v)];
    } else {
      AddFreshField(fs, key, v);
    }
  }

  lemma {:induction false} FieldsDistinct(members: seq<Member>)
    requires MembersOk(members)
    ensures DistinctKeys(FieldsOf(members))
    decreases |members|
  {
    if members != [] {
      var k := |members| - 1;
      FieldsDistinct(members[..k]);
      AddFieldIs(FieldsOf(members[..k]), KeyOf(members[k].key), MemberValue(members[k]));
    }
  }

  lemma FieldsSnoc(members: seq<Member>)
    requires MembersOk(members) && members != []
    ensures var k := |members| - 1; var m := members[k];
      MembersOk(members[..k]) && MemberOk(m)
      && FieldsOf(members) == AddField(FieldsOf(members[..k]), KeyOf(m.key), ItemValue(m.item))
  {
    var k := |members| - 1;
    FieldsDistinct(members[..k]);
    AddFieldIs(FieldsOf(members[..k]), KeyOf(members[k].key), MemberValue(members[k]));
  }

  // ---- The induction -------------------------------------------------------------------

  ghost function AfterItems(m: Machine, items: seq<Item>): Outcome
    requires ItemsOk(items)
  {
    if items == [] then More(m.(mode := ArrOpen([])))
    else
      var k := |items| - 1;
      if |m.stack| + LevelsAll(items) < m.maxDepth then More(Pushed(m, InArr(ValuesOf(items[..k])), Rest(items[k])))
      else Fail(TooDeep)
  }

  ghost function AfterMembers(m: Machine, members: seq<Member>): Outcome
    requires MembersOk(members)
  {
    if members == [] then More(m.(mode := ObjOpen([])))
    else
      var k := |members| - 1;
      if |m.stack| + LevelsMembers(members) < m.maxDepth then
        More(Pushed(m, InObj(FieldsOf(members[..k]), KeyOf(members[k].key)), Rest(members[k].item)))
      else Fail(TooDeep)
  }

  /** Behind the items and the comma, if there is one. */
  lemma ItemsSep(m: Machine, items: seq<Item>) returns (place: Mode)
    requires ItemsOk(items) && AfterItems(m, items).More?
    ensures FeedAll(AfterItems(m, items).m, Sep(|items|)) == More(m.(mode := place)) && Inside(place) == Some(InArr(ValuesOf(items)))
    ensures place == if items == [] then ArrOpen([]) else ArrComma(ValuesOf(items))
  {
    hide Feed, FeedAll, Rest;
    if items == [] {
      place := ArrOpen([]);
      EmptyFeeds(m.(mode := place));
    } else {
      var k := |items| - 1;
      place := ArrComma(ValuesOf(items));
      CommaFeeds(m, InArr(ValuesOf(items[..k])), items[k]);
    }
  }

  lemma ItemsClose(m: Machine, items: seq<Item>, comma: bool, last: string)
    requires Ok(Array(items, comma, last)) && AfterItems(m, items).More?
    ensures FeedAll(AfterItems(m, items).m, (if comma then "," else "") + (last + "]"))
         == More(m.(mode := Full(Arr(ValuesOf(items)))))
  {
    hide Feed, FeedAll, Rest, Step;
    var tail := last + "]";
    if comma {
      var place := ItemsSep(m, items);
      FeedConcat(AfterItems(m, items).m, ",", tail);
      BracketFeeds(m.(mode := place), last, Arr(ValuesOf(items)));
    } else if items == [] {
      assert "" + tail == tail;
      BracketFeeds(m.(mode := ArrOpen([])), last, Arr([]));
    } else {
      var k := |items| - 1;
      assert "" + tail == "]";
      CloseFeeds(m, InArr(ValuesOf(items[..k])), items[k]);
    }
  }

  lemma MembersSep(m: Machine, members: seq<Member>) returns (place: Mode)
    requires MembersOk(members) && AfterMembers(m, members).More?
    ensures FeedAll(AfterMembers(m, members).m, Sep(|members|)) == More(m.(mode := place))
    ensures place == if members == [] then ObjOpen([]) else ObjComma(FieldsOf(members))
  {
    hide Feed, FeedAll, Rest, AddField;
    if members == [] {
      place := ObjOpen([]);
      EmptyFeeds(m.(mode := place));
    } else {
      var k := |members| - 1;
      FieldsSnoc(members);
      place := ObjComma(FieldsOf(members));
      CommaFeeds(m, InObj(FieldsOf(members[..k]), KeyOf(members[k].key)), members[k].item);
    }
  }

  lemma MembersClose(m: Machine, members: seq<Member>, comma: bool, last: string)
    requires Ok(Object(members, comma, last)) && AfterMembers(m, members).More?
    ensures FeedAll(AfterMembers(m, members).m, (if comma then "," else "") + (last + "}"))
         == More(m.(mode := Full(Obj(FieldsOf(members)))))
  {
    hide Feed, FeedAll, Rest, Step, AddField;
    var tail := last + "}";
    if comma {
      var place := MembersSep(m, members);
      FeedConcat(AfterMembers(m, members).m, ",", tail);
      BracketFeeds(m.(mode := place), last, Obj(FieldsOf(members)));
    } else if members == [] {
      assert "" + tail == tail;
      BracketFeeds(m.(mode := ObjOpen([])), last, Obj([]));
    } else {
      var k := |members| - 1;
      FieldsSnoc(members);
      assert "" + tail == "}";
      CloseFeeds(m, InObj(FieldsOf(members[..k]), KeyOf(members[k].key)), members[k].item);
    }
  }

  lemma OpenFeeds(m: Machine, c: char)
    requires m.mode == Start && (c == '[' || c == '{')
    ensures Feed(m, c) == More(m.(mode := if c == '[' then ArrOpen([]) else ObjOpen([])))
  {
  }

  /** Reading the text of a value at its first character. */
  lemma {:induction false} Reads(m: Machine, x: Text)
    requires Ok(x) && m.mode == Start && |m.stack| < m.maxDepth
    ensures FeedAll(m, Spell(x)) == After(m, x)
    decreases x
  {
    hide Feed, FeedAll, Step, NumText, KindOf;
    match x {
      case Word(t) => WordFeeds(m, t);
      case Number(neg, digits, rest) => NumberIs(neg, digits, rest); NumberFeeds(m, neg, digits, rest);
      case Quoted(quote, us) => StringFeeds(m, quote, us);
      case Array(items, comma, last) =>
        ReadsItems(m, items);
        ArrayReads(m, items, comma, last);
      case Object(members, comma, last) =>
        ReadsMembers(m, members);
        ObjectReads(m, members, comma, last);
    }
  }

  lemma NumberIs(neg: bool, digits: string, rest: string)
    ensures Spell(Number(neg, digits, rest)) == NumText(neg, digits, rest)
  {
  }

  lemma ArrayReads(m: Machine, items: seq<Item>, comma: bool, last: string)
    requires Ok(Array(items, comma, last)) && m.mode == Start && |m.stack| < m.maxDepth
    requires FeedAll(m.(mode := ArrOpen([])), SpellItems(items)) == AfterItems(m, items)
    ensures FeedAll(m, Spell(Array(items, comma, last))) == After(m, Array(items, comma, last))
  {
    hide Feed, FeedAll, Step, Rest;
    var open, tail := m.(mode := ArrOpen([])), (if comma then "," else "") + (last + "]");
    OpenFeeds(m, '[');
    FeedCons(m, '[', SpellItems(items) + tail);
    FeedConcat(open, SpellItems(items), tail);
    assert ValueOf(Array(items, comma, last)) == Arr(ValuesOf(items)) && Levels(Array(items, comma, last)) == LevelsAll(items);
    if AfterItems(m, items).More? { ItemsClose(m, items, comma, last); }
  }

  lemma ObjectReads(m: Machine, members: seq<Member>, comma: bool, last: string)
    requires Ok(Object(members, comma, last)) && m.mode == Start && |m.stack| < m.maxDepth
    requires FeedAll(m.(mode := ObjOpen([])), SpellMembers(members)) == AfterMembers(m, members)
    ensures FeedAll(m, Spell(Object(members, comma, last))) == After(m, Object(members, comma, last))
  {
    hide Feed, FeedAll, Step, Rest;
    var open, tail := m.(mode := ObjOpen([])), (if comma then "," else "") + (last + "}");
    OpenFeeds(m, '{');
    FeedCons(m, '{', SpellMembers(members) + tail);
    FeedConcat(open, SpellMembers(members), tail);
    var x := Object(members, comma, last);
    assert ValueOf(x) == Obj(FieldsOf(members)) && Levels(x) == LevelsMembers(members);
    if AfterMembers(m, members).More? { MembersClose(m, members, comma, last); }
  }

  lemma {:induction false} ReadsItems(m: Machine, items: seq<Item>)
    requires ItemsOk(items) && |m.stack| < m.maxDepth
    ensures FeedAll(m.(mode := ArrOpen([])), SpellItems(items)) == AfterItems(m, items)
    decreases items
  {
    hide Feed, FeedAll, Step, Rest, Spell, Ok;
    if items == [] {
      EmptyFeeds(m.(mode := ArrOpen([])));
    } else {
      var k := |items| - 1;
      ReadsItems(m, items[..k]);
      var pre, item := SpellItems(items[..k]), SpellItem(items[k]);
      FeedConcat(m.(mode := ArrOpen([])), pre, Sep(k) + item);
      if AfterItems(m, items[..k]).More? {
        var place := ItemsSep(m, items[..k]);
        FeedConcat(AfterItems(m, items[..k]).m, Sep(k), item);
        ReadsItem(m.(mode := place), items[k]);
      }
    }
  }

  lemma {:induction false} ReadsItem(m: Machine, i: Item)
    requires Inside(m.mode).Some? && ItemOk(i)
    ensures FeedAll(m, SpellItem(i)) == AfterItem(m, Inside(m.mode).value, i)
    decreases i
  {
    hide Feed, FeedAll, Step, Spell;
    if Room(m) { Reads(Pushed(m, Inside(m.mode).value, Start), i.x); }
    ItemFeeds(m, i);
  }

  lemma {:induction false} ReadsMember(m: Machine, fs: seq<Field>, x: Member)
    requires (m.mode == ObjOpen(fs) || m.mode == ObjComma(fs)) && MemberOk(x)
    ensures FeedAll(m, SpellMember(x)) == AfterItem(m, InObj(fs, KeyOf(x.key)), x.item)
    decreases x
  {
    hide Feed, FeedAll, Step, SpellKey, SpellItem, Rest, KeyOf;
    KeyFeeds(m, fs, x.key);
    FeedConcat(m, SpellKey(x.key), SpellItem(x.item));
    ReadsItem(m.(mode := ObjValue(fs, KeyOf(x.key))), x.item);
  }

  lemma {:induction false} ReadsMembers(m: Machine, members: seq<Member>)
    requires MembersOk(members) && |m.stack| < m.maxDepth
    ensures FeedAll(m.(mode := ObjOpen([])), SpellMembers(members)) == AfterMembers(m, members)
    decreases members
  {
    hide Feed, FeedAll, Step, Rest, SpellMember, MemberOk, KeyOf;
    if members == [] {
      EmptyFeeds(m.(mode := ObjOpen([])));
    } else {
      var k := |members| - 1;
      ReadsMembers(m, members[..k]);
      var pre, text := SpellMembers(members[..k]), SpellMember(members[k]);
      FeedConcat(m.(mode := ObjOpen([])), pre, Sep(k) + text);
      if AfterMembers(m, members[..k]).More? {
        var place := MembersSep(m, members[..k]);
        FeedConcat(AfterMembers(m, members[..k]).m, Sep(k), text);
        ReadsMember(m.(mode := place), FieldsOf(members[..k]), members[k]);
        assert LevelsMember(members[k]) == LevelsItem(members[k].item);
      }
    }
  }
}
