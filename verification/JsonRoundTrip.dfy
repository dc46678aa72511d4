/**
  Printing and parsing are inverse: what the printer writes is a JSON text that means the
  value, in every print style; so the tokener turns it back into the same value, keys in
  order, exactly when the value is not nested deeper than the tokener's levels.
*/
module JsonRoundTrip {
  import opened Shared
  import opened JsonValue
  import opened JsonGrammar
  import opened JsonRfc
  import opened M = JsonMachine
  import A = JsonAccepts
  import N = JsonUnits

  // ---- Strings ---------------------------------------------------------------------

  /** The unit the printer writes for a character. */
  function UnitFor(c: char): Unit {
    if c == '\U{8}' then Short('b')
    else if c == '\n' then Short('n')
    else if c == '\r' then Short('r')
    else if c == '\t' then Short('t')
    else if c == '\U{C}' then Short('f')
    else if c == '\"' || c == '\\' || c == '/' then Short(c)
    else if c < ' ' then Code('0', '0', HexDigit(c as int / 16), HexDigit(c as int % 16))
    else Raw(c)
  }

  lemma HexDigitMeans(d: nat)
    requires d < 16
    ensures Hex(HexDigit(d)) && HexOf(HexDigit(d)) == d
  {
  }

  lemma ControlMeans(c: char)
    requires c < ' '
    ensures var u := Code('0', '0', HexDigit(c as int / 16), HexDigit(c as int % 16));
      Hexes(u) && CodeOf(u) == c as int && JsonGrammar.Utf8(c as int) == [c] && SpellUnit(u) == "\\u00" + [u.c, u.d]
  {
    HexDigitMeans(c as int / 16);
    HexDigitMeans(c as int % 16);
  }

  /** Every character has a printed form that means it. */
  lemma UnitPrinted(c: char)
    ensures var u := UnitFor(c);
      && SpellUnit(u) == EscapeChar(c)
      && (if u.Code? then Hexes(u) && CodeOf(u) == c as int < 0x20 && JsonGrammar.Utf8(CodeOf(u)) == [c]
          else if u.Short? then Shorts(u.c) && ShortOf(u.c) == c else u.c == c && c >= ' ' && c != '\"' && c != '\\')
  {
    if c < ' ' { ControlMeans(c); }
  }

  /** No spelling of a byte is shorter than the printed one; only the slash could stand bare. */
  lemma ShortestEscape(c: char, u: Unit)
    requires Chars([u]) && BytesOf([u]) == [c]
    ensures c != '/' ==> |EscapeChar(c)| <= |SpellUnit(u)|
    ensures c == '/' ==> EscapeChar(c) == "\\/"
  {
    hide CodeOf, M.Utf8;
    assert [u][..0] == [] && BytesOf([]) == "";
    if u.Short? { assert BytesOf([u]) == [ShortOf(u.c)]; }
    if u.Raw? { assert BytesOf([u]) == [u.c]; }
  }

  function UnitsFor(s: string): seq<Unit> { if s == "" then [] else UnitsFor(s[..|s| - 1]) + [UnitFor(s[|s| - 1])] }

  lemma {:induction false} StringPrinted(s: string)
    ensures var us := UnitsFor(s); SpellUnits(us) == Escape(s) && Chars(us) && BytesOf(us) == s
    decreases |s|
  {
    hide SpellUnit, UnitFor, EscapeChar, CodeOf, ShortOf, M.Utf8;
    if s != "" {
      var k := |s| - 1;
      StringPrinted(s[..k]);
      UnitPrinted(s[k]);
      var us := UnitsFor(s);
      assert us[..|us| - 1] == UnitsFor(s[..k]) && us[|us| - 1] == UnitFor(s[k]);
      assert s == s[..k] + [s[k]];
    }
  }

  // ---- Numbers -----------------------------------------------------------------------

  lemma OneDigit(d: nat)
    requires d < 10
    ensures DecimalDigit(Digit(d)) && Digit(d) as int - '0' as int == d
  {
  }

  /** The digits of a number mean it, and have no leading zero. */
  lemma {:induction false} DigitsMean(n: nat)
    ensures var t := Digits(n); t != "" && AllDigits(t) && DecimalOf(t) == n && (t[0] == '0' ==> t == "0" && n == 0)
    decreases n
  {
    if n >= 10 {
      DigitsMean(n / 10);
      OneDigit(n % 10);
      var most := Digits(n / 10);
      assert Digits(n)[..|Digits(n)| - 1] == most && Digits(n)[0] == most[0];
    } else {
      OneDigit(n);
      assert Digits(n)[..0] == "";
    }
  }

  lemma DecimalPrinted(i: int)
    requires INT64_MIN <= i <= INT64_MAX
    ensures var x := Number(i < 0, Digits(if i < 0 then -i else i), ""); Rfc(x) && Spell(x) == Decimal(i) && ValueOf(x) == Int(i)
  {
    hide Digits, DecimalOf;
    var n := if i < 0 then -i else i;
    DigitsMean(n);
    assert Digits(n) + "" == Digits(n) && "" + Digits(n) == Digits(n);
    NumbersMean(i < 0, Digits(n));
  }

  // ---- Syntax trees of values -----------------------------------------------------------

  /** White space in front of an element. */
  function Before(level: nat, st: Style): string { Newline(st) + (Gap(st) + Indent(level + 1, st)) }

  /** White space in an empty container. */
  function LastFor(k: nat, level: nat, st: Style): string { if k == 0 then Newline(st) + Trail(0, level, st) else "" }

  function SyntaxFor(v: Json, level: nat, st: Style): Text
    decreases v, 0
  {
    match v
    case Null => Word("null")
    case Bool(b) => Word(if b then "true" else "false")
    case Int(i) => Number(i < 0, Digits(if i < 0 then -i else i), "")
    case Str(s) => Text.Quoted('\"', UnitsFor(s))
    case Arr(es) => Array(ItemsFor(es, level, st, Trail(|es|, level, st)), false, LastFor(|es|, level, st))
    case Obj(fs) => Object(MembersFor(fs, level, st, Trail(|fs|, level, st)), false, LastFor(|fs|, level, st))
  }

  function ItemFor(v: Json, level: nat, st: Style, after: string): Item
    decreases v, 1
  {
    Item(Before(level, st), SyntaxFor(v, level + 1, st), after)
  }

  function MemberFor(f: Field, level: nat, st: Style, after: string): Member
    decreases f
  {
    Member(Key(Before(level, st), '\"', UnitsFor(f.key), ""), Item(Gap(st), SyntaxFor(f.val, level + 1, st), after))
  }

  /** The elements; the white space behind the last is given. */
  function ItemsFor(es: seq<Json>, level: nat, st: Style, after: string): (r: seq<Item>)
    ensures |r| == |es|
    decreases es
  {
    if es == [] then []
    else
      var k := |es| - 1;
      ItemsFor(es[..k], level, st, "") + [ItemFor(es[k], level, st, after)]
  }

  function MembersFor(fs: seq<Field>, level: nat, st: Style, after: string): (r: seq<Member>)
    ensures |r| == |fs|
    decreases fs
  {
    if fs == [] then []
    else
      var k := |fs| - 1;
      MembersFor(fs[..k], level, st, "") + [MemberFor(fs[k], level, st, after)]
  }

  lemma {:induction false} SpacesBlank(n: nat)
    ensures Blank(Spaces(n))
  {
    if n > 0 { SpacesBlank(n - 1); }
  }

  /** The layout is white space, and goes where the printer puts it. */
  lemma LayoutBlank(k: nat, level: nat, st: Style)
    ensures Blank(Newline(st)) && Blank(Gap(st)) && Blank(Trail(k, level, st)) && Blank(Before(level, st))
    ensures Newline(st) + Lead(0, level, st) == Before(level, st)
    ensures k > 0 ==> Lead(k, level, st) == "," + Before(level, st)
  {
    SpacesBlank(level * 2);
    SpacesBlank((level + 1) * 2);
    hide Spaces;
  }

  // ---- They spell the print ------------------------------------------------------------------

  lemma {:induction false} Spells(v: Json, level: nat, st: Style)
    ensures Spell(SyntaxFor(v, level, st)) == Print(v, level, st)
    decreases v
  {
    hide Trail, Newline, Digits, Escape, UnitsFor, ItemsFor, MembersFor, SpellItems, SpellMembers, PrintAll, PrintFields;
    match v {
      case Int(i) =>
        var d := Digits(if i < 0 then -i else i);
        assert d + "" == d && "" + d == d;
      case Str(s) => StringPrinted(s);
      case Arr(es) =>
        SpellsAll(es, level, st, Trail(|es|, level, st));
        NoElements(level, st);
        ContainerText("[", Newline(st), PrintAll(es, level, st), Trail(|es|, level, st), "]");
      case Obj(fs) =>
        SpellsFields(fs, level, st, Trail(|fs|, level, st));
        NoElements(level, st);
        ContainerText("{", Newline(st), PrintFields(fs, level, st), Trail(|fs|, level, st), "}");
      case _ =>
    }
  }

  lemma NoElements(level: nat, st: Style)
    ensures PrintAll([], level, st) == "" && PrintFields([], level, st) == ""
  {
  }

  /** A container without and with elements. */
  lemma ContainerText(open: string, newline: string, all: string, trail: string, close: string)
    ensures open + ("" + ("" + (newline + trail + close))) == open + (newline + ("" + (trail + close)))
    ensures open + (newline + all + trail + ("" + ("" + close))) == open + (newline + (all + (trail + close)))
  {
  }

  lemma SpellItemsSnoc(items: seq<Item>, i: Item)
    ensures SpellItems(items + [i]) == SpellItems(items) + (Sep(|items|) + SpellItem(i))
  {
    assert (items + [i])[..|items|] == items;
  }

  lemma SpellMembersSnoc(members: seq<Member>, m: Member)
    ensures SpellMembers(members + [m]) == SpellMembers(members) + (Sep(|members|) + SpellMember(m))
  {
    assert (members + [m])[..|members|] == members;
  }

  /** The elements with the white space in front of them and behind the last. */
  lemma {:induction false} SpellsAll(es: seq<Json>, level: nat, st: Style, after: string)
    ensures SpellItems(ItemsFor(es, level, st, after)) == if es == [] then "" else Newline(st) + PrintAll(es, level, st) + after
    decreases es
  {
    hide Newline, Lead, Before, Print, SyntaxFor, Spell;
    if es != [] {
      var k := |es| - 1;
      SpellsAll(es[..k], level, st, "");
      Spells(es[k], level + 1, st);
      LayoutBlank(k, level, st);
      SpellItemsSnoc(ItemsFor(es[..k], level, st, ""), ItemFor(es[k], level, st, after));
      if k == 0 {
        assert PrintAll(es[..k], level, st) == "";
        FirstText(Newline(st), Lead(0, level, st), Before(level, st), Print(es[0], level + 1, st), after);
      } else {
        NextText(Newline(st), PrintAll(es[..k], level, st), Before(level, st), Print(es[k], level + 1, st), after);
      }
    }
  }

  lemma FirstText(newline: string, lead: string, before: string, text: string, after: string)
    requires newline + lead == before
    ensures "" + ("" + (before + (text + after))) == newline + ("" + (lead + text)) + after
  {
    assert before + (text + after) == newline + lead + (text + after);
  }

  lemma NextText(newline: string, all: string, before: string, text: string, after: string)
    ensures newline + all + "" + ("," + (before + (text + after))) == newline + (all + ("," + before + text)) + after
  {
  }

  lemma {:induction false} SpellsFields(fs: seq<Field>, level: nat, st: Style, after: string)
    ensures SpellMembers(MembersFor(fs, level, st, after)) == if fs == [] then "" else Newline(st) + PrintFields(fs, level, st) + after
    decreases fs
  {
    hide Newline, Lead, Before, Print, SyntaxFor, Spell, KeyPart, Gap, SpellKey, UnitsFor;
    if fs != [] {
      var k := |fs| - 1;
      SpellsFields(fs[..k], level, st, "");
      Spells(fs[k].val, level + 1, st);
      LayoutBlank(k, level, st);
      SpellMembersSnoc(MembersFor(fs[..k], level, st, ""), MemberFor(fs[k], level, st, after));
      var text := KeyPart(fs[k].key, st) + Print(fs[k].val, level + 1, st);
      KeySpells(fs[k].key, level, st, Print(fs[k].val, level + 1, st), after);
      if k == 0 {
        assert PrintFields(fs[..k], level, st) == "";
        FirstText(Newline(st), Lead(0, level, st), Before(level, st), text, after);
      } else {
        NextText(Newline(st), PrintFields(fs[..k], level, st), Before(level, st), text, after);
      }
    }
  }

  lemma KeySpells(key: string, level: nat, st: Style, text: string, after: string)
    ensures SpellKey(Key(Before(level, st), '\"', UnitsFor(key), "")) + (Gap(st) + (text + after))
         == Before(level, st) + (KeyPart(key, st) + text + after)
  {
    hide Before, Gap, UnitsFor, Escape;
    StringPrinted(key);
  }

  // ---- They mean the value ----------------------------------------------------------------------

  /** The syntax tree is JSON, means the value, and is as deep. */
  ghost predicate For(x: Text, v: Json) { Rfc(x) && Ok(x) && ValueOf(x) == v && Levels(x) == Depth(v) }

  lemma {:induction false} Means(v: Json, level: nat, st: Style)
    requires Valid(v)
    ensures For(SyntaxFor(v, level, st), v)
    decreases v
  {
    hide Trail, Newline, Digits, UnitsFor, ItemsFor, MembersFor, Blank, Chars;
    LayoutBlank(0, level, st);
    match v {
      case Null => WordsAre();
      case Bool(b) => WordsAre();
      case Int(i) => DecimalPrinted(i);
      case Str(s) => StringMeans(s);
      case Arr(es) =>
        LayoutBlank(|es|, level, st);
        MeansAll(es, level, st, Trail(|es|, level, st));
        NoBlank();
        BlankSum(Newline(st), Trail(0, level, st));
        ArrayMeans(ItemsFor(es, level, st, Trail(|es|, level, st)), es, LastFor(|es|, level, st));
      case Obj(fs) =>
        LayoutBlank(|fs|, level, st);
        MeansFields(fs, level, st, Trail(|fs|, level, st));
        NoBlank();
        BlankSum(Newline(st), Trail(0, level, st));
        ObjectMeans(MembersFor(fs, level, st, Trail(|fs|, level, st)), fs, LastFor(|fs|, level, st));
    }
  }

  lemma WordsAre()
    ensures For(Word("null"), Null) && For(Word("true"), Bool(true)) && For(Word("false"), Bool(false))
  {
  }

  lemma StringMeans(s: string)
    ensures For(Text.Quoted('\"', UnitsFor(s)), Str(s))
  {
    hide Chars, UnitsFor, BytesOf;
    StringPrinted(s);
    StringsMean(UnitsFor(s));
    RfcIsOk(Text.Quoted('\"', UnitsFor(s)));
  }

  lemma NoBlank()
    ensures Blank("") && Ws("")
  {
  }

  lemma BlankSum(a: string, b: string)
    requires Blank(a) && Blank(b)
    ensures Blank(a + b)
  {
  }

  ghost predicate ItemsAre(items: seq<Item>, es: seq<Json>) {
    && |items| == |es| && (forall i :: 0 <= i < |items| ==> RfcItem(items[i])) && ItemsOk(items)
    && ValuesOf(items) == es && LevelsAll(items) == DepthAll(es)
  }

  lemma ArrayMeans(items: seq<Item>, es: seq<Json>, last: string)
    requires ItemsAre(items, es) && Blank(last) && (items != [] ==> last == "")
    ensures For(Array(items, false, last), Arr(es))
  {
    hide Blank, RfcItem, ItemOk;
    var x := Array(items, false, last);
    RfcIsOk(x);
    assert ValueOf(x) == Arr(ValuesOf(items)) && Levels(x) == LevelsAll(items) && Depth(Arr(es)) == DepthAll(es);
  }

  lemma ItemMeans(v: Json, level: nat, st: Style, after: string)
    requires Blank(after) && For(SyntaxFor(v, level + 1, st), v)
    ensures var i := ItemFor(v, level, st, after); RfcItem(i) && ItemOk(i) && ItemValue(i) == v && LevelsItem(i) == 1 + Depth(v)
  {
    hide Before, SyntaxFor, Rfc, Ok, Levels, Blank, Depth, ValueOf;
    LayoutBlank(0, level, st);
    BlankIsWs(Before(level, st));
    BlankIsWs(after);
  }

  lemma ItemsGrow(items: seq<Item>, es: seq<Json>, i: Item)
    requires es != [] && ItemsAre(items, es[..|es| - 1])
    requires var v := es[|es| - 1]; RfcItem(i) && ItemOk(i) && ItemValue(i) == v && LevelsItem(i) == 1 + Depth(v)
    ensures ItemsAre(items + [i], es)
  {
    hide RfcItem, ItemOk, ItemValue, Depth, ValuesOf, LevelsAll, LevelsItem, SpellItems, SpellItem;
    A.ItemsSnoc(items, i);
    assert es == es[..|es| - 1] + [es[|es| - 1]];
    assert DepthAll(es) == Max(DepthAll(es[..|es| - 1]), 1 + Depth(es[|es| - 1]));
  }

  lemma {:induction false} MeansAll(es: seq<Json>, level: nat, st: Style, after: string)
    requires (forall k :: 0 <= k < |es| ==> Valid(es[k])) && Blank(after)
    ensures ItemsAre(ItemsFor(es, level, st, after), es)
    decreases es
  {
    hide Before, SyntaxFor, For, Blank, Valid, RfcItem, ItemOk;
    if es != [] {
      var k := |es| - 1;
      NoBlank();
      MeansAll(es[..k], level, st, "");
      Means(es[k], level + 1, st);
      ItemMeans(es[k], level, st, after);
      ItemsGrow(ItemsFor(es[..k], level, st, ""), es, ItemFor(es[k], level, st, after));
    }
  }

  ghost predicate MembersAre(members: seq<Member>, fs: seq<Field>) {
    && |members| == |fs| && (forall i :: 0 <= i < |members| ==> RfcMember(members[i])) && MembersOk(members)
    && FieldsOf(members) == fs && LevelsMembers(members) == DepthFields(fs)
  }

  lemma ObjectMeans(members: seq<Member>, fs: seq<Field>, last: string)
    requires MembersAre(members, fs) && Blank(last) && (members != [] ==> last == "")
    ensures For(Object(members, false, last), Obj(fs))
  {
    hide Blank, RfcMember, MemberOk;
    var x := Object(members, false, last);
    RfcIsOk(x);
    assert ValueOf(x) == Obj(FieldsOf(members)) && Levels(x) == LevelsMembers(members) && Depth(Obj(fs)) == DepthFields(fs);
  }

  ghost predicate GoodFields(fs: seq<Field>) { Valid(Obj(fs)) }

  lemma LastField(fs: seq<Field>)
    requires GoodFields(fs) && fs != []
    ensures var k := |fs| - 1;
      && GoodFields(fs[..k]) && Valid(fs[k].val) && '\0' !in fs[k].key
      && AddField(fs[..k], fs[k].key, fs[k].val) == fs
  {
    var k := |fs| - 1;
    AddFreshField(fs[..k], fs[k].key, fs[k].val);
    assert fs[..k] + [Field(fs[k].key, fs[k].val)] == fs;
  }

  lemma KeyMeans(key: string, before: string)
    requires '\0' !in key && Blank(before)
    ensures var k := Key(before, '\"', UnitsFor(key), ""); KeyOk(k) && KeyOf(k) == key && Chars(k.units) && BytesOf(k.units) == key
  {
    hide UnitsFor, Chars, BytesOf, UpToNul, UnitsOk;
    StringPrinted(key);
    CharsOk(UnitsFor(key));
    BlankIsWs(before);
    KeysMean(Key(before, '\"', UnitsFor(key), ""));
  }

  lemma MemberMeans(f: Field, level: nat, st: Style, after: string)
    requires '\0' !in f.key && Blank(after) && For(SyntaxFor(f.val, level + 1, st), f.val)
    ensures var m := MemberFor(f, level, st, after);
      RfcMember(m) && MemberOk(m) && KeyOf(m.key) == f.key && ItemValue(m.item) == f.val && LevelsItem(m.item) == 1 + Depth(f.val)
  {
    hide Gap, Before, SyntaxFor, Rfc, Ok, Levels, Blank, Depth, Chars, BytesOf, UnitsFor, KeyOk, KeyOf, ValueOf;
    LayoutBlank(0, level, st);
    NoBlank();
    BlankIsWs(Gap(st));
    BlankIsWs(after);
    KeyMeans(f.key, Before(level, st));
  }

  lemma MembersGrow(members: seq<Member>, fs: seq<Field>, m: Member)
    requires GoodFields(fs) && fs != [] && MembersAre(members, fs[..|fs| - 1])
    requires var f := fs[|fs| - 1];
      RfcMember(m) && MemberOk(m) && KeyOf(m.key) == f.key && ItemValue(m.item) == f.val && LevelsItem(m.item) == 1 + Depth(f.val)
    ensures MembersAre(members + [m], fs)
  {
    hide RfcMember, MemberOk, KeyOf, ItemValue, Depth, AddField, GoodFields, FieldsOf, LevelsMembers, LevelsItem, SpellMembers,
      SpellMember;
    LastField(fs);
    A.MembersSnoc(members, m);
    assert DepthFields(fs) == Max(DepthFields(fs[..|fs| - 1]), 1 + Depth(fs[|fs| - 1].val));
  }

  lemma {:induction false} MeansFields(fs: seq<Field>, level: nat, st: Style, after: string)
    requires GoodFields(fs) && Blank(after)
    ensures MembersAre(MembersFor(fs, level, st, after), fs)
    decreases fs
  {
    hide Newline, Gap, Indent, Before, SyntaxFor, For, Blank, UnitsFor, AddField, GoodFields, RfcMember, MemberOk, KeyOf;
    if fs != [] {
      var k := |fs| - 1;
      LastField(fs);
      NoBlank();
      MeansFields(fs[..k], level, st, "");
      Means(fs[k].val, level + 1, st);
      MemberMeans(fs[k], level, st, after);
      MembersGrow(MembersFor(fs[..k], level, st, ""), fs, MemberFor(fs[k], level, st, after));
    }
  }

  // ---- Which style prints which white space ---------------------------------------------------

  /** n blanks. */
  function Blanks(n: nat): string { seq(n, _ => ' ') }

  /** In front of every element: pretty prints break the line and indent by two blanks a
      level, spaced prints put one blank. */
  function BeforeElement(level: nat, spaced: bool, pretty: bool): string {
    (if pretty then "\n" else "") + (if spaced then " " else "") + (if pretty then Blanks(2 * level + 2) else "")
  }

  /** In front of the closing bracket. */
  function BeforeClose(level: nat, spaced: bool, pretty: bool): string {
    (if pretty then "\n" + Blanks(2 * level) else "") + (if spaced then " " else "")
  }

  /** The layout of a whole text; behind the last element comes what stands in front of the
      closing bracket. */
  predicate Laid(x: Text, level: nat, spaced: bool, pretty: bool)
    decreases x
  {
    var close := BeforeClose(level, spaced, pretty);
    match x
    case Array(items, _, last) => if items == [] then last == close else LaidItems(items, close, level, spaced, pretty)
    case Object(members, _, last) => if members == [] then last == close else LaidMembers(members, close, level, spaced, pretty)
    case _ => true
  }

  predicate LaidItem(i: Item, before: string, after: string, level: nat, spaced: bool, pretty: bool)
    decreases i
  {
    i.before == before && i.after == after && Laid(i.x, level + 1, spaced, pretty)
  }

  predicate LaidItems(items: seq<Item>, after: string, level: nat, spaced: bool, pretty: bool)
    decreases items
  {
    items == [] ||
    var k := |items| - 1;
    && LaidItem(items[k], BeforeElement(level, spaced, pretty), after, level, spaced, pretty)
    && LaidItems(items[..k], "", level, spaced, pretty)
  }

  predicate LaidMember(m: Member, after: string, level: nat, spaced: bool, pretty: bool)
    decreases m
  {
    && m.key.before == BeforeElement(level, spaced, pretty) && m.key.after == ""
    && LaidItem(m.item, if spaced then " " else "", after, level, spaced, pretty)
  }

  predicate LaidMembers(members: seq<Member>, after: string, level: nat, spaced: bool, pretty: bool)
    decreases members
  {
    members == [] ||
    var k := |members| - 1;
    LaidMember(members[k], after, level, spaced, pretty) && LaidMembers(members[..k], "", level, spaced, pretty)
  }

  lemma {:induction false} SpacesAre(n: nat)
    ensures Spaces(n) == Blanks(n)
  {
    if n > 0 { SpacesAre(n - 1); }
  }

  lemma LayoutIs(k: nat, level: nat, st: Style)
    ensures Before(level, st) == BeforeElement(level, st.spaced, st.pretty) && Gap(st) == (if st.spaced then " " else "")
    ensures k > 0 ==> Trail(k, level, st) == BeforeClose(level, st.spaced, st.pretty)
    ensures LastFor(0, level, st) == BeforeClose(level, st.spaced, st.pretty)
  {
    SpacesAre(level * 2);
    SpacesAre((level + 1) * 2);
    hide Spaces;
  }

  /** Every print has the layout of its style. */
  lemma {:induction false} PrintLayout(v: Json, level: nat, st: Style)
    ensures Laid(SyntaxFor(v, level, st), level, st.spaced, st.pretty)
    decreases v
  {
    hide Before, BeforeElement, BeforeClose, Trail, LastFor, Gap, ItemsFor, MembersFor, LaidItems, LaidMembers;
    match v {
      case Arr(es) =>
        LayoutIs(|es|, level, st);
        LaidAll(es, level, st, Trail(|es|, level, st));
      case Obj(fs) =>
        LayoutIs(|fs|, level, st);
        LaidFields(fs, level, st, Trail(|fs|, level, st));
      case _ =>
    }
  }

  lemma {:induction false} LaidAll(es: seq<Json>, level: nat, st: Style, after: string)
    ensures LaidItems(ItemsFor(es, level, st, after), after, level, st.spaced, st.pretty)
    decreases es
  {
    hide Before, BeforeElement, BeforeClose, Laid, SyntaxFor;
    if es != [] {
      var k := |es| - 1;
      LayoutIs(0, level, st);
      LaidAll(es[..k], level, st, "");
      PrintLayout(es[k], level + 1, st);
      assert ItemsFor(es, level, st, after)[..k] == ItemsFor(es[..k], level, st, "");
    }
  }

  lemma {:induction false} LaidFields(fs: seq<Field>, level: nat, st: Style, after: string)
    ensures LaidMembers(MembersFor(fs, level, st, after), after, level, st.spaced, st.pretty)
    decreases fs
  {
    hide Before, BeforeElement, BeforeClose, Laid, Gap, UnitsFor, SyntaxFor;
    if fs != [] {
      var k := |fs| - 1;
      LayoutIs(0, level, st);
      LaidFields(fs[..k], level, st, "");
      PrintLayout(fs[k].val, level + 1, st);
      assert MembersFor(fs, level, st, after)[..k] == MembersFor(fs[..k], level, st, "");
      assert LaidItem(MemberFor(fs[k], level, st, after).item, Gap(st), after, level, st.spaced, st.pretty);
      assert MembersFor(fs, level, st, after)[k] == MemberFor(fs[k], level, st, after);
    }
  }

  // ---- The theorems ----------------------------------------------------------------------------

  /** Every print, in any style, is a JSON text that means the value. */
  lemma PrintIsJson(v: Json, level: nat, st: Style)
    requires Valid(v)
    ensures var x := SyntaxFor(v, level, st); For(x, v) && Spell(x) == Print(v, level, st)
  {
    Means(v, level, st);
    Spells(v, level, st);
  }

  /** Parsing what the printer wrote, in any style, on a tokener with maxDepth
      levels: the same value, ending where the text ends, or the depth error. */
  lemma RoundTrip(v: Json, st: Style, maxDepth: nat)
    requires Valid(v) && 0 < maxDepth
    ensures var text := Print(v, 0, st);
      ParseText(maxDepth, text) == if Depth(v) <= maxDepth - 1 then Parsed(v, |text|) else Failed(TooDeep)
  {
    hide Rfc, Ok, SyntaxFor, Spell, Print, ParseText;
    PrintIsJson(v, 0, st);
    JsonIsRead(maxDepth, "", SyntaxFor(v, 0, st), "");
    assert "" + (Print(v, 0, st) + "") == Print(v, 0, st);
  }

  /** json_tokener_new gives JSON_TOKENER_DEFAULT_DEPTH levels. */
  lemma DefaultRoundTrip(v: Json, st: Style)
    requires Valid(v)
    ensures ParseText(32, Print(v, 0, st)) == Parsed(v, |Print(v, 0, st)|) <==> Depth(v) <= 31
    ensures ParseText(32, Print(v, 0, st)) == Failed(TooDeep) <==> Depth(v) > 31
  {
    RoundTrip(v, st, 32);
  }

  /** Printing never maps two values to the same text. */
  lemma PrintInjective(v: Json, w: Json, st: Style)
    requires Valid(v) && Valid(w) && Print(v, 0, st) == Print(w, 0, st)
    ensures v == w
  {
    var d := Max(Depth(v), Depth(w)) + 1;
    RoundTrip(v, st, d);
    RoundTrip(w, st, d);
  }
}
