/**
  The texts that json_tokener accepts, as a grammar of their own: a syntax tree, what it
  spells and what it means.  It is a superset of JSON without fractions and exponents
  (RFC 8259); Rfc tells which trees are JSON, so what it does not admit are the liberties.
*/
module JsonGrammar {
  import opened Shared
  import opened JsonValue
  import JsonMachine

  // ---- Syntax trees ------------------------------------------------------------

  /** A character of a string: as it is, behind a backslash, or by its code. */
  datatype Unit = Raw(c: char) | Short(c: char) | Code(a: char, b: char, c: char, d: char)

  datatype Text =
    | Word(letters: string)
    | Number(neg: bool, digits: string, rest: string)
    | Quoted(quote: char, units: seq<Unit>)
    | Array(items: seq<Item>, comma: bool, last: string)
    | Object(members: seq<Member>, comma: bool, last: string)

  /** A value with the white space around it. */
  datatype Item = Item(before: string, x: Text, after: string)

  datatype Key = Key(before: string, quote: char, units: seq<Unit>, after: string)

  datatype Member = Member(key: Key, item: Item)

  // ---- What they spell -----------------------------------------------------------

  function SpellUnit(u: Unit): string {
    match u
    case Raw(c) => [c]
    case Short(c) => ['\\', c]
    case Code(a, b, c, d) => ['\\', 'u', a, b, c, d]
  }

  function SpellUnits(us: seq<Unit>): string {
    if us == [] then "" else SpellUnits(us[..|us| - 1]) + SpellUnit(us[|us| - 1])
  }

  function SpellQuoted(quote: char, us: seq<Unit>): string { [quote] + SpellUnits(us) + [quote] }

  function Spell(x: Text): string
    decreases x
  {
    match x
    case Word(letters) => letters
    case Number(neg, digits, rest) => (if neg then "-" else "") + digits + rest
    case Quoted(quote, us) => SpellQuoted(quote, us)
    case Array(items, comma, last) => "[" + (SpellItems(items) + ((if comma then "," else "") + (last + "]")))
    case Object(members, comma, last) => "{" + (SpellMembers(members) + ((if comma then "," else "") + (last + "}")))
  }

  /** A comma in front of all but the first. */
  function Sep(k: nat): string { if k == 0 then "" else "," }

  function SpellItem(i: Item): string
    decreases i
  {
    i.before + (Spell(i.x) + i.after)
  }

  function SpellItems(items: seq<Item>): string
    decreases items
  {
    if items == [] then ""
    else var k := |items| - 1; SpellItems(items[..k]) + (Sep(k) + SpellItem(items[k]))
  }

  function SpellKey(k: Key): string { k.before + (SpellQuoted(k.quote, k.units) + (k.after + ":")) }

  function SpellMember(m: Member): string
    decreases m
  {
    SpellKey(m.key) + SpellItem(m.item)
  }

  function SpellMembers(members: seq<Member>): string
    decreases members
  {
    if members == [] then ""
    else
      var k := |members| - 1;
      SpellMembers(members[..k]) + (Sep(k) + SpellMember(members[k]))
  }

  // ---- What they mean --------------------------------------------------------------

  predicate Hex(c: char) { '0' <= c <= '9' || 'a' <= c <= 'f' || 'A' <= c <= 'F' }

  function HexOf(c: char): nat
    requires Hex(c)
  {
    if '0' <= c <= '9' then c as int - '0' as int
    else if 'a' <= c <= 'f' then 10 + (c as int - 'a' as int) else 10 + (c as int - 'A' as int)
  }

  /** The code unit of an escape. */
  function CodeOf(u: Unit): nat
    requires u.Code? && Hex(u.a) && Hex(u.b) && Hex(u.c) && Hex(u.d)
  {
    0x1000 * HexOf(u.a) + 0x100 * HexOf(u.b) + 0x10 * HexOf(u.c) + HexOf(u.d)
  }

  predicate Shorts(c: char) {
    c == '\"' || c == '\\' || c == '/' || c == 'b' || c == 'f' || c == 'n' || c == 'r' || c == 't'
  }

  function ShortOf(c: char): char {
    if c == 'b' then '\U{8}' else if c == 'f' then '\U{C}' else if c == 'n' then '\U{A}'
    else if c == 'r' then '\U{D}' else if c == 't' then '\U{9}' else c
  }

  predicate UnitOk(u: Unit, quote: char) {
    match u
    case Raw(c) => c != quote && c != '\\' && c != '\0'
    case Short(c) => Shorts(c)
    case Code(a, b, c, d) => Hex(a) && Hex(b) && Hex(c) && Hex(d)
  }

  ghost predicate UnitsOk(us: seq<Unit>, quote: char) { forall i :: 0 <= i < |us| ==> UnitOk(us[i], quote) }

  predicate HighCode(uc: nat) { 0xD800 <= uc <= 0xDBFF }
  predicate LowCode(uc: nat) { 0xDC00 <= uc <= 0xDFFF }

  /** The bytes so far, and a first half of a surrogate pair that waits for the second, or 0. */
  datatype Bytes = Bytes(done: string, half: nat)

  /** A half that stays alone is U+FFFD. */
  function Flushed(b: Bytes): string { if b.half == 0 then b.done else b.done + Utf8(0xFFFD) }

  function Utf8(uc: nat): string { JsonMachine.Utf8(uc) }

  /** A code behind some bytes; its low 16 bits tell whether it is taken for a half. */
  function Coded(done: string, uc: nat): Bytes {
    if HighCode(uc % 0x1_0000) then Bytes(done, uc)
    else if LowCode(uc % 0x1_0000) then Bytes(done + Utf8(0xFFFD), 0)
    else Bytes(done + Utf8(uc), 0)
  }

  /** The code point of a pair. */
  function Pair(high: nat, low: nat): nat { 0x1_0000 + high % 0x400 * 0x400 + low % 0x400 }

  function Then(b: Bytes, u: Unit): Bytes
    requires u.Code? ==> UnitOk(u, '\"')
  {
    match u
    case Raw(c) => Bytes(Flushed(b) + [c], 0)
    case Short(c) => Bytes(Flushed(b) + [ShortOf(c)], 0)
    case Code(_, _, _, _) =>
      var uc := CodeOf(u);
      if b.half != 0 && LowCode(uc) then Coded(b.done, Pair(b.half, uc)) else Coded(Flushed(b), uc)
  }

  function Decoded(us: seq<Unit>): Bytes
    requires forall i :: 0 <= i < |us| && us[i].Code? ==> UnitOk(us[i], '\"')
  {
    if us == [] then Bytes("", 0) else Then(Decoded(us[..|us| - 1]), us[|us| - 1])
  }

  function StringOf(us: seq<Unit>): string
    requires forall i :: 0 <= i < |us| && us[i].Code? ==> UnitOk(us[i], '\"')
  {
    Flushed(Decoded(us))
  }

  /** Keys are C strings. */
  function UpToNul(s: string): string { if s == "" || s[0] == '\0' then "" else [s[0]] + UpToNul(s[1..]) }

  predicate DecimalDigit(c: char) { '0' <= c <= '9' }

  predicate AllDigits(t: string) { forall i :: 0 <= i < |t| ==> DecimalDigit(t[i]) }

  function DecimalOf(t: string): nat
    requires AllDigits(t)
  {
    if t == "" then 0 else 10 * DecimalOf(t[..|t| - 1]) + (t[|t| - 1] as int - '0' as int)
  }

  /** Numbers saturate at 64 bits. */
  function Saturated(n: int): int {
    if n > 0x7FFF_FFFF_FFFF_FFFF then 0x7FFF_FFFF_FFFF_FFFF
    else if n < -0x8000_0000_0000_0000 then -0x8000_0000_0000_0000 else n
  }

  /** White space as isspace has it. */
  predicate Ws(t: string) {
    forall i :: 0 <= i < |t| ==> t[i] == ' ' || t[i] == '\t' || t[i] == '\n' || t[i] == '\r' || t[i] == '\U{B}' || t[i] == '\U{C}'
  }

  /** The word in any case. */
  predicate Cases(t: string, lower: string, upper: string) {
    |t| == |lower| == |upper| && forall i :: 0 <= i < |t| ==> t[i] == lower[i] || t[i] == upper[i]
  }

  predicate SignOrDigit(c: char) { DecimalDigit(c) || c == '+' || c == '-' }

  /** What may stand behind the digits of a number, and is ignored. */
  predicate Ignored(t: string) {
    t != "" ==> (t[0] == '+' || t[0] == '-') && forall i :: 0 <= i < |t| ==> SignOrDigit(t[i])
  }

  /** The texts that are accepted. */
  ghost predicate Ok(x: Text)
    decreases x
  {
    match x
    case Word(t) => Cases(t, "null", "NULL") || Cases(t, "true", "TRUE") || Cases(t, "false", "FALSE")
    case Number(_, digits, rest) => digits != "" && AllDigits(digits) && Ignored(rest)
    case Quoted(quote, us) => (quote == '\"' || quote == '\'') && UnitsOk(us, quote)
    case Array(items, comma, last) =>
      && Ws(last) && (if items == [] then !comma else comma || last == "")
      && forall i :: 0 <= i < |items| ==> ItemOk(items[i])
    case Object(members, comma, last) =>
      && Ws(last) && (if members == [] then !comma else comma || last == "")
      && forall i :: 0 <= i < |members| ==> MemberOk(members[i])
  }

  ghost predicate ItemOk(i: Item)
    decreases i
  {
    Ws(i.before) && Ok(i.x) && Ws(i.after)
  }

  ghost predicate KeyOk(k: Key) {
    Ws(k.before) && (k.quote == '\"' || k.quote == '\'') && UnitsOk(k.units, k.quote) && Ws(k.after)
  }

  ghost predicate MemberOk(m: Member)
    decreases m
  {
    KeyOk(m.key) && ItemOk(m.item)
  }

  ghost predicate ItemsOk(items: seq<Item>) { forall i :: 0 <= i < |items| ==> ItemOk(items[i]) }

  ghost predicate MembersOk(members: seq<Member>) { forall i :: 0 <= i < |members| ==> MemberOk(members[i]) }

  /** The last value of a repeated key counts, in the place of the first. */
  function WithField(fs: seq<Field>, key: string, v: Json): seq<Field> {
    if KeyIn(fs, key) then seq(|fs|, i requires 0 <= i < |fs| => if fs[i].key == key then Field(key, v) else fs[i])
    else fs + [Field(key, v)]
  }

  predicate KeyIn(fs: seq<Field>, key: string) { exists i :: 0 <= i < |fs| && fs[i].key == key }

  ghost function ValueOf(x: Text): Json
    requires Ok(x)
    decreases x
  {
    match x
    case Word(t) => if |t| == 5 then Bool(false) else if t[0] == 't' || t[0] == 'T' then Bool(true) else Null
    case Number(neg, digits, _) => (var n: int := DecimalOf(digits); Int(Saturated(if neg then -n else n)))
    case Quoted(quote, us) => Str(StringOf(us))
    case Array(items, _, _) => Arr(ValuesOf(items))
    case Object(members, _, _) => Obj(FieldsOf(members))
  }

  ghost function ValuesOf(items: seq<Item>): (r: seq<Json>)
    requires ItemsOk(items)
    ensures |r| == |items|
    decreases items
  {
    if items == [] then [] else ValuesOf(items[..|items| - 1]) + [ItemValue(items[|items| - 1])]
  }

  ghost function ItemValue(i: Item): Json
    requires ItemOk(i)
    decreases i
  {
    ValueOf(i.x)
  }

  ghost function MemberValue(m: Member): Json
    requires MemberOk(m)
    decreases m
  {
    ItemValue(m.item)
  }

  ghost function KeyOf(k: Key): string
    requires KeyOk(k)
  {
    UpToNul(StringOf(k.units))
  }

  ghost function FieldsOf(members: seq<Member>): seq<Field>
    requires MembersOk(members)
    decreases members
  {
    if members == [] then []
    else
      var m := members[|members| - 1];
      WithField(FieldsOf(members[..|members| - 1]), KeyOf(m.key), MemberValue(m))
  }

  /** Levels of elements below a value. */
  function Levels(x: Text): nat
    decreases x
  {
    match x
    case Array(items, _, _) => LevelsAll(items)
    case Object(members, _, _) => LevelsMembers(members)
    case _ => 0
  }

  function LevelsAll(items: seq<Item>): nat
    decreases items
  {
    if items == [] then 0 else Max(LevelsAll(items[..|items| - 1]), LevelsItem(items[|items| - 1]))
  }

  function LevelsItem(i: Item): nat
    decreases i
  {
    1 + Levels(i.x)
  }

  function LevelsMember(m: Member): nat
    decreases m
  {
    LevelsItem(m.item)
  }

  function LevelsMembers(members: seq<Member>): nat
    decreases members
  {
    if members == [] then 0 else Max(LevelsMembers(members[..|members| - 1]), LevelsMember(members[|members| - 1]))
  }
}
