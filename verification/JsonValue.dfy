/**
  JSON values as the json-c library holds them, and the text its serializers write.
  A character stands for one byte; strings are byte strings and may contain NUL.
*/
module JsonValue {
  import opened Shared

  datatype Json =
    | Null
    | Bool(b: bool)
    | Int(i: int)
    | Str(s: string)
    | Arr(es: seq<Json>)
    | Obj(fs: seq<Field>)  // in insertion order

  datatype Field = Field(key: string, val: Json)

  const INT64_MIN: int := -0x8000_0000_0000_0000
  const INT64_MAX: int := 0x7FFF_FFFF_FFFF_FFFF

  // ---- Objects -------------------------------------------------------------

  /** json_object_object_add: a known key keeps its place and gets the new value. */
  function AddField(fs: seq<Field>, key: string, val: Json): seq<Field> {
    if fs == [] then [Field(key, val)]
    else if fs[0].key == key then [Field(key, val)] + fs[1..]
    else [fs[0]] + AddField(fs[1..], key, val)
  }

  ghost predicate FreshKey(fs: seq<Field>, key: string) {
    forall i :: 0 <= i < |fs| ==> fs[i].key != key
  }

  lemma {:induction false} AddFreshField(fs: seq<Field>, key: string, val: Json)
    requires FreshKey(fs, key)
    ensures AddField(fs, key, val) == fs + [Field(key, val)]
  {
    if fs != [] {
      AddFreshField(fs[1..], key, val);
      assert [fs[0]] + (fs[1..] + [Field(key, val)]) == fs + [Field(key, val)];
    }
  }

  ghost predicate DistinctKeys(fs: seq<Field>) {
    forall i, k :: 0 <= i < k < |fs| ==> fs[i].key != fs[k].key
  }

  /** What a C program can build: 64-bit integers, and keys that are C strings
      looked up before they are inserted. */
  ghost predicate Valid(v: Json) {
    match v
    case Int(i) => INT64_MIN <= i <= INT64_MAX
    case Arr(es) => forall k :: 0 <= k < |es| ==> Valid(es[k])
    case Obj(fs) =>
      && DistinctKeys(fs)
      && (forall k :: 0 <= k < |fs| ==> '\0' !in fs[k].key && Valid(fs[k].val))
    case _ => true
  }

  /** How many levels of elements a value has below itself. */
  function Depth(v: Json): nat {
    match v
    case Arr(es) => DepthAll(es)
    case Obj(fs) => DepthFields(fs)
    case _ => 0
  }

  function DepthAll(es: seq<Json>): nat {
    if es == [] then 0 else Max(DepthAll(es[..|es| - 1]), 1 + Depth(es[|es| - 1]))
  }

  function DepthFields(fs: seq<Field>): nat {
    if fs == [] then 0 else Max(DepthFields(fs[..|fs| - 1]), 1 + Depth(fs[|fs| - 1].val))
  }

  // ---- Serialization -------------------------------------------------------

  /** JSON_C_TO_STRING_SPACED and JSON_C_TO_STRING_PRETTY. */
  datatype Style = Style(spaced: bool, pretty: bool)

  function Digit(d: nat): char
    requires d < 10
  {
    "0123456789"[d]
  }

  function Digits(n: nat): string {
    if n < 10 then [Digit(n)] else Digits(n / 10) + [Digit(n % 10)]
  }

  /** The "%ld" form of an integer. */
  function Decimal(i: int): string {
    if i < 0 then "-" + Digits(-i) else Digits(i)
  }

  function HexDigit(d: nat): char
    requires d < 16
  {
    "0123456789abcdef"[d]
  }

  function EscapeChar(c: char): string {
    if c == '\U{8}' then "\\b"
    else if c == '\n' then "\\n"
    else if c == '\r' then "\\r"
    else if c == '\t' then "\\t"
    else if c == '\U{C}' then "\\f"
    else if c == '\"' then "\\\""
    else if c == '\\' then "\\\\"
    else if c == '/' then "\\/"
    else if c < ' ' then "\\u00" + [HexDigit(c as int / 16), HexDigit(c as int % 16)]
    else [c]
  }

  /** json_escape_str. */
  function Escape(s: string): string {
    if s == [] then "" else Escape(s[..|s| - 1]) + EscapeChar(s[|s| - 1])
  }

  function Spaces(n: nat): string {
    if n == 0 then "" else Spaces(n - 1) + " "
  }

  function Newline(st: Style): string { if st.pretty then "\n" else "" }
  function Indent(level: nat, st: Style): string { if st.pretty then Spaces(level * 2) else "" }
  function Gap(st: Style): string { if st.spaced then " " else "" }

  /** What goes between the opening bracket or the previous element and element k. */
  function Lead(k: nat, level: nat, st: Style): string {
    (if k == 0 then "" else "," + Newline(st)) + Gap(st) + Indent(level + 1, st)
  }

  /** What goes between the last element and the closing bracket. */
  function Trail(k: nat, level: nat, st: Style): string {
    (if st.pretty then (if k == 0 then "" else "\n") + Indent(level, st) else "") + Gap(st)
  }

  function Quoted(s: string): string { "\"" + Escape(s) + "\"" }

  function KeyPart(key: string, st: Style): string { Quoted(key) + (":" + Gap(st)) }

  /** The serializers json_object_*_to_json_string. */
  function Print(v: Json, level: nat, st: Style): string
    decreases v
  {
    match v
    case Null => "null"
    case Bool(b) => if b then "true" else "false"
    case Int(i) => Decimal(i)
    case Str(s) => Quoted(s)
    case Arr(es) => "[" + (Newline(st) + (PrintAll(es, level, st) + (Trail(|es|, level, st) + "]")))
    case Obj(fs) => "{" + (Newline(st) + (PrintFields(fs, level, st) + (Trail(|fs|, level, st) + "}")))
  }

  function PrintAll(es: seq<Json>, level: nat, st: Style): string
    decreases es
  {
    if es == [] then ""
    else
      var k := |es| - 1;
      PrintAll(es[..k], level, st) + (Lead(k, level, st) + Print(es[k], level + 1, st))
  }

  function PrintFields(fs: seq<Field>, level: nat, st: Style): string
    decreases fs
  {
    if fs == [] then ""
    else
      var k := |fs| - 1;
      PrintFields(fs[..k], level, st)
      + (Lead(k, level, st) + (KeyPart(fs[k].key, st) + Print(fs[k].val, level + 1, st)))
  }
}
