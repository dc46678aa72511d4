/**
  The texts of RFC 8259 without fractions and exponents are read as the standard means
  them: strings by their characters, numbers by their digits.
*/
module JsonRfc {
  import opened JsonValue
  import opened JsonGrammar
  import opened JsonUnits
  import M = JsonMachine
  import U = JsonUtf8
  import R = JsonReads
  import A = JsonAccepts

  /** White space of section 2. */
  predicate Blank(t: string) { forall i :: 0 <= i < |t| ==> t[i] == ' ' || t[i] == '\t' || t[i] == '\n' || t[i] == '\r' }

  predicate Hexes(u: Unit) { u.Code? && Hex(u.a) && Hex(u.b) && Hex(u.c) && Hex(u.d) }

  predicate IsPair(hi: Unit, lo: Unit) { Hexes(hi) && Hexes(lo) && HighCode(CodeOf(hi)) && LowCode(CodeOf(lo)) }

  function PointOf(hi: Unit, lo: Unit): nat
    requires IsPair(hi, lo)
  {
    0x1_0000 + (CodeOf(hi) - 0xD800) * 0x400 + (CodeOf(lo) - 0xDC00)
  }

  /** The characters of section 7: unescaped, escaped, and pairs of surrogates.  A pair whose
      code point has low 16 bits in D800-DFFF is left out: the tokener takes it for a half. */
  predicate Chars(us: seq<Unit>) {
    us == [] ||
    var k := |us| - 1;
    match us[k]
    case Raw(c) => c >= ' ' && c != '\"' && c != '\\' && Chars(us[..k])
    case Short(c) => Shorts(c) && Chars(us[..k])
    case Code(_, _, _, _) =>
      Hexes(us[k]) &&
      if LowCode(CodeOf(us[k])) then
        k > 0 && IsPair(us[k - 1], us[k]) && !U.Surrogate(PointOf(us[k - 1], us[k]) % 0x1_0000) && Chars(us[..k - 1])
      else !HighCode(CodeOf(us[k])) && Chars(us[..k])
  }

  /** Their bytes, one character after the other. */
  function BytesOf(us: seq<Unit>): string
    requires Chars(us)
  {
    if us == [] then ""
    else
      var k := |us| - 1;
      match us[k]
      case Raw(c) => BytesOf(us[..k]) + [c]
      case Short(c) => BytesOf(us[..k]) + [ShortOf(c)]
      case Code(_, _, _, _) =>
        if LowCode(CodeOf(us[k])) then BytesOf(us[..k - 1]) + Utf8(PointOf(us[k - 1], us[k]))
        else BytesOf(us[..k]) + Utf8(CodeOf(us[k]))
  }

  ghost predicate Rfc(x: Text)
    decreases x
  {
    match x
    case Word(t) => t == "null" || t == "true" || t == "false"
    case Number(neg, digits, rest) =>
      && digits != "" && AllDigits(digits) && rest == "" && (digits[0] == '0' ==> digits == "0")
      && var n: int := DecimalOf(digits); -0x8000_0000_0000_0000 <= (if neg then -n else n) <= 0x7FFF_FFFF_FFFF_FFFF
    case Quoted(quote, us) => quote == '\"' && Chars(us)
    case Array(items, comma, last) =>
      Blank(last) && !comma && (items != [] ==> last == "") && forall i :: 0 <= i < |items| ==> RfcItem(items[i])
    case Object(members, comma, last) =>
      Blank(last) && !comma && (members != [] ==> last == "") && forall i :: 0 <= i < |members| ==> RfcMember(members[i])
  }

  ghost predicate RfcItem(i: Item)
    decreases i
  {
    Blank(i.before) && Rfc(i.x) && Blank(i.after)
  }

  /** Keys without U+0000: the tokener cuts them there. */
  ghost predicate RfcMember(m: Member)
    decreases m
  {
    && Blank(m.key.before) && m.key.quote == '\"' && Chars(m.key.units) && '\0' !in BytesOf(m.key.units) && Blank(m.key.after)
    && RfcItem(m.item)
  }

  // ---- They are texts of the grammar -------------------------------------------------------

  lemma BlankIsWs(t: string)
    requires Blank(t)
    ensures Ws(t)
  {
  }

  lemma {:induction false} CharsOk(us: seq<Unit>)
    requires Chars(us)
    ensures UnitsOk(us, '\"')
    decreases |us|
  {
    if us != [] {
      var k := |us| - 1;
      if us[k].Code? && LowCode(CodeOf(us[k])) {
        CharsOk(us[..k - 1]);
        assert us == us[..k - 1] + [us[k - 1], us[k]];
      } else {
        CharsOk(us[..k]);
        assert us == us[..k] + [us[k]];
      }
    }
  }

  /** What a string means is the bytes of its characters. */
  lemma {:induction false} CharsMean(us: seq<Unit>)
    requires Chars(us)
    ensures Carries(us) && Decoded(us) == Bytes(BytesOf(us), 0)
    decreases |us|
  {
    hide CodeOf, HighCode, LowCode, Then, U.Surrogate, Shorts, M.Utf8, PointOf;
    CharsOk(us);
    A.UnitsCarry(us, '\"');
    if us != [] {
      var k := |us| - 1;
      assert us == us[..k] + [us[k]];
      if us[k].Code? && LowCode(CodeOf(us[k])) {
        CharsMean(us[..k - 1]);
        assert us[..k] == us[..k - 1] + [us[k - 1]];
        DecodedSnoc(us[..k - 1], us[k - 1]);
        PairMeans(BytesOf(us[..k - 1]), us[k - 1], us[k]);
      } else {
        CharsMean(us[..k]);
        OneMeans(BytesOf(us[..k]), us[k]);
      }
    }
  }

  lemma CodeMeans(done: string, uc: nat)
    requires uc < 0x1_0000 && !HighCode(uc) && !LowCode(uc)
    ensures Coded(done, uc) == Bytes(done + Utf8(uc), 0)
  {
    hide M.Utf8;
  }

  lemma OneMeans(done: string, u: Unit)
    requires u.Code? ==> Hexes(u) && !LowCode(CodeOf(u)) && !HighCode(CodeOf(u))
    ensures Then(Bytes(done, 0), u) == match u
      case Raw(c) => Bytes(done + [c], 0)
      case Short(c) => Bytes(done + [ShortOf(c)], 0)
      case Code(_, _, _, _) => Bytes(done + Utf8(CodeOf(u)), 0)
  {
    hide CodeOf, M.Utf8, ShortOf, Coded, HighCode, LowCode;
    if u.Code? {
      SmallCode(u);
      CodeMeans(done, CodeOf(u));
    }
  }

  lemma PairMeans(done: string, hi: Unit, lo: Unit)
    requires IsPair(hi, lo) && !U.Surrogate(PointOf(hi, lo) % 0x1_0000)
    ensures Then(Then(Bytes(done, 0), hi), lo) == Bytes(done + Utf8(PointOf(hi, lo)), 0)
  {
    hide CodeOf, Pair, M.Utf8;
    HighWaits(done, CodeOf(hi));
    PairIs(CodeOf(hi), CodeOf(lo));
  }

  lemma HighWaits(done: string, uc: nat)
    requires HighCode(uc)
    ensures Coded(done, uc) == Bytes(done, uc) && uc != 0
  {
    hide M.Utf8;
  }

  lemma PairIs(hi: nat, lo: nat)
    requires HighCode(hi) && LowCode(lo)
    ensures Pair(hi, lo) == 0x1_0000 + (hi - 0xD800) * 0x400 + (lo - 0xDC00)
  {
  }

  lemma SmallCode(u: Unit)
    requires Hexes(u)
    ensures CodeOf(u) < 0x1_0000
  {
  }

  lemma {:induction false} RfcIsOk(x: Text)
    requires Rfc(x)
    ensures Ok(x)
    decreases x
  {
    match x {
      case Quoted(_, us) => CharsOk(us);
      case Array(items, _, _) => forall i | 0 <= i < |items| ensures ItemOk(items[i]) { RfcItemIsOk(items[i]); }
      case Object(members, _, _) => forall i | 0 <= i < |members| ensures MemberOk(members[i]) { RfcMemberIsOk(members[i]); }
      case _ =>
    }
  }

  lemma {:induction false} RfcItemIsOk(i: Item)
    requires RfcItem(i)
    ensures ItemOk(i)
    decreases i
  {
    RfcIsOk(i.x);
  }

  lemma {:induction false} RfcMemberIsOk(m: Member)
    requires RfcMember(m)
    ensures MemberOk(m)
    decreases m
  {
    CharsOk(m.key.units);
    RfcItemIsOk(m.item);
  }

  // ---- They are read ---------------------------------------------------------------------------

  predicate NoNul(t: string) { '\0' !in t }

  lemma {:induction false} UnitsNoNul(us: seq<Unit>, quote: char)
    requires UnitsOk(us, quote)
    ensures NoNul(SpellUnits(us))
    decreases |us|
  {
    if us != [] { UnitsNoNul(us[..|us| - 1], quote); }
  }

  /** No text of the grammar has a NUL. */
  lemma {:induction false} TextNoNul(x: Text)
    requires Ok(x)
    ensures NoNul(Spell(x))
    decreases x
  {
    hide SpellItems, SpellMembers, SpellUnits, ItemOk, MemberOk, M.IsDouble, M.NumChar;
    match x {
      case Word(t) => R.WordLetters(t);
      case Number(neg, digits, rest) => R.NumberChars(neg, digits, rest);
      case Quoted(quote, us) => UnitsNoNul(us, quote);
      case Array(items, comma, last) => ItemsNoNul(items);
      case Object(members, comma, last) => MembersNoNul(members);
    }
  }

  lemma {:induction false} ItemNoNul(i: Item)
    requires ItemOk(i)
    ensures NoNul(SpellItem(i))
    decreases i
  {
    hide Spell;
    TextNoNul(i.x);
  }

  lemma {:induction false} ItemsNoNul(items: seq<Item>)
    requires ItemsOk(items)
    ensures NoNul(SpellItems(items))
    decreases items
  {
    hide SpellItem, ItemOk;
    if items != [] {
      ItemsNoNul(items[..|items| - 1]);
      ItemNoNul(items[|items| - 1]);
    }
  }

  lemma {:induction false} MemberNoNul(m: Member)
    requires MemberOk(m)
    ensures NoNul(SpellMember(m))
    decreases m
  {
    hide SpellItem, SpellUnits;
    UnitsNoNul(m.key.units, m.key.quote);
    ItemNoNul(m.item);
  }

  lemma {:induction false} MembersNoNul(members: seq<Member>)
    requires MembersOk(members)
    ensures NoNul(SpellMembers(members))
    decreases members
  {
    hide SpellMember, MemberOk;
    if members != [] {
      MembersNoNul(members[..|members| - 1]);
      MemberNoNul(members[|members| - 1]);
    }
  }

  /** Strings of a JSON text are their characters, and keys too. */
  lemma StringsMean(us: seq<Unit>)
    requires Chars(us)
    ensures Carries(us) && StringOf(us) == BytesOf(us)
  {
    CharsMean(us);
  }

  lemma {:induction false} WholeKey(s: string)
    requires '\0' !in s
    ensures UpToNul(s) == s
  {
    if s != "" { WholeKey(s[1..]); }
  }

  lemma KeysMean(k: Key)
    requires KeyOk(k) && Chars(k.units) && '\0' !in BytesOf(k.units)
    ensures KeyOf(k) == BytesOf(k.units)
  {
    CharsMean(k.units);
    WholeKey(BytesOf(k.units));
  }

  lemma NumbersMean(neg: bool, digits: string)
    requires Rfc(Number(neg, digits, ""))
    ensures var n: int := DecimalOf(digits); Ok(Number(neg, digits, "")) && ValueOf(Number(neg, digits, "")) == Int(if neg then -n else n)
  {
    hide DecimalOf;
  }

  /** Every JSON text, with any white space around it, is parsed to the end as what it means,
      or gives the depth error. */
  lemma JsonIsRead(maxDepth: nat, lead: string, x: Text, after: string)
    requires 0 < maxDepth && Blank(lead) && Rfc(x) && Blank(after)
    ensures Ok(x)
    ensures var t := lead + (Spell(x) + after);
      M.ParseText(maxDepth, t) == if Levels(x) < maxDepth then M.Parsed(ValueOf(x), |t|) else M.Failed(M.TooDeep)
  {
    RfcIsOk(x);
    hide Rfc, Ok, Spell;
    TextNoNul(x);
    var t := lead + (Spell(x) + after);
    assert t[..|t|] == t;
    A.TextsAreAccepted(maxDepth, t, |t|, lead, x, after);
  }
}
