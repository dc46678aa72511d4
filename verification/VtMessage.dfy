/**
  Wake-word lists on the channel between the processes: packing into the payload of a
  message, the framing of messages on the socket, and unpacking.
*/
module VtMessage {
  import opened Shared

  type Byte = x: int | 0 <= x < 256
  type Int32 = x: int | -0x8000_0000 <= x < 0x8000_0000
  type Raw4 = s: seq<Byte> | |s| == 4 witness [0, 0, 0, 0]  // a float, as stored
  type Str = seq<Byte>                                       // a std::string

  const SYNC_VT_WORD_LIST: Int32 := 9
  const CONFIG: nat := 37  // sizeof(UnpackedVTConfig), packed
  const HEADER: nat := 32  // sizeof(Message)

  datatype Config = Config(avg: Raw4, min: Raw4, shield: Raw4, leftSil: bool, rightSil: bool,
                           withAec: bool, withoutAec: bool, localCheck: bool, nnetPath: Str)

  datatype Word = Word(vtType: Int32, word: Str, phone: Str, useDefault: bool, config: Config)

  function Zeros(n: nat): (r: seq<Byte>)
    ensures |r| == n
  {
    seq(n, _ => 0)
  }

  // ---- Integers, little-endian ---------------------------------------------

  function Le32(x: Int32): (r: seq<Byte>)
    ensures |r| == 4
  {
    var u := x % 0x1_0000_0000;
    [u % 0x100, u / 0x100 % 0x100, u / 0x1_0000 % 0x100, u / 0x100_0000]
  }

  function De32(b: seq<Byte>): Int32
    requires |b| == 4
  {
    var b0: int, b1: int, b2: int, b3: int := b[0], b[1], b[2], b[3];
    var u := b0 + 0x100 * b1 + 0x1_0000 * b2 + 0x100_0000 * b3;
    if u < 0x8000_0000 then u else u - 0x1_0000_0000
  }

  lemma Le32RoundTrip(x: Int32)
    ensures De32(Le32(x)) == x
  {
    var u := x % 0x1_0000_0000;
    assert u == (if x < 0 then x + 0x1_0000_0000 else x);
    assert u / 0x1_0000 == u / 0x100 / 0x100 && u / 0x100_0000 == u / 0x100 / 0x100 / 0x100;
  }

  // ---- Packing --------------------------------------------------------------

  function ContentLen(w: Word): nat { CONFIG + |w.word| + |w.phone| + |w.config.nnetPath| + 3 }

  /** round_up_len: up to the next multiple of eight, always by at least one. */
  function RecordLen(w: Word): nat { ContentLen(w) + (8 - ContentLen(w) % 8) }

  function RecordsLen(ws: seq<Word>): nat {
    if ws == [] then 0 else RecordsLen(ws[..|ws| - 1]) + RecordLen(ws[|ws| - 1])
  }

  /** The lengths fit in the int that the code computes them in. */
  predicate Fits(ws: seq<Word>) { 16 + RecordsLen(ws) < 0x8000_0000 && |ws| < 0x8000_0000 }

  function Floats(c: Config): (r: seq<Byte>)
    ensures |r| == 12
  {
    c.avg + (c.min + c.shield)
  }

  function Flag(b: bool): Byte { if b then 1 else 0 }

  function Flags(c: Config): (r: seq<Byte>)
    ensures |r| == 5
  {
    [Flag(c.leftSil), Flag(c.rightSil), Flag(c.withAec), Flag(c.withoutAec), Flag(c.localCheck)]
  }

  predicate Small(w: Word) { RecordLen(w) < 0x8000_0000 }

  function Ints(w: Word): (r: seq<Byte>)
    requires Small(w)
    ensures |r| == 20
  {
    Le32(RecordLen(w)) + (Le32(w.vtType) + (Le32(|w.word|) + (Le32(|w.phone|) + Le32(|w.config.nnetPath|))))
  }

  function Strings(w: Word): (r: seq<Byte>)
    ensures |r| == ContentLen(w) - CONFIG
  {
    w.word + ([0] + (w.phone + ([0] + (w.config.nnetPath + [0]))))
  }

  /** One word as it lies in the payload; the rest of the record stays zero. */
  function Record(w: Word): (r: seq<Byte>)
    requires Small(w)
    ensures |r| == RecordLen(w)
  {
    Floats(w.config) + (Flags(w.config) + (Ints(w) + (Strings(w) + Zeros(RecordLen(w) - ContentLen(w)))))
  }

  predicate AllSmall(ws: seq<Word>) { forall i :: 0 <= i < |ws| ==> Small(ws[i]) }

  function Records(ws: seq<Word>): (r: seq<Byte>)
    requires AllSmall(ws)
    ensures |r| == RecordsLen(ws)
  {
    if ws == [] then [] else Records(ws[..|ws| - 1]) + Record(ws[|ws| - 1])
  }

  lemma {:induction false} FitsSmall(ws: seq<Word>)
    ensures forall i :: 0 <= i < |ws| ==> RecordLen(ws[i]) <= RecordsLen(ws)
    ensures CONFIG * |ws| <= RecordsLen(ws) && RecordsLen(ws) % 8 == 0
  {
    hide RecordLen;
    if ws != [] {
      FitsSmall(ws[..|ws| - 1]);
      RecordAligned(ws[|ws| - 1]);
      assert ContentLen(ws[|ws| - 1]) >= CONFIG;
    }
  }

  /** The payload of a word list: the number of words, twelve spare bytes, the records. */
  function Payload(ws: seq<Word>): (r: seq<Byte>)
    requires Fits(ws)
    ensures |r| == if ws == [] then 0 else 16 + RecordsLen(ws)
  {
    FitsSmall(ws);
    if ws == [] then [] else Le32(|ws|) + Zeros(12) + Records(ws)
  }

  /** Every record is 8-aligned and strictly longer than its contents. */
  lemma RecordAligned(w: Word)
    ensures RecordLen(w) % 8 == 0 && ContentLen(w) < RecordLen(w) <= ContentLen(w) + 8
  {
  }

  // ---- Unpacking ------------------------------------------------------------

  datatype One = Got(word: Word, next: int) | Bad(code: int) | OutsideOne
  datatype Unpacked = Done(code: int, words: seq<Word>) | Outside  // a read outside the payload
  /** The C string at a position; None when it runs out of the payload. */
  function CString(data: seq<Byte>, at: int): Option<Str>
    requires at <= |data|
    decreases |data| - at
  {
    if at < 0 || at == |data| then None
    else if data[at] == 0 then Some([])
    else match CString(data, at + 1)
      case None => None
      case Some(s) => Some([data[at]] + s)
  }

  function Int(data: seq<Byte>, at: int): Int32
    requires 0 <= at && at + 4 <= |data|
  {
    De32(data[at..at + 4])
  }

  /** The string at a position whose stated size must lead to a zero byte. */
  function Sized(data: seq<Byte>, at: int, size: Int32, code: int): Result
  {
    if !(0 <= at + size < |data| && 0 <= at <= |data|) then OutsideText
    else if data[at + size] != 0 then BadText(code)
    else match CString(data, at)
      case None => OutsideText
      case Some(s) => Text(s)
  }

  datatype Result = Text(s: Str) | BadText(code: int) | OutsideText

  function ConfigAt(data: seq<Byte>, k: int, nnetPath: Str): Config
    requires 0 <= k && k + CONFIG <= |data|
  {
    Config(data[k..k + 4], data[k + 4..k + 8], data[k + 8..k + 12], data[k + 12] != 0, data[k + 13] != 0,
           data[k + 14] != 0, data[k + 15] != 0, data[k + 16] != 0, nnetPath)
  }

  function UnpackOne(data: seq<Byte>, k: int): One {
    if k < 0 || k + CONFIG > |data| then OutsideOne
    else
      var at1 := k + CONFIG;
      var at2 := at1 + Int(data, k + 25) + 1;
      var size3 := Int(data, k + 33);
      match Sized(data, at1, Int(data, k + 25), -4)
      case OutsideText => OutsideOne
      case BadText(c) => Bad(c)
      case Text(word) =>
        match Sized(data, at2, Int(data, k + 29), -7)
        case OutsideText => OutsideOne
        case BadText(c) => Bad(c)
        case Text(phone) =>
          match if size3 == 0 then Text([]) else Sized(data, at2 + Int(data, k + 29) + 1, size3, -5)
          case OutsideText => OutsideOne
          case BadText(c) => Bad(c)
          case Text(path) =>
            Got(Word(Int(data, k + 21), word, phone, false, ConfigAt(data, k, path)), k + Int(data, k + 17))
  }

  function UnpackFrom(data: seq<Byte>, k: int, n: int, words: seq<Word>): Unpacked
    decreases n
  {
    if n <= 0 then Done(0, words)
    else match UnpackOne(data, k)
      case OutsideOne => Outside
      case Bad(c) => Done(c, words)
      case Got(w, next) => UnpackFrom(data, next, n - 1, words + [w])
  }

  /** getVTWordFromMessage on a message that is not null. */
  function Unpack(msg: Int32, data: seq<Byte>): Unpacked {
    if msg != SYNC_VT_WORD_LIST then Done(-3, [])
    else if |data| == 0 then Done(-2, [])
    else if |data| < 4 then Outside
    else if |data| < CONFIG * Int(data, 0) then Done(-6, [])
    else UnpackFrom(data, 16, Int(data, 0), [])
  }

  // ---- What a word looks like on the other side -----------------------------

  /** A string up to its first NUL. */
  function Cut(s: Str): Str { if s == [] || s[0] == 0 then [] else [s[0]] + Cut(s[1..]) }

  function Seen(w: Word): Word {
    w.(word := Cut(w.word), phone := Cut(w.phone), useDefault := false,
       config := w.config.(nnetPath := Cut(w.config.nnetPath)))
  }

  function AllSeen(ws: seq<Word>): (r: seq<Word>)
    ensures |r| == |ws|
  {
    seq(|ws|, i requires 0 <= i < |ws| => Seen(ws[i]))
  }

  predicate NulFree(w: Word) { 0 !in w.word && 0 !in w.phone && 0 !in w.config.nnetPath }

  lemma {:induction false} CutWhole(s: Str)
    ensures Cut(s) == s <==> 0 !in s
    decreases |s|
  {
    if s != [] && s[0] != 0 {
      CutWhole(s[1..]);
      assert s == [s[0]] + s[1..];
    }
  }

  // ---- Slices ----------------------------------------------------------------

  /** From position at on, the data starts with x. */
  predicate Starts(data: seq<Byte>, at: int, x: seq<Byte>) {
    0 <= at && at + |x| <= |data| && data[at..at + |x|] == x
  }

  lemma Peel(data: seq<Byte>, at: int, x: seq<Byte>, rest: seq<Byte>)
    requires Starts(data, at, x + rest)
    ensures Starts(data, at, x) && Starts(data, at + |x|, rest)
  {
    var all := data[at..at + |x + rest|];
    assert all[..|x|] == x && all[|x|..] == rest;
  }

  lemma StartsAt(data: seq<Byte>, at: int, x: seq<Byte>, i: nat)
    requires Starts(data, at, x) && i < |x|
    ensures data[at + i] == x[i]
  {
    assert data[at..at + |x|][i] == data[at + i];
  }

  lemma {:induction false} CStringCut(data: seq<Byte>, at: int, s: Str)
    requires Starts(data, at, s + [0])
    ensures CString(data, at) == Some(Cut(s))
    decreases |s|
  {
    StartsAt(data, at, s + [0], 0);
    if s != [] && s[0] != 0 {
      assert s + [0] == [s[0]] + (s[1..] + [0]);
      Peel(data, at, [s[0]], s[1..] + [0]);
      CStringCut(data, at + 1, s[1..]);
    }
  }

  lemma SizedCut(data: seq<Byte>, at: int, s: Str, code: int)
    requires Starts(data, at, s + [0]) && |s| < 0x8000_0000
    ensures Sized(data, at, |s|, code) == Text(Cut(s))
  {
    StartsAt(data, at, s + [0], |s|);
    CStringCut(data, at, s);
  }

  lemma IntAt(data: seq<Byte>, at: int, x: Int32)
    requires Starts(data, at, Le32(x))
    ensures Int(data, at) == x
  {
    Le32RoundTrip(x);
  }

  lemma IntsAt(data: seq<Byte>, at: int, w: Word)
    requires Small(w) && Starts(data, at, Ints(w))
    ensures Int(data, at) == RecordLen(w) && Int(data, at + 4) == w.vtType && Int(data, at + 8) == |w.word|
    ensures Int(data, at + 12) == |w.phone| && Int(data, at + 16) == |w.config.nnetPath|
  {
    hide Starts, Le32, De32;
    var e := Le32(|w.config.nnetPath|);
    var d := Le32(|w.phone|) + e;
    var c := Le32(|w.word|) + d;
    var b := Le32(w.vtType) + c;
    Peel(data, at, Le32(RecordLen(w)), b);
    Peel(data, at + 4, Le32(w.vtType), c);
    Peel(data, at + 8, Le32(|w.word|), d);
    Peel(data, at + 12, Le32(|w.phone|), e);
    InRange(data, at, Ints(w));
    IntAt(data, at, RecordLen(w));
    IntAt(data, at + 4, w.vtType);
    IntAt(data, at + 8, |w.word|);
    IntAt(data, at + 12, |w.phone|);
    IntAt(data, at + 16, |w.config.nnetPath|);
  }

  lemma InRange(data: seq<Byte>, at: int, x: seq<Byte>)
    requires Starts(data, at, x)
    ensures 0 <= at && at + |x| <= |data|
  {
  }

  lemma ConfigAtRecord(data: seq<Byte>, k: int, c: Config)
    requires Starts(data, k, Floats(c)) && Starts(data, k + 12, Flags(c)) && k + CONFIG <= |data|
    ensures ConfigAt(data, k, c.nnetPath) == c
  {
    Peel(data, k, c.avg, c.min + c.shield);
    Peel(data, k + 4, c.min, c.shield);
    StartsAt(data, k + 12, Flags(c), 0);
    StartsAt(data, k + 12, Flags(c), 1);
    StartsAt(data, k + 12, Flags(c), 2);
    StartsAt(data, k + 12, Flags(c), 3);
    StartsAt(data, k + 12, Flags(c), 4);
  }

  lemma StringsAt(data: seq<Byte>, at: int, w: Word, rest: seq<Byte>)
    requires Starts(data, at, Strings(w) + rest)
    ensures Starts(data, at, w.word + [0]) && Starts(data, at + |w.word| + 1, w.phone + [0])
    ensures Starts(data, at + |w.word| + 1 + |w.phone| + 1, w.config.nnetPath + [0])
  {
    hide Starts;
    var c := w.config.nnetPath + [0];
    assert Strings(w) == (w.word + [0]) + ((w.phone + [0]) + c);
    Peel(data, at, Strings(w), rest);
    Peel(data, at, w.word + [0], (w.phone + [0]) + c);
    Peel(data, at + |w.word + [0]|, w.phone + [0], c);
  }

  /** Where the parts of a record lie. */
  lemma PartsAt(data: seq<Byte>, k: int, w: Word)
    requires Small(w) && Starts(data, k, Record(w))
    ensures Starts(data, k, Floats(w.config)) && Starts(data, k + 12, Flags(w.config)) && Starts(data, k + 17, Ints(w))
    ensures Starts(data, k + 37, w.word + [0]) && Starts(data, k + 38 + |w.word|, w.phone + [0])
    ensures Starts(data, k + 39 + |w.word| + |w.phone|, w.config.nnetPath + [0])
    ensures 0 <= k && k + RecordLen(w) <= |data|
  {
    hide Starts, Floats, Flags, Ints, Strings;
    var zeros := Zeros(RecordLen(w) - ContentLen(w));
    var d := Strings(w) + zeros;
    var c := Ints(w) + d;
    var b := Flags(w.config) + c;
    InRange(data, k, Record(w));
    Peel(data, k, Floats(w.config), b);
    Peel(data, k + 12, Flags(w.config), c);
    Peel(data, k + 17, Ints(w), d);
    StringsAt(data, k + 37, w, zeros);
  }

  /** Unpacking the record of a word gives the word as it is seen, and the next record. */
  lemma UnpackRecord(data: seq<Byte>, k: int, w: Word)
    requires Small(w) && Starts(data, k, Record(w))
    ensures UnpackOne(data, k) == Got(Seen(w), k + RecordLen(w))
  {
    hide Starts, Record, Floats, Flags, Ints, Int, ConfigAt, Sized, Cut;
    PartsAt(data, k, w);
    IntsAt(data, k + 17, w);
    SizedCut(data, k + 37, w.word, -4);
    SizedCut(data, k + 38 + |w.word|, w.phone, -7);
    SizedCut(data, k + 39 + |w.word| + |w.phone|, w.config.nnetPath, -5);
    ConfigAtRecord(data, k, w.config);
    ConfigPath(data, k, w.config);
    assert w.config.nnetPath == [] ==> Cut(w.config.nnetPath) == [] by { CutEmpty(); }
  }

  lemma CutEmpty()
    ensures Cut([]) == []
  {
  }

  lemma ConfigPath(data: seq<Byte>, k: int, c: Config)
    requires 0 <= k && k + CONFIG <= |data| && ConfigAt(data, k, c.nnetPath) == c
    ensures forall path :: ConfigAt(data, k, path) == c.(nnetPath := path)
  {
  }

  // ---- Round trip -----------------------------------------------------------

  lemma {:induction false} RecordsSplit(ws: seq<Word>, i: nat)
    requires AllSmall(ws) && i < |ws|
    ensures Starts(Records(ws), RecordsLen(ws[..i]), Record(ws[i]))
    ensures RecordsLen(ws[..i + 1]) == RecordsLen(ws[..i]) + RecordLen(ws[i])
    decreases |ws|
  {
    hide Record, RecordLen;
    var most := ws[..|ws| - 1];
    assert ws[..i + 1][..i] == ws[..i];
    if i < |ws| - 1 {
      RecordsSplit(most, i);
      assert most[..i] == ws[..i];
      assert Records(ws)[..|Records(most)|] == Records(most);
      var at := RecordsLen(ws[..i]);
      assert Records(ws)[at..at + RecordLen(ws[i])] == Records(most)[at..at + RecordLen(ws[i])];
    } else {
      assert ws[..i] == most;
      var at := RecordsLen(most);
      assert Records(ws)[at..at + |Record(ws[i])|] == Record(ws[i]);
    }
  }

  lemma {:induction false} RecordsPrefix(ws: seq<Word>, i: nat)
    requires AllSmall(ws) && i <= |ws|
    ensures Starts(Records(ws), 0, Records(ws[..i]))
    decreases |ws|
  {
    hide Record, RecordLen;
    if i < |ws| {
      RecordsPrefix(ws[..|ws| - 1], i);
      assert ws[..|ws| - 1][..i] == ws[..i];
    } else {
      assert ws[..i] == ws;
    }
  }

  lemma StartsBehind(data: seq<Byte>, k: int, x: seq<Byte>, at: int, y: seq<Byte>)
    requires Starts(data, k, x) && Starts(x, at, y)
    ensures Starts(data, k + at, y)
  {
    forall i | 0 <= i < |y|
      ensures data[k + at + i] == y[i]
    {
      assert x[at..at + |y|][i] == x[at + i] == data[k..k + |x|][at + i];
    }
  }

  /** Unpacking passes the records of us one by one. */
  lemma {:induction false} PassRecords(data: seq<Byte>, us: seq<Word>, i: nat, more: nat)
    requires AllSmall(us) && i <= |us| && Starts(data, 16, Records(us))
    ensures UnpackFrom(data, 16 + RecordsLen(us[..i]), |us| - i + more, AllSeen(us)[..i])
         == UnpackFrom(data, 16 + RecordsLen(us), more, AllSeen(us))
    decreases |us| - i
  {
    hide UnpackOne, Record, RecordLen, Seen, Starts, Records;
    if i < |us| {
      RecordsSplit(us, i);
      var at := RecordsLen(us[..i]);
      StartsBehind(data, 16, Records(us), at, Record(us[i]));
      UnpackRecord(data, 16 + at, us[i]);
      assert AllSeen(us)[..i + 1] == AllSeen(us)[..i] + [Seen(us[i])];
      PassRecords(data, us, i + 1, more);
    } else {
      assert AllSeen(us)[..i] == AllSeen(us) && us[..i] == us;
    }
  }

  /** Unpacking what was packed gives every word with each string cut at its first NUL
      and use_default_config false; the empty list gives the error -2. */
  lemma RoundTrip(ws: seq<Word>)
    requires Fits(ws)
    ensures Unpack(SYNC_VT_WORD_LIST, Payload(ws)) == if ws == [] then Done(-2, []) else Done(0, AllSeen(ws))
  {
    hide UnpackOne, Records, RecordLen, Le32, De32, Starts;
    if ws != [] {
      FitsSmall(ws);
      var data := Payload(ws);
      PayloadParts(ws);
      IntAt(data, 0, |ws|);
      assert ws[..0] == [] && AllSeen(ws)[..0] == [];
      PassRecords(data, ws, 0, 0);
      assert UnpackFrom(data, 16 + RecordsLen(ws), 0, AllSeen(ws)) == Done(0, AllSeen(ws));
    }
  }

  /** The list comes back as it was, but for use_default_config, exactly when it is not
      empty and no string of it has a NUL. */
  lemma RoundTripExact(ws: seq<Word>)
    requires Fits(ws)
    ensures Unpack(SYNC_VT_WORD_LIST, Payload(ws)) == Done(0, seq(|ws|, i requires 0 <= i < |ws| => ws[i].(useDefault := false)))
      <==> ws != [] && forall i :: 0 <= i < |ws| ==> NulFree(ws[i])
  {
    hide Unpack, Payload, Cut;
    RoundTrip(ws);
    var same := seq(|ws|, i requires 0 <= i < |ws| => ws[i].(useDefault := false));
    forall i | 0 <= i < |ws|
      ensures Seen(ws[i]) == ws[i].(useDefault := false) <==> NulFree(ws[i])
    {
      SeenWhole(ws[i]);
    }
    if forall i :: 0 <= i < |ws| ==> NulFree(ws[i]) {
      assert AllSeen(ws) == same;
    } else {
      var i :| 0 <= i < |ws| && !NulFree(ws[i]);
      assert AllSeen(ws)[i] != same[i];
    }
  }

  lemma SeenWhole(w: Word)
    ensures Seen(w) == w.(useDefault := false) <==> NulFree(w)
  {
    hide Cut;
    CutWhole(w.word);
    CutWhole(w.phone);
    CutWhole(w.config.nnetPath);
    if Seen(w) == w.(useDefault := false) {
      assert Seen(w).word == w.word && Seen(w).phone == w.phone;
      assert Seen(w).config.nnetPath == w.config.nnetPath;
    }
  }

  // ---- Damaged lists ---------------------------------------------------------

  datatype Field = TheWord | ThePhone | ThePath

  /** The code of a string that does not end where its size says. */
  function CodeOf(f: Field): int { match f case TheWord => -4 case ThePhone => -7 case ThePath => -5 }

  /** The place of the NUL behind a string of the word whose record is at k. */
  function NulOf(k: int, w: Word, f: Field): int {
    match f
    case TheWord => k + 37 + |w.word|
    case ThePhone => k + 38 + |w.word| + |w.phone|
    case ThePath => k + 39 + |w.word| + |w.phone| + |w.config.nnetPath|
  }

  lemma StartsKept(data: seq<Byte>, at: int, x: seq<Byte>, p: nat, b: Byte)
    requires Starts(data, at, x) && p < |data| && (p < at || at + |x| <= p)
    ensures Starts(data[p := b], at, x)
  {
  }

  /** A record one of whose NULs is overwritten is refused with the code of that string. */
  lemma DamagedRecord(data: seq<Byte>, k: int, w: Word, f: Field, b: Byte)
    requires Small(w) && Starts(data, k, Record(w)) && b != 0 && (f == ThePath ==> w.config.nnetPath != [])
    ensures k <= NulOf(k, w, f) - CONFIG && 0 <= k && NulOf(k, w, f) < k + RecordLen(w) <= |data|
    ensures UnpackOne(data[NulOf(k, w, f) := b], k) == Bad(CodeOf(f))
  {
    hide Starts, Record, Floats, Flags, Ints, Int, ConfigAt, CString, Cut;
    PartsAt(data, k, w);
    var p := NulOf(k, w, f);
    var hurt := data[p := b];
    StartsKept(data, k + 17, Ints(w), p, b);
    IntsAt(hurt, k + 17, w);
    if f != TheWord {
      StartsKept(data, k + 37, w.word + [0], p, b);
      SizedCut(hurt, k + 37, w.word, -4);
    }
    if f == ThePath {
      StartsKept(data, k + 38 + |w.word|, w.phone + [0], p, b);
      SizedCut(hurt, k + 38 + |w.word|, w.phone, -7);
    }
  }

  /** A packed list one of whose NULs is overwritten: the words in front of it arrive, then
      the error says which string it was. */
  lemma DamageFound(ws: seq<Word>, i: nat, f: Field, b: Byte)
    requires Fits(ws) && i < |ws| && b != 0 && (f == ThePath ==> ws[i].config.nnetPath != [])
    ensures 0 <= NulOf(16 + RecordsLen(ws[..i]), ws[i], f) < |Payload(ws)|
    ensures Unpack(SYNC_VT_WORD_LIST, Payload(ws)[NulOf(16 + RecordsLen(ws[..i]), ws[i], f) := b])
         == Done(CodeOf(f), AllSeen(ws[..i]))
  {
    hide UnpackOne, Record, Records, RecordLen, Le32, De32, NulOf, CodeOf, Starts;
    FitsSmall(ws);
    var data, us, k := Payload(ws), ws[..i], 16 + RecordsLen(ws[..i]);
    PayloadParts(ws);
    RecordsSplit(ws, i);
    RecordsPrefix(ws, i);
    StartsBehind(data, 16, Records(ws), 0, Records(us));
    StartsBehind(data, 16, Records(ws), k - 16, Record(ws[i]));
    DamagedRecord(data, k, ws[i], f, b);
    var p := NulOf(k, ws[i], f);
    StartsKept(data, 0, Le32(|ws|), p, b);
    StartsKept(data, 16, Records(us), p, b);
    IntAt(data[p := b], 0, |ws|);
    assert us[..0] == [] && AllSeen(us)[..0] == [];
    PassRecords(data[p := b], us, 0, |ws| - i);
  }

  lemma PayloadParts(ws: seq<Word>)
    requires Fits(ws) && ws != []
    ensures |Payload(ws)| == 16 + RecordsLen(ws) && Starts(Payload(ws), 0, Le32(|ws|))
    ensures AllSmall(ws) && Starts(Payload(ws), 16, Records(ws))
  {
    hide Records, RecordsLen, RecordLen, Le32;
    FitsSmall(ws);
    assert Payload(ws) == Le32(|ws|) + (Zeros(12) + Records(ws));
  }

  /** A list cut short so much that its records cannot be there is refused with -6, a message
      with another number with -3. */
  lemma ShortOrForeign(ws: seq<Word>, n: nat, msg: Int32)
    requires Fits(ws) && 16 <= n < 37 * |ws| && n <= |Payload(ws)|
    ensures Unpack(9, Payload(ws)[..n]) == Done(-6, [])
    ensures msg != 9 ==> Unpack(msg, Payload(ws)[..n]) == Done(-3, [])
  {
    hide Records, RecordsLen, RecordLen, Le32, De32;
    PayloadParts(ws);
    assert Starts(Payload(ws)[..n], 0, Le32(|ws|));
    IntAt(Payload(ws)[..n], 0, |ws|);
  }
}
