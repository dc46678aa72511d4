/**
  The byte buffers of the channel: messages are written into and read out of arrays
  with cursors, and travel over a stream socket.
*/
module VtChannel {
  import opened Shared
  import opened VtMessage

  type Address = s: seq<Byte> | |s| == 8 witness [0, 0, 0, 0, 0, 0, 0, 0]

  const MAGIC: seq<Byte> := [97, 97, 98, 98]  // "aabb"
  const NULL: Address := [0, 0, 0, 0, 0, 0, 0, 0]

  /** The bytes of a Message structure: magic, padding, msg, len, padding, data. */
  function Header(msg: Int32, len: Int32, data: Address): (r: seq<Byte>)
    ensures |r| == HEADER
  {
    MAGIC + (Zeros(4) + (Le32(msg) + (Le32(len) + (Zeros(8) + data))))
  }

  /** A message in memory and on the socket. */
  function Wire(msg: Int32, payload: seq<Byte>, data: Address): (r: seq<Byte>)
    requires |payload| < 0x8000_0000
    ensures |r| == HEADER + |payload|
  {
    Header(msg, |payload|, data) + payload
  }

  // ---- Reading a header ------------------------------------------------------

  function MsgOf(b: seq<Byte>): Int32
    requires |b| >= HEADER
  {
    De32(b[8..12])
  }

  function LenOf(b: seq<Byte>): Int32
    requires |b| >= HEADER
  {
    De32(b[12..16])
  }

  predicate MagicOk(b: seq<Byte>)
    requires |b| >= HEADER
  {
    b[..4] == MAGIC
  }

  /** The header of a message tells its number and the length of its payload. */
  lemma HeaderRead(msg: Int32, payload: seq<Byte>, data: Address, rest: seq<Byte>)
    requires |payload| < 0x8000_0000
    ensures var b := Wire(msg, payload, data) + rest;
      MagicOk(b) && MsgOf(b) == msg && LenOf(b) == |payload| && b[HEADER..HEADER + |payload|] == payload
      && b[HEADER + |payload|..] == rest
  {
    hide Le32, De32;
    var b := Wire(msg, payload, data) + rest;
    Le32RoundTrip(msg);
    Le32RoundTrip(|payload|);
    var e := Zeros(8) + data;
    var d := Le32(|payload|) + e;
    var c := Le32(msg) + d;
    var a := Zeros(4) + c;
    assert Starts(b, 0, MAGIC + a) by { assert b == (MAGIC + a) + (payload + rest); }
    Peel(b, 0, MAGIC, a);
    Peel(b, 4, Zeros(4), c);
    Peel(b, 8, Le32(msg), d);
    Peel(b, 12, Le32(|payload|), e);
  }

  // ---- Writing with a cursor -------------------------------------------------

  /** memcpy into the buffer; the cursor ends up behind the bytes. */
  method Put(buf: array<Byte>, at: nat, x: seq<Byte>) returns (p: nat)
    requires at + |x| <= buf.Length
    modifies buf
    ensures p == at + |x|
    ensures buf[..p] == old(buf[..at]) + x
    ensures forall i :: p <= i < buf.Length ==> buf[i] == old(buf[i])
  {
    p := at;
    while p < at + |x|
      invariant at <= p <= at + |x|
      invariant buf[..p] == old(buf[..at]) + x[..p - at]
      invariant forall i :: p <= i < buf.Length ==> buf[i] == old(buf[i])
    {
      buf[p] := x[p - at];
      p := p + 1;
    }
  }

  method WriteFloats(buf: array<Byte>, at: nat, c: Config) returns (p: nat)
    requires at + 12 <= buf.Length
    modifies buf
    ensures p == at + 12 && buf[..p] == old(buf[..at]) + Floats(c)
    ensures forall i :: p <= i < buf.Length ==> buf[i] == old(buf[i])
  {
    p := Put(buf, at, c.avg);
    p := Put(buf, p, c.min);
    p := Put(buf, p, c.shield);
  }

  method WriteInts(buf: array<Byte>, at: nat, w: Word, len: Int32) returns (p: nat)
    requires at + 20 <= buf.Length && Small(w) && len == RecordLen(w)
    modifies buf
    ensures p == at + 20 && buf[..p] == old(buf[..at]) + Ints(w)
    ensures forall i :: p <= i < buf.Length ==> buf[i] == old(buf[i])
  {
    hide Le32;
    p := Put(buf, at, Le32(len));
    p := Put(buf, p, Le32(w.vtType));
    p := Put(buf, p, Le32(|w.word|));
    p := Put(buf, p, Le32(|w.phone|));
    p := Put(buf, p, Le32(|w.config.nnetPath|));
  }

  /** A string and its NUL. */
  method PutString(buf: array<Byte>, at: nat, s: Str) returns (p: nat)
    requires at + |s| + 1 <= buf.Length
    modifies buf
    ensures p == at + |s| + 1 && buf[..p] == old(buf[..at]) + (s + [0])
    ensures forall i :: p <= i < buf.Length ==> buf[i] == old(buf[i])
  {
    p := Put(buf, at, s);
    p := Put(buf, p, [0]);
  }

  lemma StringsParts(pre: seq<Byte>, w: Word)
    ensures pre + (w.word + [0]) + (w.phone + [0]) + (w.config.nnetPath + [0]) == pre + Strings(w)
  {
  }

  method WriteStrings(buf: array<Byte>, at: nat, w: Word) returns (p: nat)
    requires at + |Strings(w)| <= buf.Length
    modifies buf
    ensures p == at + |Strings(w)| && buf[..p] == old(buf[..at]) + Strings(w)
    ensures forall i :: p <= i < buf.Length ==> buf[i] == old(buf[i])
  {
    p := PutString(buf, at, w.word);
    p := PutString(buf, p, w.phone);
    if w.config.nnetPath != [] {
      p := PutString(buf, p, w.config.nnetPath);
    } else {
      p := Put(buf, p, [0]);
    }
    assert w.config.nnetPath == [] ==> w.config.nnetPath + [0] == [0];
    StringsParts(old(buf[..at]), w);
  }

  predicate ZeroFrom(s: seq<Byte>, k: nat) { k <= |s| && forall i :: k <= i < |s| ==> s[i] == 0 }

  lemma RecordParts(pre: seq<Byte>, w: Word, all: seq<Byte>, len: nat)
    requires Small(w) && len == |pre| + RecordLen(w) <= |all|
    requires var p := |pre| + ContentLen(w);
      all[..p] == pre + Floats(w.config) + Flags(w.config) + Ints(w) + Strings(w) && ZeroFrom(all, p)
    ensures all[..len] == pre + Record(w) && ZeroFrom(all, len)
  {
    hide Floats, Flags, Ints, Strings;
    var p := |pre| + ContentLen(w);
    assert all[p..len] == Zeros(len - p);
    assert all[..len] == all[..p] + all[p..len];
  }

  method WriteRecord(buf: array<Byte>, k: nat, w: Word, len: Int32)
    requires Small(w) && len == RecordLen(w) && k + len <= buf.Length && ZeroFrom(buf[..], k)
    modifies buf
    ensures buf[..k + len] == old(buf[..k]) + Record(w) && ZeroFrom(buf[..], k + len)
  {
    hide Floats, Flags, Ints, Strings, RecordLen, Record;
    RecordAligned(w);
    ghost var pre := buf[..k];
    var p := WriteFloats(buf, k, w.config);
    p := Put(buf, p, Flags(w.config));
    p := WriteInts(buf, p, w, len);
    p := WriteStrings(buf, p, w);
    assert ZeroFrom(buf[..], p);
    assert buf[..][..p] == buf[..p];
    RecordParts(pre, w, buf[..], k + len);
    assert buf[..][..k + len] == buf[..k + len];
  }

  method WriteHeader(buf: array<Byte>, msg: Int32, len: Int32, data: Address)
    requires buf.Length >= HEADER && ZeroFrom(buf[..], 0)
    modifies buf
    ensures buf[..HEADER] == Header(msg, len, data) && ZeroFrom(buf[..], HEADER)
  {
    hide Le32;
    var p := Put(buf, 0, MAGIC);
    assert buf[..8] == MAGIC + Zeros(4);
    p := Put(buf, 8, Le32(msg));
    p := Put(buf, p, Le32(len));
    assert buf[16..24] == Zeros(8);
    assert buf[..24] == MAGIC + Zeros(4) + Le32(msg) + Le32(len) + Zeros(8);
    p := Put(buf, 24, data);
  }

  // ---- Messages ---------------------------------------------------------------

  /** allocateMessage: a zero payload of the given length. */
  method AllocateMessage(msg: Int32, len: Int32, address: Address) returns (buf: array<Byte>)
    requires 0 <= len
    ensures fresh(buf) && buf[..] == Wire(msg, Zeros(len), if len == 0 then NULL else address)
  {
    buf := new Byte[HEADER + len](_ => 0);
    WriteHeader(buf, msg, len, if len == 0 then NULL else address);
    assert buf[..] == buf[..HEADER] + buf[HEADER..];
    assert buf[HEADER..] == Zeros(len);
  }

  /** allocateMessageFromVTWord: the lengths first, then every record behind the other. */
  method AllocateMessageFromVTWord(words: seq<Word>, address: Address) returns (buf: array<Byte>)
    requires Fits(words)
    ensures fresh(buf)
    ensures buf[..] == Wire(SYNC_VT_WORD_LIST, Payload(words), if words == [] then NULL else address)
  {
    hide RecordsLen, Records, Le32, ZeroFrom;
    FitsSmall(words);
    if words == [] {
      buf := AllocateMessage(SYNC_VT_WORD_LIST, 0, address);
    } else {
      var packedLens, totalLen := PackedLens(words);
      totalLen := totalLen + 16;
      buf := AllocateZero(HEADER + totalLen);
      WriteHeader(buf, SYNC_VT_WORD_LIST, totalLen, address);
      WriteCount(buf, |words|);
      WriteRecords(buf, words, packedLens);
      PayloadParts(words, buf[..], address);
    }
  }

  /** new and memset. */
  method AllocateZero(n: nat) returns (buf: array<Byte>)
    ensures fresh(buf) && buf.Length == n && ZeroFrom(buf[..], 0)
  {
    buf := new Byte[n](_ => 0);
  }

  /** The number of words, in a space of four integers. */
  method WriteCount(buf: array<Byte>, num: Int32)
    requires buf.Length >= HEADER + 16 && ZeroFrom(buf[..], HEADER)
    modifies buf
    ensures buf[..HEADER + 16] == old(buf[..HEADER]) + (Le32(num) + Zeros(12)) && ZeroFrom(buf[..], HEADER + 16)
  {
    hide Le32;
    var p := Put(buf, HEADER, Le32(num));
    assert buf[p..HEADER + 16] == Zeros(12);
    assert buf[..HEADER + 16] == buf[..p] + buf[p..HEADER + 16];
  }

  lemma PayloadParts(words: seq<Word>, all: seq<Byte>, address: Address)
    requires Fits(words) && words != [] && AllSmall(words)
    requires all == Header(SYNC_VT_WORD_LIST, 16 + RecordsLen(words), address) + (Le32(|words|) + Zeros(12)) + Records(words)
    ensures all == Wire(SYNC_VT_WORD_LIST, Payload(words), address)
  {
    hide Le32, Records, Header, Zeros, RecordsLen;
    var h := Header(SYNC_VT_WORD_LIST, 16 + RecordsLen(words), address);
    assert h + (Le32(|words|) + Zeros(12)) + Records(words) == h + (Le32(|words|) + Zeros(12) + Records(words));
  }

  /** The loop over the words, the cursor k at the record to be written. */
  method WriteRecords(buf: array<Byte>, words: seq<Word>, packedLens: seq<Int32>)
    requires AllSmall(words) && buf.Length == HEADER + 16 + RecordsLen(words) && ZeroFrom(buf[..], HEADER + 16)
    requires |packedLens| == |words| && forall i :: 0 <= i < |words| ==> packedLens[i] == RecordLen(words[i])
    modifies buf
    ensures buf[..] == old(buf[..HEADER + 16]) + Records(words)
  {
    hide RecordLen, Record, RecordsLen, Records, ZeroFrom;
    ghost var front := buf[..HEADER + 16];
    var k, j := HEADER + 16, 0;
    RecordsNone(words);
    while j < |words|
      invariant j <= |words| && k == HEADER + 16 + RecordsLen(words[..j])
      invariant k <= buf.Length && ZeroFrom(buf[..], k)
      invariant buf[..k] == front + Records(words[..j])
    {
      RecordsStep(words, j);
      WriteRecord(buf, k, words[j], packedLens[j]);
      RecordsAppend(front, words, j);
      k := k + packedLens[j];
      j := j + 1;
    }
    assert words[..j] == words;
    assert buf[..] == buf[..k];
  }

  lemma RecordsNone(words: seq<Word>)
    ensures RecordsLen(words[..0]) == 0 && Records(words[..0]) == []
  {
  }

  lemma {:induction false} RecordsStep(words: seq<Word>, j: nat)
    requires j < |words|
    ensures RecordsLen(words[..j + 1]) == RecordsLen(words[..j]) + RecordLen(words[j]) <= RecordsLen(words)
    decreases |words| - j
  {
    hide RecordLen;
    assert words[..j + 1][..j] == words[..j];
    if j + 1 < |words| {
      RecordsStep(words, j + 1);
    } else {
      assert words[..j + 1] == words;
    }
  }

  lemma RecordsAppend(front: seq<Byte>, words: seq<Word>, j: nat)
    requires j < |words| && AllSmall(words)
    ensures front + Records(words[..j]) + Record(words[j]) == front + Records(words[..j + 1])
  {
    hide RecordLen, Record;
    assert words[..j + 1][..j] == words[..j];
    assert words[..j + 1][j] == words[j];
  }

  /** round_up_len of every word, and their sum. */
  method PackedLens(words: seq<Word>) returns (lens: seq<Int32>, total: nat)
    requires Fits(words)
    ensures |lens| == |words| && total == RecordsLen(words)
    ensures forall i :: 0 <= i < |words| ==> lens[i] == RecordLen(words[i])
  {
    lens, total := [], 0;
    var j := 0;
    FitsSmall(words);
    while j < |words|
      invariant j <= |words| && |lens| == j && total == RecordsLen(words[..j])
      invariant forall i :: 0 <= i < j ==> lens[i] == RecordLen(words[i])
    {
      var w := words[j];
      var otherNum := CONFIG + |w.word| + |w.phone| + |w.config.nnetPath| + 3;
      var roundUpLen := otherNum + (8 - otherNum % 8);
      RecordsStep(words, j);
      lens := lens + [roundUpLen];
      total := total + roundUpLen;
      j := j + 1;
    }
    assert words[..j] == words;
  }

  /** copyMessage: the bytes as they are, the data pointer into the copy. */
  method CopyMessage(from: array<Byte>, address: Address) returns (to: array<Byte>)
    requires from.Length >= HEADER
    ensures fresh(to) && to[..] == from[..24] + address + from[HEADER..]
  {
    to := new Byte[from.Length](_ => 0);
    var p := Put(to, 0, from[..]);
    assert to[..] == from[..];
    p := Put(to, 24, address);
    assert to[..] == to[..HEADER] + to[HEADER..];
  }

  /** A copy is the same message at another address. */
  lemma CopyIsMessage(msg: Int32, payload: seq<Byte>, a: Address, b: Address)
    requires |payload| < 0x8000_0000
    ensures Wire(msg, payload, a)[..24] + b + Wire(msg, payload, a)[HEADER..] == Wire(msg, payload, b)
  {
    hide Le32;
    assert Wire(msg, payload, a) == (MAGIC + (Zeros(4) + (Le32(msg) + (Le32(|payload|) + Zeros(8))))) + (a + payload);
  }

  // ---- Unpacking with cursors -------------------------------------------------

  method ReadInt(buf: array<Byte>, at: nat) returns (x: Int32)
    requires HEADER + at + 4 <= buf.Length
    ensures x == Int(buf[HEADER..], at)
  {
    x := De32(buf[HEADER + at..HEADER + at + 4]);
    assert buf[HEADER..][at..at + 4] == buf[HEADER + at..HEADER + at + 4];
  }

  /** std::string from a char pointer: up to the first NUL. */
  method ReadCString(buf: array<Byte>, at: nat) returns (s: Str)
    requires HEADER + at <= buf.Length && CString(buf[HEADER..], at).Some?
    ensures CString(buf[HEADER..], at) == Some(s)
  {
    ghost var data := buf[HEADER..];
    s := [];
    var p := at;
    ghost var whole := CString(data, at).value;
    while HEADER + p < buf.Length && buf[HEADER + p] != 0
      invariant at <= p <= |data|
      invariant CString(data, p).Some? && whole == s + CString(data, p).value
    {
      assert CString(data, p).value == [data[p]] + CString(data, p + 1).value;
      s := s + [buf[HEADER + p]];
      p := p + 1;
    }
    assert s + CString(data, p).value == s;
  }

  /** One string with its stated size; code is the error when no NUL follows it. */
  method ReadSized(buf: array<Byte>, at: int, size: Int32, code: int) returns (s: Str, error: int)
    requires code != 0 && buf.Length >= HEADER && !Sized(buf[HEADER..], at, size, code).OutsideText?
    ensures Sized(buf[HEADER..], at, size, code) == if error == 0 then Text(s) else BadText(error)
  {
    s, error := [], 0;
    if buf[HEADER + at + size] != 0 {
      error := code;
    } else {
      s := ReadCString(buf, at);
    }
  }

  method ReadConfig(buf: array<Byte>, k: nat, path: Str) returns (c: Config)
    requires HEADER + k + CONFIG <= buf.Length
    ensures c == ConfigAt(buf[HEADER..], k, path)
  {
    var b := HEADER + k;
    c := Config(buf[b..b + 4], buf[b + 4..b + 8], buf[b + 8..b + 12], buf[b + 12] != 0, buf[b + 13] != 0,
                buf[b + 14] != 0, buf[b + 15] != 0, buf[b + 16] != 0, path);
  }

  /** The body of the loop of getVTWordFromMessage; next is the cursor k. */
  method ReadRecord(buf: array<Byte>, k: int) returns (word: Word, next: int, error: int)
    requires buf.Length >= HEADER && !UnpackOne(buf[HEADER..], k).OutsideOne?
    ensures UnpackOne(buf[HEADER..], k) == if error == 0 then Got(word, next) else Bad(error)
  {
    hide Sized, Int, ConfigAt, De32;
    var noConfig := Config([0, 0, 0, 0], [0, 0, 0, 0], [0, 0, 0, 0], false, false, false, false, false, []);
    word := Word(0, [], [], false, noConfig);
    var totalLen := ReadInt(buf, k + 17);
    var vtType := ReadInt(buf, k + 21);
    var wordSize := ReadInt(buf, k + 25);
    var phoneSize := ReadInt(buf, k + 29);
    var nnetSize := ReadInt(buf, k + 33);
    next := k + totalLen;
    var vtWord, vtPhone, nnetPath;
    var p := k + CONFIG;
    vtWord, error := ReadSized(buf, p, wordSize, -4);
    if error != 0 { return; }
    p := p + wordSize + 1;
    vtPhone, error := ReadSized(buf, p, phoneSize, -7);
    if error != 0 { return; }
    nnetPath := [];
    if nnetSize != 0 {
      p := p + phoneSize + 1;
      nnetPath, error := ReadSized(buf, p, nnetSize, -5);
      if error != 0 { return; }
    }
    var config := ReadConfig(buf, k, nnetPath);
    word := Word(vtType, vtWord, vtPhone, false, config);
  }

  /** getVTWordFromMessage on the buffer of a message; a payload that leads the cursors
      out of the buffer is not covered. */
  method GetVTWordFromMessage(buf: array<Byte>) returns (code: int, words: seq<Word>)
    requires buf.Length >= HEADER && LenOf(buf[..]) == buf.Length - HEADER
    requires !Unpack(MsgOf(buf[..]), buf[HEADER..]).Outside?
    ensures Unpack(MsgOf(buf[..]), buf[HEADER..]) == Done(code, words)
  {
    hide UnpackOne, De32, Int;
    words := [];
    if MsgOf(buf[..]) != SYNC_VT_WORD_LIST { return -3, []; }
    var totalLen := LenOf(buf[..]);
    if totalLen == 0 { return -2, []; }
    var num := ReadInt(buf, 0);
    if totalLen < CONFIG * num { return -6, []; }
    var k, i := 16, 0;
    ghost var data := buf[HEADER..];
    while i < num
      invariant 0 <= i <= num || num < 0 == i
      invariant UnpackFrom(data, k, num - i, words) == Unpack(MsgOf(buf[..]), data)
    {
      var word, next, error := ReadRecord(buf, k);
      if error != 0 { return error, words; }
      words := words + [word];
      k := next;
      i := i + 1;
    }
    code := 0;
  }

  // ---- The socket ---------------------------------------------------------------

  /** What consecutive read calls return while n bytes are wanted: negative or zero when
      nothing is there, else the size of a piece, until the last byte is read. */
  predicate Delivers(sizes: seq<int>, n: nat)
    decreases |sizes|
  {
    sizes != [] && sizes[0] <= n &&
    (sizes[0] == n || Delivers(sizes[1..], if sizes[0] < 0 then n else n - sizes[0]))
  }

  class Socket {
    var stream: seq<Byte>  // written and not yet read

    /** writeMessage; the whole message is written. */
    method WriteMessage(buf: array<Byte>)
      modifies this
      ensures stream == old(stream) + buf[..]
    {
      stream := stream + buf[..];
    }

    /** pollMessage: a header that is read whole, then the payload in any pieces; None is
        the magic error. */
    method PollMessage(address: Address, sizes: seq<int>) returns (msg: Option<array<Byte>>)
      requires |stream| >= HEADER
      requires MagicOk(stream) ==>
        0 <= LenOf(stream) <= |stream| - HEADER && (LenOf(stream) > 0 ==> Delivers(sizes, LenOf(stream)))
      modifies this
      ensures msg.Some? <==> MagicOk(old(stream))
      ensures msg.None? ==> stream == old(stream[HEADER..])
      ensures msg.Some? ==> fresh(msg.value) && stream == old(stream[HEADER + LenOf(stream)..])
      ensures msg.Some? ==>
        var len := old(LenOf(stream));
        msg.value[..] == Wire(old(MsgOf(stream)), old(stream[HEADER..HEADER + len]), if len == 0 then NULL else address)
    {
      var temp := stream[..HEADER];
      assert MsgOf(temp) == MsgOf(stream) && LenOf(temp) == LenOf(stream) && MagicOk(temp) == MagicOk(stream) by {
        assert temp[8..12] == stream[8..12] && temp[12..16] == stream[12..16] && temp[..4] == stream[..4];
      }
      stream := stream[HEADER..];
      if temp[..4] != MAGIC { return None; }
      var len := LenOf(temp);
      var buf := AllocateMessage(MsgOf(temp), len, address);
      ghost var head := buf[..HEADER];
      if len != 0 {
        ReadPayload(buf, len, sizes);
      }
      msg := Some(buf);
      assert buf[..] == buf[..HEADER] + buf[HEADER..];
    }

    /** The read loop of pollMessage. */
    method ReadPayload(buf: array<Byte>, len: nat, sizes: seq<int>)
      requires 0 < len <= |stream| && buf.Length == HEADER + len && Delivers(sizes, len)
      modifies this, buf
      ensures stream == old(stream[len..])
      ensures buf[..HEADER] == old(buf[..HEADER]) && buf[HEADER..] == old(stream[..len])
    {
      var readLen, offset, i := len, HEADER, 0;
      while true
        invariant i < |sizes| && 0 < readLen && offset + readLen == HEADER + len && HEADER <= offset
        invariant Delivers(sizes[i..], readLen)
        invariant buf[..offset] == old(buf[..HEADER] + stream[..offset - HEADER])
        invariant stream == old(stream[offset - HEADER..])
        decreases |sizes| - i
      {
        var t := sizes[i];
        assert sizes[i..][1..] == sizes[i + 1..];
        if t >= 0 {
          ghost var done := offset - HEADER;
          assert stream[..t] == old(stream[done..done + t]);
          assert old(stream[..done]) + stream[..t] == old(stream[..done + t]);
          var p := Put(buf, offset, stream[..t]);
          stream := stream[t..];
          assert buf[..p] == old(buf[..HEADER] + stream[..done + t]);
          if t != readLen {
            readLen := readLen - t;
            offset := offset + t;
          } else {
            break;
          }
        }
        i := i + 1;
      }
      assert buf[..HEADER + len] == buf[..];
      assert buf[..] == old(buf[..HEADER] + stream[..len]);
    }
  }

  /** A received message of packed words is unpacked to the words as they are seen. */
  method Receive(copy: array<Byte>, ghost words: seq<Word>, ghost c: Address) returns (code: int, received: seq<Word>)
    requires Fits(words) && copy[..] == Wire(SYNC_VT_WORD_LIST, Payload(words), c)
    ensures if words == [] then code == -2 && received == [] else code == 0 && received == AllSeen(words)
  {
    hide RecordsLen, Records, Wire, MagicOk, MsgOf, LenOf, Unpack;
    ghost var payload := Payload(words);
    HeaderRead(SYNC_VT_WORD_LIST, payload, c, []);
    assert copy[..] == Wire(SYNC_VT_WORD_LIST, payload, c) + [];
    RoundTrip(words);
    assert copy[HEADER..] == copy[..][HEADER..HEADER + |payload|];
    code, received := GetVTWordFromMessage(copy);
  }

  /** A word list that is packed, sent, read in any pieces, copied and unpacked is the
      list as it is seen; the empty list gives the error -2. */
  method SendWords(words: seq<Word>, sock: Socket, sizes: seq<int>, a: Address, b: Address, c: Address)
    returns (code: int, received: seq<Word>)
    requires Fits(words) && sock.stream == []
    requires words != [] ==> Delivers(sizes, 16 + RecordsLen(words))
    modifies sock
    ensures sock.stream == []
    ensures if words == [] then code == -2 && received == [] else code == 0 && received == AllSeen(words)
  {
    hide RecordsLen, Records, Wire, MagicOk, MsgOf, LenOf, Unpack, Delivers;
    ghost var a0, b0 := if words == [] then NULL else a, if words == [] then NULL else b;
    var sent := AllocateMessageFromVTWord(words, a);
    FitsSmall(words);
    ghost var payload := Payload(words);
    sock.WriteMessage(sent);
    HeaderRead(SYNC_VT_WORD_LIST, payload, a0, []);
    assert sock.stream == Wire(SYNC_VT_WORD_LIST, payload, a0) + [];
    var read := sock.PollMessage(b, sizes);
    CopyIsMessage(SYNC_VT_WORD_LIST, payload, b0, c);
    var copy := CopyMessage(read.value, c);
    code, received := Receive(copy, words, c);
  }
}
