/**
  printbuf: a growing byte buffer, kept NUL-terminated by every append.
*/
module PrintBuf {

  class Printbuf {
    var buf: array<char>  // its length is the field size
    var bpos: nat

    ghost predicate Valid()
      reads this
    {
      bpos <= buf.Length && 0 < buf.Length
    }

    function Contents(): string
      requires Valid()
      reads this, buf
    {
      buf[..bpos]
    }

    /** The buffer can be read as a C string. */
    predicate Terminated()
      reads this, buf
    {
      bpos < buf.Length && buf[bpos] == '\0'
    }

    constructor ()
      ensures Valid() && fresh(buf) && Contents() == "" && buf.Length == 32
    {
      buf := new char[32](_ => '\0');
      bpos := 0;
    }

    method Reset()
      requires Valid()
      modifies this`bpos, buf
      ensures Valid() && Contents() == "" && Terminated()
    {
      bpos := 0;
      buf[0] := '\0';
    }

    /** printbuf_extend: room for at least minSize bytes, the old ones kept. */
    method Extend(minSize: nat)
      requires Valid()
      modifies this`buf
      ensures Valid() && (buf == old(buf) || fresh(buf)) && minSize <= buf.Length
      ensures old(buf.Length) <= buf.Length && buf[..old(buf.Length)] == old(buf[..])
      ensures old(buf.Length) >= minSize ==> buf == old(buf)
    {
      if buf.Length >= minSize { return; }
      var newSize := if buf.Length * 2 >= minSize + 8 then buf.Length * 2 else minSize + 8;
      var t := new char[newSize](_ => '\0');
      forall i | 0 <= i < buf.Length { t[i] := buf[i]; }
      buf := t;
    }

    method MemAppend(s: string)
      requires Valid()
      modifies this, buf
      ensures Valid() && (buf == old(buf) || fresh(buf))
      ensures Contents() == old(Contents()) + s && Terminated()
    {
      ghost var before := Contents();
      if buf.Length <= bpos + |s| + 1 {
        Extend(bpos + |s| + 1);
      }
      assert buf[..bpos] == before;
      forall i | bpos <= i < bpos + |s| { buf[i] := s[i - bpos]; }
      bpos := bpos + |s|;
      buf[bpos] := '\0';
      assert buf[..bpos] == before + s;
    }

    /** printbuf_memset; at -1 the bytes go behind the contents.  No NUL is written. */
    method MemSet(offset: int, c: char, len: nat)
      requires Valid() && offset >= -1
      modifies this, buf
      ensures Valid() && (buf == old(buf) || fresh(buf))
      ensures var at := if offset == -1 then old(bpos) else offset;
        && bpos == (if old(bpos) < at + len then at + len else old(bpos))
        && (forall i :: at <= i < at + len ==> Contents()[i] == c)
        && (forall i :: 0 <= i < old(bpos) && !(at <= i < at + len) ==> Contents()[i] == old(Contents()[i]))
    {
      ghost var before := Contents();
      var at := if offset == -1 then bpos else offset;
      var sizeNeeded := at + len;
      if buf.Length < sizeNeeded {
        Extend(sizeNeeded);
      }
      assert buf[..bpos] == before;
      forall i | at <= i < at + len { buf[i] := c; }
      if bpos < sizeNeeded { bpos := sizeNeeded; }
      forall i | at <= i < at + len ensures buf[..bpos][i] == c {}
    }
  }
}
