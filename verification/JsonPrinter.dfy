/**
  The serializers of json-c, writing into a printbuf; each is proved against the text
  that JsonValue.Print gives.
*/
module JsonPrinter {
  import opened JsonValue
  import opened PrintBuf

  // ---- json_escape_str --------------------------------------------------------

  predicate Plain(c: char) { EscapeChar(c) == [c] }

  lemma {:induction false} EscapeAppend(a: string, b: string)
    ensures Escape(a + b) == Escape(a) + Escape(b)
    decreases |b|
  {
    hide EscapeChar;
    if b == "" {
      assert a + b == a;
    } else {
      assert (a + b)[..|a + b| - 1] == a + b[..|b| - 1];
      EscapeAppend(a, b[..|b| - 1]);
    }
  }

  lemma {:induction false} EscapePlain(s: string)
    requires forall i :: 0 <= i < |s| ==> Plain(s[i])
    ensures Escape(s) == s
  {
    hide EscapeChar;
    if s != "" {
      EscapePlain(s[..|s| - 1]);
      assert s == s[..|s| - 1] + [s[|s| - 1]];
    }
  }

  /** The loop invariant of json_escape_str: str[start..pos] is plain and still to be
      copied, everything before it is written. */
  ghost predicate Escaped(contents: string, before: string, str: string, start: nat, pos: nat) {
    && start <= pos <= |str| && contents == before + Escape(str[..start])
    && forall i :: start <= i < pos ==> Plain(str[i])
  }

  lemma Flushed(contents: string, before: string, str: string, start: nat, pos: nat)
    requires Escaped(contents, before, str, start, pos)
    ensures contents + str[start..pos] == before + Escape(str[..pos])
  {
    hide EscapeChar;
    assert str[..pos] == str[..start] + str[start..pos];
    EscapeAppend(str[..start], str[start..pos]);
    EscapePlain(str[start..pos]);
  }

  lemma EscapeNone()
    ensures Escape("") == ""
  {
  }

  lemma OneMore(str: string, pos: nat)
    requires pos < |str|
    ensures Escape(str[..pos + 1]) == Escape(str[..pos]) + EscapeChar(str[pos])
  {
    assert str[..pos + 1][..pos] == str[..pos];
  }

  /** Copy what is pending. */
  method Flush(pb: Printbuf, str: string, start: nat, pos: nat, ghost before: string)
    requires pb.Valid() && Escaped(pb.Contents(), before, str, start, pos)
    modifies pb, pb.buf
    ensures pb.Valid() && (pb.buf == old(pb.buf) || fresh(pb.buf))
    ensures pb.Contents() == before + Escape(str[..pos])
  {
    hide Escape, Plain;
    Flushed(pb.Contents(), before, str, start, pos);
    if pos - start > 0 {
      pb.MemAppend(str[start..pos]);
    } else {
      assert pb.Contents() + str[start..pos] == pb.Contents();
    }
  }

  /** The cases of the switch. */
  predicate Named(c: char) { c in {'\U{8}', '\n', '\r', '\t', '\U{C}', '\"', '\\', '/'} }

  lemma PlainChar(c: char)
    requires !Named(c) && !(c < ' ')
    ensures Plain(c)
  {
  }

  lemma EscapedHere(contents: string, before: string, str: string, pos: nat)
    requires pos <= |str| && contents == before + Escape(str[..pos])
    ensures Escaped(contents, before, str, pos, pos)
  {
  }

  method WriteNamed(pb: Printbuf, c: char)
    requires pb.Valid() && Named(c)
    modifies pb, pb.buf
    ensures pb.Valid() && (pb.buf == old(pb.buf) || fresh(pb.buf))
    ensures pb.Contents() == old(pb.Contents()) + EscapeChar(c)
  {
    if c == '\U{8}' { pb.MemAppend("\\b"); }
    else if c == '\n' { pb.MemAppend("\\n"); }
    else if c == '\r' { pb.MemAppend("\\r"); }
    else if c == '\t' { pb.MemAppend("\\t"); }
    else if c == '\U{C}' { pb.MemAppend("\\f"); }
    else if c == '\"' { pb.MemAppend("\\\""); }
    else if c == '\\' { pb.MemAppend("\\\\"); }
    else { pb.MemAppend("\\/"); }
  }

  method WriteControl(pb: Printbuf, c: char)
    requires pb.Valid() && !Named(c) && c < ' '
    modifies pb, pb.buf
    ensures pb.Valid() && (pb.buf == old(pb.buf) || fresh(pb.buf))
    ensures pb.Contents() == old(pb.Contents()) + EscapeChar(c)
  {
    pb.MemAppend("\\u00" + [HexDigit(c as int / 16), HexDigit(c as int % 16)]);
  }

  method EscapeStr(pb: Printbuf, str: string)
    requires pb.Valid()
    modifies pb, pb.buf
    ensures pb.Valid() && (pb.buf == old(pb.buf) || fresh(pb.buf))
    ensures pb.Contents() == old(pb.Contents()) + Escape(str)
  {
    hide EscapeChar, Escape, Plain, Named;
    ghost var before := pb.Contents();
    var pos, startOffset := 0, 0;
    EscapeNone();
    while pos < |str|
      invariant pb.Valid() && (pb.buf == old(pb.buf) || fresh(pb.buf))
      invariant Escaped(pb.Contents(), before, str, startOffset, pos)
    {
      var c := str[pos];
      if Named(c) || c < ' ' {
        Flush(pb, str, startOffset, pos, before);
        if Named(c) { WriteNamed(pb, c); } else { WriteControl(pb, c); }
        OneMore(str, pos);
        pos := pos + 1;
        startOffset := pos;
        EscapedHere(pb.Contents(), before, str, pos);
      } else {
        PlainChar(c);
        pos := pos + 1;
      }
    }
    Flush(pb, str, startOffset, pos, before);
    assert str[..pos] == str;
  }

  // ---- The serializers -----------------------------------------------------------

  lemma {:induction false} SpacesAre(s: string, n: nat)
    requires |s| == n && forall i :: 0 <= i < n ==> s[i] == ' '
    ensures s == Spaces(n)
  {
    if n > 0 { SpacesAre(s[..n - 1], n - 1); }
  }

  method WriteIndent(pb: Printbuf, level: nat, st: Style)
    requires pb.Valid()
    modifies pb, pb.buf
    ensures pb.Valid() && (pb.buf == old(pb.buf) || fresh(pb.buf))
    ensures pb.Contents() == old(pb.Contents()) + Indent(level, st)
  {
    if st.pretty {
      ghost var before := pb.Contents();
      pb.MemSet(-1, ' ', level * 2);
      SpacesAre(pb.Contents()[|before|..], level * 2);
      assert pb.Contents() == before + pb.Contents()[|before|..];
    }
  }

  /** The comma, line break, space and indentation in front of element k. */
  method WriteLead(pb: Printbuf, k: nat, level: nat, st: Style)
    requires pb.Valid()
    modifies pb, pb.buf
    ensures pb.Valid() && (pb.buf == old(pb.buf) || fresh(pb.buf))
    ensures pb.Contents() == old(pb.Contents()) + Lead(k, level, st)
  {
    hide Indent;
    ghost var before := pb.Contents();
    if k > 0 {
      pb.MemAppend(",");
      if st.pretty { pb.MemAppend("\n"); }
    }
    ghost var mid := before + if k == 0 then "" else "," + Newline(st);
    assert pb.Contents() == mid;
    if st.spaced { pb.MemAppend(" "); } else { assert mid == mid + ""; }
    assert pb.Contents() == mid + Gap(st);
    WriteIndent(pb, level + 1, st);
    LeadParts(before, k, level, st);
  }

  lemma LeadParts(before: string, k: nat, level: nat, st: Style)
    ensures before + (if k == 0 then "" else "," + Newline(st)) + Gap(st) + Indent(level + 1, st)
      == before + Lead(k, level, st)
  {
    hide Indent, Newline, Gap;
  }

  method WriteTrail(pb: Printbuf, k: nat, level: nat, st: Style, close: char)
    requires pb.Valid()
    modifies pb, pb.buf
    ensures pb.Valid() && pb.Terminated() && (pb.buf == old(pb.buf) || fresh(pb.buf))
    ensures pb.Contents() == old(pb.Contents()) + (Trail(k, level, st) + [close])
  {
    hide Indent;
    ghost var before := pb.Contents();
    if st.pretty {
      if k > 0 { pb.MemAppend("\n"); }
      assert pb.Contents() == before + if k == 0 then "" else "\n";
      WriteIndent(pb, level, st);
    }
    ghost var mid := if st.pretty then (if k == 0 then "" else "\n") + Indent(level, st) else "";
    assert pb.Contents() == before + mid;
    if st.spaced {
      pb.MemAppend([' ', close]);
      assert before + mid + [' ', close] == before + (mid + " " + [close]);
    } else {
      pb.MemAppend([close]);
      assert before + mid + [close] == before + (mid + "" + [close]);
    }
  }

  method WriteQuoted(pb: Printbuf, s: string)
    requires pb.Valid()
    modifies pb, pb.buf
    ensures pb.Valid() && pb.Terminated() && (pb.buf == old(pb.buf) || fresh(pb.buf))
    ensures pb.Contents() == old(pb.Contents()) + Quoted(s)
  {
    hide Escape;
    ghost var before := pb.Contents();
    pb.MemAppend("\"");
    EscapeStr(pb, s);
    pb.MemAppend("\"");
    assert before + "\"" + Escape(s) + "\"" == before + Quoted(s);
  }

  method WriteKey(pb: Printbuf, key: string, st: Style)
    requires pb.Valid()
    modifies pb, pb.buf
    ensures pb.Valid() && (pb.buf == old(pb.buf) || fresh(pb.buf))
    ensures pb.Contents() == old(pb.Contents()) + KeyPart(key, st)
  {
    hide Escape;
    ghost var before := pb.Contents();
    pb.MemAppend("\"");
    EscapeStr(pb, key);
    if st.spaced { pb.MemAppend("\": "); } else { pb.MemAppend("\":"); }
    assert before + "\"" + Escape(key) + ("\":" + Gap(st)) == before + KeyPart(key, st);
  }

  /** _to_json_string of any value. */
  method Write(pb: Printbuf, v: Json, level: nat, st: Style)
    requires pb.Valid() && Valid(v)
    modifies pb, pb.buf
    ensures pb.Valid() && pb.Terminated() && (pb.buf == old(pb.buf) || fresh(pb.buf))
    ensures pb.Contents() == old(pb.Contents()) + Print(v, level, st)
    decreases v, 1
  {
    match v {
      case Null => pb.MemAppend("null");
      case Bool(b) => if b { pb.MemAppend("true"); } else { pb.MemAppend("false"); }
      case Int(i) => pb.MemAppend(Decimal(i));
      case Str(s) => WriteQuoted(pb, s);
      case Arr(es) => WriteArray(pb, v, level, st);
      case Obj(fs) => WriteObject(pb, v, level, st);
    }
  }

  /** json_object_array_to_json_string */
  method WriteArray(pb: Printbuf, v: Json, level: nat, st: Style)
    requires pb.Valid() && v.Arr? && Valid(v)
    modifies pb, pb.buf
    ensures pb.Valid() && pb.Terminated() && (pb.buf == old(pb.buf) || fresh(pb.buf))
    ensures pb.Contents() == old(pb.Contents()) + Print(v, level, st)
    decreases v, 0
  {
    hide Lead, Trail, Newline, Valid, Print, PrintAll;
    var es := v.es;
    ghost var before := pb.Contents();
    WriteOpen(pb, '[', st);
    ghost var front := before + ("[" + Newline(st));
    PrintNone(level, st);
    for k := 0 to |es|
      invariant pb.Valid() && (pb.buf == old(pb.buf) || fresh(pb.buf))
      invariant pb.Contents() == front + PrintAll(es[..k], level, st)
    {
      WriteLead(pb, k, level, st);
      ElementValid(v, k);
      Write(pb, es[k], level + 1, st);
      PrintMore(es, k, level, st);
      RegroupElement(front, PrintAll(es[..k], level, st), Lead(k, level, st), Print(es[k], level + 1, st));
    }
    assert es[..|es|] == es;
    WriteTrail(pb, |es|, level, st, ']');
    PrintArr(v, level, st, before);
  }

  method WriteOpen(pb: Printbuf, open: char, st: Style)
    requires pb.Valid()
    modifies pb, pb.buf
    ensures pb.Valid() && (pb.buf == old(pb.buf) || fresh(pb.buf))
    ensures pb.Contents() == old(pb.Contents()) + ([open] + Newline(st))
  {
    pb.MemAppend([open]);
    if st.pretty { pb.MemAppend("\n"); }
  }

  lemma Regroup(front: string, a: string, b: string, c: string, d: string)
    ensures front + a + b + c + d == front + (a + (b + (c + d)))
  {
  }

  lemma RegroupElement(front: string, a: string, b: string, c: string)
    ensures front + a + b + c == front + (a + (b + c))
  {
  }

  lemma PrintNone(level: nat, st: Style)
    ensures PrintAll([], level, st) == "" && PrintFields([], level, st) == ""
  {
  }

  lemma ElementValid(v: Json, k: nat)
    requires Valid(v) && ((v.Arr? && k < |v.es|) || (v.Obj? && k < |v.fs|))
    ensures Valid(if v.Arr? then v.es[k] else v.fs[k].val)
  {
  }

  lemma PrintMore(es: seq<Json>, k: nat, level: nat, st: Style)
    requires k < |es|
    ensures PrintAll(es[..k + 1], level, st)
      == PrintAll(es[..k], level, st) + (Lead(k, level, st) + Print(es[k], level + 1, st))
  {
    assert es[..k + 1][..k] == es[..k];
  }

  lemma PrintMoreFields(fs: seq<Field>, k: nat, level: nat, st: Style)
    requires k < |fs|
    ensures PrintFields(fs[..k + 1], level, st)
      == PrintFields(fs[..k], level, st)
         + (Lead(k, level, st) + (KeyPart(fs[k].key, st) + Print(fs[k].val, level + 1, st)))
  {
    assert fs[..k + 1][..k] == fs[..k];
  }

  lemma PrintArr(v: Json, level: nat, st: Style, before: string)
    requires v.Arr?
    ensures before + ("[" + Newline(st)) + PrintAll(v.es, level, st) + (Trail(|v.es|, level, st) + "]")
      == before + Print(v, level, st)
  {
    hide PrintAll, PrintFields, Trail, Newline;
  }

  lemma PrintObj(v: Json, level: nat, st: Style, before: string)
    requires v.Obj?
    ensures before + ("{" + Newline(st)) + PrintFields(v.fs, level, st) + (Trail(|v.fs|, level, st) + "}")
      == before + Print(v, level, st)
  {
    hide PrintAll, PrintFields, Trail, Newline;
  }

  /** json_object_object_to_json_string */
  method WriteObject(pb: Printbuf, v: Json, level: nat, st: Style)
    requires pb.Valid() && v.Obj? && Valid(v)
    modifies pb, pb.buf
    ensures pb.Valid() && pb.Terminated() && (pb.buf == old(pb.buf) || fresh(pb.buf))
    ensures pb.Contents() == old(pb.Contents()) + Print(v, level, st)
    decreases v, 0
  {
    hide Lead, Trail, Newline, Valid, KeyPart, Print, PrintFields;
    var fs := v.fs;
    ghost var before := pb.Contents();
    WriteOpen(pb, '{', st);
    ghost var front := before + ("{" + Newline(st));
    PrintNone(level, st);
    for k := 0 to |fs|
      invariant pb.Valid() && (pb.buf == old(pb.buf) || fresh(pb.buf))
      invariant pb.Contents() == front + PrintFields(fs[..k], level, st)
    {
      WriteLead(pb, k, level, st);
      WriteKey(pb, fs[k].key, st);
      ElementValid(v, k);
      Write(pb, fs[k].val, level + 1, st);
      PrintMoreFields(fs, k, level, st);
      Regroup(front, PrintFields(fs[..k], level, st), Lead(k, level, st), KeyPart(fs[k].key, st),
              Print(fs[k].val, level + 1, st));
    }
    assert fs[..|fs|] == fs;
    WriteTrail(pb, |fs|, level, st, '}');
    PrintObj(v, level, st, before);
  }

  /** json_object_to_json_string_ext: the text is a C string in the buffer. */
  method ToJsonString(pb: Printbuf, v: Json, st: Style) returns (s: string)
    requires pb.Valid() && Valid(v)
    modifies pb, pb.buf
    ensures s == Print(v, 0, st)
    ensures v != Null ==> pb.Valid() && pb.Terminated() && pb.Contents() == s
  {
    if v == Null { return "null"; }
    pb.Reset();
    Write(pb, v, 0, st);
    s := pb.Contents();
  }
}
