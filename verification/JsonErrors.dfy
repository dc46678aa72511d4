/**
  The error of a text that is refused tells what was expected behind the part of it that
  had been read.
*/
module JsonErrors {
  import opened Shared
  import opened JsonValue
  import opened JsonGrammar
  import opened M = JsonMachine
  import opened A = JsonAccepts
  import R = JsonReads

  /** A value was expected. */
  function NoValue(c: char): Err { if c == 'I' || c == 'i' || c == '/' then Outside else Unexpected }

  /** Behind a value: a comma or the closing bracket of the container was expected. */
  function NoSeparator(below: seq<Part>, c: char): Err {
    if c == '/' || below == [] then Outside
    else if below[|below| - 1].ArrPlace? then ArraySeparator else ValueSeparator
  }

  /** The element of a container: there may be no room for it. */
  function NoElement(depth: nat, maxDepth: nat, c: char): Err {
    if c == '/' then Outside else if depth + 1 >= maxDepth then TooDeep else NoValue(c)
  }

  predicate Fraction(t: string) { exists i :: 0 <= i < |t| && (t[i] == '.' || t[i] == 'e' || t[i] == 'E') }

  /** A sign without a digit behind it. */
  predicate NoDigits(t: string) { t != "" && t[0] == '-' && (|t| == 1 || !DecimalDigit(t[1])) }

  /** What was missing when the part s was read and c came. */
  function Missing(s: State, maxDepth: nat, c: char): Err {
    match s.top
    case Begun => NoValue(c)
    case WordPart(t) =>
      if t == "" || |t| >= |M.Text(WordOf(t[0]))| then NoSeparator(s.below, c)
      else if WordOf(t[0]) != WNull then BooleanExpected
      else if |t| == 1 && (c == 'a' || c == 'A') then Outside else NullExpected
    case NumPart(t) =>
      if Fraction(t) || (t != "" && t[0] == '-' && (c == 'i' || c == 'I')) then Outside
      else if NoDigits(t) then NumberExpected else NoSeparator(s.below, c)
    case StrPart(_, _, _) => StringSequence
    case Done(_, _) => NoSeparator(s.below, c)
    case ArrPlace(_, _) => NoElement(|s.below|, maxDepth, c)
    case ObjPlace(_, _) => if c == '/' then Outside else KeyName
    case KeyPart(_, _, _, _, _) => StringSequence
    case ColonPlace(_, _, _, _, _) => if c == '/' then Outside else KeySeparator
    case ValuePlace(_, _, _) => NoElement(|s.below|, maxDepth, c)
  }

  // ---- One character ---------------------------------------------------------------------

  lemma FullFails(m: Machine, c: char)
    requires m.mode.Full? && Step(m, c).Fail?
    ensures Step(m, c) == Fail(if c == '/' || m.stack == [] then Outside
                               else if m.stack[|m.stack| - 1].InArr? then ArraySeparator else ValueSeparator)
  {
    hide AddField;
  }

  lemma PlaceFails(m: Machine, c: char)
    requires R.Inside(m.mode).Some? && Step(m, c).Fail?
    ensures Step(m, c) == Fail(NoElement(|m.stack|, m.maxDepth, c))
  {
  }

  lemma OtherFails(m: Machine, c: char)
    requires Step(m, c).Fail?
    ensures m.mode.Start? ==> Step(m, c) == Fail(NoValue(c))
    ensures m.mode.ObjOpen? || m.mode.ObjComma? ==> Step(m, c) == Fail(if c == '/' then Outside else KeyName)
    ensures m.mode.ObjColon? ==> Step(m, c) == Fail(if c == '/' then Outside else KeySeparator)
    ensures (m.mode.InStr? || m.mode.InKey?) && !m.mode.esc.Torn? ==> Step(m, c) == Fail(StringSequence)
    ensures m.mode.Lit? && m.mode.n < |M.Text(m.mode.w)| ==>
      Step(m, c) == Fail(if m.mode.w == WNull && m.mode.n == 1 && (c == 'a' || c == 'A') then Outside
                         else if m.mode.w == WNull then NullExpected else BooleanExpected)
  {
    hide StrFeed, CStr, NumEnd, AddField;
  }

  lemma BelowIs(s: State, m: Machine)
    requires Fine(s, m.maxDepth) && m == Abs(s, m.maxDepth)
    ensures |m.stack| == |s.below| && (s.below != [] ==> (m.stack[|m.stack| - 1].InArr? <==> s.below[|s.below| - 1].ArrPlace?))
  {
    hide PartOk1, ModeOf, LevelsOf;
  }

  lemma CompleteFails(m: Machine, t: string, c: char)
    requires Begins(t) && |t| == |M.Text(WordOf(t[0]))| && m.mode == Lit(WordOf(t[0]), |t|) && Step(m, c).Fail?
    ensures Step(m, c) == Fail(if c == '/' || m.stack == [] then Outside
                               else if m.stack[|m.stack| - 1].InArr? then ArraySeparator else ValueSeparator)
  {
    hide Step, R.KindOf, ValueOf;
    WordDone(t);
    hide Ok;
    R.Settles(m, Word(t), c);
    FullFails(m.(mode := Full(ValueOf(Word(t)))), c);
  }

  lemma CompleteWord(s: State, c: char, m: Machine)
    requires Fine(s, m.maxDepth) && m == Abs(s, m.maxDepth) && s.top.WordPart? && Step(m, c).Fail?
    requires var t := s.top.letters; |t| == |M.Text(WordOf(t[0]))|
    ensures Step(m, c) == Fail(NoSeparator(s.below, c))
  {
    hide Step, Waits, FrameOf;
    BelowIs(s, m);
    CompleteFails(m, s.top.letters, c);
  }

  lemma WordFails(s: State, c: char, m: Machine)
    requires Fine(s, m.maxDepth) && m == Abs(s, m.maxDepth) && s.top.WordPart? && Step(m, c).Fail?
    ensures Step(m, c) == Fail(Missing(s, m.maxDepth, c))
  {
    hide Step, Waits, Ok, NoSeparator;
    var t := s.top.letters;
    if |t| < |M.Text(WordOf(t[0]))| {
      OtherFails(m, c);
    } else {
      CompleteWord(s, c, m);
    }
  }

  lemma NumEndFails(t: string, c: char)
    requires PartOk1(NumPart(t))
    ensures NumEnd(t, c) == Fail(Outside) <==> Fraction(t) || (t[0] == '-' && (c == 'i' || c == 'I'))
    ensures NumEnd(t, c) != Fail(Outside) ==> (NumEnd(t, c) == Fail(NumberExpected) <==> NoDigits(t))
    ensures NumEnd(t, c).Fail? ==> NumEnd(t, c) == Fail(Outside) || NumEnd(t, c) == Fail(NumberExpected)
  {
    hide DigitsValue, Clamp;
    assert IsDouble(t) <==> Fraction(t);
  }

  lemma NumMode(s: State, m: Machine)
    requires Fine(s, m.maxDepth) && m == Abs(s, m.maxDepth) && s.top.NumPart?
    ensures m.mode == Num(s.top.text) && PartOk1(NumPart(s.top.text))
  {
  }

  lemma NumberFails(s: State, c: char, m: Machine)
    requires Fine(s, m.maxDepth) && m == Abs(s, m.maxDepth) && s.top.NumPart? && Step(m, c).Fail?
    ensures Step(m, c) == Fail(Missing(s, m.maxDepth, c))
  {
    hide Fine, Abs, ParseInt64, IsDouble, NumEnd, Fraction, Step, NumChar, NoDigits, PartOk1;
    var t := s.top.text;
    BelowIs(s, m);
    NumMode(s, m);
    NumEndFails(t, c);
    NumStep(m, c);
    if NumEnd(t, c).Value? { FullFails(m.(mode := Full(NumEnd(t, c).v)), c); }
  }

  lemma NumStep(m: Machine, c: char)
    requires m.mode.Num?
    ensures NumChar(c) ==> Step(m, c).More?
    ensures !NumChar(c) && NumEnd(m.mode.pb, c).Fail? ==> Step(m, c) == NumEnd(m.mode.pb, c)
    ensures !NumChar(c) && NumEnd(m.mode.pb, c).Value? ==> Step(m, c) == Step(m.(mode := Full(NumEnd(m.mode.pb, c).v)), c)
    ensures !NumEnd(m.mode.pb, c).More?
  {
    hide NumEnd;
  }

  lemma NotTorn(s: State, m: Machine)
    requires Fine(s, m.maxDepth) && m == Abs(s, m.maxDepth)
    ensures (s.top.StrPart? <==> m.mode.InStr?) && (s.top.KeyPart? <==> m.mode.InKey?)
    ensures m.mode.InStr? || m.mode.InKey? ==> !m.mode.esc.Torn?
    ensures s.top.Begun? ==> m.mode == Start
    ensures s.top.ObjPlace? ==> m.mode.ObjOpen? || m.mode.ObjComma?
    ensures s.top.ColonPlace? ==> m.mode.ObjColon?
    ensures s.top.Done? ==> m.mode.Full?
    ensures s.top.ArrPlace? || s.top.ValuePlace? ==> R.Inside(m.mode).Some?
  {
    hide Decoded, FieldsOf, ValuesOf, ValueOf, KeyOf, UpToNul;
  }

  /** The character is refused with the error that names what is missing. */
  lemma Refused(s: State, c: char, m: Machine)
    requires Fine(s, m.maxDepth) && m == Abs(s, m.maxDepth) && Step(m, c).Fail?
    ensures Step(m, c) == Fail(Missing(s, m.maxDepth, c))
  {
    hide Step, Fine, Abs, NoValue, Fraction;
    NotTorn(s, m);
    BelowIs(s, m);
    if s.top.WordPart? {
      WordFails(s, c, m);
    } else if s.top.NumPart? {
      NumberFails(s, c, m);
    } else if s.top.Done? {
      FullFails(m, c);
    } else if s.top.ArrPlace? || s.top.ValuePlace? {
      PlaceFails(m, c);
    } else {
      OtherFails(m, c);
    }
  }

  // ---- Whole texts ---------------------------------------------------------------------------

  /** The first i characters are the beginning s of a text, and e is what is missing there;
      at the end of the text that is more text, unless the number in front of it is not
      modelled. */
  ghost predicate Stuck(t: string, i: nat, s: State, maxDepth: nat, e: Err) {
    && i <= |t| && Fine(s, maxDepth) && TextOf(s) == t[..i]
    && e == if i < |t| then Missing(s, maxDepth, t[i]) else if Missing(s, maxDepth, '\0') == Outside then Outside else Eof
  }

  lemma {:induction false} Fails(s: State, str: string, i: nat, m: Machine) returns (j: nat, s1: State)
    requires Fine(s, m.maxDepth) && m == Abs(s, m.maxDepth) && Settled(s.top)
    requires str != "" && i < |str| && str[|str| - 1] == '\0' && (forall k :: 0 <= k < |str| - 1 ==> str[k] != '\0')
    requires TextOf(s) == str[..i] && RunFrom(m, str, i).Failed?
    ensures Stuck(str[..|str| - 1], j, s1, m.maxDepth, RunFrom(m, str, i).e)
    decreases |str| - i
  {
    hide Step, Fine, Abs, TextOf, Settled, Missing;
    var c := str[i];
    var t := str[..|str| - 1];
    if Feed(m, c).More? {
      MoreIsNoNul(m, c);
      var n := Follow(s, c, m);
      OneMore(str, i);
      FollowedIs(s, c, n, Step(m, c).m);
      StepDepth(m, c);
      j, s1 := Fails(n, str, i + 1, Step(m, c).m);
    } else {
      j, s1 := i, s;
      assert t[..i] == str[..i];
      FeedFails(m, c);
      if Step(m, c).Fail? {
        Refused(s, c, m);
      } else {
        NulInText(m);
        NotTorn(s, m);
        TextMissing(s, m.maxDepth);
      }
    }
  }

  lemma FeedFails(m: Machine, c: char)
    requires Feed(m, c).Fail?
    ensures if c == '\0' && Step(m, c) != Fail(Outside) then Feed(m, c) == Fail(Eof) && !Step(m, c).Value?
            else Step(m, c) == Feed(m, c)
  {
    hide Step;
  }

  lemma FullNul(m: Machine)
    requires m.mode.Full?
    ensures !Step(m, '\0').More?
  {
    hide AddField;
  }

  /** Only inside a string is NUL taken for a character, and Feed puts that right. */
  lemma NulInText(m: Machine)
    requires Step(m, '\0').More?
    ensures m.mode.InStr? || m.mode.InKey?
  {
    hide StrFeed, CStr, AddField, ParseInt64, IsDouble;
    if m.mode.Num? {
      NumStep(m, '\0');
      if NumEnd(m.mode.pb, '\0').Value? { FullNul(m.(mode := Full(NumEnd(m.mode.pb, '\0').v))); }
    }
    if m.mode.Lit? { FullNul(m.(mode := Full(WordValue(m.mode.w)))); }
  }

  lemma TextMissing(s: State, maxDepth: nat)
    requires s.top.StrPart? || s.top.KeyPart?
    ensures Missing(s, maxDepth, '\0') == StringSequence
  {
  }

  /** The error of every C string that is refused: its beginning, up to some offset, is the
      beginning of a text, and the error says what is missing there. */
  lemma ErrorsTell(maxDepth: nat, t: string) returns (i: nat, s: State)
    requires 0 < maxDepth && '\0' !in t && ParseText(maxDepth, t).Failed?
    ensures Stuck(t, i, s, maxDepth, ParseText(maxDepth, t).e)
  {
    var s0, str := State("", [], Begun), t + ['\0'];
    assert Stack([]) == [];
    assert str[..0] == "" && str[..|str| - 1] == t;
    i, s := Fails(s0, str, 0, Init(maxDepth));
  }
}
