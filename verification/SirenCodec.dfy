/**
  The pausable codec buffer r2mem_cod in PCM mode: audio comes in, whole frames of
  320 samples become output, and a read takes everything not read yet.  Output is
  counted in samples here; a sample is four bytes.
*/
module SirenCodec {
  import opened Shared

  const FRAME: nat := 320       // m_iLen_Frm_Cod
  const TOO_LONG: nat := 96000  // m_iShield_TooLong
  const RESUME: nat := 8000     // m_iShield_Resume

  /** The fields of r2mem_cod as a value. */
  datatype Cod = Cod(input: seq<real>, lenPause: int, lenCod: nat, paused: bool, out: seq<real>, outCur: nat)

  const FRESH: Cod := Cod([], 0, 0, false, [], 0)

  function Reset(c: Cod): Cod { FRESH.(lenPause := c.lenPause) }

  function Pause(c: Cod): Cod { c.(outCur := 0, paused := true, lenPause := |c.input|) }

  /** The assert of r2mem_cod::resume is its precondition. */
  function Resume(c: Cod): Cod
    requires c.paused
  {
    c.(paused := false)
  }

  function Scaled(sig: seq<real>): (r: seq<real>)
    ensures |r| == |sig|
  {
    Divided(sig, 32768.0)
  }

  function Take(c: Cod, sig: seq<real>): Cod { c.(input := c.input + Scaled(sig)) }

  /** One more frame is due. */
  predicate FrameDue(c: Cod) { c.lenCod + FRAME < |c.input| }

  function EncodeOne(c: Cod): Cod
    requires FrameDue(c)
  {
    c.(out := c.out + c.input[c.lenCod..c.lenCod + FRAME], lenCod := c.lenCod + FRAME)
  }

  /** r2mem_cod::processdata; its assert is the precondition. */
  function Encoded(c: Cod): Cod
    requires !c.paused
    decreases |c.input| - c.lenCod
  {
    if FrameDue(c) then Encoded(EncodeOne(c)) else c
  }

  /** r2mem_cod::getdatalen, in bytes. */
  function Available(c: Cod): int { 4 * (|c.out| - c.outCur) }

  predicate TooLong(c: Cod) { |c.input| > TOO_LONG }

  predicate NeedsResume(c: Cod) {
    c.paused && |c.input| < TOO_LONG && |c.input| - c.lenPause > RESUME
  }

  // ---- What the buffer always holds ----------------------------------------

  /** The output is the encoded prefix of the input, read up to outCur. */
  ghost predicate CodOk(c: Cod) {
    c.lenCod <= |c.input| && c.out == c.input[..c.lenCod] && c.outCur <= |c.out|
  }

  lemma TakeOk(c: Cod, sig: seq<real>)
    requires CodOk(c)
    ensures CodOk(Take(c, sig))
  {
    assert (c.input + Scaled(sig))[..c.lenCod] == c.input[..c.lenCod];
  }

  /** Encoding leaves the trailing 1 to 320 samples, or nothing of nothing. */
  lemma {:induction false} EncodedOk(c: Cod)
    requires CodOk(c) && !c.paused
    requires c.lenCod == 0 || c.lenCod < |c.input|
    ensures var e := Encoded(c);
      && CodOk(e) && e.input == c.input && !e.paused && e.outCur == c.outCur && e.lenPause == c.lenPause
      && c.lenCod <= e.lenCod && !FrameDue(e)
      && (if |c.input| == 0 then e.lenCod == 0 else 1 <= |c.input| - e.lenCod <= FRAME)
    decreases |c.input| - c.lenCod
  {
    if FrameDue(c) {
      assert c.input[..c.lenCod] + c.input[c.lenCod..c.lenCod + FRAME] == c.input[..c.lenCod + FRAME];
      EncodedOk(EncodeOne(c));
    }
  }

  /** Encoding happens a frame at a time. */
  lemma {:induction false} WholeFrames(c: Cod)
    requires CodOk(c) && !c.paused && c.lenCod % FRAME == 0
    ensures Encoded(c).lenCod % FRAME == 0
    decreases |c.input| - c.lenCod
  {
    if FrameDue(c) { WholeFrames(EncodeOne(c)); }
  }

  // ---- The class -----------------------------------------------------------

  class R2memCod {
    var input: seq<real>
    var lenPause: int
    var lenCod: nat
    var paused: bool
    var out: seq<real>
    var outCur: nat

    function State(): Cod
      reads this
    {
      Cod(input, lenPause, lenCod, paused, out, outCur)
    }

    constructor ()
      ensures State() == FRESH
    {
      input, lenPause, lenCod, paused, out, outCur := [], 0, 0, false, [], 0;
    }

    method DoReset()
      modifies this
      ensures State() == Reset(old(State()))
    {
      input, lenCod, out, outCur := [], 0, [], 0;
      paused := false;
    }

    method DoPause()
      modifies this
      ensures State() == Pause(old(State()))
    {
      outCur := 0;
      paused := true;
      lenPause := |input|;
    }

    method DoResume()
      requires paused
      modifies this
      ensures State() == Resume(old(State()))
    {
      paused := false;
    }

    method DoProcess(sig: seq<real>)
      modifies this
      ensures State() == Take(old(State()), sig)
    {
      var i := 0;
      ghost var before := input;
      while i < |sig|
        invariant 0 <= i <= |sig|
        invariant input == before + Scaled(sig)[..i]
        invariant State() == old(State()).(input := input)
      {
        input := input + [sig[i] / 32768.0];
        assert Scaled(sig)[..i + 1] == Scaled(sig)[..i] + [sig[i] / 32768.0];
        i := i + 1;
      }
      assert Scaled(sig)[..i] == Scaled(sig);
    }

    method ProcessData()
      requires !paused
      modifies this
      ensures State() == Encoded(old(State()))
    {
      while lenCod + FRAME < |input|
        invariant !paused && Encoded(State()) == Encoded(old(State()))
        decreases |input| - lenCod
      {
        out := out + input[lenCod..lenCod + FRAME];
        lenCod := lenCod + FRAME;
      }
    }

    method GetDataLen() returns (len: int)
      requires !paused
      modifies this
      ensures State() == Encoded(old(State())) && len == Available(State())
    {
      ProcessData();
      len := 4 * (|out| - outCur);
    }

    /** r2mem_cod::getdata2: everything not read yet. */
    method GetData2() returns (data: seq<real>)
      requires !paused && outCur <= |out|
      modifies this
      ensures var e := Encoded(old(State()));
        e.outCur <= |e.out| && data == e.out[e.outCur..] && State() == e.(outCur := |e.out|)
    {
      ghost var before := State();
      ProcessData();
      EncodedKeeps(before);
      data := out[outCur..];
      outCur := |out|;
    }

    method IsTooLong() returns (b: bool)
      ensures b == TooLong(State())
    {
      b := |input| > TOO_LONG;
    }

    method IsNeedResume() returns (b: bool)
      ensures b == NeedsResume(State())
    {
      b := paused && |input| < TOO_LONG && |input| - lenPause > RESUME;
    }
  }

  lemma {:induction false} EncodedKeeps(c: Cod)
    requires !c.paused && c.outCur <= |c.out|
    ensures var e := Encoded(c);
      e.outCur == c.outCur <= |e.out| && e.input == c.input && !e.paused && e.lenPause == c.lenPause
    decreases |c.input| - c.lenCod
  {
    if FrameDue(c) { EncodedKeeps(EncodeOne(c)); }
  }
}
