/**
  The begin/end machine of r2mem_vad2 around a voice-activity engine that may answer
  anything.  Audio is opaque; the engine hands back the voice it has collected.
*/
module SirenVad {

  const VAD_FRAME: nat := 160  // m_iFrmSize

  /** What the engine says after one frame: the start frame (negative: none), the
      number of voice frames, the samples of all of them, and the stop frame (positive:
      stopped). */
  datatype Answer = Answer(start: int, frames: int, voice: seq<real>, stop: int)

  type Engine = nat -> Answer  // by frame of the current call

  datatype Vad = Vad(started: bool, lastFrame: int, lenIn: nat)

  /** begin and end are the bits of the return value. */
  datatype Heard = Heard(vad: Vad, audio: seq<real>, begin: bool, end: bool)

  /** The samples of frames from to to - 1; an engine that says less than it has
      counted is not read. */
  function Part(voice: seq<real>, from: int, to: int): seq<real> {
    if 0 <= from <= to && to * VAD_FRAME <= |voice| then voice[from * VAD_FRAME..to * VAD_FRAME] else []
  }

  /** Voice collected since lastFrame is appended to the output. */
  function Collect(h: Heard, a: Answer): Heard {
    if a.frames > h.vad.lastFrame then
      h.(vad := h.vad.(lastFrame := a.frames), audio := h.audio + Part(a.voice, h.vad.lastFrame, a.frames))
    else h
  }

  /** One frame in state 0 (waiting for voice). */
  function Waiting(h: Heard, a: Answer): Heard {
    if a.start >= 0 then Collect(h.(begin := true, vad := h.vad.(lastFrame := 0, started := true)), a) else h
  }

  /** One frame in state 1 (voice going on). */
  function Going(h: Heard, a: Answer): Heard {
    var h1 := Collect(h, a);
    if a.stop > 0 then h1.(end := true, vad := h1.vad.(started := false)) else h1
  }

  /** Frames i to n - 1; the loop is left at the end of voice, and whole frames
      after it stay for the next call. */
  function Frames(h: Heard, engine: Engine, i: nat, n: nat): Heard
    decreases n - i
  {
    if i >= n then h
    else if !h.vad.started then Frames(Waiting(h, engine(i)), engine, i + 1, n)
    else
      var h1 := Going(h, engine(i));
      if h1.end then (if i + 1 < n then h1.(vad := h1.vad.(lenIn := (n - (i + 1)) * VAD_FRAME)) else h1)
      else Frames(h1, engine, i + 1, n)
  }

  /** r2mem_vad2::process on len samples. */
  function Process(v: Vad, len: nat, engine: Engine): Heard {
    var n := (v.lenIn + len) / VAD_FRAME;
    Frames(Heard(v.(lenIn := (v.lenIn + len) % VAD_FRAME), [], false, false), engine, 0, n)
  }

  /** A forced start must succeed: the assert at the end of r2mem_vad2::process. */
  predicate StartForced(v: Vad, len: nat, engine: Engine) { Process(v, len, engine).vad.started }

  function Reset(v: Vad): Vad { v.(lastFrame := 0, started := false) }

  ghost predicate Consistent(h: Heard, startedBefore: bool) {
    if startedBefore then !h.begin && (h.end <==> !h.vad.started)
    else (h.end ==> h.begin) && (h.vad.started <==> h.begin && !h.end)
  }

  lemma {:induction false} FramesConsistent(h: Heard, engine: Engine, i: nat, n: nat, startedBefore: bool)
    requires Consistent(h, startedBefore) && !h.end
    ensures Consistent(Frames(h, engine, i, n), startedBefore)
    decreases n - i
  {
    if i < n {
      if !h.vad.started {
        FramesConsistent(Waiting(h, engine(i)), engine, i + 1, n, startedBefore);
      } else if !Going(h, engine(i)).end {
        FramesConsistent(Going(h, engine(i)), engine, i + 1, n, startedBefore);
      }
    }
  }

  /** Begin is reported exactly when voice starts and end exactly when it stops; one
      call can report an end, a begin, or a begin followed by an end. */
  lemma BeginEndConsistent(v: Vad, len: nat, engine: Engine)
    ensures Consistent(Process(v, len, engine), v.started)
  {
    var n := (v.lenIn + len) / VAD_FRAME;
    FramesConsistent(Heard(v.(lenIn := (v.lenIn + len) % VAD_FRAME), [], false, false), engine, 0, n, v.started);
  }

  lemma CollectFlags(h: Heard, a: Answer)
    ensures var h1 := Collect(h, a);
      && h1.begin == h.begin && h1.end == h.end && h1.vad.started == h.vad.started && h1.vad.lenIn == h.vad.lenIn
      && h1.vad.lastFrame == if a.frames > h.vad.lastFrame then a.frames else h.vad.lastFrame
  {
  }

  // ---- What the engine's answers decide ----------------------------------------

  function WholeFrames(v: Vad, len: nat): nat { (v.lenIn + len) / VAD_FRAME }

  /** Frame e of a call ends the voice: it reports a stop, and voice was going on before the
      call or started in an earlier frame. */
  ghost predicate Stops(engine: Engine, started: bool, e: nat) {
    engine(e).stop > 0 && (started || exists s: nat :: s < e && engine(s).start >= 0)
  }

  ghost predicate FirstStop(engine: Engine, started: bool, e: nat) {
    Stops(engine, started, e) && forall k: nat :: k < e ==> !Stops(engine, started, k)
  }

  /** The state in front of frame i, with no end so far. */
  ghost predicate Reached(h: Heard, engine: Engine, started: bool, i: nat) {
    && !h.end && (h.begin <==> !started && exists s: nat :: s < i && engine(s).start >= 0)
    && (h.vad.started <==> started || h.begin)
    && forall k: nat :: k < i ==> !Stops(engine, started, k)
  }

  lemma OneFrame(h: Heard, engine: Engine, started: bool, i: nat)
    requires Reached(h, engine, started, i)
    ensures var h1 := if h.vad.started then Going(h, engine(i)) else Waiting(h, engine(i));
      && (h1.end <==> Stops(engine, started, i)) && h1.vad.lenIn == h.vad.lenIn
      && (h1.end ==> FirstStop(engine, started, i) && h1.begin == h.begin && !h1.vad.started)
      && (!h1.end ==> Reached(h1, engine, started, i + 1))
  {
    CollectFlags(h, engine(i));
    CollectFlags(h.(begin := true, vad := h.vad.(lastFrame := 0, started := true)), engine(i));
    hide Collect;
    if !h.vad.started && engine(i).start >= 0 { assert i < i + 1; }
  }

  /** Frames i to n - 1. */
  lemma {:induction false} FramesDecide(h: Heard, engine: Engine, started: bool, i: nat, n: nat)
    requires Reached(h, engine, started, i) && i <= n
    ensures var r := Frames(h, engine, i, n);
      && (r.end <==> exists e: nat :: e < n && Stops(engine, started, e))
      && (r.begin <==> !started && exists s: nat :: s < n && engine(s).start >= 0)
      && (r.vad.started <==> (started || r.begin) && !r.end)
      && (!r.end ==> r.vad.lenIn == h.vad.lenIn)
      && forall e: nat :: e < n && FirstStop(engine, started, e) ==>
           r.vad.lenIn == if e + 1 < n then (n - (e + 1)) * VAD_FRAME else h.vad.lenIn
    decreases n - i
  {
    hide Waiting, Going;
    if i < n {
      OneFrame(h, engine, started, i);
      var h1 := if h.vad.started then Going(h, engine(i)) else Waiting(h, engine(i));
      if h1.end {
        assert Stops(engine, started, i);
      } else {
        FramesDecide(h1, engine, started, i + 1, n);
      }
    }
  }

  /** The flags and the samples left, from the engine's answers alone: begin if a frame of
      the call reports a start while there is no voice; end if a frame behind the start, or
      any frame if there was voice already, reports a stop; the first such frame ends the
      call, and the whole frames behind it stay for the next. */
  lemma AnswersDecide(v: Vad, len: nat, engine: Engine)
    ensures var h, n := Process(v, len, engine), WholeFrames(v, len);
      && (h.begin <==> !v.started && exists s: nat :: s < n && engine(s).start >= 0)
      && (h.end <==> exists e: nat :: e < n && Stops(engine, v.started, e))
      && (h.vad.started <==> (v.started || h.begin) && !h.end)
      && (!h.end ==> h.vad.lenIn == (v.lenIn + len) % VAD_FRAME)
      && forall e: nat :: e < n && FirstStop(engine, v.started, e) ==>
           h.vad.lenIn == if e + 1 < n then (n - (e + 1)) * VAD_FRAME else (v.lenIn + len) % VAD_FRAME
  {
    FramesDecide(Heard(v.(lenIn := (v.lenIn + len) % VAD_FRAME), [], false, false), engine, v.started, 0, WholeFrames(v, len));
  }

  /** Frame k of a call belongs to the voice. */
  ghost predicate Speaks(engine: Engine, started: bool, k: nat) {
    (started || exists s: nat :: s <= k && engine(s).start >= 0) && forall e: nat :: e < k ==> !Stops(engine, started, e)
  }

  /** The frames counted are the largest number that the engine said in a frame of the voice,
      or what had been counted before. */
  ghost predicate Counted(h: Heard, engine: Engine, v: Vad, i: nat) {
    h.vad.started || h.end ==>
      && (forall k: nat :: k < i && Speaks(engine, v.started, k) ==> engine(k).frames <= h.vad.lastFrame)
      && var base := if h.begin then 0 else v.lastFrame;
         base <= h.vad.lastFrame
         && (h.vad.lastFrame == base
             || exists k: nat :: k < i && Speaks(engine, v.started, k) && engine(k).frames == h.vad.lastFrame)
  }

  lemma CountOne(h: Heard, engine: Engine, v: Vad, i: nat)
    requires Reached(h, engine, v.started, i) && Counted(h, engine, v, i)
    ensures Counted(if h.vad.started then Going(h, engine(i)) else Waiting(h, engine(i)), engine, v, i + 1)
  {
    var a := engine(i);
    CollectFlags(h, a);
    CollectFlags(h.(begin := true, vad := h.vad.(lastFrame := 0, started := true)), a);
    hide Collect;
    if h.vad.started {
      if h.begin {
        var s: nat :| s < i && engine(s).start >= 0;
        assert s <= i;
      }
      assert Speaks(engine, v.started, i);
    } else if a.start >= 0 {
      assert Speaks(engine, v.started, i);
      forall k: nat | k < i ensures !Speaks(engine, v.started, k) { }
    }
  }

  /** Frames behind the end do not count. */
  lemma CountedOn(h: Heard, engine: Engine, v: Vad, i: nat, n: nat)
    requires Counted(h, engine, v, i) && 0 < i <= n && h.end && Stops(engine, v.started, i - 1)
    ensures Counted(h, engine, v, n)
  {
    forall k: nat | i <= k ensures !Speaks(engine, v.started, k) {
      assert i - 1 < k;
    }
  }

  lemma {:induction false} FramesCount(h: Heard, engine: Engine, v: Vad, i: nat, n: nat)
    requires Reached(h, engine, v.started, i) && Counted(h, engine, v, i) && i <= n
    ensures Counted(Frames(h, engine, i, n), engine, v, n)
    decreases n - i
  {
    hide Waiting, Going, Reached;
    if i < n {
      Flags(h, engine, v.started, i);
      OneFrame(h, engine, v.started, i);
      CountOne(h, engine, v, i);
      var h1 := if h.vad.started then Going(h, engine(i)) else Waiting(h, engine(i));
      if h1.end {
        CountedOn(h1, engine, v, i + 1, n);
      } else {
        FramesCount(h1, engine, v, i + 1, n);
      }
    }
  }

  lemma Flags(h: Heard, engine: Engine, started: bool, i: nat)
    requires Reached(h, engine, started, i)
    ensures !h.vad.started ==> !Waiting(h, engine(i)).end
  {
    CollectFlags(h.(begin := true, vad := h.vad.(lastFrame := 0, started := true)), engine(i));
  }

  /** Every frame of voice is counted, up to the largest number the engine has said. */
  lemma AllCounted(v: Vad, len: nat, engine: Engine)
    ensures Counted(Process(v, len, engine), engine, v, WholeFrames(v, len))
  {
    FramesCount(Heard(v.(lenIn := (v.lenIn + len) % VAD_FRAME), [], false, false), engine, v, 0, WholeFrames(v, len));
  }

  // ---- Every frame of voice is handed out once -------------------------------

  /** The answer shows the beginning of the voice w, with as much as it has counted. */
  ghost predicate Shows(a: Answer, w: seq<real>) { a.voice <= w && a.frames * VAD_FRAME <= |a.voice| }

  /** The audio since voice started, when before was handed out by earlier calls. */
  function Since(before: seq<real>, h: Heard): seq<real> { if h.begin then h.audio else before + h.audio }

  ghost predicate HandedOut(h: Heard, before: seq<real>, w: seq<real>) {
    && (h.vad.started || h.end ==>
          0 <= h.vad.lastFrame && h.vad.lastFrame * VAD_FRAME <= |w|
          && Since(before, h) == w[..h.vad.lastFrame * VAD_FRAME])
    && (!h.vad.started && !h.end ==> h.audio == [])
  }

  lemma CollectOnce(h: Heard, a: Answer, before: seq<real>, w: seq<real>)
    requires HandedOut(h, before, w) && h.vad.started && Shows(a, w)
    ensures HandedOut(Collect(h, a), before, w)
  {
    if a.frames > h.vad.lastFrame {
      var i, k := h.vad.lastFrame * VAD_FRAME, a.frames * VAD_FRAME;
      assert Part(a.voice, h.vad.lastFrame, a.frames) == w[i..k];
      assert w[..i] + w[i..k] == w[..k];
      assert h.audio + w[i..k] == Collect(h, a).audio;
      assert before + (h.audio + w[i..k]) == before + h.audio + w[i..k];
    }
  }

  lemma {:induction false} FramesOnce(h: Heard, engine: Engine, i: nat, n: nat, before: seq<real>, w: seq<real>)
    requires HandedOut(h, before, w) && !h.end && forall k :: i <= k < n ==> Shows(engine(k), w)
    ensures HandedOut(Frames(h, engine, i, n), before, w)
    decreases n - i
  {
    hide Collect, Shows;
    if i < n {
      var a := engine(i);
      if !h.vad.started {
        if a.start >= 0 {
          CollectOnce(h.(begin := true, vad := h.vad.(lastFrame := 0, started := true)), a, before, w);
        }
        CollectFlags(h.(begin := true, vad := h.vad.(lastFrame := 0, started := true)), a);
        FramesOnce(Waiting(h, a), engine, i + 1, n, before, w);
      } else {
        CollectOnce(h, a, before, w);
        CollectFlags(h, a);
        if !Going(h, a).end { FramesOnce(Going(h, a), engine, i + 1, n, before, w); }
      }
    }
  }

  /** While the engine's voice grows towards w, the calls together hand out exactly the
      frames of w that it has counted, each once and in order. */
  lemma VoiceOnce(v: Vad, len: nat, engine: Engine, before: seq<real>, w: seq<real>)
    requires forall k: nat :: k < (v.lenIn + len) / VAD_FRAME ==> Shows(engine(k), w)
    requires v.started ==>
      0 <= v.lastFrame && v.lastFrame * VAD_FRAME <= |w| && before == w[..v.lastFrame * VAD_FRAME]
    ensures HandedOut(Process(v, len, engine), before, w)
  {
    var n := (v.lenIn + len) / VAD_FRAME;
    var h := Heard(v.(lenIn := (v.lenIn + len) % VAD_FRAME), [], false, false);
    assert before + [] == before;
    FramesOnce(h, engine, 0, n, before, w);
  }

  class R2memVad2 {
    var started: bool   // m_iVadState == 1
    var lastFrame: int
    var lenIn: nat

    function State(): Vad
      reads this
    {
      Vad(started, lastFrame, lenIn)
    }

    constructor ()
      ensures State() == Vad(false, 0, 0)
    {
      started, lastFrame, lenIn := false, 0, 0;
    }

    method DoReset()
      modifies this
      ensures State() == Reset(old(State()))
    {
      lastFrame, started := 0, false;
    }

    method DoProcess(len: nat, engine: Engine, forceStart: bool) returns (audio: seq<real>, begin: bool, end: bool)
      requires forceStart ==> StartForced(State(), len, engine)
      modifies this
      ensures Heard(State(), audio, begin, end) == Process(old(State()), len, engine)
    {
      ghost var h0 := Process(State(), len, engine);
      lenIn := lenIn + len;
      var frmNum := lenIn / VAD_FRAME;
      lenIn := lenIn - frmNum * VAD_FRAME;
      audio, begin, end := [], false, false;
      var i := 0;
      while i < frmNum
        invariant i <= frmNum && !end
        invariant Frames(Heard(State(), audio, begin, end), engine, i, frmNum) == h0
      {
        var a := engine(i);
        if !started {
          if a.start >= 0 {
            begin := true;
            lastFrame, started := 0, true;
            if a.frames > lastFrame {
              audio := audio + Part(a.voice, lastFrame, a.frames);
              lastFrame := a.frames;
            }
          }
        } else {
          if a.frames > lastFrame {
            audio := audio + Part(a.voice, lastFrame, a.frames);
            lastFrame := a.frames;
          }
          if a.stop > 0 {
            end := true;
            started := false;
            i := i + 1;
            if i < frmNum {
              lenIn := (frmNum - i) * VAD_FRAME;
            }
            break;
          }
        }
        i := i + 1;
      }
      assert forceStart ==> started;
    }
  }
}
