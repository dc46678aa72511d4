/**
  The voice session of SirenProcessorImpl: which messages process() emits for each
  block of audio, for any flags and any answers of the wake-word and voice-activity
  engines.  Messages carry only what the session properties need.
*/
module SirenSession {
  import opened Shared
  import opened SirenCodec
  import V = SirenVad

  datatype Msg =
    | VadStart | VadData(payload: seq<real>) | VadEnd | VadCancel
    | AwakePre | DebugAudio | AwakeNoCmd | AwakeCmd | Sleep | Hotword

  datatype Word = Awake | Asleep | Hot | Other

  /** The bits PRE, CANCEL, DET_NOCMD and DET_CMD of the wake-word engine's answer,
      and the type of the word. */
  datatype Answer = Answer(pre: bool, cancel: bool, noCmd: bool, cmd: bool, word: Word)

  /** One call of process: the flags, the engines' answers, the beamformed audio and
      the audio beamformed again from before the wake word. */
  datatype Block = Block(asr: bool, awake: bool, sleep: bool, hotword: bool, vt: Answer,
                         sig: seq<real>, again: seq<real>, engine: V.Engine)

  datatype Config = Config(vtEnable: bool, vadEnable: bool)

  /** The session flags of ProcessState, the codec buffer and the VAD. */
  datatype Proc = Proc(asr: bool, vadStart: bool, dataOutput: bool, canceled: bool, awke: bool, cod: Cod, vad: V.Vad)

  datatype Result = Result(p: Proc, msgs: seq<Msg>)

  const INITIAL: Proc := Proc(false, false, false, false, false, FRESH, V.Vad(false, 0, 0))

  function Add(r: Result, m: Msg): Result { r.(msgs := r.msgs + [m]) }

  // ---- The engine's answer -------------------------------------------------

  predicate Pre(b: Block) { b.vt.pre && !b.vt.cancel }
  predicate IsAwakePre(b: Block) { b.awake && Pre(b) && b.vt.word == Awake }
  predicate IsAwakeNoCmd(b: Block) { b.awake && b.vt.noCmd && b.vt.word == Awake }
  predicate IsAwakeCmd(b: Block) { b.awake && b.vt.cmd && b.vt.word == Awake }
  predicate IsSleepNoCmd(b: Block) { b.sleep && b.vt.noCmd && b.vt.word == Asleep }
  predicate IsSleepCmd(b: Block) { b.sleep && b.vt.cmd && b.vt.word == Asleep }
  predicate IsHotwordNoCmd(b: Block) { b.hotword && b.vt.noCmd && b.vt.word == Hot }
  predicate IsHotwordCmd(b: Block) { b.hotword && b.vt.cmd && b.vt.word == Hot }
  predicate Cmd(b: Block) { IsAwakeCmd(b) || IsSleepCmd(b) || IsHotwordCmd(b) }
  predicate NoCmd(b: Block) { IsAwakeNoCmd(b) || IsSleepNoCmd(b) || IsHotwordNoCmd(b) }

  /** What the VAD is fed with. */
  function Audio(b: Block): seq<real> { if Pre(b) && !IsSleepNoCmd(b) then b.again else b.sig }

  // ---- The stages of process -----------------------------------------------

  function ResetAsr(cfg: Config, p: Proc): Result {
    Result(p.(asr := false, vadStart := false, dataOutput := p.dataOutput && !cfg.vadEnable,
              canceled := false, awke := false, cod := Reset(p.cod), vad := V.Reset(p.vad)),
           if p.dataOutput && !p.canceled then [VadCancel] else [])
  }

  /** Up to the call of the VAD. */
  function Prepare(cfg: Config, p: Proc, b: Block): Result {
    var p0 := if b.asr then p.(asr := true) else p;
    if Pre(b) then ResetAsr(cfg, p0) else Result(p0, [])
  }

  function Hear(r: Result, b: Block): V.Heard { V.Process(r.p.vad, |Audio(b)|, b.engine) }

  /** The VAD has reported an audio begin. */
  function Begin(r: Result, b: Block): Result {
    var p := r.p.(asr := b.asr, vadStart := true, dataOutput := false, canceled := false,
                  awke := IsAwakePre(b), cod := Reset(r.p.cod));
    Result(p, r.msgs + if IsAwakePre(b) then [AwakePre, DebugAudio] else [])
  }

  /** The wake-word messages. */
  function Announced(b: Block): seq<Msg> {
    (if IsSleepNoCmd(b) then [Sleep] else []) + (if IsAwakeNoCmd(b) then [AwakeNoCmd] else [])
    + (if IsHotwordNoCmd(b) then [Hotword] else []) + if IsAwakeCmd(b) then [AwakeCmd] else []
  }

  /** The first block of a session decides whether it is output at all. */
  function Open(r: Result, b: Block): Result {
    var p := r.p;
    if p.dataOutput then r
    else if Cmd(b) then Add(r.(p := p.(dataOutput := true)), VadStart)
    else if NoCmd(b) then r.(p := p.(dataOutput := true, canceled := true, cod := Pause(p.cod)))
    else if p.asr && !p.awke then Add(r.(p := p.(dataOutput := true)), VadStart)
    else r
  }

  predicate MustCancel(cfg: Config, p: Proc, b: Block) {
    !p.canceled && ((cfg.vadEnable && TooLong(p.cod)) || (!p.awke && !b.asr))
  }

  function Cancel(cfg: Config, r: Result, b: Block): Result {
    if MustCancel(cfg, r.p, b) then
      var p := r.p.(canceled := true, cod := Pause(r.p.cod));
      Add(r.(p := if cfg.vadEnable then p else p.(vadStart := false, dataOutput := false)), VadCancel)
    else r
  }

  /** A session that was cancelled for lack of a command starts after all. */
  function Restart(cfg: Config, r: Result): Result {
    if cfg.vadEnable && r.p.canceled && r.p.awke && NeedsResume(r.p.cod) then
      Add(r.(p := r.p.(canceled := false, cod := Resume(r.p.cod))), VadStart)
    else r
  }

  /** One message with everything the codec buffer has encoded and not handed out. */
  function Read(r: Result): Result
    requires !r.p.cod.paused && r.p.cod.outCur <= |r.p.cod.out|
  {
    EncodedKeeps(r.p.cod);
    var e := Encoded(r.p.cod);
    Add(r.(p := r.p.(cod := e.(outCur := |e.out|))), VadData(e.out[e.outCur..]))
  }

  /** getdatalen() > limit decides whether there is a data message. */
  function ReadOver(r: Result, limit: int): (q: Result)
    requires !r.p.cod.paused && r.p.cod.outCur <= |r.p.cod.out|
    ensures q.p == r.p.(cod := q.p.cod) && !q.p.cod.paused && q.p.cod.outCur <= |q.p.cod.out|
  {
    EncodedKeeps(r.p.cod);
    var r1 := r.(p := r.p.(cod := Encoded(r.p.cod)));
    EncodedKeeps(r1.p.cod);
    if Available(r1.p.cod) > limit then Read(r1) else r1
  }

  function Emit(r: Result, end: bool): Result
    requires !r.p.canceled ==> !r.p.cod.paused && r.p.cod.outCur <= |r.p.cod.out|
  {
    if r.p.canceled then r
    else if end then ReadOver(ReadOver(r, 100), 0)
    else ReadOver(r, 100)
  }

  lemma EmitReady(cfg: Config, r: Result, b: Block)
    requires r.p.vadStart && CodOk(r.p.cod) && (r.p.cod.paused <==> r.p.canceled)
    ensures Open(r, b).p.dataOutput ==>
      var q := Restart(cfg, Cancel(cfg, Open(r, b), b)).p;
      q.canceled || (!q.cod.paused && q.cod.outCur <= |q.cod.out|)
  {
  }

  /** While a session is on. */
  function Output(cfg: Config, r: Result, b: Block, h: V.Heard): Result
    requires r.p.vadStart && CodOk(r.p.cod) && (r.p.cod.paused <==> r.p.canceled)
  {
    var r1 := Open(r.(p := r.p.(cod := Take(r.p.cod, h.audio))), b);
    TakeOk(r.p.cod, h.audio);
    if r1.p.dataOutput then Emit(Restart(cfg, Cancel(cfg, r1, b)), h.end) else r1
  }

  /** The VAD has reported an audio end. */
  function End(cfg: Config, r: Result): Result {
    var r1 := if r.p.dataOutput && !r.p.canceled then Add(r, VadEnd) else r;
    var p1 := if r.p.awke then r1.p.(cod := Resume(Pause(r1.p.cod))) else r1.p;
    var p2 := p1.(awke := false, canceled := false);
    r1.(p := if cfg.vtEnable then p2.(asr := false, vadStart := false, dataOutput := false) else p2)
  }

  /** Everything up to the wake-word messages. */
  function Listen(cfg: Config, p: Proc, b: Block): (Result, V.Heard) {
    var r0 := Prepare(cfg, p, b);
    var h := Hear(r0, b);
    var r1 := r0.(p := r0.p.(vad := h.vad));
    var r2 := if h.begin then Begin(r1, b) else r1;
    (r2.(msgs := r2.msgs + Announced(b)), h)
  }

  /** The asserts of process and of the VAD: CANCEL comes with PRE, and a wake word
      forces a start that succeeds. */
  predicate Legal(cfg: Config, p: Proc, b: Block) {
    (b.vt.cancel ==> b.vt.pre) && (Pre(b) ==> Hear(Prepare(cfg, p, b), b).vad.started)
  }

  // ---- The invariant -------------------------------------------------------

  /** A session is being output. */
  predicate IsOpen(p: Proc) { p.dataOutput && !p.canceled }

  ghost predicate Inv(p: Proc) {
    && CodOk(p.cod)
    && (p.dataOutput ==> p.vadStart)
    && (p.vadStart ==> p.vad.started)
    && (p.vadStart ==> (p.cod.paused <==> p.canceled))
    && (p.vadStart && (!p.dataOutput || p.canceled) ==> p.cod.outCur == 0)
    && (p.vadStart && !p.dataOutput ==> !p.canceled)
    && (p.cod.lenCod == 0 || p.cod.lenCod < |p.cod.input|)
  }

  // ---- The message grammar -------------------------------------------------

  datatype Verdict = Bad | Good(open: bool)

  /** The intended order of session messages: starts while closed; data, end and
      cancel while open.  Other messages may come at any time. */
  function Next(open: bool, m: Msg): Verdict {
    match m
    case VadStart => if open then Bad else Good(true)
    case VadData(_) => if open then Good(true) else Bad
    case VadEnd => if open then Good(false) else Bad
    case VadCancel => if open then Good(false) else Bad
    case _ => Good(open)
  }

  function Track(open: bool, msgs: seq<Msg>): Verdict {
    if msgs == [] then Good(open)
    else
      var v := Track(open, msgs[..|msgs| - 1]);
      if v.Bad? then Bad else Next(v.open, msgs[|msgs| - 1])
  }

  lemma {:induction false} TrackAppend(open: bool, a: seq<Msg>, b: seq<Msg>)
    ensures Track(open, a + b) == if Track(open, a).Bad? then Bad else Track(Track(open, a).open, b)
    decreases |b|
  {
    if b == [] {
      assert a + b == a;
    } else {
      assert (a + b)[..|a + b| - 1] == a + b[..|b| - 1];
      TrackAppend(open, a, b[..|b| - 1]);
    }
  }

  /** What the consumer of the messages has received in the session it is in. */
  function Received(before: seq<real>, msgs: seq<Msg>): seq<real> {
    if msgs == [] then before
    else
      var r := Received(before, msgs[..|msgs| - 1]);
      match msgs[|msgs| - 1]
      case VadStart => []
      case VadData(x) => r + x
      case _ => r
  }

  lemma {:induction false} ReceivedAppend(before: seq<real>, a: seq<Msg>, b: seq<Msg>)
    ensures Received(before, a + b) == Received(Received(before, a), b)
    decreases |b|
  {
    if b == [] {
      assert a + b == a;
    } else {
      assert (a + b)[..|a + b| - 1] == a + b[..|b| - 1];
      ReceivedAppend(before, a, b[..|b| - 1]);
    }
  }

  lemma TrackAdd(open: bool, before: seq<real>, r: Result, m: Msg)
    ensures Track(open, Add(r, m).msgs) ==
      if Track(open, r.msgs).Bad? then Bad else Next(Track(open, r.msgs).open, m)
    ensures Received(before, Add(r, m).msgs) == match m
      case VadStart => []
      case VadData(x) => Received(before, r.msgs) + x
      case _ => Received(before, r.msgs)
  {
    assert Add(r, m).msgs[..|r.msgs|] == r.msgs;
  }

  // ---- What every stage keeps ----------------------------------------------

  /** The flags and the codec buffer between two stages. */
  ghost predicate Mid(p: Proc) {
    && CodOk(p.cod)
    && (p.dataOutput ==> p.vadStart)
    && (p.vadStart ==> (p.cod.paused <==> p.canceled))
    && (p.vadStart && (!p.dataOutput || p.canceled) ==> p.cod.outCur == 0)
    && (p.vadStart && !p.dataOutput ==> !p.canceled)
    && (p.cod.lenCod == 0 || p.cod.lenCod < |p.cod.input|)
  }

  /** The messages so far respect the grammar, an open session is what the flags say,
      and it has received exactly the part of the output that was read. */
  ghost predicate Told(open0: bool, before: seq<real>, r: Result) {
    && Track(open0, r.msgs) == Good(IsOpen(r.p))
    && r.p.cod.outCur <= |r.p.cod.out|
    && (IsOpen(r.p) ==> Received(before, r.msgs) == r.p.cod.out[..r.p.cod.outCur])
  }

  lemma {:induction false} QuietMessages(open: bool, before: seq<real>, a: seq<Msg>, b: seq<Msg>)
    requires Track(open, a).Good?
    requires forall i :: 0 <= i < |b| ==> !b[i].VadStart? && !b[i].VadData? && !b[i].VadEnd? && !b[i].VadCancel?
    ensures Track(open, a + b) == Track(open, a) && Received(before, a + b) == Received(before, a)
    decreases |b|
  {
    if b == [] {
      assert a + b == a;
    } else {
      assert (a + b)[..|a + b| - 1] == a + b[..|b| - 1];
      QuietMessages(open, before, a, b[..|b| - 1]);
    }
  }

  lemma BeginKeeps(open0: bool, before: seq<real>, r: Result, b: Block)
    requires Track(open0, r.msgs) == Good(false)
    ensures Mid(Begin(r, b).p) && Told(open0, before, Begin(r, b)) && Begin(r, b).p.vadStart
  {
    QuietMessages(open0, before, r.msgs, if IsAwakePre(b) then [AwakePre, DebugAudio] else []);
  }

  lemma PrepareKeeps(cfg: Config, p: Proc, before: seq<real>, b: Block)
    requires Inv(p) && (IsOpen(p) ==> before == p.cod.out[..p.cod.outCur])
    ensures var r := Prepare(cfg, p, b);
      if Pre(b) then Track(IsOpen(p), r.msgs) == Good(false) && !r.p.vad.started
      else r.p == p.(asr := p.asr || b.asr) && r.msgs == []
  {
    assert Track(IsOpen(p), []) == Good(IsOpen(p));
    if Pre(b) && IsOpen(p) {
      assert [VadCancel][..0] == [];
      assert Track(IsOpen(p), [VadCancel]) == Next(true, VadCancel);
    }
  }

  lemma AnnouncedQuiet(b: Block)
    ensures forall i :: 0 <= i < |Announced(b)| ==>
      var m := Announced(b)[i]; !m.VadStart? && !m.VadData? && !m.VadEnd? && !m.VadCancel?
  {
  }

  lemma NothingTold(open: bool, before: seq<real>)
    ensures Track(open, []) == Good(open) && Received(before, []) == before
  {
  }

  /** After the wake-word stage: a begin has closed whatever was open. */
  lemma ListenKeeps(cfg: Config, p: Proc, before: seq<real>, b: Block)
    requires Inv(p) && Legal(cfg, p, b) && (IsOpen(p) ==> before == p.cod.out[..p.cod.outCur])
    ensures var (r, h) := Listen(cfg, p, b);
      && Mid(r.p) && Told(IsOpen(p), before, r) && r.p.vad == h.vad
      && (r.p.vadStart ==> h.vad.started || h.end)
      && (h.begin ==> r.p.vadStart)
  {
    hide Track, Received, V.Process, Announced;
    AnnouncedQuiet(b);
    var r0 := Prepare(cfg, p, b);
    var h := Hear(r0, b);
    var r1 := r0.(p := r0.p.(vad := h.vad));
    NothingTold(IsOpen(p), before);
    PrepareKeeps(cfg, p, before, b);
    V.BeginEndConsistent(r0.p.vad, |Audio(b)|, b.engine);
    if h.begin {
      BeginKeeps(IsOpen(p), before, r1, b);
      QuietMessages(IsOpen(p), before, Begin(r1, b).msgs, Announced(b));
    } else {
      QuietMessages(IsOpen(p), before, r1.msgs, Announced(b));
    }
  }

  // ---- While a session is on -----------------------------------------------

  lemma TakeKeeps(open0: bool, before: seq<real>, r: Result, audio: seq<real>)
    requires Mid(r.p) && Told(open0, before, r) && r.p.vadStart
    ensures var q := r.(p := r.p.(cod := Take(r.p.cod, audio))); Mid(q.p) && Told(open0, before, q)
  {
    TakeOk(r.p.cod, audio);
  }

  lemma OpenKeeps(open0: bool, before: seq<real>, r: Result, b: Block)
    requires Mid(r.p) && Told(open0, before, r) && r.p.vadStart
    ensures Mid(Open(r, b).p) && Told(open0, before, Open(r, b)) && Open(r, b).p.vadStart
      && Open(r, b).p.vad == r.p.vad
  {
    TrackAdd(open0, before, r.(p := r.p.(dataOutput := true)), VadStart);
  }

  lemma CancelKeeps(cfg: Config, open0: bool, before: seq<real>, r: Result, b: Block)
    requires Mid(r.p) && Told(open0, before, r) && r.p.dataOutput
    ensures var q := Cancel(cfg, r, b);
      && Mid(q.p) && Told(open0, before, q) && q.p.vad == r.p.vad
      && (q.p.dataOutput || (!cfg.vadEnable && q.p.canceled))
  {
    TrackAdd(open0, before, r, VadCancel);
  }

  lemma RestartKeeps(cfg: Config, open0: bool, before: seq<real>, r: Result)
    requires Mid(r.p) && Told(open0, before, r) && (r.p.dataOutput || (!cfg.vadEnable && r.p.canceled))
    ensures var q := Restart(cfg, r);
      && Mid(q.p) && Told(open0, before, q) && q.p.vad == r.p.vad
      && (q.p.dataOutput || q.p.canceled)
  {
    TrackAdd(open0, before, r, VadStart);
  }

  /** A data message hands out the next part of the output and nothing else. */
  lemma ReadOverKeeps(open0: bool, before: seq<real>, r: Result, limit: nat)
    requires Mid(r.p) && Told(open0, before, r) && IsOpen(r.p)
    ensures var q := ReadOver(r, limit);
      && Mid(q.p) && Told(open0, before, q) && q.p == r.p.(cod := q.p.cod)
      && q.p.cod.input == r.p.cod.input && !FrameDue(q.p.cod) && Available(q.p.cod) <= limit
  {
    hide Track, Received, Encoded;
    var c := r.p.cod;
    EncodedOk(c);
    var e := Encoded(c);
    assert e.out[..e.outCur] == c.out[..c.outCur];
    EncodedOk(e);
    NothingDue(e);
    assert e.out[..e.outCur] + e.out[e.outCur..] == e.out[..|e.out|];
    TrackAdd(open0, before, r, VadData(e.out[e.outCur..]));
  }

  lemma NothingDue(c: Cod)
    requires !c.paused && !FrameDue(c)
    ensures Encoded(c) == c
  {
  }

  lemma EmitKeeps(open0: bool, before: seq<real>, r: Result, end: bool)
    requires Mid(r.p) && Told(open0, before, r) && (r.p.dataOutput || r.p.canceled)
    ensures var q := Emit(r, end);
      && Mid(q.p) && Told(open0, before, q) && q.p == r.p.(cod := q.p.cod)
      && (end && IsOpen(q.p) ==> Drained(q.p.cod))
  {
    if !r.p.canceled {
      ReadOverKeeps(open0, before, r, 100);
      if end { ReadOverKeeps(open0, before, ReadOver(r, 100), 0); }
    }
  }

  /** Everything encoded has been handed out, and at most one frame is not encoded. */
  ghost predicate Drained(c: Cod) {
    && c.outCur == |c.out| == c.lenCod
    && if c.input == [] then c.lenCod == 0 else 1 <= |c.input| - c.lenCod <= FRAME
  }

  lemma OutputKeeps(cfg: Config, open0: bool, before: seq<real>, r: Result, b: Block, h: V.Heard)
    requires Mid(r.p) && Told(open0, before, r) && r.p.vadStart
    ensures var q := Output(cfg, r, b, h);
      && Mid(q.p) && Told(open0, before, q) && q.p.vad == r.p.vad
      && (h.end && IsOpen(q.p) ==> Drained(q.p.cod))
  {
    hide Track, Received, Told, Open, Cancel, Restart, Emit, CodOk;
    TakeKeeps(open0, before, r, h.audio);
    var r0 := r.(p := r.p.(cod := Take(r.p.cod, h.audio)));
    OpenKeeps(open0, before, r0, b);
    var r1 := Open(r0, b);
    if r1.p.dataOutput {
      CancelKeeps(cfg, open0, before, r1, b);
      var r2 := Cancel(cfg, r1, b);
      RestartKeeps(cfg, open0, before, r2);
      EmitKeeps(open0, before, Restart(cfg, r2), h.end);
    }
  }

  lemma OutCurOk(c: Cod)
    requires CodOk(c)
    ensures CodOk(c.(outCur := 0)) && CodOk(c.(outCur := 0, paused := false, lenPause := |c.input|)) && c.outCur <= |c.out|
  {
  }

  lemma EndKeeps(cfg: Config, open0: bool, before: seq<real>, r: Result)
    requires cfg.vtEnable && Mid(r.p) && Told(open0, before, r)
    ensures var q := End(cfg, r);
      && Mid(q.p) && Told(open0, before, q) && !q.p.vadStart && q.p.vad == r.p.vad
  {
    hide Track, Received, CodOk;
    TrackAdd(open0, before, r, VadEnd);
    OutCurOk(r.p.cod);
  }

  // ---- One call of process -------------------------------------------------

  /** Up to the handling of the audio end. */
  function Before(cfg: Config, p: Proc, b: Block): Result
    requires Inv(p) && Legal(cfg, p, b)
  {
    ListenKeeps(cfg, p, p.cod.out[..p.cod.outCur], b);
    var (r, h) := Listen(cfg, p, b);
    if r.p.vadStart then Output(cfg, r, b, h) else r
  }

  function Process(cfg: Config, p: Proc, b: Block): Result
    requires Inv(p) && Legal(cfg, p, b)
  {
    if Hear(Prepare(cfg, p, b), b).end then End(cfg, Before(cfg, p, b)) else Before(cfg, p, b)
  }

  lemma BeforeKeeps(cfg: Config, p: Proc, before: seq<real>, b: Block)
    requires Inv(p) && Legal(cfg, p, b) && (IsOpen(p) ==> before == p.cod.out[..p.cod.outCur])
    ensures var q := Before(cfg, p, b); var h := Hear(Prepare(cfg, p, b), b);
      && Mid(q.p) && Told(IsOpen(p), before, q) && q.p.vad == h.vad
      && (q.p.vadStart ==> h.vad.started || h.end)
      && (h.end && IsOpen(q.p) ==> Drained(q.p.cod))
  {
    ListenKeeps(cfg, p, before, b);
    var (r, h) := Listen(cfg, p, b);
    if r.p.vadStart { OutputKeeps(cfg, IsOpen(p), before, r, b, h); }
  }

  /** One call keeps the invariant: the asserts of processdata and resume never fire,
      and the messages respect the grammar. */
  lemma ProcessKeeps(cfg: Config, p: Proc, before: seq<real>, b: Block)
    requires cfg.vtEnable && Inv(p) && Legal(cfg, p, b) && (IsOpen(p) ==> before == p.cod.out[..p.cod.outCur])
    ensures Inv(Process(cfg, p, b).p) && Told(IsOpen(p), before, Process(cfg, p, b))
  {
    BeforeKeeps(cfg, p, before, b);
    if Hear(Prepare(cfg, p, b), b).end { EndKeeps(cfg, IsOpen(p), before, Before(cfg, p, b)); }
  }

  /** A session that ends has received all its audio but the trailing 1 to 320
      samples, and the end message is the last of the call. */
  lemma EndDelivers(cfg: Config, p: Proc, before: seq<real>, b: Block)
    requires cfg.vtEnable && Inv(p) && Legal(cfg, p, b) && (IsOpen(p) ==> before == p.cod.out[..p.cod.outCur])
    requires Hear(Prepare(cfg, p, b), b).end && IsOpen(Before(cfg, p, b).p)
    ensures var q := Before(cfg, p, b); var c := q.p.cod;
      && CodOk(c) && Process(cfg, p, b).msgs == q.msgs + [VadEnd]
      && Received(before, q.msgs) == c.input[..c.lenCod]
      && (c.input != [] ==> 1 <= |c.input| - c.lenCod <= FRAME)
  {
    BeforeKeeps(cfg, p, before, b);
    var c := Before(cfg, p, b).p.cod;
    assert c.out[..c.outCur] == c.input[..c.lenCod];
  }

  // ---- Whole runs ----------------------------------------------------------

  /** What happens to the processor: a block of audio, or setState. */
  datatype Event = Heard(b: Block) | SetState(asleep: bool)

  /** SirenProcessorImpl::setState. */
  function SetSleep(p: Proc, asleep: bool): Proc { if asleep && p.awke then p.(awke := false) else p }

  ghost predicate LegalEvent(cfg: Config, p: Proc, e: Event) { e.Heard? ==> Legal(cfg, p, e.b) }

  function Step(cfg: Config, p: Proc, e: Event): (r: Result)
    requires cfg.vtEnable && Inv(p) && LegalEvent(cfg, p, e)
    ensures Inv(r.p)
  {
    match e
    case SetState(asleep) => Result(SetSleep(p, asleep), [])
    case Heard(b) =>
      ProcessKeeps(cfg, p, p.cod.out[..p.cod.outCur], b);
      Process(cfg, p, b)
  }

  ghost predicate LegalRun(cfg: Config, p: Proc, es: seq<Event>)
    requires cfg.vtEnable && Inv(p)
    decreases |es|
  {
    es == [] || (LegalEvent(cfg, p, es[0]) && LegalRun(cfg, Step(cfg, p, es[0]).p, es[1..]))
  }

  function Run(cfg: Config, p: Proc, es: seq<Event>): (r: Result)
    requires cfg.vtEnable && Inv(p) && LegalRun(cfg, p, es)
    ensures Inv(r.p)
    decreases |es|
  {
    if es == [] then Result(p, [])
    else
      var r := Step(cfg, p, es[0]);
      var rest := Run(cfg, r.p, es[1..]);
      Result(rest.p, r.msgs + rest.msgs)
  }

  /** The audio since the last audio begin, from what the VAD handed out alone. */
  function SinceBegin(acc: seq<real>, h: V.Heard): seq<real> {
    (if h.begin then [] else acc) + Divided(h.audio, 32768.0)
  }

  function Heard1(cfg: Config, p: Proc, e: Event, acc: seq<real>): seq<real> {
    if e.Heard? then SinceBegin(acc, Hear(Prepare(cfg, p, e.b), e.b)) else acc
  }

  function AudioOf(cfg: Config, p: Proc, es: seq<Event>, acc: seq<real>): seq<real>
    requires cfg.vtEnable && Inv(p) && LegalRun(cfg, p, es)
    decreases |es|
  {
    if es == [] then acc
    else
      AudioOf(cfg, Step(cfg, p, es[0]).p, es[1..], Heard1(cfg, p, es[0], acc))
  }

  lemma {:induction false} RunKeeps(cfg: Config, p: Proc, es: seq<Event>, before: seq<real>)
    requires cfg.vtEnable && Inv(p) && LegalRun(cfg, p, es)
    requires IsOpen(p) ==> before == p.cod.out[..p.cod.outCur]
    ensures Told(IsOpen(p), before, Run(cfg, p, es))
    decreases |es|
  {
    if es == [] {
      NothingTold(IsOpen(p), before);
    } else {
      var r := Step(cfg, p, es[0]);
      if es[0].Heard? { ProcessKeeps(cfg, p, before, es[0].b); } else { NothingTold(IsOpen(p), before); }
      var mid := Received(before, r.msgs);
      RunKeeps(cfg, r.p, es[1..], mid);
      var rest := Run(cfg, r.p, es[1..]);
      TrackAppend(IsOpen(p), r.msgs, rest.msgs);
      ReceivedAppend(before, r.msgs, rest.msgs);
    }
  }

  /** In every run the messages match (start data* (end | cancel))*, the last session
      perhaps unfinished: it is open exactly when data is being output. */
  lemma SessionGrammar(cfg: Config, es: seq<Event>)
    requires cfg.vtEnable && LegalRun(cfg, INITIAL, es)
    ensures Track(false, Run(cfg, INITIAL, es).msgs) == Good(IsOpen(Run(cfg, INITIAL, es).p))
  {
    RunKeeps(cfg, INITIAL, es, []);
  }

  // ---- The data is the audio -----------------------------------------------

  lemma ReadOverInput(r: Result, limit: int)
    requires !r.p.cod.paused && r.p.cod.outCur <= |r.p.cod.out|
    ensures ReadOver(r, limit).p.cod.input == r.p.cod.input
  {
    EncodedKeeps(r.p.cod);
    EncodedKeeps(Encoded(r.p.cod));
  }

  lemma EmitInput(r: Result, end: bool)
    requires !r.p.canceled ==> !r.p.cod.paused && r.p.cod.outCur <= |r.p.cod.out|
    ensures Emit(r, end).p == r.p.(cod := Emit(r, end).p.cod) && Emit(r, end).p.cod.input == r.p.cod.input
  {
    hide Encoded;
    if !r.p.canceled {
      ReadOverInput(r, 100);
      if end { ReadOverInput(ReadOver(r, 100), 0); }
    }
  }

  lemma OutputAudio(cfg: Config, open0: bool, before: seq<real>, r: Result, b: Block, h: V.Heard)
    requires Mid(r.p) && Told(open0, before, r) && r.p.vadStart
    ensures Output(cfg, r, b, h).p.cod.input == r.p.cod.input + Scaled(h.audio)
  {
    hide Track, Received, Told, Encoded, Emit, ReadOver;
    var r0 := r.(p := r.p.(cod := Take(r.p.cod, h.audio)));
    TakeKeeps(open0, before, r, h.audio);
    OpenKeeps(open0, before, r0, b);
    var r1 := Open(r0, b);
    if r1.p.dataOutput {
      CancelKeeps(cfg, open0, before, r1, b);
      RestartKeeps(cfg, open0, before, Cancel(cfg, r1, b));
      EmitInput(Restart(cfg, Cancel(cfg, r1, b)), h.end);
    }
  }

  lemma ListenAudio(cfg: Config, p: Proc, b: Block)
    requires Inv(p) && Legal(cfg, p, b)
    ensures var (r, h) := Listen(cfg, p, b);
      r.p.vadStart ==> if h.begin then r.p.cod.input == [] else p.vadStart && r.p.cod == p.cod
  {
    hide Announced, V.Process;
    V.BeginEndConsistent(Prepare(cfg, p, b).p.vad, |Audio(b)|, b.engine);
  }

  /** In a call, the codec buffer is emptied at an audio begin and then takes all the
      voice, whatever becomes of the session. */
  lemma BeforeAudio(cfg: Config, p: Proc, acc: seq<real>, b: Block)
    requires Inv(p) && Legal(cfg, p, b) && (p.vadStart ==> p.cod.input == acc)
    ensures var q := Before(cfg, p, b); var h := Hear(Prepare(cfg, p, b), b);
      q.p.vadStart ==> q.p.cod.input == SinceBegin(acc, h)
  {
    hide Track, Received, Told, V.Process, Announced, Output, Prepare, Hear;
    var out := p.cod.out[..p.cod.outCur];
    ListenKeeps(cfg, p, out, b);
    ListenAudio(cfg, p, b);
    var (r, h) := Listen(cfg, p, b);
    if r.p.vadStart {
      OutputAudio(cfg, IsOpen(p), out, r, b, h);
    }
  }

  lemma StepAudio(cfg: Config, p: Proc, acc: seq<real>, e: Event)
    requires cfg.vtEnable && Inv(p) && LegalEvent(cfg, p, e) && (p.vadStart ==> p.cod.input == acc)
    ensures var q := Step(cfg, p, e).p; q.vadStart ==> q.cod.input == Heard1(cfg, p, e, acc)
  {
    hide Before;
    if e.Heard? { BeforeAudio(cfg, p, acc, e.b); }
  }

  lemma {:induction false} RunAudio(cfg: Config, p: Proc, es: seq<Event>, acc: seq<real>)
    requires cfg.vtEnable && Inv(p) && LegalRun(cfg, p, es) && (p.vadStart ==> p.cod.input == acc)
    ensures var q := Run(cfg, p, es).p; q.vadStart ==> q.cod.input == AudioOf(cfg, p, es, acc)
    decreases |es|
  {
    hide Step;
    if es != [] {
      StepAudio(cfg, p, acc, es[0]);
      RunAudio(cfg, Step(cfg, p, es[0]).p, es[1..], Heard1(cfg, p, es[0], acc));
    }
  }

  /** In every run, what the consumer has received in the session that is open is a
      prefix of the audio since the last audio begin, over pauses and restarts. */
  lemma DataIsAudio(cfg: Config, es: seq<Event>)
    requires cfg.vtEnable && LegalRun(cfg, INITIAL, es) && IsOpen(Run(cfg, INITIAL, es).p)
    ensures Received([], Run(cfg, INITIAL, es).msgs) <= AudioOf(cfg, INITIAL, es, [])
  {
    RunKeeps(cfg, INITIAL, es, []);
    RunAudio(cfg, INITIAL, es, []);
    var c := Run(cfg, INITIAL, es).p.cod;
    assert c.out[..c.outCur] == c.input[..c.outCur];
  }

  /** At every session end in every run, the consumer has received all the audio since
      the last audio begin but the trailing 1 to 320 samples. */
  lemma EndDeliversAudio(cfg: Config, es: seq<Event>, b: Block)
    requires cfg.vtEnable && LegalRun(cfg, INITIAL, es) && Legal(cfg, Run(cfg, INITIAL, es).p, b)
    requires var p := Run(cfg, INITIAL, es).p;
      Hear(Prepare(cfg, p, b), b).end && IsOpen(Before(cfg, p, b).p)
    ensures var p := Run(cfg, INITIAL, es).p; var q := Before(cfg, p, b);
      var audio := SinceBegin(AudioOf(cfg, INITIAL, es, []), Hear(Prepare(cfg, p, b), b));
      var got := Received([], Run(cfg, INITIAL, es).msgs + q.msgs);
      && Process(cfg, p, b).msgs == q.msgs + [VadEnd]
      && got <= audio && (audio != [] ==> 1 <= |audio| - |got| <= 320)
  {
    hide Before, Process;
    var r := Run(cfg, INITIAL, es);
    RunKeeps(cfg, INITIAL, es, []);
    RunAudio(cfg, INITIAL, es, []);
    var got0 := Received([], r.msgs);
    BeforeKeeps(cfg, r.p, got0, b);
    BeforeAudio(cfg, r.p, AudioOf(cfg, INITIAL, es, []), b);
    EndDelivers(cfg, r.p, got0, b);
    ReceivedAppend([], r.msgs, Before(cfg, r.p, b).msgs);
  }

  // ---- A session that was too long -----------------------------------------

  predicate SessionMsg(m: Msg) { m.VadStart? || m.VadData? || m.VadEnd? || m.VadCancel? }

  predicate Silent(msgs: seq<Msg>) { forall i :: 0 <= i < |msgs| ==> !SessionMsg(msgs[i]) }

  /** No session, or one that was cancelled with too much audio to be resumed. */
  predicate Over(p: Proc) { !p.vadStart || (p.dataOutput && p.canceled && TooLong(p.cod)) }

  /** Too much audio cancels the session in the call that takes it. */
  lemma TooLongCancels(cfg: Config, p: Proc, b: Block)
    requires cfg.vadEnable && Inv(p) && Legal(cfg, p, b)
    ensures var q := Before(cfg, p, b).p; q.vadStart && q.dataOutput && |q.cod.input| > 96000 ==> q.canceled
  {
    hide Track, Received, Told, V.Process, Announced, Encoded, Emit, ReadOver;
    var out := p.cod.out[..p.cod.outCur];
    ListenKeeps(cfg, p, out, b);
    var (r, h) := Listen(cfg, p, b);
    if r.p.vadStart {
      var r0 := r.(p := r.p.(cod := Take(r.p.cod, h.audio)));
      TakeKeeps(IsOpen(p), out, r, h.audio);
      OpenKeeps(IsOpen(p), out, r0, b);
      var r1 := Open(r0, b);
      if r1.p.dataOutput {
        CancelKeeps(cfg, IsOpen(p), out, r1, b);
        RestartKeeps(cfg, IsOpen(p), out, Cancel(cfg, r1, b));
        EmitInput(Restart(cfg, Cancel(cfg, r1, b)), h.end);
      }
    }
  }

  /** Without an audio begin, only the wake-word messages come before the output. */
  lemma ListenSilent(cfg: Config, p: Proc, b: Block)
    requires Inv(p) && Legal(cfg, p, b) && !Hear(Prepare(cfg, p, b), b).begin
    ensures var r := Listen(cfg, p, b).0;
      Silent(r.msgs) && r.p == p.(asr := p.asr || b.asr, vad := r.p.vad)
  {
    hide V.Process;
    V.BeginEndConsistent(Prepare(cfg, p, b).p.vad, |Audio(b)|, b.engine);
    NothingTold(IsOpen(p), []);
    PrepareKeeps(cfg, p, p.cod.out[..p.cod.outCur], b);
    AnnouncedQuiet(b);
  }

  lemma OutputOver(cfg: Config, r: Result, b: Block, h: V.Heard)
    requires Mid(r.p) && r.p.vadStart && Over(r.p)
    ensures var q := Output(cfg, r, b, h); q.msgs == r.msgs && Over(q.p) && q.p.canceled
  {
  }

  lemma OverStays(cfg: Config, p: Proc, b: Block)
    requires cfg.vtEnable && Inv(p) && Legal(cfg, p, b) && Over(p) && !Hear(Prepare(cfg, p, b), b).begin
    ensures Over(Process(cfg, p, b).p) && Silent(Process(cfg, p, b).msgs)
  {
    hide Track, Received, Told, V.Process, Output, Prepare, Hear, Listen, Silent, TooLong, Mid;
    ListenKeeps(cfg, p, p.cod.out[..p.cod.outCur], b);
    ListenSilent(cfg, p, b);
    var (r, h) := Listen(cfg, p, b);
    if r.p.vadStart { OutputOver(cfg, r, b, h); }
    assert Silent(Before(cfg, p, b).msgs);
  }

  // ---- No data without a reason ----------------------------------------------

  predicate NoData(msgs: seq<Msg>) { forall i :: 0 <= i < |msgs| ==> !msgs[i].VadData? }

  /** The session was started by a wake word, or the caller asks for speech. */
  predicate Wanted(p: Proc, b: Block) { p.awke || b.asr }

  lemma ListenNoData(cfg: Config, p: Proc, b: Block)
    requires Inv(p) && Legal(cfg, p, b)
    ensures NoData(Listen(cfg, p, b).0.msgs)
  {
    hide V.Process, Announced, Inv;
    assert NoData(Prepare(cfg, p, b).msgs);
    AnnouncedNoData(b);
  }

  lemma AnnouncedNoData(b: Block)
    ensures NoData(Announced(b))
  {
    hide IsSleepNoCmd, IsAwakeNoCmd, IsHotwordNoCmd, IsAwakeCmd;
  }

  lemma OutputWanted(cfg: Config, open0: bool, before: seq<real>, r: Result, b: Block, h: V.Heard)
    requires Mid(r.p) && Told(open0, before, r) && r.p.vadStart && NoData(r.msgs)
    ensures var q := Output(cfg, r, b, h);
      && (IsOpen(q.p) ==> Wanted(q.p, b)) && (!NoData(q.msgs) ==> IsOpen(q.p))
  {
    hide Track, Received, Told, Encoded, ReadOver, CodOk, Take;
    var r0 := r.(p := r.p.(cod := Take(r.p.cod, h.audio)));
    TakeKeeps(open0, before, r, h.audio);
    OpenKeeps(open0, before, r0, b);
    var r1 := Open(r0, b);
    if r1.p.dataOutput {
      CancelKeeps(cfg, open0, before, r1, b);
      var r2 := Cancel(cfg, r1, b);
      RestartKeeps(cfg, open0, before, r2);
      var r3 := Restart(cfg, r2);
      assert NoData(r3.msgs) && (r3.p.canceled || (r3.p.dataOutput && Wanted(r3.p, b)));
      EmitKeeps(open0, before, r3, h.end);
    }
  }

  /** Data is output only in a call that leaves the session open, and a session is open
      only while the asr flag is set or after a wake word. */
  lemma DataIsWanted(cfg: Config, p: Proc, b: Block)
    requires Inv(p) && Legal(cfg, p, b)
    ensures var q := Before(cfg, p, b);
      !NoData(q.msgs) ==> IsOpen(q.p) && Wanted(q.p, b)
  {
    hide Track, Received, Told, V.Process, Output, Prepare, Hear, NoData, Mid;
    var out := p.cod.out[..p.cod.outCur];
    ListenKeeps(cfg, p, out, b);
    ListenNoData(cfg, p, b);
    var (r, h) := Listen(cfg, p, b);
    if r.p.vadStart { OutputWanted(cfg, IsOpen(p), out, r, b, h); }
  }

  /** No audio begin happens in the run. */
  ghost predicate NoBegin(cfg: Config, p: Proc, es: seq<Event>)
    requires cfg.vtEnable && Inv(p) && LegalRun(cfg, p, es)
    decreases |es|
  {
    es == [] ||
    ((es[0].Heard? ==> !Hear(Prepare(cfg, p, es[0].b), es[0].b).begin) && NoBegin(cfg, Step(cfg, p, es[0]).p, es[1..]))
  }

  /** A session cancelled as too long is never resumed, nor is anything else output,
      before the next audio begin, however long the run. */
  lemma {:induction false} NeverResumed(cfg: Config, p: Proc, es: seq<Event>)
    requires cfg.vtEnable && Inv(p) && LegalRun(cfg, p, es) && NoBegin(cfg, p, es) && Over(p)
    ensures Over(Run(cfg, p, es).p) && Silent(Run(cfg, p, es).msgs)
    decreases |es|
  {
    hide Process, TooLong, Inv, Legal, Hear;
    if es != [] {
      var r := Step(cfg, p, es[0]);
      if es[0].Heard? { OverStays(cfg, p, es[0].b); }
      NeverResumed(cfg, r.p, es[1..]);
    }
  }

  // ---- The check in dumpMsg ------------------------------------------------

  /** asrMsgCheckFlag after dumpMsg, and whether it reports an "asrflag error". */
  datatype Checked = Checked(flag: int, error: bool)

  function DumpMsg(flag: int, m: Msg): Checked {
    match m
    case VadStart => Checked(1, flag != 0)
    case VadData(_) => Checked(flag, flag != 1)
    case VadEnd => Checked(0, flag != 1)
    case VadCancel => Checked(0, false)
    case _ => Checked(flag, false)
  }

  /** getMsgs dumps every message of the call; error tells of any error so far. */
  function DumpAll(c: Checked, msgs: seq<Msg>): Checked {
    if msgs == [] then c
    else
      var c1 := DumpAll(c, msgs[..|msgs| - 1]);
      var d := DumpMsg(c1.flag, msgs[|msgs| - 1]);
      Checked(d.flag, c1.error || d.error)
  }

  function FlagOf(open: bool): int { if open then 1 else 0 }

  lemma {:induction false} TrackMeansNoError(open: bool, msgs: seq<Msg>)
    requires Track(open, msgs).Good?
    ensures DumpAll(Checked(FlagOf(open), false), msgs) == Checked(FlagOf(Track(open, msgs).open), false)
    decreases |msgs|
  {
    if msgs != [] { TrackMeansNoError(open, msgs[..|msgs| - 1]); }
  }

  /** getMsgs after every call of process: no error in any run. */
  lemma NoAsrFlagError(cfg: Config, es: seq<Event>)
    requires cfg.vtEnable && LegalRun(cfg, INITIAL, es)
    ensures DumpAll(Checked(0, false), Run(cfg, INITIAL, es).msgs) == Checked(FlagOf(IsOpen(Run(cfg, INITIAL, es).p)), false)
  {
    SessionGrammar(cfg, es);
    TrackMeansNoError(false, Run(cfg, INITIAL, es).msgs);
  }
}
