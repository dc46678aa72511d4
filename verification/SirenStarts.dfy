/**
  When a voice session starts, goes on, is cancelled, restarts and ends: from the block, the
  flags in front of the call and the number of samples since the audio begin.
*/
module SirenStarts {
  import opened SirenCodec
  import opened SirenSession
  import V = SirenVad

  // ---- The block ---------------------------------------------------------------

  /** A word was detected and the caller listens for words of its type. */
  predicate Found(b: Block, detected: bool) {
    detected && match b.vt.word case Awake => b.awake case Asleep => b.sleep case Hot => b.hotword case Other => false
  }

  lemma WordsFound(b: Block)
    ensures Cmd(b) <==> Found(b, b.vt.cmd)
    ensures NoCmd(b) <==> Found(b, b.vt.noCmd)
  {
  }

  /** What the VAD reports in the call. */
  function Voice(cfg: Config, p: Proc, b: Block): V.Heard { Hear(Prepare(cfg, p, b), b) }

  predicate VoiceOn(p: Proc, h: V.Heard) { h.begin || p.vadStart }

  predicate AsrFlag(p: Proc, b: Block, h: V.Heard) { b.asr || (!h.begin && p.asr) }

  /** A wake word is behind the audio. */
  predicate Woken(p: Proc, b: Block, h: V.Heard) {
    if h.begin then b.awake && b.vt.pre && !b.vt.cancel && b.vt.word == Awake else p.awke
  }

  /** Samples since the audio begin, those of the call included. */
  function Samples(p: Proc, h: V.Heard): nat { (if h.begin then 0 else |p.cod.input|) + |h.audio| }

  // ---- The output stage ----------------------------------------------------------

  /** Only data messages are added. */
  ghost predicate OnlyData(a: seq<Msg>, b: seq<Msg>) {
    a <= b && forall i :: |a| <= i < |b| ==> b[i].VadData?
  }

  lemma OnlyDataSays(a: seq<Msg>, b: seq<Msg>, m: Msg)
    requires OnlyData(a, b) && !m.VadData?
    ensures m in a <==> m in b
  {
  }

  lemma EmitOnlyData(r: Result, end: bool)
    requires !r.p.canceled ==> !r.p.cod.paused && r.p.cod.outCur <= |r.p.cod.out|
    ensures OnlyData(r.msgs, Emit(r, end).msgs)
  {
    hide Encoded;
    if !r.p.canceled {
      EncodedKeeps(r.p.cod);
      var r1 := ReadOver(r, 100);
      EncodedKeeps(r1.p.cod);
    }
  }

  /** A session that is not output yet starts. */
  predicate Opens(p: Proc, b: Block) {
    !p.dataOutput && (Found(b, b.vt.cmd) || (!Found(b, b.vt.noCmd) && p.asr && !p.awke))
  }

  /** It is held back: a wake word, and no command with it. */
  predicate Holds(p: Proc, b: Block) { !p.dataOutput && !Found(b, b.vt.cmd) && Found(b, b.vt.noCmd) }

  predicate Cancels(cfg: Config, awke: bool, b: Block, n: nat) { (cfg.vadEnable && n > 96000) || (!awke && !b.asr) }

  predicate Restarts(cfg: Config, p: Proc, n: nat) {
    cfg.vadEnable && p.awke && p.dataOutput && p.canceled && n < 96000 && n - p.cod.lenPause > 8000
  }

  /** What the output stage adds and leaves, when n samples have come in. */
  ghost predicate Table(cfg: Config, r: Result, q: Result, b: Block, n: nat) {
    var on := Opens(r.p, b) || IsOpen(r.p);
    var starts := Opens(r.p, b) || Restarts(cfg, r.p, n);
    var stops := on && Cancels(cfg, r.p.awke, b, n);
    && r.msgs <= q.msgs
    && (VadStart in q.msgs <==> VadStart in r.msgs || starts)
    && (VadCancel in q.msgs <==> VadCancel in r.msgs || stops)
    && (VadEnd in q.msgs <==> VadEnd in r.msgs)
    && (IsOpen(q.p) <==> (on && !stops) || Restarts(cfg, r.p, n))
    && q.p.awke == r.p.awke && |q.p.cod.input| == n
    && (Holds(r.p, b) ==> q.p.dataOutput && q.p.canceled && q.p.cod.lenPause == n)
    && (r.p.dataOutput && r.p.canceled ==> q.p.dataOutput && q.p.cod.lenPause == r.p.cod.lenPause)
    && (!on && !Holds(r.p, b) && !r.p.dataOutput ==> !q.p.dataOutput)
  }

  /** The stages in front of the data messages. */
  lemma StagesTable(cfg: Config, r: Result, b: Block)
    requires r.p.vadStart && CodOk(r.p.cod) && (r.p.cod.paused <==> r.p.canceled) && (!r.p.dataOutput ==> !r.p.canceled)
    ensures var r1 := Open(r, b); var q := if r1.p.dataOutput then Restart(cfg, Cancel(cfg, r1, b)) else r1;
      Table(cfg, r, q, b, |r.p.cod.input|)
  {
    WordsFound(b);
    hide CodOk, Found;
  }

  lemma OutputTable(cfg: Config, open0: bool, before: seq<real>, r: Result, b: Block, h: V.Heard)
    requires Mid(r.p) && Told(open0, before, r) && r.p.vadStart
    ensures Table(cfg, r, Output(cfg, r, b, h), b, |r.p.cod.input| + |h.audio|)
  {
    hide Track, Received, Told, Open, Cancel, Restart, Emit, CodOk, Cancels, Found, Scaled;
    TakeKeeps(open0, before, r, h.audio);
    var r0 := r.(p := r.p.(cod := Take(r.p.cod, h.audio)));
    OpenKeeps(open0, before, r0, b);
    StagesTable(cfg, r0, b);
    var r1 := Open(r0, b);
    if r1.p.dataOutput {
      CancelKeeps(cfg, open0, before, r1, b);
      var r2 := Cancel(cfg, r1, b);
      RestartKeeps(cfg, open0, before, r2);
      var r3 := Restart(cfg, r2);
      EmitReady(cfg, r0, b);
      EmitOnlyData(r3, h.end);
      OnlyDataSays(r3.msgs, Emit(r3, h.end).msgs, VadStart);
      OnlyDataSays(r3.msgs, Emit(r3, h.end).msgs, VadCancel);
      OnlyDataSays(r3.msgs, Emit(r3, h.end).msgs, VadEnd);
      EmitInput(r3, h.end);
      EmitPause(r3, h.end);
    }
  }

  lemma EmitPause(r: Result, end: bool)
    requires !r.p.canceled ==> !r.p.cod.paused && r.p.cod.outCur <= |r.p.cod.out|
    ensures Emit(r, end).p.cod.lenPause == r.p.cod.lenPause
  {
    hide Encoded;
    if !r.p.canceled {
      EncodedKeeps(r.p.cod);
      EncodedKeeps(Encoded(r.p.cod));
      var r1 := ReadOver(r, 100);
      EncodedKeeps(r1.p.cod);
      EncodedKeeps(Encoded(r1.p.cod));
    }
  }

  // ---- One call ------------------------------------------------------------------

  lemma PrepareTable(cfg: Config, p: Proc, b: Block)
    requires Inv(p) && Legal(cfg, p, b)
    ensures var r, h := Prepare(cfg, p, b), Voice(cfg, p, b);
      && r.msgs == (if h.begin && IsOpen(p) then [VadCancel] else []) && (Pre(b) ==> h.begin)
      && (!Pre(b) ==> r.p == p.(asr := p.asr || b.asr)) && (h.begin ==> Pre(b) || !p.vadStart)
  {
    hide V.Process, CodOk;
    V.BeginEndConsistent(Prepare(cfg, p, b).p.vad, |Audio(b)|, b.engine);
  }

  lemma QuietWords(b: Block)
    ensures VadStart !in Announced(b) && VadCancel !in Announced(b) && VadEnd !in Announced(b)
  {
  }

  /** In front of the output stage: the messages ... */
  lemma ListenSays(cfg: Config, p: Proc, b: Block)
    requires Inv(p) && Legal(cfg, p, b)
    ensures var (r, h) := Listen(cfg, p, b);
      && VadStart !in r.msgs && VadEnd !in r.msgs
      && (VadCancel in r.msgs <==> h.begin && IsOpen(p)) && (h.begin && IsOpen(p) ==> r.msgs[0] == VadCancel)
  {
    hide V.Process, Announced, Prepare, Inv, Legal;
    PrepareTable(cfg, p, b);
    QuietWords(b);
  }

  /** ... and the flags. */
  lemma ListenTable(cfg: Config, p: Proc, b: Block)
    requires Inv(p) && Legal(cfg, p, b)
    ensures var (r, h) := Listen(cfg, p, b);
      && h == Voice(cfg, p, b) && (r.p.vadStart <==> VoiceOn(p, h))
      && (VoiceOn(p, h) ==>
            r.p.asr == AsrFlag(p, b, h) && r.p.awke == Woken(p, b, h) && |r.p.cod.input| + |h.audio| == Samples(p, h)
            && r.p.dataOutput == (!h.begin && p.dataOutput) && r.p.canceled == (!h.begin && p.canceled)
            && (!h.begin ==> r.p.cod == p.cod))
      && (!VoiceOn(p, h) ==> !r.p.dataOutput)
  {
    hide V.Process, Announced, CodOk, Prepare, Hear;
    PrepareTable(cfg, p, b);
  }

  lemma FromInv(p: Proc)
    requires Inv(p)
    ensures p.cod.outCur <= |p.cod.out| && (p.dataOutput ==> p.vadStart) && (p.vadStart && !p.dataOutput ==> !p.canceled)
  {
  }

  /** Up to the handling of the audio end. */
  lemma BeforeTable(cfg: Config, p: Proc, b: Block)
    requires Inv(p) && Legal(cfg, p, b)
    ensures var (r, h) := Listen(cfg, p, b); var q := Before(cfg, p, b);
      if VoiceOn(p, h) then Table(cfg, r, q, b, Samples(p, h)) else q == r
  {
    hide Output, Table, Listen, Inv, Legal;
    FromInv(p);
    ListenKeeps(cfg, p, p.cod.out[..p.cod.outCur], b);
    ListenTable(cfg, p, b);
    var (r, h) := Listen(cfg, p, b);
    if r.p.vadStart { OutputTable(cfg, IsOpen(p), p.cod.out[..p.cod.outCur], r, b, h); }
  }

  /** The audio end: one message if the session is open, and it is over. */
  lemma EndTable(cfg: Config, p: Proc, b: Block)
    requires cfg.vtEnable && Inv(p) && Legal(cfg, p, b)
    ensures var q, e, h := Before(cfg, p, b), Process(cfg, p, b), Voice(cfg, p, b);
      if h.end then e.msgs == q.msgs + (if IsOpen(q.p) then [VadEnd] else []) && !e.p.vadStart && !e.p.dataOutput && !e.p.awke
      else e == q
  {
    hide Before;
  }

  /** No voice is going on: nothing of a session is said. */
  lemma NothingWithoutVoice(cfg: Config, p: Proc, b: Block)
    requires cfg.vtEnable && Inv(p) && Legal(cfg, p, b) && !VoiceOn(p, Voice(cfg, p, b))
    ensures var q := Process(cfg, p, b);
      VadStart !in q.msgs && VadCancel !in q.msgs && VadEnd !in q.msgs && !IsOpen(q.p)
  {
    hide Before, Process, Listen, Inv, Legal, Hear;
    ListenSays(cfg, p, b);
    ListenTable(cfg, p, b);
    BeforeTable(cfg, p, b);
    EndTable(cfg, p, b);
  }

  lemma ProcessInv(cfg: Config, p: Proc, b: Block)
    requires cfg.vtEnable && Inv(p) && Legal(cfg, p, b)
    ensures Inv(Process(cfg, p, b).p)
  {
    hide Process, Legal, Told;
    FromInv(p);
    ProcessKeeps(cfg, p, p.cod.out[..p.cod.outCur], b);
  }

  /** Voice is on and nothing has been output since the audio begin.  A command word starts the
      session.  A wake word without a command holds it back: no start in this call, and the
      number of samples is kept for the restart.  Otherwise it starts exactly if the caller asks
      for speech and no wake word is behind the audio.  What has started is cancelled in the
      same call exactly if there is too much audio, or neither a wake word nor the flag. */
  lemma StartsWhen(cfg: Config, p: Proc, b: Block)
    requires cfg.vtEnable && Inv(p) && Legal(cfg, p, b)
    requires var h := Voice(cfg, p, b); VoiceOn(p, h) && (h.begin || !p.dataOutput)
    ensures var h, q := Voice(cfg, p, b), Process(cfg, p, b);
      var n, woken := Samples(p, h), Woken(p, b, h);
      var starts := Found(b, b.vt.cmd) || (!Found(b, b.vt.noCmd) && AsrFlag(p, b, h) && !woken);
      var stops := starts && ((cfg.vadEnable && n > 96000) || (!woken && !b.asr));
      && (VadStart in q.msgs <==> starts)
      && (VadCancel in q.msgs <==> stops || (h.begin && IsOpen(p))) && (h.begin && IsOpen(p) ==> q.msgs[0] == VadCancel)
      && (VadEnd in q.msgs <==> starts && !stops && h.end)
      && (IsOpen(q.p) <==> starts && !stops && !h.end)
      && (!starts && Found(b, b.vt.noCmd) && !h.end ==>
            q.p.vadStart && q.p.dataOutput && q.p.canceled && q.p.awke == woken && q.p.cod.lenPause == |q.p.cod.input| == n)
  {
    hide Before, Process, Listen, Inv, Legal, Hear;
    ProcessInv(cfg, p, b);
    FromInv(p);
    FromInv(Process(cfg, p, b).p);
    ListenSays(cfg, p, b);
    ListenTable(cfg, p, b);
    BeforeTable(cfg, p, b);
    EndTable(cfg, p, b);
  }

  /** A session is open and no audio begins: it is cancelled exactly if there is too much
      audio, or neither a wake word behind it nor the asr flag; it ends exactly with the voice;
      otherwise it stays open. */
  lemma OpenGoesOn(cfg: Config, p: Proc, b: Block)
    requires cfg.vtEnable && Inv(p) && Legal(cfg, p, b) && IsOpen(p) && !Voice(cfg, p, b).begin
    ensures var h, q := Voice(cfg, p, b), Process(cfg, p, b);
      var stops := (cfg.vadEnable && Samples(p, h) > 96000) || (!p.awke && !b.asr);
      && VadStart !in q.msgs && (VadCancel in q.msgs <==> stops) && (VadEnd in q.msgs <==> !stops && h.end)
      && (IsOpen(q.p) <==> !stops && !h.end)
  {
    hide Before, Process, Listen, Inv, Legal, Hear;
    FromInv(p);
    ListenSays(cfg, p, b);
    ListenTable(cfg, p, b);
    BeforeTable(cfg, p, b);
    EndTable(cfg, p, b);
  }

  /** A session is cancelled and no audio begins: it restarts exactly if a wake word is behind
      it, more than 8000 samples have come since the pause, and fewer than 96000 in all. */
  lemma HeldRestarts(cfg: Config, p: Proc, b: Block)
    requires cfg.vtEnable && Inv(p) && Legal(cfg, p, b) && p.dataOutput && p.canceled && !Voice(cfg, p, b).begin
    ensures var h, q := Voice(cfg, p, b), Process(cfg, p, b); var n := Samples(p, h);
      var starts := cfg.vadEnable && p.awke && n < 96000 && n - p.cod.lenPause > 8000;
      && (VadStart in q.msgs <==> starts) && VadCancel !in q.msgs && (VadEnd in q.msgs <==> starts && h.end)
      && (IsOpen(q.p) <==> starts && !h.end) && (!starts ==> Silent(q.msgs))
      && (!starts && !h.end ==> q.p.vadStart && q.p.dataOutput && q.p.canceled && q.p.awke == p.awke
                                && q.p.cod.lenPause == p.cod.lenPause && |q.p.cod.input| == n)
  {
    hide Before, Process, Listen, Inv, Legal, Hear;
    ProcessInv(cfg, p, b);
    FromInv(p);
    FromInv(Process(cfg, p, b).p);
    ListenSays(cfg, p, b);
    ListenTable(cfg, p, b);
    BeforeTable(cfg, p, b);
    EndTable(cfg, p, b);
    if VadStart !in Process(cfg, p, b).msgs { ClosedSilent(cfg, p, b); }
  }

  /** Data comes only while a session is open. */
  lemma ClosedSilent(cfg: Config, p: Proc, b: Block)
    requires cfg.vtEnable && Inv(p) && Legal(cfg, p, b)
    requires var q := Process(cfg, p, b); VadStart !in q.msgs && VadCancel !in q.msgs && VadEnd !in q.msgs
    requires !IsOpen(Before(cfg, p, b).p)
    ensures Silent(Process(cfg, p, b).msgs)
  {
    hide Before, Process, Listen, Inv, Legal, Hear, NoData;
    DataIsWanted(cfg, p, b);
    EndTable(cfg, p, b);
    assert Before(cfg, p, b).msgs + [] == Before(cfg, p, b).msgs;
    NoDataSilent(Process(cfg, p, b).msgs);
  }

  lemma NoDataSilent(msgs: seq<Msg>)
    requires VadStart !in msgs && VadCancel !in msgs && VadEnd !in msgs && NoData(msgs)
    ensures Silent(msgs)
  {
  }

  // ---- Whole runs ----------------------------------------------------------------

  /** An event that neither begins nor ends voice, and does not put the processor to sleep. */
  ghost predicate Plain(cfg: Config, p: Proc, e: Event) {
    match e
    case Heard(b) => !Voice(cfg, p, b).begin && !Voice(cfg, p, b).end
    case SetState(asleep) => !asleep
  }

  ghost predicate PlainRun(cfg: Config, p: Proc, es: seq<Event>)
    requires cfg.vtEnable && Inv(p) && LegalRun(cfg, p, es)
    decreases |es|
  {
    es == [] || (Plain(cfg, p, es[0]) && PlainRun(cfg, Step(cfg, p, es[0]).p, es[1..]))
  }

  lemma {:induction false} AudioGrows(cfg: Config, p: Proc, es: seq<Event>, acc: seq<real>)
    requires cfg.vtEnable && Inv(p) && LegalRun(cfg, p, es) && PlainRun(cfg, p, es)
    ensures |acc| <= |AudioOf(cfg, p, es, acc)|
    decreases |es|
  {
    hide Step, Legal, Inv, Hear;
    if es != [] { AudioGrows(cfg, Step(cfg, p, es[0]).p, es[1..], Heard1(cfg, p, es[0], acc)); }
  }

  /** A session that a wake word without a command has held back, paused at n samples. */
  predicate Held(p: Proc, n: int) { p.vadStart && p.dataOutput && p.canceled && p.awke && p.cod.lenPause == n }

  /** While no more than 8000 samples have come since the pause, it stays held and silent. */
  lemma {:induction false} HeldStays(cfg: Config, p: Proc, es: seq<Event>, acc: seq<real>, n: int)
    requires cfg.vtEnable && Inv(p) && LegalRun(cfg, p, es) && PlainRun(cfg, p, es)
    requires Held(p, n) && p.cod.input == acc && |AudioOf(cfg, p, es, acc)| - n <= 8000
    ensures var r := Run(cfg, p, es); Silent(r.msgs) && Held(r.p, n) && r.p.cod.input == AudioOf(cfg, p, es, acc)
    decreases |es|
  {
    hide Process, Legal, Inv, Hear;
    if es != [] {
      var r := Step(cfg, p, es[0]);
      var acc1 := Heard1(cfg, p, es[0], acc);
      AudioGrows(cfg, r.p, es[1..], acc1);
      StepAudio(cfg, p, acc, es[0]);
      if es[0].Heard? { HeldRestarts(cfg, p, es[0].b); }
      HeldStays(cfg, r.p, es[1..], acc1, n);
    }
  }

  /** From the audio alone: a block starts the held session exactly if it brings the samples
      since the pause above 8000, and the whole stays below 96000. */
  lemma RestartsExactly(cfg: Config, p: Proc, es: seq<Event>, acc: seq<real>, n: int, b: Block)
    requires cfg.vtEnable && Inv(p) && LegalRun(cfg, p, es) && PlainRun(cfg, p, es)
    requires Held(p, n) && p.cod.input == acc && |AudioOf(cfg, p, es, acc)| - n <= 8000
    requires Legal(cfg, Run(cfg, p, es).p, b) && !Voice(cfg, Run(cfg, p, es).p, b).begin
    ensures var q := Run(cfg, p, es).p; var audio := SinceBegin(AudioOf(cfg, p, es, acc), Voice(cfg, q, b));
      VadStart in Process(cfg, q, b).msgs <==> cfg.vadEnable && |audio| - n > 8000 && |audio| < 96000
  {
    hide Process, Legal, Inv, Hear, Run, AudioOf, LegalRun, PlainRun;
    HeldStays(cfg, p, es, acc, n);
    HeldRestarts(cfg, Run(cfg, p, es).p, b);
  }

  /** The whole story from the start: after any run, a block begins the audio with a wake word
      and has no command; then blocks without an end or a begin, with at most 8000 samples
      behind those of the first; then one more.  Nothing of a session is said before, and that
      one starts it exactly if it brings the number above 8000, and the whole stays below 96000. */
  lemma WakeWordThenSpeech(cfg: Config, es0: seq<Event>, word: Block, es: seq<Event>, b: Block)
    requires cfg.vtEnable && LegalRun(cfg, INITIAL, es0) && Legal(cfg, Run(cfg, INITIAL, es0).p, word)
    requires var p := Run(cfg, INITIAL, es0).p; var h := Voice(cfg, p, word);
      h.begin && !h.end && Woken(p, word, h) && Found(word, word.vt.noCmd) && !Found(word, word.vt.cmd)
    requires var p := Process(cfg, Run(cfg, INITIAL, es0).p, word).p; Inv(p) && LegalRun(cfg, p, es) && PlainRun(cfg, p, es)
    requires var p := Process(cfg, Run(cfg, INITIAL, es0).p, word).p; var q := Run(cfg, p, es).p;
      Legal(cfg, q, b) && !Voice(cfg, q, b).begin
    ensures var p0 := Run(cfg, INITIAL, es0).p; var p := Process(cfg, p0, word).p; var q := Run(cfg, p, es).p;
      var first := Scaled(Voice(cfg, p0, word).audio);
      var before := AudioOf(cfg, p, es, first);
      var audio := SinceBegin(before, Voice(cfg, q, b));
      && VadStart !in Process(cfg, p0, word).msgs
      && (|before| - |first| <= 8000 ==>
            Silent(Run(cfg, p, es).msgs)
            && (VadStart in Process(cfg, q, b).msgs <==> cfg.vadEnable && |audio| - |first| > 8000 && |audio| < 96000))
  {
    assert Inv(INITIAL);
    hide Process, Legal, Inv, Hear, Run, AudioOf, LegalRun, PlainRun;
    var p0 := Run(cfg, INITIAL, es0).p;
    var p, h := Process(cfg, p0, word).p, Voice(cfg, p0, word);
    StartsWhen(cfg, p0, word);
    StepAudio(cfg, p0, p0.cod.input, Event.Heard(word));
    var first := Scaled(h.audio);
    assert [] + first == first;
    if |AudioOf(cfg, p, es, first)| - |first| <= 8000 {
      HeldStays(cfg, p, es, first, |first|);
      RestartsExactly(cfg, p, es, first, |first|, b);
    }
  }

  /** The caller asks for speech in every block, and no voice begins or ends. */
  ghost predicate Asked(cfg: Config, p: Proc, es: seq<Event>)
    requires cfg.vtEnable && Inv(p) && LegalRun(cfg, p, es)
  {
    PlainRun(cfg, p, es) && forall i :: 0 <= i < |es| ==> es[i].Heard? ==> es[i].b.asr
  }

  /** An open session stays open, and nothing is said but data, up to 96000 samples. */
  lemma {:induction false} SpeechGoesOn(cfg: Config, p: Proc, es: seq<Event>, acc: seq<real>)
    requires cfg.vtEnable && Inv(p) && LegalRun(cfg, p, es) && Asked(cfg, p, es)
    requires IsOpen(p) && p.cod.input == acc && (cfg.vadEnable ==> |AudioOf(cfg, p, es, acc)| <= 96000)
    ensures var r := Run(cfg, p, es);
      IsOpen(r.p) && VadStart !in r.msgs && VadCancel !in r.msgs && VadEnd !in r.msgs
    decreases |es|
  {
    hide Process, Legal, Inv, Hear;
    if es != [] {
      var r := Step(cfg, p, es[0]);
      var acc1 := Heard1(cfg, p, es[0], acc);
      AudioGrows(cfg, r.p, es[1..], acc1);
      FromInv(p);
      FromInv(r.p);
      StepAudio(cfg, p, acc, es[0]);
      if es[0].Heard? { OpenGoesOn(cfg, p, es[0].b); }
      SpeechGoesOn(cfg, r.p, es[1..], acc1);
    }
  }

  /** After any run, an audio begin with the asr flag and no detection starts a session in the
      same call, and the session lasts as long as the caller asks for it, the voice does not
      end, and no more than 96000 samples come. */
  lemma SpeechStarts(cfg: Config, es0: seq<Event>, b: Block, es: seq<Event>)
    requires cfg.vtEnable && LegalRun(cfg, INITIAL, es0) && Legal(cfg, Run(cfg, INITIAL, es0).p, b)
    requires Voice(cfg, Run(cfg, INITIAL, es0).p, b).begin && b.asr && !b.vt.pre && !b.vt.cmd && !b.vt.noCmd
    requires var p := Process(cfg, Run(cfg, INITIAL, es0).p, b).p; Inv(p) && LegalRun(cfg, p, es) && Asked(cfg, p, es)
    ensures var p0 := Run(cfg, INITIAL, es0).p; var h, q := Voice(cfg, p0, b), Process(cfg, p0, b);
      && VadStart in q.msgs
      && (IsOpen(q.p) <==> !h.end && !(cfg.vadEnable && |h.audio| > 96000))
      && (IsOpen(q.p) && (cfg.vadEnable ==> |AudioOf(cfg, q.p, es, Scaled(h.audio))| <= 96000) ==> IsOpen(Run(cfg, q.p, es).p))
  {
    assert Inv(INITIAL);
    hide Process, Legal, Inv, Hear, Run, AudioOf, LegalRun, PlainRun;
    var p0 := Run(cfg, INITIAL, es0).p;
    var q, h := Process(cfg, p0, b).p, Voice(cfg, p0, b);
    StartsWhen(cfg, p0, b);
    StepAudio(cfg, p0, p0.cod.input, Event.Heard(b));
    FromInv(q);
    assert [] + Scaled(h.audio) == Scaled(h.audio);
    if IsOpen(q) && (cfg.vadEnable ==> |AudioOf(cfg, q, es, Scaled(h.audio))| <= 96000) {
      SpeechGoesOn(cfg, q, es, Scaled(h.audio));
    }
  }

  // ---- Words, sleep and data -----------------------------------------------------

  /** Which word gives which message. */
  predicate Announces(msgs: seq<Msg>, b: Block, woken: bool) {
    && (Sleep in msgs <==> Found(b, b.vt.noCmd) && b.vt.word == Asleep)
    && (AwakeNoCmd in msgs <==> Found(b, b.vt.noCmd) && b.vt.word == Awake)
    && (Hotword in msgs <==> Found(b, b.vt.noCmd) && b.vt.word == Hot)
    && (AwakeCmd in msgs <==> Found(b, b.vt.cmd) && b.vt.word == Awake)
    && (AwakePre in msgs <==> woken) && (DebugAudio in msgs <==> woken)
  }

  lemma AnnouncedWords(b: Block)
    ensures Announces(Announced(b), b, false)
  {
  }

  lemma Joined(a: seq<Msg>, c: seq<Msg>, b: Block, woken: bool)
    requires Announces(c, b, false) && (forall m :: m in a ==> m == VadCancel || m == AwakePre || m == DebugAudio)
    requires (AwakePre in a <==> woken) && (DebugAudio in a <==> woken)
    ensures Announces(a + c, b, woken)
  {
  }

  lemma ListenWords(cfg: Config, p: Proc, b: Block)
    requires Inv(p) && Legal(cfg, p, b)
    ensures var (r, h) := Listen(cfg, p, b); Announces(r.msgs, b, h.begin && Woken(p, b, h))
  {
    hide V.Process, Inv, Legal, Prepare, Announced, Announces;
    PrepareTable(cfg, p, b);
    AnnouncedWords(b);
    var h := Voice(cfg, p, b);
    var r0 := Prepare(cfg, p, b);
    var first := r0.msgs + if h.begin && IsAwakePre(b) then [AwakePre, DebugAudio] else [];
    assert r0.msgs + [] == r0.msgs;
    Joined(first, Announced(b), b, h.begin && Woken(p, b, h));
  }

  lemma WordsAnnounced(cfg: Config, p: Proc, b: Block)
    requires cfg.vtEnable && Inv(p) && Legal(cfg, p, b)
    ensures var h := Voice(cfg, p, b); Announces(Process(cfg, p, b).msgs, b, h.begin && Woken(p, b, h))
  {
    hide Before, Process, Listen, Inv, Legal, Hear, Found;
    ListenTable(cfg, p, b);
    ListenWords(cfg, p, b);
    BeforeWords(cfg, p, b);
    EndTable(cfg, p, b);
  }

  /** The output stage adds session messages only. */
  lemma BeforeWords(cfg: Config, p: Proc, b: Block)
    requires Inv(p) && Legal(cfg, p, b)
    ensures forall m :: m in Before(cfg, p, b).msgs && !SessionMsg(m) ==> m in Listen(cfg, p, b).0.msgs
    ensures Listen(cfg, p, b).0.msgs <= Before(cfg, p, b).msgs
  {
    hide Listen, Inv, Legal;
    FromInv(p);
    ListenKeeps(cfg, p, p.cod.out[..p.cod.outCur], b);
    var (r, h) := Listen(cfg, p, b);
    if r.p.vadStart {
      hide Output;
      OutputWords(cfg, IsOpen(p), p.cod.out[..p.cod.outCur], r, b, h);
    }
    forall m | m in Before(cfg, p, b).msgs && !SessionMsg(m) ensures m in r.msgs {
      if r.p.vadStart { ExtendsSays(r.msgs, Before(cfg, p, b).msgs, m); }
    }
  }

  /** No message of another kind is added. */
  predicate Extends(a: seq<Msg>, b: seq<Msg>) { a <= b && forall m :: m in b[|a|..] ==> SessionMsg(m) }

  lemma ExtendsSays(a: seq<Msg>, b: seq<Msg>, m: Msg)
    requires Extends(a, b) && m in b && !SessionMsg(m)
    ensures m in a
  {
    assert b == a + b[|a|..];
  }

  lemma ExtendsAdd(a: seq<Msg>, r: Result, m: Msg)
    requires Extends(a, r.msgs) && SessionMsg(m)
    ensures Extends(a, Add(r, m).msgs)
  {
    assert Add(r, m).msgs[|a|..] == r.msgs[|a|..] + [m];
  }

  lemma ExtendsData(a: seq<Msg>, b: seq<Msg>, c: seq<Msg>)
    requires Extends(a, b) && OnlyData(b, c)
    ensures Extends(a, c)
  {
    assert c[|a|..] == b[|a|..] + c[|b|..];
  }

  lemma OutputWords(cfg: Config, open0: bool, before: seq<real>, r: Result, b: Block, h: V.Heard)
    requires Mid(r.p) && Told(open0, before, r) && r.p.vadStart
    ensures Extends(r.msgs, Output(cfg, r, b, h).msgs)
  {
    hide Track, Received, Told, Emit, CodOk, Scaled, Extends, OnlyData, SessionMsg, Cmd, NoCmd;
    Unchanged(r.msgs);
    TakeKeeps(open0, before, r, h.audio);
    var r0 := r.(p := r.p.(cod := Take(r.p.cod, h.audio)));
    OpenKeeps(open0, before, r0, b);
    SessionMsgs();
    ExtendsAdd(r.msgs, r0, VadStart);
    var r1 := Open(r0, b);
    if r1.p.dataOutput {
      CancelKeeps(cfg, open0, before, r1, b);
      ExtendsAdd(r.msgs, r1, VadCancel);
      var r2 := Cancel(cfg, r1, b);
      RestartKeeps(cfg, open0, before, r2);
      ExtendsAdd(r.msgs, r2, VadStart);
      EmitReady(cfg, r0, b);
      EmitOnlyData(Restart(cfg, r2), h.end);
      ExtendsData(r.msgs, Restart(cfg, r2).msgs, Emit(Restart(cfg, r2), h.end).msgs);
    }
  }

  lemma SessionMsgs()
    ensures SessionMsg(VadStart) && SessionMsg(VadCancel)
  {
  }

  lemma Unchanged(a: seq<Msg>)
    ensures Extends(a, a)
  {
  }

  /** setState(sleep) forgets the wake word: a session held back is not restarted any more. */
  lemma SleepForgets(cfg: Config, p: Proc, es: seq<Event>)
    requires cfg.vtEnable && Inv(p) && p.dataOutput && p.canceled
    requires var q := Step(cfg, p, SetState(true)).p; LegalRun(cfg, q, es) && PlainRun(cfg, q, es)
    ensures Silent(Run(cfg, Step(cfg, p, SetState(true)).p, es).msgs)
  {
    ForgottenStays(cfg, Step(cfg, p, SetState(true)).p, es);
  }

  lemma {:induction false} ForgottenStays(cfg: Config, p: Proc, es: seq<Event>)
    requires cfg.vtEnable && Inv(p) && p.dataOutput && p.canceled && !p.awke && LegalRun(cfg, p, es) && PlainRun(cfg, p, es)
    ensures Silent(Run(cfg, p, es).msgs)
    decreases |es|
  {
    hide Process, Legal, Inv, Hear;
    if es != [] {
      if es[0].Heard? { HeldRestarts(cfg, p, es[0].b); }
      ForgottenStays(cfg, Step(cfg, p, es[0]).p, es[1..]);
    }
  }

  /** Waking up changes nothing of a session. */
  lemma WakingKeeps(cfg: Config, p: Proc)
    requires cfg.vtEnable && Inv(p)
    ensures Step(cfg, p, SetState(false)) == Result(p, [])
  {
  }

  /** The output stage reads until at most 100 bytes of what is encoded are left. */
  lemma OutputUpToDate(cfg: Config, open0: bool, before: seq<real>, r: Result, b: Block, h: V.Heard)
    requires Mid(r.p) && Told(open0, before, r) && r.p.vadStart && IsOpen(Output(cfg, r, b, h).p)
    ensures var c := Output(cfg, r, b, h).p.cod; c.outCur <= |c.out| && |c.input| - c.outCur <= 345
  {
    hide Track, Received, Told, Open, Cancel, Restart, CodOk, Encoded;
    TakeKeeps(open0, before, r, h.audio);
    var r0 := r.(p := r.p.(cod := Take(r.p.cod, h.audio)));
    OpenKeeps(open0, before, r0, b);
    var r1 := Open(r0, b);
    if r1.p.dataOutput {
      CancelKeeps(cfg, open0, before, r1, b);
      var r2 := Cancel(cfg, r1, b);
      RestartKeeps(cfg, open0, before, r2);
      EmitUpToDate(open0, before, Restart(cfg, r2), h.end);
    }
  }

  lemma EmitUpToDate(open0: bool, before: seq<real>, r: Result, end: bool)
    requires Mid(r.p) && Told(open0, before, r) && (r.p.dataOutput || r.p.canceled) && IsOpen(Emit(r, end).p)
    ensures var c := Emit(r, end).p.cod; c.outCur <= |c.out| && |c.input| - c.outCur <= 345
  {
    hide Track, Received, Encoded, ReadOver;
    if !r.p.canceled {
      ReadOverKeeps(open0, before, r, 100);
      if end { ReadOverKeeps(open0, before, ReadOver(r, 100), 0); }
    }
  }

  lemma OpenUpToDate(cfg: Config, p: Proc, before: seq<real>, b: Block)
    requires cfg.vtEnable && Inv(p) && Legal(cfg, p, b) && (IsOpen(p) ==> before == p.cod.out[..p.cod.outCur])
    requires IsOpen(Process(cfg, p, b).p)
    ensures var c := Process(cfg, p, b).p.cod;
      && c.outCur <= |c.input| && Received(before, Process(cfg, p, b).msgs) == c.input[..c.outCur] && |c.input| - c.outCur <= 345
  {
    hide Output, Listen, Legal, Track, Received;
    ProcessKeeps(cfg, p, before, b);
    EndTable(cfg, p, b);
    ListenKeeps(cfg, p, before, b);
    var (r, h) := Listen(cfg, p, b);
    if r.p.vadStart { OutputUpToDate(cfg, IsOpen(p), before, r, b, h); }
  }

  /** After every call in every run that leaves a session open, the consumer lacks at most the
      320 samples that are not encoded and the 25 that a data message is not sent for. */
  lemma DataKeepsUp(cfg: Config, es: seq<Event>, b: Block)
    requires cfg.vtEnable && LegalRun(cfg, INITIAL, es) && Legal(cfg, Run(cfg, INITIAL, es).p, b)
    requires IsOpen(Process(cfg, Run(cfg, INITIAL, es).p, b).p)
    ensures var p := Run(cfg, INITIAL, es).p; var q := Process(cfg, p, b);
      var audio := SinceBegin(AudioOf(cfg, INITIAL, es, []), Voice(cfg, p, b));
      var got := Received([], Run(cfg, INITIAL, es).msgs + q.msgs);
      got <= audio && |audio| - |got| <= 345
  {
    assert Inv(INITIAL);
    hide Before, Process, Inv, Legal, Hear;
    var r := Run(cfg, INITIAL, es);
    RunKeeps(cfg, INITIAL, es, []);
    RunAudio(cfg, INITIAL, es, []);
    var got0 := Received([], r.msgs);
    ReceivedAppend([], r.msgs, Process(cfg, r.p, b).msgs);
    StepAudio(cfg, r.p, AudioOf(cfg, INITIAL, es, []), Event.Heard(b));
    OpenUpToDate(cfg, r.p, got0, b);
  }
}
