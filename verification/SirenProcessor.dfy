/**
  SirenProcessorImpl with its fields updated in place, each stage proved against the
  functions of SirenSession.
*/
module SirenProcessorImpl {
  import opened SirenCodec
  import V = SirenVad
  import opened SirenSession

  class SirenProcessor {
    const cfg: Config
    const cod: R2memCod
    const vad: V.R2memVad2

    // ProcessState
    var asr: bool
    var vadStart: bool
    var dataOutput: bool
    var canceled: bool
    var awke: bool
    var asrMsgCheckFlag: int

    // the message list of the allocator
    var msgLst: seq<Msg>

    function State(): Proc
      reads this, cod, vad
    {
      Proc(asr, vadStart, dataOutput, canceled, awke, cod.State(), vad.State())
    }

    function Now(): Result
      reads this, cod, vad
    {
      Result(State(), msgLst)
    }

    constructor (cfg: Config)
      ensures this.cfg == cfg && fresh(cod) && fresh(vad)
      ensures Now() == Result(INITIAL, []) && asrMsgCheckFlag == 0
    {
      this.cfg := cfg;
      cod := new R2memCod();
      vad := new V.R2memVad2();
      asr, vadStart, dataOutput, canceled, awke := false, false, false, false, false;
      asrMsgCheckFlag, msgLst := 0, [];
    }

    method AddMsg(m: Msg)
      modifies this`msgLst
      ensures Now() == Add(old(Now()), m)
    {
      msgLst := msgLst + [m];
    }

    /** addMsg(r2ad_vad_data, cod) */
    method AddData()
      requires !cod.paused && cod.outCur <= |cod.out|
      modifies this`msgLst, cod
      ensures Now() == Read(old(Now()))
    {
      var data := cod.GetData2();
      AddMsg(VadData(data));
    }

    method ClearMsgLst()
      modifies this`msgLst
      ensures Now() == old(Now()).(msgs := [])
    {
      msgLst := [];
    }

    method ResetASR()
      modifies this, cod, vad
      ensures asrMsgCheckFlag == old(asrMsgCheckFlag)
      ensures var r := ResetAsr(cfg, old(State())); Now() == Result(r.p, old(msgLst) + r.msgs)
    {
      if dataOutput && !canceled {
        AddMsg(VadCancel);
      }
      asr, vadStart := false, false;
      if cfg.vadEnable {
        dataOutput := false;
      }
      canceled, awke := false, false;
      vad.DoReset();
      cod.DoReset();
    }

    /** Up to the call of the VAD: what it is fed with and whether it must start. */
    method DoPrepare(b: Block) returns (dataSig: seq<real>, forceStart: bool)
      requires msgLst == []
      modifies this, cod, vad
      ensures asrMsgCheckFlag == old(asrMsgCheckFlag)
      ensures Now() == Prepare(cfg, old(State()), b)
      ensures dataSig == Audio(b) && forceStart == Pre(b)
    {
      if b.asr { asr := true; }
      var pre := b.vt.pre && !b.vt.cancel;
      var sleepNoCmd := b.sleep && b.vt.noCmd && b.vt.word == Asleep;
      dataSig, forceStart := b.sig, false;
      if pre {
        ResetASR();
        if !sleepNoCmd { dataSig := b.again; }
        forceStart := true;
      }
    }

    method BeginSession(b: Block)
      modifies this, cod
      ensures asrMsgCheckFlag == old(asrMsgCheckFlag)
      ensures Now() == Begin(old(Now()), b)
    {
      var awakePre := b.awake && Pre(b) && b.vt.word == Awake;
      asr, vadStart, dataOutput, canceled, awke := b.asr, true, false, false, false;
      cod.DoReset();
      if awakePre {
        awke := true;
        AddMsg(AwakePre);
        AddMsg(DebugAudio);
      }
    }

    /** From the start to the wake-word messages. */
    method DoListen(b: Block) returns (h: V.Heard)
      requires Legal(cfg, State(), b) && msgLst == []
      modifies this, cod, vad
      ensures asrMsgCheckFlag == old(asrMsgCheckFlag)
      ensures Now() == Listen(cfg, old(State()), b).0 && h == Listen(cfg, old(State()), b).1
    {
      hide Prepare, Audio, Begin, Announced, V.Process, Pre;
      var dataSig, forceStart := DoPrepare(b);
      var audio, begin, end := vad.DoProcess(|dataSig|, b.engine, forceStart);
      h := V.Heard(vad.State(), audio, begin, end);
      if begin { BeginSession(b); }
      Announce(b);
    }

    method Announce(b: Block)
      modifies this`msgLst
      ensures Now() == old(Now()).(msgs := old(msgLst) + Announced(b))
    {
      if NoCmd(b) {
        if IsSleepNoCmd(b) { AddMsg(Sleep); }
        if IsAwakeNoCmd(b) { AddMsg(AwakeNoCmd); }
        if IsHotwordNoCmd(b) { AddMsg(Hotword); }
      }
      if Cmd(b) {
        if IsAwakeCmd(b) { AddMsg(AwakeCmd); }
      }
    }

    method OpenSession(b: Block)
      modifies this, cod
      ensures asrMsgCheckFlag == old(asrMsgCheckFlag)
      ensures Now() == Open(old(Now()), b)
    {
      if !dataOutput {
        if Cmd(b) || NoCmd(b) {
          dataOutput := true;
          if Cmd(b) {
            AddMsg(VadStart);
          } else {
            canceled := true;
            cod.DoPause();
          }
        } else if asr && !awke {
          dataOutput := true;
          AddMsg(VadStart);
        }
      }
    }

    method CancelSession(b: Block)
      modifies this, cod
      ensures asrMsgCheckFlag == old(asrMsgCheckFlag)
      ensures Now() == Cancel(cfg, old(Now()), b)
    {
      if !canceled {
        if cfg.vadEnable {
          var tooLong := cod.IsTooLong();
          if tooLong { canceled := true; }
        }
        if !awke && !b.asr { canceled := true; }
        if canceled {
          cod.DoPause();
          AddMsg(VadCancel);
          if !cfg.vadEnable {
            vadStart, dataOutput := false, false;
          }
        }
      }
    }

    method RestartSession()
      modifies this, cod
      ensures asrMsgCheckFlag == old(asrMsgCheckFlag)
      ensures Now() == Restart(cfg, old(Now()))
    {
      if cfg.vadEnable {
        if canceled && awke {
          var need := cod.IsNeedResume();
          if need {
            canceled := false;
            cod.DoResume();
            AddMsg(VadStart);
          }
        }
      }
    }

    /** getdatalen() > limit decides whether there is a data message. */
    method DataOver(limit: int)
      requires !cod.paused && cod.outCur <= |cod.out|
      modifies this`msgLst, cod
      ensures Now() == ReadOver(old(Now()), limit)
    {
      EncodedKeeps(cod.State());
      var len := cod.GetDataLen();
      if len > limit { AddData(); }
    }

    method EmitData(end: bool)
      requires !canceled ==> !cod.paused && cod.outCur <= |cod.out|
      modifies this`msgLst, cod
      ensures Now() == Emit(old(Now()), end)
    {
      if !canceled {
        DataOver(100);
        if end { DataOver(0); }
      }
    }

    method DoOutput(b: Block, h: V.Heard)
      requires vadStart && CodOk(cod.State()) && (cod.paused <==> canceled)
      modifies this, cod
      ensures asrMsgCheckFlag == old(asrMsgCheckFlag)
      ensures Now() == Output(cfg, old(Now()), b, h)
    {
      hide Open, Cancel, Restart, Emit, CodOk;
      TakeOk(cod.State(), h.audio);
      cod.DoProcess(h.audio);
      EmitReady(cfg, Now(), b);
      OpenSession(b);
      if dataOutput {
        CancelSession(b);
        RestartSession();
        EmitData(h.end);
      }
    }

    method EndSession()
      modifies this, cod
      ensures asrMsgCheckFlag == old(asrMsgCheckFlag)
      ensures Now() == End(cfg, old(Now()))
    {
      if dataOutput && !canceled {
        AddMsg(VadEnd);
      }
      if awke {
        cod.DoPause();
        cod.DoResume();
      }
      awke := false;
      if cfg.vtEnable {
        asr, vadStart, dataOutput := false, false, false;
      }
      canceled := false;
    }

    /** SirenProcessorImpl::process.  The asserts of the codec buffer and of the VAD
        are preconditions of the calls made here. */
    method DoProcess(b: Block)
      requires Inv(State()) && Legal(cfg, State(), b)
      modifies this, cod, vad
      ensures asrMsgCheckFlag == old(asrMsgCheckFlag)
      ensures Now() == Process(cfg, old(State()), b)
      ensures cfg.vtEnable ==> Inv(State()) && Told(IsOpen(old(State())), old(cod.out[..cod.outCur]), Now())
    {
      ghost var p := State();
      assert Listen(cfg, p, b).1 == Hear(Prepare(cfg, p, b), b);
      hide Listen, Output, End, Legal, Prepare;
      ghost var out := cod.out[..cod.outCur];
      ListenKeeps(cfg, p, out, b);
      ClearMsgLst();
      var h := DoListen(b);
      if vadStart { DoOutput(b, h); }
      if h.end { EndSession(); }
      if cfg.vtEnable { ProcessKeeps(cfg, p, out, b); }
    }

    method DoSetState(asleep: bool)
      modifies this`awke
      ensures State() == SetSleep(old(State()), asleep)
    {
      if asleep && awke { awke := false; }
    }

    /** getMsgs: dumpMsg checks every message of the call against the flag. */
    method GetMsgs() returns (msgs: seq<Msg>, error: bool)
      modifies this`asrMsgCheckFlag
      ensures msgs == msgLst
      ensures Checked(asrMsgCheckFlag, error) == DumpAll(Checked(old(asrMsgCheckFlag), false), msgLst)
    {
      msgs, error := msgLst, false;
      var i := 0;
      while i < |msgLst|
        invariant i <= |msgLst|
        invariant Checked(asrMsgCheckFlag, error) == DumpAll(Checked(old(asrMsgCheckFlag), false), msgLst[..i])
      {
        assert msgLst[..i + 1][..i] == msgLst[..i];
        match msgLst[i] {
          case VadStart =>
            error := error || asrMsgCheckFlag != 0;
            asrMsgCheckFlag := 1;
          case VadData(_) =>
            error := error || asrMsgCheckFlag != 1;
          case VadEnd =>
            error := error || asrMsgCheckFlag != 1;
            asrMsgCheckFlag := 0;
          case VadCancel =>
            asrMsgCheckFlag := 0;
          case _ =>
        }
        i := i + 1;
      }
      assert msgLst[..i] == msgLst;
    }

    /** The life of a processor: every call of process is followed by getMsgs.  The
        messages are those of the run, and dumpMsg never reports an error. */
    method Serve(es: seq<Event>) returns (msgs: seq<Msg>, error: bool)
      requires cfg.vtEnable && Inv(State()) && LegalRun(cfg, State(), es)
      requires asrMsgCheckFlag == FlagOf(IsOpen(State()))
      modifies this, cod, vad
      ensures Inv(State()) && Result(State(), msgs) == Run(cfg, old(State()), es) && !error
      ensures asrMsgCheckFlag == FlagOf(IsOpen(State()))
    {
      hide Process, Inv, LegalEvent, Told, DumpAll, IsOpen;
      msgs, error := [], false;
      var i := 0;
      ghost var p0 := State();
      while i < |es|
        invariant i <= |es| && Inv(State()) && LegalRun(cfg, State(), es[i..]) && !error
        invariant asrMsgCheckFlag == FlagOf(IsOpen(State()))
        invariant Run(cfg, p0, es).p == Run(cfg, State(), es[i..]).p
        invariant Run(cfg, p0, es).msgs == msgs + Run(cfg, State(), es[i..]).msgs
      {
        assert es[i..][1..] == es[i + 1..];
        var part, wrong := ServeOne(es[i]);
        msgs, error := msgs + part, error || wrong;
        i := i + 1;
      }
      assert es[i..] == [];
    }

    method ServeOne(e: Event) returns (msgs: seq<Msg>, error: bool)
      requires cfg.vtEnable && Inv(State()) && LegalEvent(cfg, State(), e)
      requires asrMsgCheckFlag == FlagOf(IsOpen(State()))
      modifies this, cod, vad
      ensures Inv(State()) && Result(State(), msgs) == Step(cfg, old(State()), e) && !error
      ensures asrMsgCheckFlag == FlagOf(IsOpen(State()))
    {
      match e {
        case SetState(asleep) =>
          DoSetState(asleep);
          msgs, error := [], false;
        case Heard(b) =>
          hide Process, Inv, Legal, DumpAll, Track;
          ghost var open0 := IsOpen(State());
          DoProcess(b);
          TrackMeansNoError(open0, msgLst);
          msgs, error := GetMsgs();
      }
    }
  }
}
