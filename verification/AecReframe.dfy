/**
  The re-framing around the echo canceller: input in blocks of any size, the engine in
  frames of 256 samples, output in multiples of 160.
*/
module AecReframe {
  import opened Shared

  const AEC: nat := 256  // m_iFrmLen_Aec
  const OUT: nat := 160  // m_iFrmLen_Out
  const RATE: nat := 16000

  /** One frame as the engine gets it: the reference channels and the microphones. */
  datatype Frame = Frame(refs: seq<seq<real>>, mics: seq<seq<real>>)

  /** The closed engine: sample i of microphone j, and the returned status, after the
      frames fed so far. */
  datatype Engine = Engine(sample: (seq<Frame>, nat, nat) -> real, status: seq<Frame> -> int)

  /** The channel numbers of the microphones and of the references. */
  datatype Setup = Setup(micNum: nat, mics: seq<nat>, refs: seq<nat>, engine: Engine)

  predicate SetupOk(s: Setup) {
    && (forall j :: 0 <= j < |s.mics| ==> s.mics[j] < s.micNum)
    && (forall j :: 0 <= j < |s.refs| ==> s.refs[j] < s.micNum)
  }

  /** A block of audio, one row for every channel. */
  type Block = seq<seq<real>>

  predicate Rows(x: Block, channels: nat, n: nat) {
    |x| == channels && forall m :: 0 <= m < channels ==> |x[m]| == n
  }

  function Appended(x: Block, y: Block): (r: Block)
    requires |x| == |y|
    ensures |r| == |x|
  {
    seq(|x|, m requires 0 <= m < |x| => x[m] + y[m])
  }

  // ---- What the engine is fed with and answers ------------------------------

  /** Frame k of the input. */
  function FrameAt(s: Setup, x: Block, t: nat, k: nat): Frame
    requires SetupOk(s) && Rows(x, s.micNum, t) && AEC * (k + 1) <= t
  {
    Frame(seq(|s.refs|, j requires 0 <= j < |s.refs| => Divided(x[s.refs[j]][AEC * k..AEC * (k + 1)], 64.0)),
          seq(|s.mics|, j requires 0 <= j < |s.mics| => Divided(x[s.mics[j]][AEC * k..AEC * (k + 1)], 64.0)))
  }

  function Frames(s: Setup, x: Block, t: nat, n: nat): (r: seq<Frame>)
    requires SetupOk(s) && Rows(x, s.micNum, t) && AEC * n <= t
    ensures |r| == n
  {
    if n == 0 then [] else Frames(s, x, t, n - 1) + [FrameAt(s, x, t, n - 1)]
  }

  /** The last of the first n microphones on the channel of microphone j. */
  function Last(mics: seq<nat>, n: nat, j: nat): (r: nat)
    requires j < n <= |mics|
    ensures j <= r < n && mics[r] == mics[j] && forall i :: r < i < n ==> mics[i] != mics[j]
  {
    if mics[n - 1] == mics[j] then n - 1 else Last(mics, n - 1, j)
  }

  /** The microphone whose output is found on the channel of microphone j: that of a
      channel named twice is written twice, and the last one stays. */
  function Heard(s: Setup, j: nat): nat { if j < |s.mics| then Last(s.mics, |s.mics|, j) else j }

  /** Sample i of microphone j of all the engine's output for the input x, behind the
      frames in pre. */
  function Sample(s: Setup, pre: seq<Frame>, x: Block, t: nat, j: nat, i: nat): real
    requires SetupOk(s) && Rows(x, s.micNum, t) && i < AEC * (t / AEC)
  {
    s.engine.sample(pre + Frames(s, x, t, i / AEC + 1), Heard(s, j), i % AEC) * 64.0
  }

  function Output(s: Setup, pre: seq<Frame>, x: Block, t: nat, j: nat): (r: seq<real>)
    requires SetupOk(s) && Rows(x, s.micNum, t)
    ensures |r| == AEC * (t / AEC)
  {
    seq(AEC * (t / AEC), i requires 0 <= i < AEC * (t / AEC) => Sample(s, pre, x, t, j, i))
  }

  /** How many samples have been returned when t have come in. */
  function Returned(t: nat): nat { 160 * (256 * (t / 256) / 160) }

  lemma {:induction false} FramesCausal(s: Setup, x: Block, t: nat, y: Block, n: nat, k: nat)
    requires SetupOk(s) && Rows(x, s.micNum, t) && Rows(y, s.micNum, n) && AEC * k <= t
    ensures Rows(Appended(x, y), s.micNum, t + n) && Frames(s, Appended(x, y), t + n, k) == Frames(s, x, t, k)
    decreases k
  {
    var z := Appended(x, y);
    assert Rows(z, s.micNum, t + n);
    if k > 0 {
      FramesCausal(s, x, t, y, n, k - 1);
      forall m | 0 <= m < s.micNum ensures z[m][AEC * (k - 1)..AEC * k] == x[m][AEC * (k - 1)..AEC * k] {}
      assert FrameAt(s, z, t + n, k - 1) == FrameAt(s, x, t, k - 1);
    }
  }

  /** The output never changes when more input comes: what was returned stays right. */
  lemma OutputCausal(s: Setup, pre: seq<Frame>, x: Block, t: nat, y: Block, n: nat, j: nat)
    requires SetupOk(s) && Rows(x, s.micNum, t) && Rows(y, s.micNum, n)
    ensures Rows(Appended(x, y), s.micNum, t + n)
    ensures Output(s, pre, x, t, j) <= Output(s, pre, Appended(x, y), t + n, j)
  {
    FramesCausal(s, x, t, y, n, 0);
    assert t / AEC <= (t + n) / AEC;
    forall i | 0 <= i < AEC * (t / AEC)
      ensures i < AEC * ((t + n) / AEC) && Sample(s, pre, Appended(x, y), t + n, j, i) == Sample(s, pre, x, t, j, i)
    {
      SampleCausal(s, pre, x, t, y, n, j, i);
    }
  }

  lemma Whole(n: nat, d: nat)
    requires d == AEC || d == OUT
    ensures n == d * (n / d) + n % d && d * (n / d) % d == 0
  {
  }

  // ---- Any splitting into calls -----------------------------------------------

  datatype Piece = Piece(block: Block, n: nat)

  predicate PiecesOk(s: Setup, pieces: seq<Piece>) {
    forall i :: 0 <= i < |pieces| ==> Rows(pieces[i].block, s.micNum, pieces[i].n)
  }

  function Total(pieces: seq<Piece>): nat {
    if pieces == [] then 0 else Total(pieces[..|pieces| - 1]) + pieces[|pieces| - 1].n
  }

  function Joined(s: Setup, pieces: seq<Piece>): (r: Block)
    requires PiecesOk(s, pieces)
    ensures Rows(r, s.micNum, Total(pieces))
  {
    if pieces == [] then seq(s.micNum, _ => [])
    else Appended(Joined(s, pieces[..|pieces| - 1]), pieces[|pieces| - 1].block)
  }

  lemma ReturnedGrows(t: nat, n: nat)
    ensures Returned(t) <= Returned(t + n) <= AEC * ((t + n) / AEC)
  {
    assert t / AEC <= (t + n) / AEC;
  }

  /** What the calls return for microphone j, one after the other. */
  function Collected(s: Setup, pre: seq<Frame>, pieces: seq<Piece>, j: nat): seq<real>
    requires SetupOk(s) && PiecesOk(s, pieces)
  {
    if pieces == [] then []
    else
      var most := pieces[..|pieces| - 1];
      ReturnedGrows(Total(most), pieces[|pieces| - 1].n);
      Collected(s, pre, most, j)
      + Output(s, pre, Joined(s, pieces), Total(pieces), j)[Returned(Total(most))..Returned(Total(pieces))]
  }

  /** However the input is split into calls, what has been returned is the beginning of
      the engine's output for the whole input, up to the last multiple of 160. */
  lemma {:induction false} AnySplitting(s: Setup, pre: seq<Frame>, pieces: seq<Piece>, j: nat)
    requires SetupOk(s) && PiecesOk(s, pieces)
    ensures Returned(Total(pieces)) <= AEC * (Total(pieces) / AEC)
    ensures Collected(s, pre, pieces, j) == Output(s, pre, Joined(s, pieces), Total(pieces), j)[..Returned(Total(pieces))]
    decreases |pieces|
  {
    hide Returned, Output;
    ReturnedGrows(Total(pieces), 0);
    if pieces == [] {
      ReturnedNone();
    } else {
      var most, last := pieces[..|pieces| - 1], pieces[|pieces| - 1];
      AnySplitting(s, pre, most, j);
      OutputCausal(s, pre, Joined(s, most), Total(most), last.block, last.n, j);
      ReturnedGrows(Total(most), last.n);
      ReturnedGrows(Total(most), 0);
      Glue(Output(s, pre, Joined(s, most), Total(most), j), Output(s, pre, Joined(s, pieces), Total(pieces), j),
           Returned(Total(most)), Returned(Total(pieces)));
    }
  }

  lemma ReturnedNone()
    ensures Returned(0) == 0
  {
  }

  lemma Glue(a: seq<real>, b: seq<real>, i: nat, k: nat)
    requires a <= b && i <= |a| && i <= k <= |b|
    ensures a[..i] + b[i..k] == b[..k]
  {
  }

  // ---- The class --------------------------------------------------------------

  class R2memAec {
    const s: Setup
    var fed: seq<Frame>         // the engine's state: what it was fed with
    var lenIn: nat
    var dataIn: array2<real>
    var lenOut: nat
    var dataOut: array2<real>

    ghost var pre: seq<Frame>   // fed at the last reset
    ghost var input: Block      // all input since then
    ghost var total: nat        // its length
    ghost var start: nat        // output samples in front of dataOut

    ghost predicate Shape()
      reads this`dataIn, this`dataOut
    {
      SetupOk(s) && dataIn.Length0 == dataOut.Length0 == s.micNum && dataIn.Length1 == AEC && dataIn != dataOut
    }

    /** Of the first t samples of x, the last incomplete frame is held. */
    ghost predicate InOk(x: Block, n: nat, t: nat, ids: seq<nat>)
      requires Shape() && Rows(x, s.micNum, n) && t <= n && (forall j :: 0 <= j < |ids| ==> ids[j] < s.micNum)
      reads this`lenIn, this`dataIn, this`dataOut, dataIn
    {
      lenIn == t % AEC &&
      forall j, i :: 0 <= j < |ids| && 0 <= i < lenIn ==> dataIn[ids[j], i] == x[ids[j]][t - lenIn + i]
    }

    /** The first len columns of dataOut are the engine's output from `from` on. */
    ghost predicate OutIs(x: Block, n: nat, from: nat, len: nat)
      requires Shape() && Rows(x, s.micNum, n) && from + len <= AEC * (n / AEC) && len <= dataOut.Length1
      reads this`pre, this`dataIn, this`dataOut, dataOut
    {
      forall j, i :: 0 <= j < |s.mics| && 0 <= i < len ==> dataOut[s.mics[j], i] == Sample(s, pre, x, n, j, from + i)
    }

    /** The engine was fed with all whole frames, and dataOut holds its output from
        start on. */
    ghost predicate OutOk(x: Block, n: nat, t: nat)
      requires Shape() && Rows(x, s.micNum, n) && t <= n
      reads this`fed, this`pre, this`start, this`lenOut, this`dataIn, this`dataOut, dataOut
    {
      && fed == pre + Frames(s, x, n, t / AEC)
      && start + lenOut == AEC * (t / AEC) && lenOut <= dataOut.Length1
      && OutIs(x, n, start, lenOut)
    }

    ghost predicate Holds(x: Block, n: nat, t: nat)
      reads this`fed, this`pre, this`start, this`lenIn, this`lenOut, this`dataIn, this`dataOut, dataIn, dataOut
    {
      && Shape() && Rows(x, s.micNum, n) && t <= n && start % OUT == 0
      && InOk(x, n, t, s.mics) && InOk(x, n, t, s.refs) && OutOk(x, n, t)
    }

    ghost predicate Valid()
      reads this, dataIn, dataOut
    {
      Holds(input, total, total)
    }

    constructor (s: Setup)
      requires SetupOk(s)
      ensures Valid() && fresh(dataIn) && fresh(dataOut) && this.s == s && total == 0 && fed == []
    {
      this.s := s;
      fed, lenIn, lenOut := [], 0, 0;
      dataIn := new real[s.micNum, AEC]((_, _) => 0.0);
      dataOut := new real[s.micNum, RATE]((_, _) => 0.0);
      pre, input, total, start := [], seq(s.micNum, _ => []), 0, 0;
    }

    method Reset()
      requires Valid()
      modifies this
      ensures Valid() && total == 0 && pre == fed == old(fed)
      ensures dataIn == old(dataIn) && dataOut == old(dataOut)
    {
      lenIn, lenOut := 0, 0;
      pre, input, total, start := fed, seq(s.micNum, _ => []), 0, 0;
    }

    // ---- The parts of process -----------------------------------------------

    /** The output not returned yet moves to the front. */
    method Shift(ids: seq<nat>, left: nat)
      requires Shape() && left <= lenOut <= dataOut.Length1 && (left == lenOut || 2 * left <= lenOut)
      requires forall j :: 0 <= j < |ids| ==> ids[j] < s.micNum
      modifies dataOut
      ensures forall j, i :: 0 <= j < |ids| && 0 <= i < left ==> dataOut[ids[j], i] == old(dataOut[ids[j], lenOut - left + i])
      ensures forall m, i :: 0 <= m < s.micNum && (left <= i < dataOut.Length1 || (m !in ids && 0 <= i < left)) ==>
        dataOut[m, i] == old(dataOut[m, i])
    {
      for k := 0 to |ids|
        invariant forall j, i :: 0 <= j < k && 0 <= i < left ==> dataOut[ids[j], i] == old(dataOut[ids[j], lenOut - left + i])
        invariant forall m, i :: 0 <= m < s.micNum && (left <= i < dataOut.Length1 || (m !in ids[..k] && 0 <= i < left)) ==>
          dataOut[m, i] == old(dataOut[m, i])
      {
        var id := ids[k];
        if left < lenOut {
          forall i | 0 <= i < left { dataOut[id, i] := dataOut[id, lenOut - left + i]; }
        }
      }
    }

    /** Room for everything that this call can put out. */
    method Grow(lenTotal: nat)
      requires Shape() && lenOut <= dataOut.Length1 && lenOut <= lenTotal
      modifies this`dataOut
      ensures Shape() && (dataOut == old(dataOut) || fresh(dataOut))
      ensures lenTotal <= dataOut.Length1
      ensures forall m, i :: 0 <= m < s.micNum && 0 <= i < lenOut ==> dataOut[m, i] == old(dataOut[m, i])
    {
      if lenTotal > dataOut.Length1 {
        var from, tmp := dataOut, new real[s.micNum, lenTotal * 2]((_, _) => 0.0);
        for k := 0 to s.micNum
          invariant dataOut == from && fresh(tmp)
          invariant forall m, i :: 0 <= m < k && 0 <= i < lenOut ==> tmp[m, i] == from[m, i]
        {
          forall i | 0 <= i < lenOut { tmp[k, i] := from[k, i]; }
        }
        dataOut := tmp;
      }
    }

    /** memcpy of a piece of the block to the held input of some channels. */
    method TakeIn(ids: seq<nat>, block: Block, n: nat, cur: nat, ll: nat)
      requires Shape() && lenIn + ll <= AEC && Rows(block, s.micNum, n) && cur + ll <= n
      requires forall j :: 0 <= j < |ids| ==> ids[j] < s.micNum
      modifies dataIn
      ensures forall j, i :: 0 <= j < |ids| && lenIn <= i < lenIn + ll ==> dataIn[ids[j], i] == block[ids[j]][cur + i - lenIn]
      ensures forall m, i :: 0 <= m < s.micNum && 0 <= i < AEC && (m !in ids || !(lenIn <= i < lenIn + ll)) ==>
        dataIn[m, i] == old(dataIn[m, i])
    {
      for k := 0 to |ids|
        invariant forall j, i :: 0 <= j < k && lenIn <= i < lenIn + ll ==> dataIn[ids[j], i] == block[ids[j]][cur + i - lenIn]
        invariant forall m, i :: 0 <= m < s.micNum && 0 <= i < AEC && (m !in ids[..k] || !(lenIn <= i < lenIn + ll)) ==>
          dataIn[m, i] == old(dataIn[m, i])
      {
        var id := ids[k];
        forall i | lenIn <= i < lenIn + ll { dataIn[id, i] := block[id][cur + i - lenIn]; }
      }
    }

    /** A held frame of some channels, scaled down. */
    method ScaleFrame(ids: seq<nat>) returns (rows: seq<seq<real>>)
      requires Shape() && forall j :: 0 <= j < |ids| ==> ids[j] < s.micNum
      ensures |rows| == |ids|
      ensures forall j :: 0 <= j < |ids| ==> |rows[j]| == AEC && forall i :: 0 <= i < AEC ==> rows[j][i] == dataIn[ids[j], i] / 64.0
    {
      rows := [];
      for k := 0 to |ids|
        invariant |rows| == k
        invariant forall j :: 0 <= j < k ==> |rows[j]| == AEC && forall i :: 0 <= i < AEC ==> rows[j][i] == dataIn[ids[j], i] / 64.0
      {
        var row := [];
        for i := 0 to AEC
          invariant |row| == i && forall h :: 0 <= h < i ==> row[h] == dataIn[ids[k], h] / 64.0
        {
          row := row + [dataIn[ids[k], i] / 64.0];
        }
        rows := rows + [row];
      }
    }

    /** The held frame is the next frame of the input. */
    lemma FrameHeld(x: Block, n: nat, k: nat, refs: seq<seq<real>>, mics: seq<seq<real>>)
      requires Shape() && Rows(x, s.micNum, n) && AEC * (k + 1) <= n
      requires forall j, i :: 0 <= j < |s.mics| && 0 <= i < AEC ==> dataIn[s.mics[j], i] == x[s.mics[j]][AEC * k + i]
      requires forall j, i :: 0 <= j < |s.refs| && 0 <= i < AEC ==> dataIn[s.refs[j], i] == x[s.refs[j]][AEC * k + i]
      requires |refs| == |s.refs| && |mics| == |s.mics|
      requires forall j :: 0 <= j < |refs| ==> |refs[j]| == AEC && forall i :: 0 <= i < AEC ==> refs[j][i] == dataIn[s.refs[j], i] / 64.0
      requires forall j :: 0 <= j < |mics| ==> |mics[j]| == AEC && forall i :: 0 <= i < AEC ==> mics[j][i] == dataIn[s.mics[j], i] / 64.0
      ensures Frame(refs, mics) == FrameAt(s, x, n, k)
    {
      forall j | 0 <= j < |refs| ensures refs[j] == Divided(x[s.refs[j]][AEC * k..AEC * (k + 1)], 64.0) {}
      forall j | 0 <= j < |mics| ensures mics[j] == Divided(x[s.mics[j]][AEC * k..AEC * (k + 1)], 64.0) {}
    }

    /** The engine's answer goes behind the output. */
    method PutOut()
      requires Shape() && lenOut + AEC <= dataOut.Length1
      modifies dataOut
      ensures forall j, i :: 0 <= j < |s.mics| && 0 <= i < AEC ==>
        dataOut[s.mics[j], lenOut + i] == s.engine.sample(fed, Heard(s, j), i) * 64.0
      ensures forall m, i :: 0 <= m < s.micNum && 0 <= i < lenOut ==> dataOut[m, i] == old(dataOut[m, i])
    {
      for k := 0 to |s.mics|
        invariant forall j, i :: 0 <= j < k && 0 <= i < AEC ==>
          dataOut[s.mics[j], lenOut + i] == s.engine.sample(fed, Last(s.mics, k, j), i) * 64.0
        invariant forall m, i :: 0 <= m < s.micNum && 0 <= i < lenOut ==> dataOut[m, i] == old(dataOut[m, i])
      {
        forall i | lenOut <= i < lenOut + AEC { dataOut[s.mics[k], i] := s.engine.sample(fed, k, i - lenOut) * 64.0; }
      }
    }

    method PutOutBehind(ghost x: Block, ghost n: nat)
      requires Shape() && lenOut + AEC <= dataOut.Length1
      requires Rows(x, s.micNum, n) && start + lenOut <= AEC * (n / AEC) && OutIs(x, n, start, lenOut)
      modifies dataOut
      ensures OutIs(x, n, start, lenOut)
      ensures forall j, i :: 0 <= j < |s.mics| && 0 <= i < AEC ==>
        dataOut[s.mics[j], lenOut + i] == s.engine.sample(fed, Heard(s, j), i) * 64.0
    {
      hide Sample, Rows;
      PutOut();
      forall j, i | 0 <= j < |s.mics| && 0 <= i < lenOut
        ensures dataOut[s.mics[j], i] == Sample(s, pre, x, n, j, start + i)
      {
        assert old(dataOut[s.mics[j], i]) == Sample(s, pre, x, n, j, start + i);
      }
    }

    lemma NewSamples(x: Block, n: nat, k: nat)
      requires Shape() && Rows(x, s.micNum, n) && AEC * (k + 1) <= n
      ensures forall j, i :: 0 <= j < |s.mics| && AEC * k <= i < AEC * (k + 1) ==>
        Sample(s, pre, x, n, j, i) == s.engine.sample(pre + Frames(s, x, n, k + 1), Heard(s, j), i - AEC * k) * 64.0
    {
      hide Frames;
      forall j, i | 0 <= j < |s.mics| && AEC * k <= i < AEC * (k + 1)
        ensures Sample(s, pre, x, n, j, i) == s.engine.sample(pre + Frames(s, x, n, k + 1), Heard(s, j), i - AEC * k) * 64.0
      {
        assert i / AEC == k && i % AEC == i - AEC * k;
      }
    }

    /** processfrm, when the held input is frame k of x. */
    method ProcessFrm(ghost x: Block, ghost n: nat, ghost k: nat) returns (rt: int)
      requires Shape() && Rows(x, s.micNum, n) && AEC * (k + 1) <= n && OutOk(x, n, AEC * k)
      requires forall j, i :: 0 <= j < |s.mics| && 0 <= i < AEC ==> dataIn[s.mics[j], i] == x[s.mics[j]][AEC * k + i]
      requires forall j, i :: 0 <= j < |s.refs| && 0 <= i < AEC ==> dataIn[s.refs[j], i] == x[s.refs[j]][AEC * k + i]
      requires lenOut + AEC <= dataOut.Length1
      modifies this`fed, this`lenOut, dataOut
      ensures OutOk(x, n, AEC * (k + 1)) && lenOut == old(lenOut) + AEC
      ensures rt == s.engine.status(fed)
    {
      hide Frames, FrameAt, Sample, Rows, OutIs;
      var refs := ScaleFrame(s.refs);
      var mics := ScaleFrame(s.mics);
      FrameHeld(x, n, k, refs, mics);
      FramesStep(x, n, k);
      fed := fed + [Frame(refs, mics)];
      rt := s.engine.status(fed);
      PutOutBehind(x, n);
      FrameOut(x, n, k);
      lenOut := lenOut + AEC;
    }

    lemma FrameOut(x: Block, n: nat, k: nat)
      requires Shape() && Rows(x, s.micNum, n) && AEC * (k + 1) <= n && start + lenOut == AEC * k
      requires lenOut + AEC <= dataOut.Length1 && fed == pre + Frames(s, x, n, k + 1)
      requires forall j, i :: 0 <= j < |s.mics| && 0 <= i < AEC ==>
        dataOut[s.mics[j], lenOut + i] == s.engine.sample(fed, Heard(s, j), i) * 64.0
      requires OutIs(x, n, start, lenOut)
      ensures OutIs(x, n, start, lenOut + AEC)
    {
      hide Frames, Sample;
      NewSamples(x, n, k);
      forall j, i | 0 <= j < |s.mics| && 0 <= i < lenOut + AEC
        ensures dataOut[s.mics[j], i] == Sample(s, pre, x, n, j, start + i)
      {
        if i >= lenOut { assert dataOut[s.mics[j], i] == dataOut[s.mics[j], lenOut + (i - lenOut)]; }
      }
    }

    lemma FramesStep(x: Block, n: nat, k: nat)
      requires SetupOk(s) && Rows(x, s.micNum, n) && AEC * (k + 1) <= n
      ensures Frames(s, x, n, k + 1) == Frames(s, x, n, k) + [FrameAt(s, x, n, k)]
    {
    }

    /** The output that was not returned moves to the front, for all channels. */
    method KeepRest(left: nat)
      requires Shape() && lenOut <= dataOut.Length1 && left == lenOut % OUT
      modifies dataOut
      ensures forall j, i :: 0 <= j < |s.mics| && 0 <= i < left ==>
        dataOut[s.mics[j], i] == old(dataOut[s.mics[j], lenOut - left + i])
    {
      LeftFits(lenOut);
      Shift(s.mics, left);
      label L:
      Shift(s.refs, left);
      forall j, i | 0 <= j < |s.mics| && 0 <= i < left
        ensures dataOut[s.mics[j], i] == old(dataOut[s.mics[j], lenOut - left + i])
      {
        if s.mics[j] in s.refs {
          var h :| 0 <= h < |s.refs| && s.refs[h] == s.mics[j];
          assert dataOut[s.refs[h], i] == old@L(dataOut[s.refs[h], lenOut - left + i]);
        }
      }
    }

    method KeepRestOf(left: nat, ghost x: Block, ghost n: nat)
      requires Shape() && lenOut <= dataOut.Length1 && left == lenOut % OUT
      requires Rows(x, s.micNum, n) && start + lenOut <= AEC * (n / AEC) && OutIs(x, n, start, lenOut)
      modifies dataOut
      ensures OutIs(x, n, start + (lenOut - left), left)
    {
      hide Sample, Rows;
      KeepRest(left);
      ghost var gap := lenOut - left;
      forall j, i | 0 <= j < |s.mics| && 0 <= i < left
        ensures dataOut[s.mics[j], i] == Sample(s, pre, x, n, j, start + gap + i)
      {
        assert old(dataOut[s.mics[j], gap + i]) == Sample(s, pre, x, n, j, start + (gap + i));
      }
    }

    /** The start of process: only what was not returned is kept. */
    method DropReturned()
      requires Valid()
      modifies this`lenOut, this`start, dataOut
      ensures Valid() && start == Returned(total) && lenOut < OUT
    {
      hide Frames, Sample, Rows, Returned, InOk, OutIs;
      var left := lenOut % OUT;
      ReturnedIs(start, lenOut, total);
      KeepRestOf(left, input, total);
      start := start + (lenOut - left);
      lenOut := left;
    }

    /** ... and there is room. */
    method Prepare(n: nat)
      requires Valid()
      modifies this`dataOut, this`lenOut, this`start, dataOut
      ensures Valid() && start == Returned(total) && lenOut < OUT && (dataOut == old(dataOut) || fresh(dataOut))
      ensures n + lenIn + lenOut <= dataOut.Length1
    {
      hide Frames, Sample, Rows;
      DropReturned();
      Grow(n + lenIn + lenOut);
    }

    /** Both memcpy loops: the held input goes on with the block. */
    method TakeBoth(block: Block, n: nat, cur: nat, ll: nat, ghost x: Block, ghost t: nat)
      requires Shape() && Rows(block, s.micNum, n) && Rows(x, s.micNum, t + n) && cur + ll <= n && lenIn + ll <= AEC
      requires InOk(x, t + n, t + cur, s.mics) && InOk(x, t + n, t + cur, s.refs)
      requires forall m, i :: 0 <= m < s.micNum && 0 <= i < n ==> x[m][t + i] == block[m][i]
      modifies dataIn
      ensures Held(x, t + n, t + cur - lenIn, lenIn + ll, s.mics) && Held(x, t + n, t + cur - lenIn, lenIn + ll, s.refs)
    {
      TakeIn(s.mics, block, n, cur, ll);
      TakeIn(s.refs, block, n, cur, ll);
      forall j, i | 0 <= j < |s.mics| && 0 <= i < lenIn + ll
        ensures dataIn[s.mics[j], i] == x[s.mics[j]][t + cur - lenIn + i]
      {
        if i >= lenIn { assert x[s.mics[j]][t + (cur + i - lenIn)] == block[s.mics[j]][cur + i - lenIn]; }
      }
      forall j, i | 0 <= j < |s.refs| && 0 <= i < lenIn + ll
        ensures dataIn[s.refs[j], i] == x[s.refs[j]][t + cur - lenIn + i]
      {
        if i >= lenIn { assert x[s.refs[j]][t + (cur + i - lenIn)] == block[s.refs[j]][cur + i - lenIn]; }
      }
    }

    /** The first len held samples are those of x from position at on. */
    ghost predicate Held(x: Block, n: nat, at: nat, len: nat, ids: seq<nat>)
      requires Shape() && Rows(x, s.micNum, n) && at + len <= n && len <= AEC
      requires forall j :: 0 <= j < |ids| ==> ids[j] < s.micNum
      reads this`dataIn, this`dataOut, dataIn
    {
      forall j, i :: 0 <= j < |ids| && 0 <= i < len ==> dataIn[ids[j], i] == x[ids[j]][at + i]
    }

    /** One turn of the loop of process: up to the end of the held frame. */
    method TakeSome(block: Block, n: nat, cur: nat, ghost x: Block, ghost t: nat) returns (ll: nat, done: bool, status: int)
      requires Rows(block, s.micNum, n) && cur < n && Holds(x, t + n, t + cur)
      requires forall m, i :: 0 <= m < s.micNum && 0 <= i < n ==> x[m][t + i] == block[m][i]
      requires (n - cur) + lenIn + lenOut <= dataOut.Length1
      modifies this`fed, this`lenIn, this`lenOut, dataIn, dataOut
      ensures 0 < ll <= n - cur && Holds(x, t + n, t + cur + ll)
      ensures (n - cur - ll) + lenIn + lenOut <= dataOut.Length1
      ensures done == ((t + cur + ll) / AEC != (t + cur) / AEC) && (done ==> status == s.engine.status(fed))
      ensures !done ==> fed == old(fed)
      ensures (t + cur) % AEC + ll <= AEC
    {
      hide Frames, Sample, Rows;
      ll := if AEC - lenIn <= n - cur then AEC - lenIn else n - cur;
      Boundary(t + cur, ll);
      TakeBoth(block, n, cur, ll, x, t);
      lenIn := lenIn + ll;
      done, status := false, 0;
      if lenIn == AEC {
        status := ProcessFrm(x, t + n, (t + cur) / AEC);
        done := true;
        lenIn := 0;
      }
    }

    /** The samples of one microphone that the call returns. */
    ghost predicate Returns(j: nat, len: nat, part: seq<real>)
      requires Shape() && j < |s.mics| && len == |part| <= dataOut.Length1
      reads this`dataIn, this`dataOut, dataOut
    {
      forall i :: 0 <= i < len ==> dataOut[s.mics[j], i] == part[i]
    }

    /** The engine gave status 0 for one of the frames after the first `from`. */
    ghost predicate AnyZero(x: Block, n: nat, from: nat, to: nat)
      requires Shape() && Rows(x, s.micNum, n) && AEC * to <= n
      reads this`pre, this`dataIn, this`dataOut
    {
      exists k :: from < k <= to && s.engine.status(pre + Frames(s, x, n, k)) == 0
    }

    /** The loop of process. */
    method TakeAll(block: Block, n: nat, ghost x: Block, ghost t: nat) returns (rt: int)
      requires Rows(block, s.micNum, n) && Holds(x, t + n, t) && n + lenIn + lenOut <= dataOut.Length1
      requires forall m, i :: 0 <= m < s.micNum && 0 <= i < n ==> x[m][t + i] == block[m][i]
      modifies this`fed, this`lenIn, this`lenOut, dataIn, dataOut
      ensures Holds(x, t + n, t + n)
      ensures rt == if AnyZero(x, t + n, t / AEC, (t + n) / AEC) then 1 else 0
    {
      hide Frames, Sample, Rows, InOk;
      rt := 0;
      var cur := 0;
      while cur < n
        invariant 0 <= cur <= n && Holds(x, t + n, t + cur)
        invariant (n - cur) + lenIn + lenOut <= dataOut.Length1
        invariant rt == if AnyZero(x, t + n, t / AEC, (t + cur) / AEC) then 1 else 0
      {
        var ll, done, status := TakeSome(block, n, cur, x, t);
        OneMore(t + cur, ll, done);
        if done && status == 0 { rt := 1; }
        cur := cur + ll;
      }
    }

    lemma Shapes()
      requires Valid()
      ensures Shape() && Rows(input, s.micNum, total)
    {
    }

    /** Nothing is lost: what came in was returned, or is held as output or as input. */
    lemma Conservation()
      requires Valid()
      ensures total == Returned(total) + lenOut % OUT + lenIn
      ensures Returned(total) % OUT == 0
    {
      ReturnedIs(start, lenOut, total);
      Whole(total, AEC);
    }

    /** process: returns for every microphone the engine's output from what had been
        returned before to what is returned now, and nothing is written out of bounds. */
    method Process(block: Block, n: nat) returns (lenRet: nat, rt: int)
      requires Valid() && Rows(block, s.micNum, n)
      modifies this, dataIn, dataOut
      ensures Valid() && (dataOut == old(dataOut) || fresh(dataOut)) && dataIn == old(dataIn)
      ensures total == old(total) + n && input == Appended(old(input), block) && pre == old(pre)
      ensures Returned(old(total)) + lenRet == Returned(total) && lenRet <= dataOut.Length1
      ensures forall j :: 0 <= j < |s.mics| ==>
        Returns(j, lenRet, Output(s, pre, input, total, j)[Returned(old(total))..Returned(total)])
      ensures rt == if AnyZero(input, total, old(total) / AEC, total / AEC) then 1 else 0
    {
      hide Frames, Sample, Returned, Output, Returns, InOk, OutOk;
      Prepare(n);
      ghost var x, t := Appended(input, block), total;
      Carried(block, n);
      AppendedAt(block, n);
      rt := TakeAll(block, n, x, t);
      input, total := x, t + n;
      lenRet := lenOut / OUT * OUT;
      HandsOut(t);
    }

    lemma AppendedAt(block: Block, n: nat)
      requires SetupOk(s) && Rows(input, s.micNum, total) && Rows(block, s.micNum, n)
      ensures forall m, i :: 0 <= m < s.micNum && 0 <= i < n ==> Appended(input, block)[m][total + i] == block[m][i]
    {
    }

    /** At the end of process the front of dataOut is what is due. */
    lemma HandsOut(t: nat)
      requires Valid() && start == Returned(t) && t <= total
      ensures var len := lenOut / OUT * OUT;
        && Returned(t) + len == Returned(total) <= AEC * (total / AEC) && len <= dataOut.Length1
        && forall j :: 0 <= j < |s.mics| ==>
             Returns(j, len, Output(s, pre, input, total, j)[Returned(t)..Returned(total)])
    {
      hide Frames, Sample, Rows, InOk;
      ReturnedIs(start, lenOut, total);
      RoundDown(start, lenOut, start + lenOut);
    }

    /** What is held for the input so far is held for the longer input. */
    lemma Carried(block: Block, n: nat)
      requires Valid() && Rows(block, s.micNum, n)
      ensures Holds(Appended(input, block), total + n, total)
    {
      hide Sample;
      var x := Appended(input, block);
      FramesCausal(s, input, total, block, n, total / AEC);
      forall j, p | 0 <= j < |s.mics| && 0 <= p < AEC * (total / AEC)
        ensures Sample(s, pre, x, total + n, j, p) == Sample(s, pre, input, total, j, p)
      {
        SampleCausal(s, pre, input, total, block, n, j, p);
      }
    }
  }

  lemma SampleCausal(s: Setup, pre: seq<Frame>, x: Block, t: nat, y: Block, n: nat, j: nat, p: nat)
    requires SetupOk(s) && Rows(x, s.micNum, t) && Rows(y, s.micNum, n) && p < AEC * (t / AEC)
    ensures Rows(Appended(x, y), s.micNum, t + n) && p < AEC * ((t + n) / AEC)
    ensures Sample(s, pre, Appended(x, y), t + n, j, p) == Sample(s, pre, x, t, j, p)
  {
    FramesCausal(s, x, t, y, n, p / AEC + 1);
  }

  lemma OneMore(t: nat, ll: nat, done: bool)
    requires t % AEC + ll <= AEC && done == ((t + ll) / AEC != t / AEC)
    ensures (t + ll) / AEC == t / AEC + if done then 1 else 0
  {
    Boundary(t, ll);
  }

  lemma LeftFits(n: nat)
    ensures n % OUT == n || 2 * (n % OUT) <= n
  {
  }

  lemma ReturnedIs(start: nat, lenOut: nat, t: nat)
    requires start % OUT == 0 && start + lenOut == AEC * (t / AEC)
    ensures start + (lenOut - lenOut % OUT) == Returned(t) && Returned(t) % OUT == 0
  {
    RoundDown(start, lenOut, AEC * (t / AEC));
  }

  lemma RoundDown(start: nat, lenOut: nat, n: nat)
    requires start % OUT == 0 && start + lenOut == n
    ensures start + (lenOut - lenOut % OUT) == OUT * (n / OUT) && OUT * (n / OUT) % OUT == 0
    ensures lenOut - lenOut % OUT == lenOut / OUT * OUT
  {
    var q := start / OUT;
    assert n / OUT == q + lenOut / OUT;
  }

  /** At most up to the end of a frame. */
  lemma Boundary(t: nat, ll: nat)
    requires t % AEC + ll <= AEC
    ensures if t % AEC + ll == AEC then (t + ll) / AEC == t / AEC + 1 && (t + ll) % AEC == 0 && t + ll == AEC * (t / AEC + 1)
      else (t + ll) / AEC == t / AEC && (t + ll) % AEC == t % AEC + ll
    ensures t == AEC * (t / AEC) + t % AEC
  {
  }

  // ---- Many calls ---------------------------------------------------------------

  /** What the caller reads of one microphone after a call. */
  method ReadOut(aec: R2memAec, j: nat, len: nat, ghost part: seq<real>) returns (row: seq<real>)
    requires aec.Shape() && j < |aec.s.mics| && len == |part| <= aec.dataOut.Length1 && aec.Returns(j, len, part)
    ensures row == part
  {
    row := [];
    for i := 0 to len
      invariant row == part[..i]
    {
      row := row + [aec.dataOut[aec.s.mics[j], i]];
    }
  }

  method ReadAll(aec: R2memAec, len: nat, ghost from: nat, audio: seq<seq<real>>) returns (more: seq<seq<real>>)
    requires aec.Shape() && Rows(aec.input, aec.s.micNum, aec.total) && |audio| == |aec.s.mics|
    requires from + len <= AEC * (aec.total / AEC) && len <= aec.dataOut.Length1
    requires forall j :: 0 <= j < |audio| ==>
      aec.Returns(j, len, Output(aec.s, aec.pre, aec.input, aec.total, j)[from..from + len])
    ensures |more| == |audio|
    ensures forall j :: 0 <= j < |more| ==>
      more[j] == audio[j] + Output(aec.s, aec.pre, aec.input, aec.total, j)[from..from + len]
  {
    hide Output, R2memAec.Returns;
    more := [];
    for j := 0 to |audio|
      invariant |more| == j
      invariant forall h :: 0 <= h < j ==> more[h] == audio[h] + Output(aec.s, aec.pre, aec.input, aec.total, h)[from..from + len]
    {
      var row := ReadOut(aec, j, len, Output(aec.s, aec.pre, aec.input, aec.total, j)[from..from + len]);
      more := more + [audio[j] + row];
    }
  }

  lemma OnePiece(s: Setup, pre: seq<Frame>, pieces: seq<Piece>, piece: Piece)
    requires SetupOk(s) && PiecesOk(s, pieces) && Rows(piece.block, s.micNum, piece.n)
    ensures var all := pieces + [piece];
      && PiecesOk(s, all) && Total(all) == Total(pieces) + piece.n && Joined(s, all) == Appended(Joined(s, pieces), piece.block)
      && Returned(Total(pieces)) <= Returned(Total(all)) <= AEC * (Total(all) / AEC)
      && forall j :: Collected(s, pre, all, j) == Collected(s, pre, pieces, j)
                     + Output(s, pre, Joined(s, all), Total(all), j)[Returned(Total(pieces))..Returned(Total(all))]
  {
    hide Output, Returned, Appended;
    var all := pieces + [piece];
    assert all[..|all| - 1] == pieces;
    ReturnedGrows(Total(pieces), piece.n);
  }

  /** One call, and what it returned goes behind what the earlier ones returned. */
  method ProcessPiece(aec: R2memAec, piece: Piece, audio: seq<seq<real>>, ghost pieces: seq<Piece>) returns (more: seq<seq<real>>)
    requires aec.Valid() && PiecesOk(aec.s, pieces) && Rows(piece.block, aec.s.micNum, piece.n)
    requires aec.input == Joined(aec.s, pieces) && aec.total == Total(pieces)
    requires |audio| == |aec.s.mics| && forall j :: 0 <= j < |audio| ==> audio[j] == Collected(aec.s, aec.pre, pieces, j)
    modifies aec, aec.dataIn, aec.dataOut
    ensures aec.Valid() && PiecesOk(aec.s, pieces + [piece]) && aec.pre == old(aec.pre)
    ensures (aec.dataOut == old(aec.dataOut) || fresh(aec.dataOut)) && aec.dataIn == old(aec.dataIn)
    ensures aec.input == Joined(aec.s, pieces + [piece]) && aec.total == Total(pieces + [piece])
    ensures |more| == |audio|
    ensures forall j :: 0 <= j < |more| ==> more[j] == Collected(aec.s, aec.pre, pieces + [piece], j)
  {
    hide Output, Returned, Joined, Total, Collected, Appended, R2memAec.Holds, R2memAec.Returns, PiecesOk;
    ghost var all := pieces + [piece];
    aec.Shapes();
    OnePiece(aec.s, aec.pre, pieces, piece);
    var lenRet, rt := aec.Process(piece.block, piece.n);
    aec.Shapes();
    ReturnedGrows(Total(all), 0);
    more := ReadAll(aec, lenRet, Returned(Total(pieces)), audio);
  }

  /** A whole recording, from a reset on, in blocks of any sizes: every microphone has got
      the beginning of the engine's output for the whole of it, and every sample that came
      in has been returned or is held. */
  method ProcessAll(aec: R2memAec, pieces: seq<Piece>) returns (audio: seq<seq<real>>)
    requires aec.Valid() && aec.total == 0 && PiecesOk(aec.s, pieces)
    modifies aec, aec.dataIn, aec.dataOut
    ensures aec.Valid() && aec.pre == old(aec.pre) && aec.total == Total(pieces)
    ensures |audio| == |aec.s.mics| && Returned(Total(pieces)) <= AEC * (Total(pieces) / AEC)
    ensures forall j :: 0 <= j < |audio| ==>
      audio[j] == Output(aec.s, aec.pre, Joined(aec.s, pieces), Total(pieces), j)[..Returned(Total(pieces))]
    ensures forall j :: 0 <= j < |audio| ==> |audio[j]| + aec.lenOut % OUT + aec.lenIn == Total(pieces)
  {
    hide Output, Returned, Collected, Joined;
    audio := seq(|aec.s.mics|, _ => []);
    NoPieces(aec.s, aec.pre, aec.input);
    assert pieces[..0] == [];
    for k := 0 to |pieces|
      invariant aec.Valid() && aec.pre == old(aec.pre) && aec.dataIn == old(aec.dataIn)
      invariant aec.dataOut == old(aec.dataOut) || fresh(aec.dataOut)
      invariant PiecesOk(aec.s, pieces[..k]) && aec.input == Joined(aec.s, pieces[..k]) && aec.total == Total(pieces[..k])
      invariant |audio| == |aec.s.mics|
      invariant forall j :: 0 <= j < |audio| ==> audio[j] == Collected(aec.s, aec.pre, pieces[..k], j)
    {
      assert pieces[..k + 1] == pieces[..k] + [pieces[k]];
      audio := ProcessPiece(aec, pieces[k], audio, pieces[..k]);
    }
    assert pieces[..|pieces|] == pieces;
    ReturnedGrows(Total(pieces), 0);
    forall j | 0 <= j < |audio|
      ensures audio[j] == Output(aec.s, aec.pre, Joined(aec.s, pieces), Total(pieces), j)[..Returned(Total(pieces))]
    {
      AnySplitting(aec.s, aec.pre, pieces, j);
    }
    aec.Conservation();
  }

  lemma NoPieces(s: Setup, pre: seq<Frame>, input: Block)
    requires SetupOk(s) && Rows(input, s.micNum, 0)
    ensures input == Joined(s, []) && forall j :: Collected(s, pre, [], j) == []
  {
  }
}
