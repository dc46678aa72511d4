/**
  ZAudBuff: a ring buffer that keeps the most recent audio of every microphone.
*/
module AudioRing {

  /** The k-th sample from the end of the history, which is preceded by silence. */
  function Past(h: seq<real>, k: int): real { if 1 <= k <= |h| then h[|h| - k] else 0.0 }

  /** Where the ring keeps the k-th sample from the end. */
  function Slot(curPos: int, k: int, maxLen: int): int { if k <= curPos then curPos - k else curPos - k + maxLen }

  lemma PastAppended(h: seq<real>, x: seq<real>, k: int)
    requires 1 <= k
    ensures Past(h + x, k) == if k <= |x| then x[|x| - k] else Past(h, k - |x|)
  {
  }

  predicate IsBlock(block: seq<seq<real>>, micNum: nat, n: nat) {
    |block| == micNum && forall m :: 0 <= m < micNum ==> |block[m]| == n
  }

  /** A long block in which the samples that are copied, from n - micNum on, are the last ones. */
  ghost predicate Suits(block: seq<seq<real>>, micNum: nat, maxLen: nat, n: nat)
    requires IsBlock(block, micNum, n) && maxLen <= n && (micNum == 0 || maxLen <= micNum <= n)
  {
    forall m :: 0 <= m < micNum ==> block[m][n - micNum..n - micNum + maxLen] == block[m][n - maxLen..]
  }

  /** All long blocks suit exactly if the two numbers that the copy confuses are equal. */
  lemma LongBlocksSuit(micNum: nat, maxLen: nat, n: nat)
    requires 0 < maxLen <= micNum <= n
    ensures (forall block | IsBlock(block, micNum, n) :: Suits(block, micNum, maxLen, n)) <==> micNum == maxLen
  {
    if micNum > maxLen {
      var block := seq(micNum, _ => seq(n, i => if i == n - 1 then 1.0 else 0.0));
      assert IsBlock(block, micNum, n);
      assert block[0][n - micNum..n - micNum + maxLen][maxLen - 1] != block[0][n - maxLen..][maxLen - 1];
    }
  }

  class ZAudBuff {
    const micNum: nat
    const maxLen: nat
    var curPos: nat
    const audio: array2<real>
    ghost var history: seq<seq<real>>  // everything put since the last reset

    ghost predicate Shape()
      reads this`curPos
    {
      audio.Length0 == micNum && audio.Length1 == maxLen && curPos < maxLen
    }

    /** The ring holds the last maxLen samples of every microphone. */
    ghost predicate Valid()
      reads this, audio
    {
      Shape() && |history| == micNum &&
      forall m, k :: 0 <= m < micNum && 1 <= k <= maxLen ==> audio[m, Slot(curPos, k, maxLen)] == Past(history[m], k)
    }

    constructor (micNum: nat, maxLen: nat)
      requires 0 < maxLen
      ensures Valid() && this.micNum == micNum && this.maxLen == maxLen && fresh(audio)
      ensures forall m :: 0 <= m < micNum ==> history[m] == []
    {
      this.micNum, this.maxLen, curPos := micNum, maxLen, 0;
      audio := new real[micNum, maxLen]((_, _) => 0.0);
      history := seq(micNum, _ => []);
    }

    method Reset()
      requires Shape()
      modifies this, audio
      ensures Valid() && forall m :: 0 <= m < micNum ==> history[m] == []
    {
      for k := 0 to micNum
        invariant forall m, i :: 0 <= m < k && 0 <= i < maxLen ==> audio[m, i] == 0.0
      {
        forall i | 0 <= i < maxLen { audio[k, i] := 0.0; }
      }
      curPos := 0;
      history := seq(micNum, _ => []);
    }

    /** memcpy of some columns of the block to the ring, for every microphone. */
    method CopyIn(block: seq<seq<real>>, n: nat, from: nat, at: nat, len: nat)
      requires Shape() && |block| == micNum && (forall m :: 0 <= m < micNum ==> |block[m]| == n)
      requires from + len <= n && at + len <= maxLen
      modifies audio
      ensures forall m, i :: 0 <= m < micNum && 0 <= i < maxLen ==>
        audio[m, i] == if at <= i < at + len then block[m][from + i - at] else old(audio[m, i])
    {
      for k := 0 to micNum
        invariant forall m, i :: 0 <= m < k && 0 <= i < maxLen ==>
          audio[m, i] == if at <= i < at + len then block[m][from + i - at] else old(audio[m, i])
        invariant forall m, i :: k <= m < micNum && 0 <= i < maxLen ==> audio[m, i] == old(audio[m, i])
      {
        forall i | at <= i < at + len { audio[k, i] := block[k][from + i - at]; }
      }
    }

    /** The branch of PutAudio for a block that fills the ring. */
    method PutLong(block: seq<seq<real>>, n: nat)
      requires Shape() && IsBlock(block, micNum, n) && maxLen <= n && (micNum == 0 || maxLen <= micNum <= n)
      modifies this`curPos, audio
      ensures curPos == 0 && Shape()
      ensures forall m, i :: 0 <= m < micNum && 0 <= i < maxLen ==> audio[m, i] == block[m][n - micNum + i]
    {
      curPos := 0;
      if micNum > 0 {
        CopyIn(block, n, n - micNum, 0, maxLen);
      }
    }

    /** The other branch, with fewer samples than the ring holds. */
    method PutShort(block: seq<seq<real>>, n: nat)
      requires Valid() && IsBlock(block, micNum, n) && n < maxLen
      modifies this, audio
      ensures Valid() && forall m :: 0 <= m < micNum ==> history[m] == old(history[m]) + block[m]
    {
      ghost var pos, before := curPos, history;
      var len1 := if n <= maxLen - curPos then n else maxLen - curPos;
      CopyIn(block, n, 0, curPos, len1);
      curPos := curPos + len1;
      if curPos == maxLen {
        curPos := 0;
      }
      if n > len1 {
        var len2 := n - len1;
        CopyIn(block, n, len1, curPos, len2);
        curPos := curPos + len2;
      }
      history := seq(micNum, m requires 0 <= m < micNum => before[m] + block[m]);
      forall m, k | 0 <= m < micNum && 1 <= k <= maxLen
        ensures audio[m, Slot(curPos, k, maxLen)] == Past(history[m], k)
      {
        PastAppended(before[m], block[m], k);
        if k > n {
          assert Slot(curPos, k, maxLen) == Slot(pos, k - n, maxLen);
          assert old(audio[m, Slot(pos, k - n, maxLen)]) == Past(before[m], k - n);
        }
      }
    }

    /** PutAudio.  The copy of a long block stays inside the block only if there are at least
        as many microphones as the ring has places; then the ring holds the last samples of
        the history exactly for blocks that suit. */
    method PutAudio(block: seq<seq<real>>, n: nat)
      requires Valid() && IsBlock(block, micNum, n) && (n < maxLen || micNum == 0 || maxLen <= micNum <= n)
      modifies this, audio
      ensures Shape() && |history| == micNum && forall m :: 0 <= m < micNum ==> history[m] == old(history[m]) + block[m]
      ensures Valid() <==> n < maxLen || Suits(block, micNum, maxLen, n)
    {
      if n >= maxLen {
        ghost var before := history;
        PutLong(block, n);
        history := seq(micNum, m requires 0 <= m < micNum => before[m] + block[m]);
        LongIsValid(block, n, before);
      } else {
        PutShort(block, n);
      }
    }

    lemma LongIsValid(block: seq<seq<real>>, n: nat, before: seq<seq<real>>)
      requires Shape() && curPos == 0 && IsBlock(block, micNum, n) && maxLen <= n && (micNum == 0 || maxLen <= micNum <= n)
      requires |before| == |history| == micNum && forall m :: 0 <= m < micNum ==> history[m] == before[m] + block[m]
      requires forall m, i :: 0 <= m < micNum && 0 <= i < maxLen ==> audio[m, i] == block[m][n - micNum + i]
      ensures Valid() <==> Suits(block, micNum, maxLen, n)
    {
      forall m, k | 0 <= m < micNum && 1 <= k <= maxLen
        ensures audio[m, Slot(curPos, k, maxLen)] == block[m][n - micNum..n - micNum + maxLen][maxLen - k]
        ensures Past(history[m], k) == block[m][n - maxLen..][maxLen - k]
      {
        PastAppended(before[m], block[m], k);
      }
      if Valid() {
        forall m | 0 <= m < micNum ensures block[m][n - micNum..n - micNum + maxLen] == block[m][n - maxLen..] {
          var copied, due := block[m][n - micNum..n - micNum + maxLen], block[m][n - maxLen..];
          forall i | 0 <= i < maxLen ensures copied[i] == due[i] {
            assert audio[m, Slot(curPos, maxLen - i, maxLen)] == Past(history[m], maxLen - i);
          }
        }
      }
    }

    /** memcpy out of the ring, for every microphone. */
    method CopyOut(out: array2<real>, to: nat, at: nat, len: nat)
      requires Shape() && out != audio && out.Length0 == micNum && to + len <= out.Length1 && at + len <= maxLen
      modifies out
      ensures forall m, i :: 0 <= m < micNum && 0 <= i < out.Length1 ==>
        out[m, i] == if to <= i < to + len then audio[m, at + i - to] else old(out[m, i])
    {
      for k := 0 to micNum
        invariant forall m, i :: 0 <= m < k && 0 <= i < out.Length1 ==>
          out[m, i] == if to <= i < to + len then audio[m, at + i - to] else old(out[m, i])
        invariant forall m, i :: k <= m < micNum && 0 <= i < out.Length1 ==> out[m, i] == old(out[m, i])
      {
        forall i | to <= i < to + len { out[k, i] := audio[k, at + i - to]; }
      }
    }

    /** GetLastAudio: exactly the window from the last iStart to the last iEnd samples of
        the history, whether or not it wraps around the end of the ring. */
    method GetLastAudio(out: array2<real>, iStart: nat, iEnd: nat)
      requires Valid() && iEnd <= iStart < maxLen
      requires out != audio && out.Length0 == micNum && iStart - iEnd <= out.Length1
      modifies out
      ensures forall m, i :: 0 <= m < micNum && 0 <= i < iStart - iEnd ==> out[m, i] == Past(history[m], iStart - i)
      ensures forall m, i :: 0 <= m < micNum && iStart - iEnd <= i < out.Length1 ==> out[m, i] == old(out[m, i])
    {
      if iStart < curPos {
        CopyOut(out, 0, curPos - iStart, iStart - iEnd);
      } else if iEnd > curPos {
        CopyOut(out, 0, maxLen + curPos - iStart, iStart - iEnd);
      } else {
        var len1, len2 := iStart - curPos, curPos - iEnd;
        CopyOut(out, 0, maxLen - len1, len1);
        CopyOut(out, len1, 0, len2);
      }
      forall m, i | 0 <= m < micNum && 0 <= i < iStart - iEnd
        ensures out[m, i] == audio[m, Slot(curPos, iStart - i, maxLen)]
      {
      }
    }
  }
}
