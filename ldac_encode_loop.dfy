// The frame loop of the LDAC encode path: pull one chunk of PCM, hand it to
// the opaque encoder, release the chunk, and repeat until the encoder has
// produced a frame or the PCM budget or the output room is used up.
//
// The encoder is outside this model. Its answers to successive calls are a
// script `replies`; the glue asserts of each successful answer that it
// consumed exactly the chunk it was given and wrote no more than the room
// left, and `Honours` states that, together with the script being long
// enough for the loop to end.

module LdacEncodeLoop {
  import opened LdacTypes

  /** One answer of `ldacBT_encode`: a negative return code, or the PCM bytes
      consumed, the codec bytes written and the number of frames produced. */
  datatype EncodeReply = EncodeError | Encoded(consumed: nat, bytes: seq<bv8>, frames: uint32)

  /** The PCM source callbacks the loop makes, `read_pcm` and `read_buf_free`. */
  datatype PcmCall = ReadPcm(bytes: size_t) | FreeReadBuffer

  /** The loop's variables: the PCM budget left, the output room left, the
      frames produced, the PCM bytes consumed, the codec bytes written and the
      number of encoder calls made. */
  datatype LoopState = LoopState(toEncode: size_t, toWrite: nat, frameCount: uint32,
                                 encoded: size_t, payload: seq<bv8>, calls: nat)

  datatype LoopOutcome = LoopFailed(calls: nat) | LoopDone(state: LoopState)
  {
    function Calls(): nat {
      match this
      case LoopFailed(n) => n
      case LoopDone(s) => s.calls
    }
  }

  /** The state before the first iteration. */
  function Start(toEncode: size_t, toWrite: nat): LoopState {
    LoopState(toEncode, toWrite, 0, 0, [], 0)
  }

  /** The loop guard: budget and room left, and no frame produced yet. */
  predicate Continues(s: LoopState) {
    s.toEncode > 0 && s.toWrite > 0 && s.frameCount == 0
  }

  /** The reply meets the contract the glue asserts for one call. */
  predicate Acceptable(r: EncodeReply, s: LoopState, encRead: size_t) {
    r.Encoded? ==> r.consumed == encRead && |r.bytes| <= s.toWrite
  }

  /** One successful iteration; the subtraction from the budget is a `size_t`
      subtraction and wraps when the budget is smaller than the read. */
  function Step(s: LoopState, r: EncodeReply, encRead: size_t): (s': LoopState)
    requires r.Encoded? && Acceptable(r, s, encRead)
    ensures s'.calls == s.calls + 1
    ensures s'.payload == s.payload + r.bytes
    ensures s'.frameCount == (s.frameCount + r.frames) % UINT32_MOD
    ensures s'.encoded == (s.encoded + r.consumed) % SIZE_T_MOD
    ensures |s.payload| <= |s'.payload| && s'.payload[..|s.payload|] == s.payload
    ensures |s'.payload| + s'.toWrite == |s.payload| + s.toWrite
    ensures encRead <= s.toEncode ==> s'.toEncode + encRead == s.toEncode
  {
    LoopState(SizeSub(s.toEncode, r.consumed),
              s.toWrite - |r.bytes|,
              (s.frameCount + r.frames) % UINT32_MOD,
              (s.encoded + r.consumed) % SIZE_T_MOD,
              s.payload + r.bytes,
              s.calls + 1)
  }

  /** Every reply the loop asks for exists and meets the asserted contract. */
  predicate Honours(replies: seq<EncodeReply>, encRead: size_t, s: LoopState)
    decreases |replies|
  {
    Continues(s) ==>
      && |replies| > 0
      && Acceptable(replies[0], s, encRead)
      && (replies[0].Encoded? ==> Honours(replies[1..], encRead, Step(s, replies[0], encRead)))
  }

  /** What the loop computes: it stops on the first encoder error, or when
      the guard fails, with the state it reached. */
  function RunLoop(replies: seq<EncodeReply>, encRead: size_t, s: LoopState): (o: LoopOutcome)
    requires Honours(replies, encRead, s)
    ensures s.calls <= o.Calls() <= s.calls + |replies|
    ensures o.LoopDone? ==> !Continues(o.state)
    ensures !Continues(s) <==> o == LoopDone(s)
    decreases |replies|
  {
    if !Continues(s) then LoopDone(s)
    else
      match replies[0]
      case EncodeError => LoopFailed(s.calls + 1)
      case Encoded(_, _, _) => RunLoop(replies[1..], encRead, Step(s, replies[0], encRead))
  }

  /** The callbacks of `calls` iterations: each read of `n` bytes followed by
      the release of that buffer, in strict pairs. */
  function PairedCalls(n: size_t, calls: nat): (r: seq<PcmCall>)
    ensures |r| == 2 * calls
    ensures forall i | 0 <= i < |r| :: r[i] == if i % 2 == 0 then ReadPcm(n) else FreeReadBuffer
  {
    if calls == 0 then [] else PairedCalls(n, calls - 1) + [ReadPcm(n), FreeReadBuffer]
  }

  /** The loop of `pa_ldac_encode`. */
  method EncodeFrames(replies: seq<EncodeReply>, budget: size_t, room: nat, encRead: size_t)
    returns (outcome: LoopOutcome, pcmCalls: seq<PcmCall>)
    requires Honours(replies, encRead, Start(budget, room))
    ensures outcome == RunLoop(replies, encRead, Start(budget, room))
    ensures pcmCalls == PairedCalls(encRead, outcome.Calls())
  {
    var toEncode: size_t, toWrite: nat, frameCount: uint32 := budget, room, 0;
    var encoded: size_t, payload: seq<bv8> := 0, [];
    var k: nat := 0;
    pcmCalls := [];
    while toEncode > 0 && toWrite > 0 && frameCount == 0
      invariant k <= |replies|
      invariant Honours(replies[k..], encRead, LoopState(toEncode, toWrite, frameCount, encoded, payload, k))
      invariant RunLoop(replies[k..], encRead, LoopState(toEncode, toWrite, frameCount, encoded, payload, k))
                == RunLoop(replies, encRead, Start(budget, room))
      invariant pcmCalls == PairedCalls(encRead, k)
      decreases |replies| - k
    {
      ghost var s := LoopState(toEncode, toWrite, frameCount, encoded, payload, k);
      pcmCalls := pcmCalls + [ReadPcm(encRead)];
      var reply := replies[k];
      pcmCalls := pcmCalls + [FreeReadBuffer];
      if reply.EncodeError? {
        outcome := LoopFailed(k + 1);
        return;
      }
      encoded := (encoded + reply.consumed) % SIZE_T_MOD;
      toEncode := SizeSub(toEncode, reply.consumed);
      payload := payload + reply.bytes;
      toWrite := toWrite - |reply.bytes|;
      frameCount := (frameCount + reply.frames) % UINT32_MOD;
      k := k + 1;
      assert replies[k..] == replies[k - 1..][1..];
      assert LoopState(toEncode, toWrite, frameCount, encoded, payload, k) == Step(s, reply, encRead);
    }
    outcome := LoopDone(LoopState(toEncode, toWrite, frameCount, encoded, payload, k));
  }

  // ---------------------------------------------------------------------
  // Properties of the loop

  /** The codec bytes written extend what was there, and written bytes plus
      room left stay constant: the payload never exceeds the room. */
  lemma {:induction false} LoopPayloadFits(replies: seq<EncodeReply>, encRead: size_t, s: LoopState)
    requires Honours(replies, encRead, s)
    ensures var o := RunLoop(replies, encRead, s);
            o.LoopDone? ==>
              && |s.payload| <= |o.state.payload|
              && o.state.payload[..|s.payload|] == s.payload
              && |o.state.payload| + o.state.toWrite == |s.payload| + s.toWrite
  {
    if Continues(s) && replies[0].Encoded? {
      var s' := Step(s, replies[0], encRead);
      LoopPayloadFits(replies[1..], encRead, s');
      var o := RunLoop(replies, encRead, s);
      if o.LoopDone? {
        assert o.state.payload[..|s'.payload|] == s'.payload;
        assert s'.payload[..|s.payload|] == s.payload;
      }
    }
  }

  /** The loop ends without error only when its guard fails: a frame was
      produced, or the budget or the room reached zero. Every call before the
      last produced no frame, so the frame count is that of the last call. */
  lemma {:induction false} LoopStopsOnGuard(replies: seq<EncodeReply>, encRead: size_t, s: LoopState)
    requires Honours(replies, encRead, s)
    ensures var o := RunLoop(replies, encRead, s);
            && s.calls <= o.Calls() <= s.calls + |replies|
            && (o.LoopDone? ==> !Continues(o.state))
            && (Continues(s) ==> o.Calls() > s.calls)
            && (forall i | 0 <= i < o.Calls() - s.calls - 1 :: replies[i].Encoded? && replies[i].frames == 0)
            && (o.LoopDone? && o.Calls() > s.calls ==>
                  && replies[o.Calls() - s.calls - 1].Encoded?
                  && o.state.frameCount == replies[o.Calls() - s.calls - 1].frames)
  {
    if Continues(s) && replies[0].Encoded? {
      var s' := Step(s, replies[0], encRead);
      LoopStopsOnGuard(replies[1..], encRead, s');
      var o := RunLoop(replies, encRead, s);
      assert s.frameCount == 0;
      if replies[0].frames != 0 {
        assert s'.frameCount != 0;
        assert o == LoopDone(s');
      }
      forall i | 0 <= i < o.Calls() - s.calls - 1
        ensures replies[i].Encoded? && replies[i].frames == 0
      {
        if i > 0 {
          assert replies[i] == replies[1..][i - 1];
        }
      }
    }
  }

  /** When the budget is a whole number of reads, the budget is never
      underflowed: each call takes exactly one read off it, and the PCM
      consumed plus the budget left stays constant. */
  lemma {:induction false} LoopBudgetExact(replies: seq<EncodeReply>, encRead: size_t, s: LoopState, chunks: nat)
    requires Honours(replies, encRead, s)
    requires encRead > 0 && s.toEncode == chunks * encRead
    requires s.encoded + s.toEncode < SIZE_T_MOD
    ensures var o := RunLoop(replies, encRead, s);
            o.LoopDone? ==>
              && o.state.encoded + o.state.toEncode == s.encoded + s.toEncode
              && o.state.encoded == s.encoded + (o.state.calls - s.calls) * encRead
  {
    if Continues(s) && replies[0].Encoded? {
      MulSucc(chunks - 1, encRead);
      var s' := Step(s, replies[0], encRead);
      LoopBudgetExact(replies[1..], encRead, s', chunks - 1);
      var o := RunLoop(replies, encRead, s);
      if o.LoopDone? {
        MulSucc(o.state.calls - s'.calls, encRead);
      }
    }
  }

  lemma MulSucc(a: nat, b: nat)
    ensures (a + 1) * b == a * b + b
  {
  }

  /** The loop does not stop after one chunk: a first call that produces no
      frame is followed by a second one. */
  lemma NotJustOneChunk(encRead: size_t, b1: seq<bv8>, b2: seq<bv8>, budget: size_t, room: nat)
    requires encRead > 0 && budget > encRead && |b1| < room && |b1| + |b2| <= room
    ensures var replies := [Encoded(encRead, b1, 0), Encoded(encRead, b2, 1)];
            && Honours(replies, encRead, Start(budget, room))
            && RunLoop(replies, encRead, Start(budget, room)).LoopDone?
            && RunLoop(replies, encRead, Start(budget, room)).state.calls == 2
            && RunLoop(replies, encRead, Start(budget, room)).state.payload == b1 + b2
  {
    var replies := [Encoded(encRead, b1, 0), Encoded(encRead, b2, 1)];
    var s0 := Start(budget, room);
    var s1 := Step(s0, replies[0], encRead);
    var s2 := Step(s1, replies[1], encRead);
    assert replies[1..] == [replies[1]];
    assert replies[1..][1..] == [];
    assert !Continues(s2);
    assert Honours(replies[1..][1..], encRead, s2);
    assert Honours(replies[1..], encRead, s1);
    assert RunLoop(replies[1..][1..], encRead, s2) == LoopDone(s2);
    assert RunLoop(replies[1..], encRead, s1) == LoopDone(s2);
  }
}
