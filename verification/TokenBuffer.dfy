/** The bridge between the producer of pieces and the consumer that streams them
    (`src/server/jobs/token_buffer.hpp`). One method is one critical section. */
module TokenBuffer {
  import opened Strings

  /** What a buffer has been through: `accepted` and `pulled` are all pieces that ever went in and
      came out. */
  datatype Stream = Stream(pieces: seq<string>, done: bool, cancelled: bool, accepted: seq<string>, pulled: seq<string>)

  const EMPTY := Stream([], false, false, [], [])

  function Push(s: Stream, piece: string): Stream {
    if s.cancelled || s.done then s else s.(pieces := s.pieces + [piece], accepted := s.accepted + [piece])
  }

  function SetDone(s: Stream): Stream {
    s.(done := true)
  }

  function Cancel(s: Stream): Stream {
    s.(cancelled := true, done := true)
  }

  /** A consumer only wakes when there is a piece or there will be no more. */
  predicate CanPull(s: Stream) {
    s.pieces != [] || s.done || s.cancelled
  }

  function Pull(s: Stream): (Stream, Option<string>) {
    if s.pieces != [] then (s.(pieces := s.pieces[1..], pulled := s.pulled + [s.pieces[0]]), Some(s.pieces[0]))
    else (s, None)
  }

  function PullAll(s: Stream): Stream {
    s.(pieces := [], pulled := s.pulled + s.pieces)
  }

  /** Nothing is lost, doubled or reordered on the way, and a cancelled buffer is done. */
  predicate Valid(s: Stream) {
    s.accepted == s.pulled + s.pieces && (s.cancelled ==> s.done)
  }

  lemma StepsKeepOrder(s: Stream, piece: string)
    requires Valid(s)
    ensures Valid(Push(s, piece)) && Valid(SetDone(s)) && Valid(Cancel(s)) && Valid(Pull(s).0) && Valid(PullAll(s))
    ensures s.pulled <= s.accepted
  {
    assert s.pulled + (s.pieces + [piece]) == s.pulled + s.pieces + [piece];
    if s.pieces != [] {
      assert s.pieces == [s.pieces[0]] + s.pieces[1..];
      assert s.pulled + [s.pieces[0]] + s.pieces[1..] == s.pulled + s.pieces;
    }
    assert s.pulled + s.pieces + [] == s.pulled + s.pieces;
  }

  /** An end of stream is final: it only comes once the buffer is done and drained, and after it no
      push gets in and every pull ends the stream again. */
  lemma EndIsFinal(s: Stream, piece: string)
    requires Valid(s) && CanPull(s) && Pull(s).1 == None
    ensures s.done && s.pulled == s.accepted && Push(s, piece) == s
    ensures Pull(SetDone(s)).1 == None && Pull(Cancel(s)).1 == None && PullAll(s) == s
  {
    assert s.pulled + [] == s.pulled;
  }

  // ---------------------------------------------------------------------------------------
  // Whole runs
  // ---------------------------------------------------------------------------------------

  datatype Op = Pushed(piece: string) | Ended | CutOff | PulledOne | PulledAll

  function Apply(s: Stream, op: Op): Stream {
    match op
    case Pushed(piece) => Push(s, piece)
    case Ended => SetDone(s)
    case CutOff => Cancel(s)
    case PulledOne => if CanPull(s) then Pull(s).0 else s
    case PulledAll => PullAll(s)
  }

  function Run(ops: seq<Op>): Stream
    decreases |ops|
  {
    if ops == [] then EMPTY else Apply(Run(ops[..|ops| - 1]), ops[|ops| - 1])
  }

  predicate Closed(ops: seq<Op>) {
    Ended in ops || CutOff in ops
  }

  /** The pieces that were pushed before the stream was closed. */
  function Sent(ops: seq<Op>): seq<string>
    decreases |ops|
  {
    if ops == [] then []
    else
      var before, op := ops[..|ops| - 1], ops[|ops| - 1];
      Sent(before) + if op.Pushed? && !Closed(before) then [op.piece] else []
  }

  /** Whatever is done to a buffer in whatever order: what came out and what still waits are the pieces
      that were pushed before it was closed, in their order. */
  lemma {:induction false} RunDelivers(ops: seq<Op>)
    ensures var s := Run(ops);
      && s.pulled + s.pieces == Sent(ops)
      && (s.done <==> Closed(ops)) && (s.cancelled <==> CutOff in ops)
    decreases |ops|
  {
    if ops != [] {
      var n := |ops| - 1;
      var before, op, s := ops[..n], ops[n], Run(ops[..n]);
      assert ops == before + [op];
      RunDelivers(before);
      if op.Pushed? {
        assert s.pulled + (s.pieces + [op.piece]) == s.pulled + s.pieces + [op.piece];
      }
      if s.pieces != [] {
        assert s.pieces == [s.pieces[0]] + s.pieces[1..];
        assert s.pulled + [s.pieces[0]] + s.pieces[1..] == s.pulled + s.pieces;
      }
      assert s.pulled + s.pieces + [] == s.pulled + s.pieces;
    }
  }

  /** A pull hands out the oldest piece that waits, and none only when none waits; taking all hands out
      all of them. Nothing handed out waits any longer. */
  lemma PullsHandOut(s: Stream)
    ensures var (after, piece) := Pull(s);
      && (piece == None <==> s.pieces == []) && (piece == None ==> after == s)
      && (piece != None ==> s.pieces == [piece.value] + after.pieces && after.pulled == s.pulled + [piece.value])
    ensures PullAll(s).pieces == [] && PullAll(s).pulled == s.pulled + s.pieces
    ensures CanPull(s) <==> s.pieces != [] || s.done || s.cancelled
  {
  }

  class Buffer {
    var pieces: seq<string>
    var done: bool
    var cancelled: bool
    ghost var accepted: seq<string>
    ghost var pulled: seq<string>

    ghost function Value(): Stream
      reads this
    {
      Stream(pieces, done, cancelled, accepted, pulled)
    }

    constructor ()
      ensures Value() == EMPTY
    {
      pieces, done, cancelled := [], false, false;
      accepted, pulled := [], [];
    }

    method PushPiece(piece: string)
      modifies this
      ensures Value() == Push(old(Value()), piece)
    {
      if cancelled || done {
        return;
      }
      pieces := pieces + [piece];
      accepted := accepted + [piece];
    }

    method Finish()
      modifies this
      ensures Value() == SetDone(old(Value()))
    {
      done := true;
    }

    method CancelStream()
      modifies this
      ensures Value() == Cancel(old(Value()))
    {
      cancelled := true;
      done := true;
    }

    /** The consumer holds the lock and has been woken. */
    method WaitPull() returns (piece: Option<string>)
      requires CanPull(Value())
      modifies this
      ensures (Value(), piece) == Pull(old(Value()))
    {
      if pieces != [] {
        piece := Some(pieces[0]);
        pulled := pulled + [pieces[0]];
        pieces := pieces[1..];
        return;
      }
      piece := None;
    }

    method PullAvailable() returns (out: seq<string>, outDone: bool)
      modifies this
      ensures Value() == PullAll(old(Value())) && out == old(pieces) && outDone == done
    {
      out := [];
      ghost var were, taken := pieces, pulled;
      assert were[0..] == were;
      while pieces != []
        invariant |out| <= |were| && out == were[..|out|] && pieces == were[|out|..] && pulled == taken + out
        invariant done == old(done) && cancelled == old(cancelled) && accepted == old(accepted)
        decreases |pieces|
      {
        out := out + [pieces[0]];
        pulled := pulled + [pieces[0]];
        pieces := pieces[1..];
      }
      assert out == were;
      outDone := done && pieces == [];
    }
  }
}
