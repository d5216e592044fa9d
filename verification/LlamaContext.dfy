/** The inference library as the engine sees it: one live sequence whose attention cells and
    recurrent state can each be read, cut and refused. Every choice the library is free to make
    is an unconstrained choice here, so what is proved holds for all of them. */
module LlamaContext {

  type Token = int

  /** A saved sequence: both parts of the state, and how many bytes the library used for it. */
  datatype KvImage = KvImage(attention: seq<Token>, recurrent: seq<Token>, size: nat)

  /** Bytes every encoding begins with. */
  const STATE_PREFIX: nat := 8

  class Context {
    /** Hybrid and recurrent models keep a recurrent state beside the attention cells. */
    const hybrid: bool
    const nCtx: nat
    const nBatch: int
    /** Whether the library carries out every call, and cuts the recurrent state where it is told. */
    const steady: bool
    /** Tokens behind the attention cells, and tokens the recurrent state has absorbed. */
    var attention: seq<Token>
    var recurrent: seq<Token>
    /** How many tokens successful decodes were given so far. */
    ghost var decoded: nat
    /** How many decodes the library refused so far. */
    ghost var refused: nat

    /** The live sequence is exactly `tokens`. */
    ghost predicate Holds(tokens: seq<Token>)
      reads this
    {
      attention == tokens && (hybrid ==> recurrent == tokens)
    }

    /** Both parts stand at the same place. */
    ghost predicate InStep()
      reads this
    {
      hybrid ==> recurrent == attention
    }

    constructor (hybrid: bool, nCtx: nat, nBatch: int, steady: bool)
      ensures this.hybrid == hybrid && this.nCtx == nCtx && this.nBatch == nBatch && this.steady == steady
      ensures Holds([])
    {
      this.hybrid, this.nCtx, this.nBatch, this.steady := hybrid, nCtx, nBatch, steady;
      attention, recurrent, decoded, refused := [], [], 0, 0;
    }

    /** The most tokens one decode may be given. */
    function BatchSize(): (size: nat)
      ensures size > 0 && (nBatch > 0 ==> size == nBatch)
    {
      if nBatch > 1 then nBatch else 1
    }

    /** Position of the last token every part has, or -1. */
    function PosMax(): int
      reads this
    {
      (if hybrid && |recurrent| < |attention| then |recurrent| else |attention|) - 1
    }

    /** Drop the cells from position `from` on. The call may refuse and change nothing. When it
        reports success the attention cells are cut, but the recurrent state may have fallen
        behind the cut. It is never ahead of it. */
    method SeqRm(from: nat) returns (ok: bool)
      modifies this`attention, this`recurrent
      ensures !ok ==> attention == old(attention) && recurrent == old(recurrent)
      ensures ok ==> attention == if from <= |old(attention)| then old(attention)[..from] else old(attention)
      ensures ok ==> recurrent <= old(recurrent) && |recurrent| <= from
      ensures steady ==> ok && recurrent == if from <= |old(recurrent)| then old(recurrent)[..from] else old(recurrent)
    {
      ok := *;
      ok := ok || steady;
      if ok {
        if from < |attention| {
          attention := attention[..from];
        }
        var whole := if from <= |recurrent| then from else |recurrent|;
        var left: nat :| left <= whole && (steady ==> left == whole);
        recurrent := recurrent[..left];
      }
    }

    method Clear()
      modifies this`attention, this`recurrent
      ensures attention == [] && recurrent == []
    {
      attention, recurrent := [], [];
    }

    /** Append `batch`. A failure may leave any prefix of it behind, in both parts alike. */
    method Decode(batch: seq<Token>) returns (ok: bool)
      requires 0 < |batch| <= BatchSize()
      modifies this
      ensures steady ==> ok
      ensures ok ==> attention == old(attention) + batch && recurrent == old(recurrent) + batch
      ensures decoded == old(decoded) + if ok then |batch| else 0
      ensures refused == old(refused) + if ok then 0 else 1
      ensures !ok ==> exists k :: 0 <= k <= |batch| && attention == old(attention) + batch[..k] && recurrent == old(recurrent) + batch[..k]
    {
      ok := *;
      ok := ok || steady;
      var taken: nat :| taken <= |batch| && (ok ==> taken == |batch|);
      assert batch[..|batch|] == batch;
      attention, recurrent := attention + batch[..taken], recurrent + batch[..taken];
      decoded := decoded + if ok then |batch| else 0;
      refused := refused + if ok then 0 else 1;
    }

    /** Copy the sequence out, or give up. The library chooses the size of the encoding. */
    method SeqGetData() returns (ok: bool, image: KvImage)
      ensures ok ==> image.attention == attention && image.recurrent == recurrent
      ensures steady ==> ok && image.size >= STATE_PREFIX
    {
      ok := *;
      ok := ok || steady;
      var size: nat := *;
      if steady && size < STATE_PREFIX {
        size := STATE_PREFIX;
      }
      image := KvImage(attention, recurrent, size);
    }

    /** Put a saved sequence in. A refusal may leave anything behind, as long as both parts agree. */
    method SeqSetData(image: KvImage) returns (ok: bool)
      modifies this`attention, this`recurrent
      ensures steady ==> ok
      ensures ok ==> attention == image.attention && recurrent == image.recurrent
      ensures !ok ==> InStep()
    {
      ok := *;
      ok := ok || steady;
      attention, recurrent := image.attention, image.recurrent;
      if !ok {
        attention := *;
        recurrent := attention;
      }
    }
  }
}
