/** Dropping the tail of the live sequence (`src/server/llm/kv_match.hpp`, `kv_trim.cpp`).
    Both model families run the same steps and differ in the name they log. */
module KvTrim {
  import opened LlamaContext

  /** `posMax` is the last position of the live sequence, or -1 when it is empty. */
  predicate KvTailMatches(nTokens: nat, posMax: int) {
    if nTokens == 0 then posMax < 0 else posMax >= 0 && posMax + 1 == nTokens
  }

  /** One part of a hybrid sequence stands exactly on the tokens, and the other one goes on behind them. */
  ghost predicate Lopsided(ctx: Context, tokens: seq<Token>)
    reads ctx
  {
    ctx.hybrid && ((ctx.recurrent == tokens && tokens < ctx.attention) || (ctx.attention == tokens && tokens < ctx.recurrent))
  }

  /** The check sees the shorter of the two parts, so it misses surplus in the longer one, and
      nothing else: in every other state it accepts exactly the right sequence. */
  lemma TailCheckIsExact(ctx: Context, tokens: seq<Token>)
    requires ctx.attention <= tokens || tokens <= ctx.attention
    requires ctx.recurrent <= tokens || tokens <= ctx.recurrent
    ensures (KvTailMatches(|tokens|, ctx.PosMax()) <==> ctx.Holds(tokens)) <==> !Lopsided(ctx, tokens)
    ensures Lopsided(ctx, tokens) ==> KvTailMatches(|tokens|, ctx.PosMax())
  {
  }

  method ClearSequence(ctx: Context) returns (tokens: seq<Token>)
    modifies ctx`attention, ctx`recurrent
    ensures tokens == [] && ctx.Holds([])
  {
    var removed := ctx.SeqRm(0);
    if !removed {
      ctx.Clear();
    }
    tokens := [];
  }

  /** Drop [n, end). False when the call refuses or the tail is not on the last kept token. */
  method DropSuffix(ctx: Context, tokens: seq<Token>, n: nat) returns (ok: bool, left: seq<Token>)
    requires n <= |tokens| && tokens <= ctx.attention && (ctx.hybrid ==> tokens <= ctx.recurrent)
    modifies ctx`attention, ctx`recurrent
    ensures ok ==> left == tokens[..n] && ctx.Holds(left)
    ensures ctx.steady ==> ok
  {
    left := tokens;
    ok := ctx.SeqRm(n);
    if ok {
      left := tokens[..n];
      ok := KvTailMatches(n, ctx.PosMax());
    }
  }

  /** Keep the first `n` of `tokens`. Each part of the cache may hold more than `tokens` says, as a
      failed decode leaves it. False means the sequence was cleared: for a refused cut, or for
      surplus when there is nothing else to drop. The sequence is right afterwards unless there
      was nothing to drop and only one part had a surplus. */
  method Trim(ctx: Context, tokens: seq<Token>, n: nat) returns (kept: bool, left: seq<Token>)
    requires n <= |tokens| && tokens <= ctx.attention && (ctx.hybrid ==> tokens <= ctx.recurrent)
    modifies ctx`attention, ctx`recurrent
    ensures left == if kept then tokens[..n] else []
    ensures ctx.Holds(left) <==> !(n == |tokens| && old(Lopsided(ctx, tokens)))
    ensures n == |tokens| && old(ctx.Holds(tokens)) ==> kept
    ensures n < |tokens| && ctx.steady ==> kept
  {
    left := tokens;
    if n == |tokens| && KvTailMatches(n, ctx.PosMax()) {
      kept := true;
      return;
    }
    if n < |tokens| {
      kept, left := DropSuffix(ctx, tokens, n);
      if kept {
        return;
      }
    }
    left := ClearSequence(ctx);
    kept := false;
  }
}
