/** How one turn ends (`src/server/llm/llm_engine.cpp`), told from what the model, the tokenizer and
    the caller answer along the way. Those answers are inputs here: any sequence of them. */
module Turn {
  import opened Strings
  import opened LlamaContext

  /** Only the first leaves its tokens in the cache. */
  datatype TurnEnd = Finished | Aborted | ContextFull | RuntimeError

  /** `stops`: what the stop question is answered, time after time. `samples`: the tokens the model
      draws, `None` when it ends. `spells`: whether the tokenizer has text for the token drawn.
      `takes`: whether the token callback goes on after it. */
  datatype Answers = Answers(stops: nat -> bool, samples: nat -> Option<Token>, spells: nat -> bool, takes: nat -> bool)

  /** `canStop` and `streams` say whether the caller gave a stop question and a token callback. */
  datatype Request = Request(sessionId: string, maxTokens: int, canStop: bool, streams: bool, answers: Answers)

  /** Sampling behind `live` cached tokens, after the stop question was asked `asked` times. */
  datatype Sampling = Sampling(request: Request, maxNew: int, asked: nat, live: nat, nCtx: nat)

  // ---------------------------------------------------------------------------------------
  // One token
  // ---------------------------------------------------------------------------------------

  predicate Spent(t: Sampling, k: nat) {
    0 <= t.maxNew <= k
  }

  predicate Stopped(t: Sampling, k: nat) {
    t.request.canStop && t.request.answers.stops(t.asked + k)
  }

  predicate Full(t: Sampling, k: nat) {
    t.live + k >= t.nCtx
  }

  predicate Refused(t: Sampling, k: nat) {
    t.request.streams && !t.request.answers.takes(k)
  }

  /** Nothing keeps token number `k` from being drawn, spelled and taken. */
  predicate Goes(t: Sampling, k: nat) {
    && !Spent(t, k) && !Stopped(t, k) && !Full(t, k)
    && t.request.answers.samples(k).Some? && t.request.answers.spells(k) && !Refused(t, k)
  }

  predicate AllGo(t: Sampling, n: nat) {
    forall k :: 0 <= k < n ==> Goes(t, k)
  }

  /** What the turn ends with when token number `k` does not go. */
  function EndAt(t: Sampling, k: nat): TurnEnd {
    if Spent(t, k) then Finished
    else if Stopped(t, k) then Aborted
    else if Full(t, k) then ContextFull
    else if t.request.answers.samples(k).None? then Finished
    else if !t.request.answers.spells(k) then RuntimeError
    else Aborted
  }

  /** A token whose text the callback has before it refuses it. */
  predicate Half(t: Sampling, k: nat) {
    !Goes(t, k) && !Spent(t, k) && !Stopped(t, k) && !Full(t, k) && t.request.answers.samples(k).Some? && t.request.answers.spells(k)
  }

  /** The tokens the model draws, from the first on. */
  predicate Drawn(answers: Answers, response: seq<Token>) {
    forall k :: 0 <= k < |response| ==> answers.samples(k) == Some(response[k])
  }

  /** The first `n` tokens go, and for a reason the next does not. */
  ghost predicate Ends(t: Sampling, n: nat, end: TurnEnd, response: seq<Token>) {
    && AllGo(t, n) && !Goes(t, n) && end == EndAt(t, n)
    && Drawn(t.request.answers, response) && |response| == if Half(t, n) then n + 1 else n
  }

  lemma NoneDrawn(t: Sampling)
    ensures AllGo(t, 0) && Drawn(t.request.answers, [])
  {
  }

  lemma OneMore(t: Sampling, n: nat, response: seq<Token>, token: Token)
    requires AllGo(t, n) && Drawn(t.request.answers, response) && t.request.answers.samples(|response|) == Some(token)
    ensures Goes(t, n) ==> AllGo(t, n + 1)
    ensures Drawn(t.request.answers, response + [token])
  {
  }

  lemma EndsHere(t: Sampling, n: nat, response: seq<Token>)
    requires AllGo(t, n) && !Goes(t, n) && Drawn(t.request.answers, response) && |response| == if Half(t, n) then n + 1 else n
    ensures Ends(t, n, EndAt(t, n), response)
  {
  }

  lemma EndsOnce(t: Sampling, n: nat, end: TurnEnd, response: seq<Token>, m: nat, end2: TurnEnd, response2: seq<Token>)
    requires Ends(t, n, end, response) && Ends(t, m, end2, response2)
    ensures n == m && end == end2 && response == response2
  {
    assert n == m by {
      assert n < m ==> Goes(t, n);
      assert m < n ==> Goes(t, m);
    }
    forall k | 0 <= k < |response| ensures response[k] == response2[k] {
      assert t.request.answers.samples(k) == Some(response2[k]);
    }
  }

  // ---------------------------------------------------------------------------------------
  // The whole turn
  // ---------------------------------------------------------------------------------------

  /** How many batches of at most `size` tokens `n` tokens are decoded in. */
  function Batches(n: nat, size: nat): nat
    requires size > 0
    decreases n
  {
    if n == 0 then 0 else 1 + Batches(if n > size then n - size else 0, size)
  }

  lemma NoBatches(size: nat)
    requires size > 0
    ensures Batches(0, size) == 0
  {
  }

  lemma BatchesNext(n: nat, size: nat, taken: nat)
    requires size > 0 && n > 0 && taken == if size < n then size else n
    ensures Batches(n, size) == 1 + Batches(n - taken, size)
  {
  }

  /** A turn that decodes the last `tail` of `prompt` prompt tokens, then samples. */
  datatype Whole = Whole(request: Request, maxNew: int, tail: nat, size: nat, prompt: nat, nCtx: nat)

  predicate StopsAt(request: Request, q: nat) {
    request.canStop && request.answers.stops(q)
  }

  function SamplingOf(w: Whole): Sampling
    requires w.size > 0
  {
    Sampling(w.request, w.maxNew, Batches(w.tail, w.size), w.prompt, w.nCtx)
  }

  /** The stop question is asked before every batch and every token; the first yes ends the turn. */
  ghost predicate TurnEnds(w: Whole, end: TurnEnd, response: seq<Token>)
    requires w.size > 0
  {
    var batches := Batches(w.tail, w.size);
    || (end.Aborted? && response == [] && exists i :: 0 <= i < batches && StopsAt(w.request, i))
    || ((forall i :: 0 <= i < batches ==> !StopsAt(w.request, i)) && exists n: nat :: Ends(SamplingOf(w), n, end, response))
  }

  /** What decoding the prompt and sampling came to is what the turn came to. */
  lemma DecodingEnds(w: Whole, asked: nat)
    requires w.size > 0 && asked < Batches(w.tail, w.size) && StopsAt(w.request, asked)
    ensures TurnEnds(w, Aborted, [])
  {
  }

  lemma SamplingEnds(w: Whole, n: nat, end: TurnEnd, response: seq<Token>)
    requires w.size > 0 && forall i :: 0 <= i < Batches(w.tail, w.size) ==> !StopsAt(w.request, i)
    requires Ends(SamplingOf(w), n, end, response)
    ensures TurnEnds(w, end, response)
  {
  }

  /** The answers leave a turn no choice. */
  lemma OneEnd(w: Whole, end: TurnEnd, response: seq<Token>, end2: TurnEnd, response2: seq<Token>)
    requires w.size > 0 && TurnEnds(w, end, response) && TurnEnds(w, end2, response2)
    ensures end == end2 && response == response2
  {
    if forall i :: 0 <= i < Batches(w.tail, w.size) ==> !StopsAt(w.request, i) {
      var n: nat :| Ends(SamplingOf(w), n, end, response);
      var m: nat :| Ends(SamplingOf(w), m, end2, response2);
      EndsOnce(SamplingOf(w), n, end, response, m, end2, response2);
    }
  }

  /** A turn finishes when its budget is used up or the model ends it, and the response is then what
      the model drew. Every other end has its cause. */
  lemma Causes(w: Whole, end: TurnEnd, response: seq<Token>)
    requires w.size > 0 && TurnEnds(w, end, response)
    ensures var a := w.request.answers;
      && Drawn(a, response) && (w.maxNew >= 0 ==> |response| <= w.maxNew)
      && (end.Finished? ==> |response| == w.maxNew || a.samples(|response|).None?)
      && (end.Aborted? ==> (w.request.canStop && exists q :: a.stops(q)) || (w.request.streams && exists k :: !a.takes(k)))
      && (end.ContextFull? ==> w.prompt + |response| >= w.nCtx)
      && (end.RuntimeError? ==> !a.spells(|response|))
  {
    if forall i :: 0 <= i < Batches(w.tail, w.size) ==> !StopsAt(w.request, i) {
      var t := SamplingOf(w);
      var n: nat :| Ends(t, n, end, response);
      assert n > 0 ==> Goes(t, n - 1);
    } else {
      var i :| 0 <= i < Batches(w.tail, w.size) && StopsAt(w.request, i);
      assert w.request.answers.stops(i);
    }
  }

  /** Every token before the `n`-th goes, and then the budget is used up or the model ends the turn,
      which nobody has stopped, with room left in the context. */
  ghost predicate EndsWell(w: Whole, n: nat)
    requires w.size > 0
  {
    var t, a := SamplingOf(w), w.request.answers;
    && (forall i :: 0 <= i < Batches(w.tail, w.size) ==> !StopsAt(w.request, i))
    && AllGo(t, n) && (n == w.maxNew || (!Stopped(t, n) && w.prompt + n < w.nCtx && a.samples(n).None?))
  }

  /** A turn finishes exactly when it ends well, and with the tokens up to there. */
  lemma FinishesExactly(w: Whole, end: TurnEnd, response: seq<Token>)
    requires w.size > 0 && TurnEnds(w, end, response)
    ensures end.Finished? <==> exists n: nat :: EndsWell(w, n)
    ensures end.Finished? ==> EndsWell(w, |response|)
  {
    var t := SamplingOf(w);
    if forall i :: 0 <= i < Batches(w.tail, w.size) ==> !StopsAt(w.request, i) {
      var n: nat :| Ends(t, n, end, response);
      assert n > 0 ==> Goes(t, n - 1);
      if end.Finished? {
        assert EndsWell(w, n) && |response| == n;
      }
      if m: nat :| EndsWell(w, m) {
        assert m == n by {
          assert m > n ==> Goes(t, n);
          assert n > m ==> Goes(t, m);
        }
      }
    } else {
      var i :| 0 <= i < Batches(w.tail, w.size) && StopsAt(w.request, i);
      assert forall n: nat :: !EndsWell(w, n);
    }
  }

  /** Without a stop question and a callback, with text for every token, a turn finishes when budget
      or model end it before the context is full. */
  lemma Finishes(w: Whole, end: TurnEnd, response: seq<Token>, m: nat)
    requires w.size > 0 && TurnEnds(w, end, response) && !w.request.canStop && !w.request.streams
    requires forall k :: 0 <= k < m ==> w.request.answers.spells(k)
    requires m == w.maxNew || (w.request.answers.samples(m).None? && w.prompt + m < w.nCtx)
    requires w.prompt + m <= w.nCtx
    ensures end.Finished? && |response| <= m
  {
    var t := SamplingOf(w);
    var n: nat :| Ends(t, n, end, response);
    assert n > m ==> Goes(t, m);
  }
}
