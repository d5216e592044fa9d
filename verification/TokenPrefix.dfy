/** How much of a cached token sequence a new prompt can reuse
    (`src/common/span_prefix.hpp`, `src/server/llm/token_offset.hpp`). */
module TokenPrefix {

  /** Length of the longest common prefix. */
  function CommonPrefix<T(==)>(a: seq<T>, b: seq<T>): (n: nat)
    ensures n <= |a| && n <= |b| && a[..n] == b[..n]
    ensures n < |a| && n < |b| ==> a[n] != b[n]
  {
    if a == [] || b == [] || a[0] != b[0] then 0 else 1 + CommonPrefix(a[1..], b[1..])
  }

  lemma {:induction false} CommonPrefixIs<T>(a: seq<T>, b: seq<T>, n: nat)
    requires n <= |a| && n <= |b| && a[..n] == b[..n]
    requires n < |a| && n < |b| ==> a[n] != b[n]
    ensures CommonPrefix(a, b) == n
  {
    if n > 0 {
      assert a[0] == a[..n][0] == b[..n][0] == b[0];
      assert a[1..][..n - 1] == a[..n][1..] == b[1..][..n - 1];
      CommonPrefixIs(a[1..], b[1..], n - 1);
    }
  }

  method CommonPrefixLength<T(==)>(a: seq<T>, b: seq<T>) returns (i: nat)
    ensures i == CommonPrefix(a, b)
  {
    var n := if |a| < |b| then |a| else |b|;
    i := 0;
    while i < n
      invariant i <= n && a[..i] == b[..i]
    {
      if a[i] != b[i] {
        break;
      }
      i := i + 1;
    }
    CommonPrefixIs(a, b, i);
  }

  /** The stored message ends only save comparisons: whatever they hold, the checkpoint is the
      longest common prefix of the cached and the new token sequence. */
  method CheckpointFromOffsets<T(==)>(active: seq<T>, prompt: seq<T>, messageEnds: seq<nat>) returns (matched: nat)
    ensures matched == CommonPrefix(active, prompt)
  {
    matched := 0;
    var k := 0;
    while k < |messageEnds|
      invariant k <= |messageEnds|
      invariant matched <= |active| && matched <= |prompt| && active[..matched] == prompt[..matched]
    {
      var end := messageEnds[k];
      if end < matched || end > |active| || end > |prompt| {
        break;
      }
      if active[matched..end] != prompt[matched..end] {
        break;
      }
      assert active[..end] == active[..matched] + active[matched..end];
      assert prompt[..end] == prompt[..matched] + prompt[matched..end];
      matched := end;
      k := k + 1;
    }
    var n := if |active| < |prompt| then |active| else |prompt|;
    while matched < n
      invariant matched <= n && active[..matched] == prompt[..matched]
    {
      if active[matched] != prompt[matched] {
        break;
      }
      matched := matched + 1;
    }
    CommonPrefixIs(active, prompt, matched);
  }
}
