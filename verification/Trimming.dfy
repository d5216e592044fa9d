/** Cutting blanks off both ends of a text. */
module Trimming {

  predicate IsBlank(c: char) {
    c == ' ' || c == '\t' || c == '\r' || c == '\n'
  }

  function FirstNotBlank(s: string, i: nat): (r: nat)
    ensures r >= i && (i <= |s| ==> r <= |s|)
    decreases |s| - i
  {
    if i < |s| && IsBlank(s[i]) then FirstNotBlank(s, i + 1) else i
  }

  /** The index behind the last character before `n` that is not blank. */
  function LastNotBlank(s: string, n: nat): (r: nat)
    requires n <= |s|
    ensures r <= n
  {
    if n > 0 && IsBlank(s[n - 1]) then LastNotBlank(s, n - 1) else n
  }

  function Trim(s: string): string {
    var begin, end := FirstNotBlank(s, 0), LastNotBlank(s, |s|);
    if begin < end then s[begin..end] else ""
  }

  lemma {:induction false} LastAtLeast(s: string, n: nat, k: nat)
    requires 0 < k <= n <= |s| && !IsBlank(s[k - 1])
    ensures LastNotBlank(s, n) >= k
    decreases n
  {
    if k < n && IsBlank(s[n - 1]) {
      LastAtLeast(s, n - 1, k);
    }
  }

  /** Trimming drops nothing of a front that starts and ends with no blank. */
  lemma TrimKeeps(front: string, back: string) returns (kept: string)
    requires front != "" && !IsBlank(front[0]) && !IsBlank(front[|front| - 1])
    ensures Trim(front + back) == front + kept && (back == "" ==> kept == "")
  {
    var s := front + back;
    LastAtLeast(s, |s|, |front|);
    var end := LastNotBlank(s, |s|);
    assert FirstNotBlank(s, 0) == 0;
    kept := back[..end - |front|];
    assert s[0..end] == front + kept;
  }
}
