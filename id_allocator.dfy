/**
 * The identifier counter of shader (mNextId, GetNextId, SkipIds) as pure
 * functions of the counter value, with uint32_t wrap-around, and what
 * successive calls issue.
 */
module IdAllocator {
  import opened MachineWords

  /** The value mNextId starts at. */
  const FIRST_ID: uint32 := 1

  /** mNextId after mNextId++ on a uint32_t. */
  function Successor(n: uint32): (m: uint32)
    ensures m == n + 1 || (n == TWO_32 - 1 && m == 0)
  {
    (n + 1) % TWO_32
  }

  /** mNextId after mNextId += k on a uint32_t. */
  function Skip(n: uint32, k: uint32): (m: uint32)
    ensures n + k < TWO_32 ==> m == n + k
    ensures n + k >= TWO_32 ==> m == n + k - TWO_32
  {
    (n + k) % TWO_32
  }

  /**
   * The ids that k successive GetNextId calls return when mNextId starts at n:
   * each call returns the counter and leaves it at its Successor, which is
   * exactly the postcondition of Shader.GetNextId.
   */
  function Issue(n: uint32, k: nat): (ids: seq<uint32>)
    ensures |ids| == k
    decreases k
  {
    if k == 0 then [] else [n] + Issue(Successor(n), k - 1)
  }

  /** The i-th of k successive ids is n + i, taken modulo 2^32. */
  lemma {:induction false} IssueAt(n: uint32, k: nat, i: nat)
    requires i < k
    ensures Issue(n, k)[i] == (n + i) % TWO_32
    decreases k
  {
    if i > 0 {
      IssueAt(Successor(n), k - 1, i - 1);
      ModAddMod(n, 1, i - 1);
    } else {
      DivModUnique(n, TWO_32, 0, n);
    }
  }

  /** Issuing k ids and then m more is the same as issuing k + m ids. */
  lemma {:induction false} IssueConcat(n: uint32, k: nat, m: nat)
    ensures Issue(n, k) + Issue(Skip(n, k % TWO_32), m) == Issue(n, k + m)
  {
    var whole := Issue(n, k + m);
    var next := Skip(n, k % TWO_32);
    forall i | 0 <= i < k + m
      ensures (Issue(n, k) + Issue(next, m))[i] == whole[i]
    {
      IssueAt(n, k + m, i);
      if i < k {
        IssueAt(n, k, i);
      } else {
        IssueAt(next, m, i - k);
        ModAddMod(n, k, i - k);
      }
    }
  }

  /** ((n + k % 2^32) % 2^32 + j) % 2^32 == (n + k + j) % 2^32. */
  lemma ModAddMod(n: nat, k: nat, j: nat)
    ensures ((n + k % TWO_32) % TWO_32 + j) % TWO_32 == (n + k + j) % TWO_32
  {
    var a := k / TWO_32;
    var s := n + k % TWO_32;
    var b := s / TWO_32;
    var t := s % TWO_32 + j;
    assert n + k + j == t + (a + b) * TWO_32;
    DivModUnique(n + k + j, TWO_32, t / TWO_32 + a + b, t % TWO_32);
  }

  /**
   * Without wrap-around, successive ids are the consecutive values from n on:
   * strictly increasing, so all distinct, and non-zero when n is.
   */
  lemma IssueAscending(n: uint32, k: nat)
    requires n + k <= TWO_32
    ensures forall i :: 0 <= i < k ==> Issue(n, k)[i] == n + i
    ensures forall i, j :: 0 <= i < j < k ==> Issue(n, k)[i] < Issue(n, k)[j]
    ensures n >= FIRST_ID ==> forall i :: 0 <= i < k ==> Issue(n, k)[i] != 0
  {
    forall i | 0 <= i < k
      ensures Issue(n, k)[i] == n + i
    {
      IssueAt(n, k, i);
      DivModUnique(n + i, TWO_32, 0, n + i);
    }
  }

  /**
   * After SkipIds(s) with the counter at n, the next k ids start at n + s and
   * every id issued is at least n + s, so none of the skipped ids n .. n + s - 1
   * is ever issued (without wrap-around).
   */
  lemma SkipNeverIssues(n: uint32, s: uint32, k: nat)
    requires n + s + k <= TWO_32
    ensures k > 0 ==> Issue(Skip(n, s), k)[0] == n + s
    ensures forall i :: 0 <= i < k ==> Issue(Skip(n, s), k)[i] >= n + s
  {
    if k > 0 {
      DivModUnique(n + s, TWO_32, 0, n + s);
      IssueAscending(n + s, k);
    }
  }
}
