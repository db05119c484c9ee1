/** The probing search both converters use to make an identifier unique: try
    numbered candidates `cand(lo)`, `cand(lo + 1)`, ... and take the first one
    not yet taken. It ends because the taken set is finite and distinct numbers
    give distinct candidates. */
module Probe {

  /** Distinct numbers from `lo` on give distinct candidates. */
  ghost predicate InjectiveFrom(cand: nat -> string, lo: nat) {
    forall i: nat, j: nat :: lo <= i && lo <= j && cand(i) == cand(j) ==> i == j
  }

  /** Every candidate numbered `lo` to `k - 1` is taken. */
  ghost predicate AllTaken(cand: nat -> string, taken: set<string>, lo: nat, k: nat) {
    forall j: nat :: lo <= j < k ==> cand(j) in taken
  }

  /** The candidates numbered `lo` to `k - 1`. */
  ghost function Candidates(cand: nat -> string, lo: nat, k: nat): set<string> {
    set j: nat | lo <= j < k :: cand(j)
  }

  lemma {:induction false} CandidatesSize(cand: nat -> string, lo: nat, k: nat)
    requires lo <= k && InjectiveFrom(cand, lo)
    ensures |Candidates(cand, lo, k)| == k - lo
    decreases k
  {
    if k > lo {
      CandidatesSize(cand, lo, k - 1);
      assert Candidates(cand, lo, k) == Candidates(cand, lo, k - 1) + {cand(k - 1)};
      assert cand(k - 1) !in Candidates(cand, lo, k - 1);
    } else {
      assert Candidates(cand, lo, k) == {};
    }
  }

  /** Pigeonhole: at most `|taken|` distinct candidates can all be taken. */
  lemma TakenBound(cand: nat -> string, taken: set<string>, lo: nat, k: nat)
    requires lo <= k && InjectiveFrom(cand, lo) && AllTaken(cand, taken, lo, k)
    ensures k - lo <= |taken|
  {
    CandidatesSize(cand, lo, k);
    forall x | x in Candidates(cand, lo, k) ensures x in taken {
      var j: nat :| lo <= j < k && x == cand(j);
    }
    SubsetSize(Candidates(cand, lo, k), taken);
  }

  lemma {:induction false} SubsetSize(a: set<string>, b: set<string>)
    requires a <= b
    ensures |a| <= |b|
    decreases |a|
  {
    if a != {} {
      var x :| x in a;
      SubsetSize(a - {x}, b - {x});
    }
  }

  /** The number of the first candidate from `lo` on that is not taken, searching
      upward from `k`. */
  function FirstFree(cand: nat -> string, taken: set<string>, lo: nat, k: nat): (r: nat)
    requires lo <= k && InjectiveFrom(cand, lo) && AllTaken(cand, taken, lo, k)
    ensures k <= r && cand(r) !in taken && AllTaken(cand, taken, lo, r)
    decreases |taken| - (k - lo)
  {
    TakenBound(cand, taken, lo, k);
    if cand(k) !in taken then k else FirstFree(cand, taken, lo, k + 1)
  }
}
