/** `resolve_id_conflict` of the multi-dataset converter: what happens to a row
    whose base identifier an earlier dataset already holds, under each value
    of `CONFLICT_RESOLUTION`. */
module Conflicts {
  import opened Common
  import opened Slug
  import Probe

  /** The configured strategy: the four documented values, and any other text. */
  datatype Policy = Suffix | Skip | Overwrite | Merge | Unrecognised

  /** What the caller is told to do with the row. */
  datatype Action = Added | Skipped | Overwritten | Merged

  /** The identifier tried at attempt `k` (from 1) under the suffix strategy:
      `base_ds{n}`, then `base_ds{n}_2`, `base_ds{n}_3`, ... */
  function DsCandidate(base: string, n: nat, k: nat): string {
    var tagged := base + "_" + ("ds" + NatToString(n));
    if k <= 1 then tagged else tagged + "_" + NatToString(k)
  }

  /** Different attempts give different identifiers. */
  lemma DsCandidateInjective(base: string, n: nat)
    ensures Probe.InjectiveFrom((k: nat) => DsCandidate(base, n, k), 1)
  {
    var tagged := base + "_" + ("ds" + NatToString(n));
    forall i: nat, j: nat | 1 <= i && 1 <= j && DsCandidate(base, n, i) == DsCandidate(base, n, j)
      ensures i == j
    {
      if i > 1 && j > 1 {
        var p := tagged + "_";
        assert DsCandidate(base, n, i)[|p|..] == NatToString(i);
        assert DsCandidate(base, n, j)[|p|..] == NatToString(j);
        NatToStringInjective(i, j);
      } else if i > 1 || j > 1 {
        assert false;
      }
    }
  }

  /** A suffixed identifier keeps the identifier shape of its base. */
  lemma DsCandidateIsSlug(base: string, n: nat, k: nat)
    requires IsSlug(base)
    ensures IsSlug(DsCandidate(base, n, k))
  {
    var tag := "ds" + NatToString(n);
    assert IsSlug(tag) by {
      assert forall i :: 2 <= i < |tag| ==> tag[i] == NatToString(n)[i - 2];
    }
    JoinIsSlug(base, tag);
    if k > 1 {
      NumberIsSlug(k);
      JoinIsSlug(base + "_" + tag, NatToString(k));
    }
  }

  /** `k` is the first attempt whose identifier is free. */
  predicate FirstFreeAttempt(base: string, n: nat, taken: set<string>, k: nat) {
    && 1 <= k
    && DsCandidate(base, n, k) !in taken
    && forall j: nat :: 1 <= j < k ==> DsCandidate(base, n, j) in taken
  }

  /** There is only one first free attempt. */
  lemma FirstFreeAttemptUnique(base: string, n: nat, taken: set<string>, k1: nat, k2: nat)
    requires FirstFreeAttempt(base, n, taken, k1) && FirstFreeAttempt(base, n, taken, k2)
    ensures k1 == k2
  {
  }

  /** The identifier the suffix strategy settles on: the first free attempt. */
  function SuffixId(base: string, n: nat, taken: set<string>): (id: string)
    ensures id !in taken
    ensures exists k: nat :: FirstFreeAttempt(base, n, taken, k) && id == DsCandidate(base, n, k)
    ensures DsCandidate(base, n, 1) !in taken ==> id == DsCandidate(base, n, 1)
  {
    var cand := (k: nat) => DsCandidate(base, n, k);
    DsCandidateInjective(base, n);
    var k := Probe.FirstFree(cand, taken, 1, 1);
    assert FirstFreeAttempt(base, n, taken, k) by {
      forall j: nat | 1 <= j < k ensures DsCandidate(base, n, j) in taken {
        assert cand(j) in taken;
      }
    }
    DsCandidate(base, n, k)
  }

  /** The identifier and action for base identifier `base` of a row of dataset
      `n`, against the identifiers `taken` by earlier datasets. */
  function Resolve(base: string, taken: set<string>, n: nat, policy: Policy): (r: (string, Action))
    ensures base !in taken ==> r == (base, Added)
    ensures !policy.Suffix? ==> r.0 == base
    ensures policy.Suffix? ==> r.0 !in taken && r.1 == Added
    ensures policy.Suffix? && base in taken ==> r.0 == SuffixId(base, n, taken)
    ensures r.1 == Skipped <==> base in taken && policy.Skip?
    ensures r.1 == Overwritten <==> base in taken && policy.Overwrite?
    ensures r.1 == Merged <==> base in taken && policy.Merge?
  {
    if base !in taken then (base, Added)
    else match policy
      case Skip => (base, Skipped)
      case Overwrite => (base, Overwritten)
      case Merge => (base, Merged)
      case Suffix => (SuffixId(base, n, taken), Added)
      case Unrecognised => (base, Added)
  }

  /** Pigeonhole for the attempts: at most `|taken|` of them can all be taken. */
  lemma AttemptsTakenBound(base: string, n: nat, taken: set<string>, k: nat)
    requires 1 <= k && forall j: nat :: 1 <= j < k ==> DsCandidate(base, n, j) in taken
    ensures k - 1 <= |taken|
  {
    var cand := (k: nat) => DsCandidate(base, n, k);
    DsCandidateInjective(base, n);
    assert Probe.AllTaken(cand, taken, 1, k) by {
      forall j: nat | 1 <= j < k ensures cand(j) in taken {
        assert cand(j) == DsCandidate(base, n, j);
      }
    }
    Probe.TakenBound(cand, taken, 1, k);
  }

  /** `resolve_id_conflict`: the early returns for a free identifier and the
      skip, overwrite and merge strategies, and the probing loop of the suffix
      strategy. The food name the source also passes is not used by it. */
  method ResolveIdConflict<T>(baseId: string, existingData: map<string, T>, datasetNumber: nat, policy: Policy)
    returns (finalId: string, action: Action)
    ensures (finalId, action) == Resolve(baseId, existingData.Keys, datasetNumber, policy)
  {
    if baseId !in existingData {
      return baseId, Added;
    }
    if policy == Skip {
      return baseId, Skipped;
    } else if policy == Overwrite {
      return baseId, Overwritten;
    } else if policy == Merge {
      return baseId, Merged;
    } else if policy == Suffix {
      var newId := baseId + "_" + ("ds" + NatToString(datasetNumber));
      var counter := 2;
      while newId in existingData
        invariant counter >= 2
        invariant newId == DsCandidate(baseId, datasetNumber, counter - 1)
        invariant forall j: nat :: 1 <= j < counter - 1 ==> DsCandidate(baseId, datasetNumber, j) in existingData
        decreases |existingData.Keys| + 1 - counter
      {
        AttemptsTakenBound(baseId, datasetNumber, existingData.Keys, counter);
        newId := baseId + "_" + ("ds" + NatToString(datasetNumber)) + "_" + NatToString(counter);
        counter := counter + 1;
      }
      assert FirstFreeAttempt(baseId, datasetNumber, existingData.Keys, counter - 1);
      return newId, Added;
    }
    return baseId, Added;
  }

  /** The first suffix attempt for `arroz` in dataset 2 is `arroz_ds2`, and when
      that is taken as well the next is `arroz_ds2_2`. */
  lemma SuffixExample()
    ensures SuffixId("arroz", 2, {"arroz"}) == "arroz_ds2"
    ensures SuffixId("arroz", 2, {"arroz", "arroz_ds2"}) == "arroz_ds2_2"
  {
    assert NatToString(2) == "2";
    assert DsCandidate("arroz", 2, 1) == "arroz_ds2";
    assert DsCandidate("arroz", 2, 2) == "arroz_ds2_2";
    var taken := {"arroz", "arroz_ds2"};
    assert DsCandidate("arroz", 2, 1) in taken;
    assert DsCandidate("arroz", 2, 2) !in taken;
    assert FirstFreeAttempt("arroz", 2, taken, 2);
    var k: nat :| FirstFreeAttempt("arroz", 2, taken, k) && SuffixId("arroz", 2, taken) == DsCandidate("arroz", 2, k);
    FirstFreeAttemptUnique("arroz", 2, taken, k, 2);
  }
}
