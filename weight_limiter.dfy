/** The weight limiter: bounds the backed candidates processed in one block by the
    block weight still available, keeping the candidates in the order proposed. */
module WeightLimiter {
  import opened Primitives

  /** `Vec::truncate`: keep the first `n` elements, or all of them when there are fewer. */
  function Truncate<T>(s: seq<T>, n: nat): (r: seq<T>)
    ensures |r| == Min(|s|, n)
    ensures r == s[..|r|]
  {
    if n < |s| then s[..n] else s
  }

  /** The candidates `limit_backed_candidates` retains, given the configured weight of
      one backed candidate, the maximum block weight and the weight the block has used. */
  function LimitedCandidates(candidates: seq<BackedCandidate>, perCandidateWeight: nat,
                             maximumWeight: nat, consumedWeight: nat): (r: seq<BackedCandidate>)
    requires consumedWeight <= maximumWeight
    ensures perCandidateWeight == 0 ==> r == candidates
    ensures perCandidateWeight > 0 ==>
              |r| == Min(|candidates|, (maximumWeight - consumedWeight) / perCandidateWeight)
    ensures r == candidates[..|r|]
  {
    if perCandidateWeight == 0 then candidates
    else Truncate(candidates, (maximumWeight - consumedWeight) / perCandidateWeight)
  }

  /** `k` copies of weight `w` cost at most `k'` copies when `k <= k'`. */
  lemma {:induction false} MulMonotone(k: nat, k': nat, w: nat)
    requires k <= k'
    ensures k * w <= k' * w
  {
    if k < k' {
      MulMonotone(k, k' - 1, w);
      assert (k' - 1) * w + w == k' * w;
    }
  }

  /** Whatever is retained fits into the remaining block weight. */
  lemma LimitFitsBudget(candidates: seq<BackedCandidate>, w: nat, maximumWeight: nat, consumedWeight: nat)
    requires consumedWeight <= maximumWeight && w > 0
    ensures |LimitedCandidates(candidates, w, maximumWeight, consumedWeight)| * w
              <= maximumWeight - consumedWeight
  {
  }

  /** A candidate is dropped only when one more would not fit: the limiter keeps as many
      of the first candidates as the remaining weight pays for. */
  lemma LimitKeepsAllThatFit(candidates: seq<BackedCandidate>, w: nat, maximumWeight: nat, consumedWeight: nat)
    requires consumedWeight <= maximumWeight && w > 0
    ensures var r := LimitedCandidates(candidates, w, maximumWeight, consumedWeight);
            |r| < |candidates| ==> (|r| + 1) * w > maximumWeight - consumedWeight
  {
  }

  /** Limiting an already limited list, under the same weights, changes nothing. */
  lemma LimitIdempotent(candidates: seq<BackedCandidate>, w: nat, maximumWeight: nat, consumedWeight: nat)
    requires consumedWeight <= maximumWeight
    ensures var r := LimitedCandidates(candidates, w, maximumWeight, consumedWeight);
            LimitedCandidates(r, w, maximumWeight, consumedWeight) == r
  {
  }

  /** With more weight remaining, the retained list only grows, and always by
      candidates taken from further along the same proposal. */
  lemma LimitMonotone(candidates: seq<BackedCandidate>, w: nat, maximumWeight: nat,
                      consumedWeight: nat, consumedWeight': nat)
    requires consumedWeight' <= consumedWeight <= maximumWeight
    ensures var r := LimitedCandidates(candidates, w, maximumWeight, consumedWeight);
            var r' := LimitedCandidates(candidates, w, maximumWeight, consumedWeight');
            |r| <= |r'| && r == r'[..|r|]
  {
    if w > 0 {
      DivMonotone(maximumWeight - consumedWeight, maximumWeight - consumedWeight', w);
    }
  }

  lemma DivMonotone(b: nat, b': nat, w: nat)
    requires b <= b' && w > 0
    ensures b / w <= b' / w
  {
    if b / w > b' / w {
      assert (b' / w + 1) * w == (b' / w) * w + w;
      assert (b' / w) * w + b' % w == b';
      assert (b / w) * w + b % w == b;
      MulMonotone(b' / w + 1, b / w, w);
      assert false;
    }
  }

  /** A budget of 1000 with 300 per candidate admits the first three of five. */
  lemma LimitScenario(candidates: seq<BackedCandidate>)
    requires |candidates| == 5
    ensures LimitedCandidates(candidates, 300, 1000, 0) == candidates[..3]
  {
  }
}
