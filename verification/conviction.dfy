/** `compute_conviction_score`: a weight-normalised average of the feature values,
    scaled to 0..100 and rounded to two decimals, followed by the override rules
    whose threshold the score reaches. */
module Conviction {
  import opened Results
  import opened Numeric
  import opened Dict
  import opened Sequences

  /** Feature name to value, in the dict's iteration order. */
  type Features = Assoc<real>

  /** Feature name to weight; only looked up, never iterated. */
  type Weights = map<string, real>

  /** Override rules in the config's order: the rule's name and its "threshold" entry, if any. */
  type OverrideConfig = seq<(string, Option<real>)>

  datatype ConvictionResult = ConvictionResult(score: real, overrides: seq<string>)

  /** Threshold of a rule that does not name one. */
  const DefaultThreshold: real := 90.0

  /** `weights.get(factor, 0)`. */
  function WeightOf(w: Weights, k: string): real
  {
    if k in w then w[k] else 0.0
  }

  function ValueTerm(w: Weights): ((string, real)) -> real
  {
    (p: (string, real)) => p.1 * WeightOf(w, p.0)
  }

  function WeightTerm(w: Weights): ((string, real)) -> real
  {
    (p: (string, real)) => WeightOf(w, p.0)
  }

  /** The accumulated `score`: each feature value times its weight. */
  function WeightedSum(fs: Features, w: Weights): real
  {
    SumOf(fs, ValueTerm(w))
  }

  /** The accumulated `total_weight`: the weights of the features that were looked up. */
  function TotalWeight(fs: Features, w: Weights): real
  {
    SumOf(fs, WeightTerm(w))
  }

  /** The score before `round(..., 2)`; 0 when no weight was accumulated. */
  function UnroundedScore(fs: Features, w: Weights): real
  {
    var t := TotalWeight(fs, w);
    if t == 0.0 then 0.0 else WeightedSum(fs, w) / t * 100.0
  }

  function Threshold(rule: (string, Option<real>)): real
  {
    rule.1.GetOr(DefaultThreshold)
  }

  /** Some rule named `name` has a threshold at most `score`. */
  predicate Fires(cfg: OverrideConfig, score: real, name: string)
  {
    exists i :: 0 <= i < |cfg| && cfg[i].0 == name && score >= Threshold(cfg[i])
  }

  /** The names of the rules that fire at `score`, in the config's order. */
  function FiredOverrides(cfg: OverrideConfig, score: real): (r: seq<string>)
    ensures forall name :: name in r <==> Fires(cfg, score, name)
  {
    if |cfg| == 0 then []
    else
      var rest := FiredOverrides(cfg[1..], score);
      assert forall name :: Fires(cfg, score, name) <==>
               ((name == cfg[0].0 && score >= Threshold(cfg[0])) || Fires(cfg[1..], score, name)) by {
        forall name | Fires(cfg, score, name)
          ensures (name == cfg[0].0 && score >= Threshold(cfg[0])) || Fires(cfg[1..], score, name)
        {
          var i :| 0 <= i < |cfg| && cfg[i].0 == name && score >= Threshold(cfg[i]);
          if i > 0 {
            assert cfg[1..][i - 1] == cfg[i];
          }
        }
        forall name | Fires(cfg[1..], score, name)
          ensures Fires(cfg, score, name)
        {
          var i :| 0 <= i < |cfg[1..]| && cfg[1..][i].0 == name && score >= Threshold(cfg[1..][i]);
          assert cfg[i + 1] == cfg[1..][i];
        }
      }
      (if score >= Threshold(cfg[0]) then [cfg[0].0] else []) + rest
  }

  function ComputeConvictionScore(fs: Features, w: Weights, cfg: OverrideConfig): (r: ConvictionResult)
    ensures TotalWeight(fs, w) == 0.0 ==> r.score == 0.0
    ensures TotalWeight(fs, w) != 0.0 ==>
              -0.005 <= r.score - WeightedSum(fs, w) / TotalWeight(fs, w) * 100.0 <= 0.005
    ensures r.score == RoundTo(UnroundedScore(fs, w), 100)
    ensures forall name :: name in r.overrides <==> Fires(cfg, r.score, name)
  {
    var t := TotalWeight(fs, w);
    var score := if t == 0.0 then 0.0 else RoundTo(WeightedSum(fs, w) / t * 100.0, 100);
    assert t == 0.0 ==> score == RoundTo(0.0, 100) by {
      RoundToOfInt(0, 100);
    }
    ConvictionResult(score, FiredOverrides(cfg, score))
  }

  /** Reordering the feature entries changes neither the score nor the overrides. */
  lemma ScoreOrderIndependent(a: Features, b: Features, w: Weights, cfg: OverrideConfig)
    requires multiset(a) == multiset(b)
    ensures ComputeConvictionScore(a, w, cfg) == ComputeConvictionScore(b, w, cfg)
  {
    SumOfPermutation(a, b, ValueTerm(w));
    SumOfPermutation(a, b, WeightTerm(w));
  }

  /** A feature without a weight adds to neither sum, wherever it sits. */
  lemma UnweightedFeatureIgnored(a: Features, k: string, v: real, b: Features, w: Weights, cfg: OverrideConfig)
    requires k !in w
    ensures WeightedSum(a + [(k, v)] + b, w) == WeightedSum(a + b, w)
    ensures TotalWeight(a + [(k, v)] + b, w) == TotalWeight(a + b, w)
    ensures ComputeConvictionScore(a + [(k, v)] + b, w, cfg) == ComputeConvictionScore(a + b, w, cfg)
  {
    SumOfAppend(a + [(k, v)], b, ValueTerm(w));
    SumOfAppend(a, [(k, v)], ValueTerm(w));
    SumOfAppend(a, b, ValueTerm(w));
    SumOfAppend(a + [(k, v)], b, WeightTerm(w));
    SumOfAppend(a, [(k, v)], WeightTerm(w));
    SumOfAppend(a, b, WeightTerm(w));
  }

  lemma {:induction false} UnweightedSumsVanish(fs: Features, w: Weights)
    requires forall i :: 0 <= i < |fs| ==> fs[i].0 !in w
    ensures WeightedSum(fs, w) == 0.0 && TotalWeight(fs, w) == 0.0
  {
    if |fs| > 0 {
      UnweightedSumsVanish(fs[1..], w);
    }
  }

  /** When no feature has a weight the score is 0, and only rules with a threshold at most 0 fire. */
  lemma NoWeightedFeatureScoresZero(fs: Features, w: Weights, cfg: OverrideConfig)
    requires forall i :: 0 <= i < |fs| ==> fs[i].0 !in w
    ensures ComputeConvictionScore(fs, w, cfg).score == 0.0
    ensures forall name :: name in ComputeConvictionScore(fs, w, cfg).overrides <==> Fires(cfg, 0.0, name)
  {
    UnweightedSumsVanish(fs, w);
  }

  lemma {:induction false} SumsBounded(fs: Features, w: Weights)
    requires forall i :: 0 <= i < |fs| ==> 0.0 <= fs[i].1 <= 1.0
    requires forall k :: k in w ==> w[k] >= 0.0
    ensures 0.0 <= WeightedSum(fs, w) <= TotalWeight(fs, w)
  {
    if |fs| > 0 {
      SumsBounded(fs[1..], w);
      var x := WeightOf(w, fs[0].0);
      assert 0.0 <= x;
      assert 0.0 <= fs[0].1 * x <= x by {
        assert fs[0].1 * x <= 1.0 * x;
      }
      assert WeightedSum(fs, w) == fs[0].1 * x + WeightedSum(fs[1..], w);
      assert TotalWeight(fs, w) == x + TotalWeight(fs[1..], w);
    }
  }

  /** Values in [0, 1] under non-negative weights give a score in [0, 100], before and after rounding. */
  lemma ScoreWithinRange(fs: Features, w: Weights, cfg: OverrideConfig)
    requires forall i :: 0 <= i < |fs| ==> 0.0 <= fs[i].1 <= 1.0
    requires forall k :: k in w ==> w[k] >= 0.0
    ensures 0.0 <= UnroundedScore(fs, w) <= 100.0
    ensures 0.0 <= ComputeConvictionScore(fs, w, cfg).score <= 100.0
  {
    SumsBounded(fs, w);
    UnroundedWithinRange(WeightedSum(fs, w), TotalWeight(fs, w));
    RoundToWithin(UnroundedScore(fs, w), 0, 100, 100);
  }

  lemma UnroundedWithinRange(sum: real, total: real)
    requires 0.0 <= sum <= total
    ensures total != 0.0 ==> 0.0 <= sum / total * 100.0 <= 100.0
  {
    if total != 0.0 {
      assert 0.0 <= sum / total <= 1.0;
    }
  }

  lemma {:induction false} FiredInConfigOrder(cfg: OverrideConfig, score: real)
    ensures IsSubsequence(FiredOverrides(cfg, score), Keys(cfg))
  {
    if |cfg| > 0 {
      FiredInConfigOrder(cfg[1..], score);
      var rest := FiredOverrides(cfg[1..], score);
      var ks := Keys(cfg);
      assert ks[1..] == Keys(cfg[1..]);
      if score >= Threshold(cfg[0]) {
        var r := [cfg[0].0] + rest;
        assert r[0] == ks[0] && r[1..] == rest;
      } else {
        assert FiredOverrides(cfg, score) == rest;
        assert |ks| > 0 && IsSubsequence(rest, ks[1..]);
      }
    }
  }

  lemma {:induction false} FiredNoDuplicates(cfg: OverrideConfig, score: real)
    requires DistinctKeys(cfg)
    ensures NoDuplicates(FiredOverrides(cfg, score))
  {
    if |cfg| > 0 {
      assert DistinctKeys(cfg[1..]);
      FiredNoDuplicates(cfg[1..], score);
      var rest := FiredOverrides(cfg[1..], score);
      assert !Fires(cfg[1..], score, cfg[0].0) by {
        forall i | 0 <= i < |cfg[1..]|
          ensures cfg[1..][i].0 != cfg[0].0
        {
          assert cfg[1..][i] == cfg[i + 1];
        }
      }
    }
  }

  /** The override list names config rules in config order, each at most once. */
  lemma OverridesOrderedWithoutDuplicates(fs: Features, w: Weights, cfg: OverrideConfig)
    requires DistinctKeys(cfg)
    ensures IsSubsequence(ComputeConvictionScore(fs, w, cfg).overrides, Keys(cfg))
    ensures NoDuplicates(ComputeConvictionScore(fs, w, cfg).overrides)
  {
    var r := ComputeConvictionScore(fs, w, cfg);
    FiredInConfigOrder(cfg, r.score);
    FiredNoDuplicates(cfg, r.score);
  }

  /** If a rule fires, so does every rule whose threshold is no higher. */
  lemma OverridesMonotoneInThreshold(fs: Features, w: Weights, cfg: OverrideConfig, i: nat, j: nat)
    requires DistinctKeys(cfg)
    requires i < |cfg| && j < |cfg|
    requires cfg[i].0 in ComputeConvictionScore(fs, w, cfg).overrides
    requires Threshold(cfg[j]) <= Threshold(cfg[i])
    ensures cfg[j].0 in ComputeConvictionScore(fs, w, cfg).overrides
  {
    var r := ComputeConvictionScore(fs, w, cfg);
    assert Fires(cfg, r.score, cfg[i].0);
    var m :| 0 <= m < |cfg| && cfg[m].0 == cfg[i].0 && r.score >= Threshold(cfg[m]);
    assert m == i;
    assert Fires(cfg, r.score, cfg[j].0);
  }
}
