/** Reward shaping: a bounded learning signal from verified evidence. */
module Rewards {
  import opened Schemas

  function Clamp(x: real): (r: real)
    ensures 0.0 <= r <= 1.0
    ensures 0.0 <= x <= 1.0 ==> r == x
  {
    if x < 0.0 then 0.0 else if x > 1.0 then 1.0 else x
  }

  /** A cost-report entry: a number, something that converts to none, or an empty value. */
  datatype Amount = Number(value: real) | Junk | Empty

  datatype CostReport = CostReport(cost: Option<Amount>, attempts: Option<Amount>, retries: Option<Amount>)

  datatype Evidence = Evidence(verified: bool, success: Option<bool>, confidence: real, cost: CostReport)

  /** Missing, empty and zero entries count as the default. */
  function OrDefault(entry: Option<Amount>, default: real): Amount {
    if entry.None? || entry.value.Empty? || entry.value == Number(0.0) then Number(default) else entry.value
  }

  /** Friction in [0, 1]: the reported cost, else the fraction of attempts that were retries. */
  function CostSignal(report: CostReport): (r: real)
    ensures 0.0 <= r <= 1.0
  {
    if report.cost.Some? then
      if report.cost.value.Number? then Clamp(report.cost.value.value) else 0.0
    else
      var attempts, retries := OrDefault(report.attempts, 1.0), OrDefault(report.retries, 0.0);
      if attempts.Number? && retries.Number? && attempts.value != 0.0 then Clamp(retries.value / attempts.value)
      else 0.0
  }

  function Discount(costWeight: real, signal: real): real { 1.0 - costWeight * signal }

  function Discounted(base: real, factor: real): (r: real)
    ensures 0.0 <= r <= 1.0
  {
    Clamp(base * factor)
  }

  datatype RewardShaper = RewardShaper(confidenceWeight: real, outcomeWeight: real, costWeight: real)
  {
    function Base(confidence: real): real {
      var sum := confidenceWeight + outcomeWeight;
      if sum <= 0.0 then confidence else (confidenceWeight * confidence + outcomeWeight) / sum
    }

    function Reward(evidence: Evidence, success: bool): real {
      if !success then 0.0
      else Discounted(Base(Clamp(evidence.confidence)), Discount(costWeight, CostSignal(evidence.cost)))
    }

    predicate Sensible() {
      confidenceWeight >= 0.0 && outcomeWeight >= 0.0 && costWeight >= 0.0
    }
  }

  lemma ProductLe(a: real, b: real, c: real)
    requires a <= b && c >= 0.0
    ensures a * c <= b * c
  {}

  lemma QuotientLe(a: real, b: real, d: real)
    requires a <= b && d > 0.0
    ensures a / d <= b / d
  {
    assert (a / d) * d == a && (b / d) * d == b;
    assert (b / d - a / d) * d >= 0.0;
  }

  lemma BaseMonotone(w: RewardShaper, c: real, c': real)
    requires w.Sensible() && 0.0 <= c <= c'
    ensures 0.0 <= w.Base(c) <= w.Base(c')
  {
    var sum := w.confidenceWeight + w.outcomeWeight;
    if sum > 0.0 {
      ProductLe(0.0, c, w.confidenceWeight);
      ProductLe(c, c', w.confidenceWeight);
      QuotientLe(0.0, w.confidenceWeight * c + w.outcomeWeight, sum);
      QuotientLe(w.confidenceWeight * c + w.outcomeWeight, w.confidenceWeight * c' + w.outcomeWeight, sum);
      assert 0.0 / sum == 0.0;
    }
  }

  lemma ClampMonotone(x: real, y: real)
    requires x <= y
    ensures Clamp(x) <= Clamp(y)
  {}

  lemma DiscountMonotone(costWeight: real, s: real, s': real)
    requires costWeight >= 0.0 && s' <= s
    ensures Discount(costWeight, s) <= Discount(costWeight, s')
  {
    ProductLe(s', s, costWeight);
  }

  lemma DiscountedMonotone(a: real, a': real, f: real, f': real)
    requires 0.0 <= a <= a' && f <= f'
    ensures Discounted(a, f) <= Discounted(a', f')
  {
    if f <= 0.0 {
      ProductLe(f, 0.0, a);
      ClampMonotone(a * f, 0.0);
    } else {
      assert a' >= 0.0 && f' >= 0.0;
      ProductLe(a, a', f);
      ProductLe(f, f', a');
      assert f * a' == a' * f && f' * a' == a' * f';
      ClampMonotone(a * f, a' * f');
    }
  }

  /** The reward stays in [0, 1], never falls when the outcome, the confidence or the cost improves,
      and is zero for a failure. */
  lemma RewardIsMonotone(w: RewardShaper, e: Evidence, success: bool, e': Evidence, success': bool)
    requires w.Sensible() && (success ==> success')
    requires e.confidence <= e'.confidence && CostSignal(e'.cost) <= CostSignal(e.cost)
    ensures 0.0 <= w.Reward(e, success) <= w.Reward(e', success') <= 1.0
    ensures !success ==> w.Reward(e, success) == 0.0
  {
    hide CostSignal, RewardShaper.Base, Clamp, Discount, Discounted;
    if success {
      var c, c' := Clamp(e.confidence), Clamp(e'.confidence);
      ClampMonotone(e.confidence, e'.confidence);
      BaseMonotone(w, c, c');
      DiscountMonotone(w.costWeight, CostSignal(e.cost), CostSignal(e'.cost));
      DiscountedMonotone(w.Base(c), w.Base(c'), Discount(w.costWeight, CostSignal(e.cost)),
                         Discount(w.costWeight, CostSignal(e'.cost)));
    }
  }

  /** What a success pays before costs: the weighted mean of the confidence and of 1, or the confidence
      itself if the weights add up to nothing. */
  lemma BaseSays(w: RewardShaper, c: real)
    ensures var sum := w.confidenceWeight + w.outcomeWeight;
            if sum > 0.0 then w.Base(c) * sum == w.confidenceWeight * c + w.outcomeWeight * 1.0 else w.Base(c) == c
  {}

  /** A cost takes its weighted share off what is paid, and a failure pays nothing. */
  lemma RewardSays(w: RewardShaper, e: Evidence, success: bool)
    requires w.Sensible() && w.costWeight <= 1.0
    ensures w.Reward(e, success)
            == if success then w.Base(Clamp(e.confidence)) * (1.0 - w.costWeight * CostSignal(e.cost)) else 0.0
  {
    hide CostSignal, RewardShaper.Base, Clamp;
    var c, signal := Clamp(e.confidence), CostSignal(e.cost);
    BaseInRange(w, c);
    UnitProduct(w.costWeight, signal);
    UnitProduct(w.Base(c), Discount(w.costWeight, signal));
  }

  lemma UnitProduct(a: real, b: real)
    requires 0.0 <= a <= 1.0 && 0.0 <= b <= 1.0
    ensures 0.0 <= a * b <= 1.0
  {
    NonNegativeProduct(a, b);
    NonNegativeProduct(1.0 - a, b);
    assert (1.0 - a) * b == b - a * b;
  }

  lemma NonNegativeProduct(a: real, b: real)
    requires a >= 0.0 && b >= 0.0
    ensures a * b >= 0.0
  {}

  lemma BaseInRange(w: RewardShaper, c: real)
    requires w.Sensible() && 0.0 <= c <= 1.0
    ensures 0.0 <= w.Base(c) <= 1.0
  {
    BaseMonotone(w, c, 1.0);
    var sum := w.confidenceWeight + w.outcomeWeight;
    if sum > 0.0 {
      BaseSays(w, 1.0);
      assert (w.Base(1.0) - 1.0) * sum == 0.0;
    }
  }

  lemma ShareOf(r: real, n: real)
    requires n > 0.0
    ensures (r / n) * n == r
    ensures 0.0 <= r <= n ==> 0.0 <= r / n <= 1.0
  {
    var q := r / n;
    assert q * n == r;
    if 0.0 <= r <= n {
      QuotientLe(0.0, r, n);
      QuotientLe(r, n, n);
      assert n / n == 1.0 && 0.0 / n == 0.0;
    }
  }

  /** The friction reported: the cost if there is a number, otherwise the share of the attempts that were
      retries; missing attempts count as one, missing retries as none. */
  lemma CostSays(report: CostReport)
    ensures report.cost.Some? && report.cost.value.Number? ==> CostSignal(report) == Clamp(report.cost.value.value)
    ensures report.cost.Some? && !report.cost.value.Number? ==> CostSignal(report) == 0.0
    ensures report.cost.None? && report.retries.None? ==> CostSignal(report) == 0.0
    ensures report.cost.None? && report.attempts.None? && report.retries.Some? && report.retries.value.Number?
            && 0.0 <= report.retries.value.value <= 1.0 ==>
              CostSignal(report) == report.retries.value.value
  {
    assert 0.0 / 1.0 == 0.0;
    if report.cost.None? && report.retries.None? {
      var n := OrDefault(report.attempts, 1.0);
      if n.Number? && n.value != 0.0 { assert 0.0 / n.value == 0.0; }
    }
    if report.retries.Some? && report.retries.value.Number? {
      var r := report.retries.value.value;
      assert r / 1.0 == r;
    }
  }

  /** Of a number of attempts the signal is the share that were retries. */
  lemma RetryShare(attempts: real, retries: real)
    requires 0.0 <= retries <= attempts && attempts > 0.0
    ensures CostSignal(CostReport(None, Some(Number(attempts)), Some(Number(retries)))) * attempts == retries
  {
    ShareOf(retries, attempts);
    hide Clamp;
  }

  /** Without outcome and cost weights the reward of a success is exactly the clamped confidence. */
  lemma RewardGeneralizesConfidence(w: RewardShaper, e: Evidence)
    requires w.outcomeWeight == 0.0 && w.costWeight == 0.0
    ensures w.Reward(e, true) == Clamp(e.confidence)
  {
    hide CostSignal;
    var c := Clamp(e.confidence);
    if w.confidenceWeight > 0.0 {
      assert w.Base(c) == (w.confidenceWeight * c + 0.0) / w.confidenceWeight;
      CancelFactor(w.confidenceWeight, c);
    }
    assert w.costWeight * CostSignal(e.cost) == 0.0;
    assert w.Base(c) * 1.0 == c;
  }

  lemma CancelFactor(d: real, c: real)
    requires d > 0.0
    ensures (d * c + 0.0) / d == c
  {
    var q := (d * c + 0.0) / d;
    assert q * d == d * c;
    assert (q - c) * d == 0.0;
  }

  /** Of two equally good reports the one with more retries over the same attempts costs more. */
  lemma MoreRetriesCostMore(attempts: real, r: real, r': real)
    requires attempts > 0.0 && 0.0 <= r <= r'
    ensures CostSignal(CostReport(None, Some(Number(attempts)), Some(Number(r)))) <=
            CostSignal(CostReport(None, Some(Number(attempts)), Some(Number(r'))))
  {
    QuotientLe(r, r', attempts);
    QuotientLe(0.0, r', attempts);
  }
}
