/** Automatic promotions, and how they stack with a coupon under a percentage cap. */
module Promotions {
  import opened Wrappers
  import opened Sequences
  import opened BigInts

  datatype Effect = Fixed(amountMinor: int) | Percent(rateBps: int, maxDiscountMinor: Option<int>)
  datatype Candidate = Candidate(id: string, priority: int, minimumSubtotalMinor: int, effect: Effect)

  const MAXIMUM_STACKED_DISCOUNT_BPS := 3_500

  datatype Plan = Plan(couponDiscountMinor: int, automaticDiscountMinor: int, totalDiscountMinor: int,
                       selectedPromotionId: Option<string>, capMinor: int)

  function PromotionDiscount(subtotal: int, c: Candidate): int {
    if subtotal < c.minimumSubtotalMinor then 0 else
    var raw := if c.effect.Fixed? then c.effect.amountMinor else Quotient(subtotal * c.effect.rateBps, 10_000);
    var capped := if c.effect.Percent? && c.effect.maxDiscountMinor.Some? && raw > c.effect.maxDiscountMinor.value
                  then c.effect.maxDiscountMinor.value else raw;
    if capped > subtotal then subtotal else capped
  }

  /** Higher priority first, then by id. */
  function Ranking(leq: (string, string) -> bool): (Candidate, Candidate) -> bool {
    (a: Candidate, b: Candidate) => a.priority > b.priority || (a.priority == b.priority && leq(a.id, b.id))
  }

  function KeepIfUseful(subtotal: int): Candidate -> seq<Candidate> {
    c => if PromotionDiscount(subtotal, c) > 0 then [c] else []
  }

  /** The candidates with a positive discount. */
  function Useful(subtotal: int, candidates: seq<Candidate>): seq<Candidate> {
    FlatMap(KeepIfUseful(subtotal), candidates)
  }

  function SelectPromotion(leq: (string, string) -> bool, subtotal: int,
                           candidates: seq<Candidate>): Option<Candidate> {
    var ranked := Sort(Ranking(leq), Useful(subtotal, candidates));
    if ranked == [] then None else Some(ranked[0])
  }

  function StackedPromotionDiscount(leq: (string, string) -> bool, subtotal: int, coupon: int,
                                    candidates: seq<Candidate>, maximumBps: int): Plan {
    var selected := SelectPromotion(leq, subtotal, candidates);
    var automatic := if selected.Some? then PromotionDiscount(subtotal, selected.value) else 0;
    var lowered := if 10_000 <= maximumBps then 10_000 else maximumBps;
    var safeBps := if lowered < 0 then 0 else lowered;
    var cap := Quotient(subtotal * safeBps, 10_000);
    var total := coupon + automatic;
    var capped := if total > cap then cap else total;
    Plan(if coupon > capped then capped else coupon, if capped > coupon then capped - coupon else 0, capped,
         if capped > coupon && selected.Some? then Some(selected.value.id) else None, cap)
  }

  // ----- selection -----

  lemma {:induction false} UsefulMembers(subtotal: int, candidates: seq<Candidate>, c: Candidate)
    ensures c in Useful(subtotal, candidates) <==> c in candidates && PromotionDiscount(subtotal, c) > 0
  {
    if candidates != [] {
      var n := |candidates| - 1;
      UsefulMembers(subtotal, candidates[..n], c);
      assert candidates == candidates[..n] + [candidates[n]];
    }
  }

  lemma RankingFacts(leq: (string, string) -> bool)
    requires TotalOrder(leq)
    ensures TotalPreorder(Ranking(leq))
    ensures forall a, b :: Ranking(leq)(a, b) && Ranking(leq)(b, a) ==> a.id == b.id
  {
    forall a: Candidate, b: Candidate ensures Ranking(leq)(a, b) || Ranking(leq)(b, a) {
      assert leq(a.id, b.id) || leq(b.id, a.id);
    }
    forall a: Candidate, b: Candidate, c: Candidate | Ranking(leq)(a, b) && Ranking(leq)(b, c)
      ensures Ranking(leq)(a, c) {
      assert leq(a.id, b.id) && leq(b.id, c.id) ==> leq(a.id, c.id);
    }
  }

  /**
   The selected promotion is a candidate with a positive discount of the highest priority, and of the first id among
   those; there is none only if no discount is positive.
   */
  lemma BestIsSelected(leq: (string, string) -> bool, subtotal: int, candidates: seq<Candidate>, c: Candidate)
    requires TotalOrder(leq)
    ensures var s := SelectPromotion(leq, subtotal, candidates);
            && (s.Some? ==> s.value in candidates && PromotionDiscount(subtotal, s.value) > 0)
            && (c in candidates && PromotionDiscount(subtotal, c) > 0 ==>
                  s.Some? && (s.value.priority > c.priority
                              || (s.value.priority == c.priority && leq(s.value.id, c.id))))
  {
    RankingFacts(leq);
    var useful := Useful(subtotal, candidates);
    var ranked := Sort(Ranking(leq), useful);
    SortResult(Ranking(leq), useful);
    UsefulMembers(subtotal, candidates, c);
    if c in useful {
      assert c in multiset(ranked);
      var i :| 0 <= i < |ranked| && ranked[i] == c;
      assert Ranking(leq)(c, c);
    }
    if ranked != [] {
      assert ranked[0] in multiset(useful);
      UsefulMembers(subtotal, candidates, ranked[0]);
    }
  }

  ghost predicate IdsDistinct(candidates: seq<Candidate>) {
    forall i, j :: 0 <= i < j < |candidates| ==> candidates[i].id != candidates[j].id
  }

  lemma IdsSeparate(leq: (string, string) -> bool, subtotal: int, candidates: seq<Candidate>)
    requires TotalOrder(leq) && IdsDistinct(candidates)
    ensures Separates(Ranking(leq), Useful(subtotal, candidates))
  {
    RankingFacts(leq);
    var useful := Useful(subtotal, candidates);
    forall a, b | a in multiset(useful) && b in multiset(useful) && Ranking(leq)(a, b) && Ranking(leq)(b, a)
      ensures a == b {
      UsefulMembers(subtotal, candidates, a);
      UsefulMembers(subtotal, candidates, b);
      var i :| 0 <= i < |candidates| && candidates[i] == a;
      var j :| 0 <= j < |candidates| && candidates[j] == b;
    }
  }

  /** With distinct ids the outcome does not depend on the order of the candidates. */
  lemma OrderOfCandidatesIrrelevant(leq: (string, string) -> bool, subtotal: int, coupon: int, a: seq<Candidate>,
                                    b: seq<Candidate>, maximumBps: int)
    requires TotalOrder(leq) && IdsDistinct(a) && multiset(a) == multiset(b)
    ensures SelectPromotion(leq, subtotal, a) == SelectPromotion(leq, subtotal, b)
    ensures StackedPromotionDiscount(leq, subtotal, coupon, a, maximumBps)
         == StackedPromotionDiscount(leq, subtotal, coupon, b, maximumBps)
  {
    RankingFacts(leq);
    IdsSeparate(leq, subtotal, a);
    FlatMapPermutes(KeepIfUseful(subtotal), a, b);
    SortIgnoresOrder(Ranking(leq), Useful(subtotal, a), Useful(subtotal, b));
  }

  // ----- stacking -----

  /** The discounts a promotion's terms permit, before rounding. */
  predicate Permits(subtotal: int, c: Candidate, discount: int) {
    && discount <= subtotal
    && match c.effect
       case Fixed(amount) => discount <= amount
       case Percent(rate, most) => discount * 10_000 <= subtotal * rate && (most.Some? ==> discount <= most.value)
  }

  /**
   From the minimum subtotal on, the discount is the largest whole amount the terms permit; below it there is none.
   */
  lemma DiscountIsLargest(subtotal: int, c: Candidate, discount: int)
    requires subtotal >= 0 && (c.effect.Percent? ==> c.effect.rateBps >= 0)
    ensures if subtotal < c.minimumSubtotalMinor then PromotionDiscount(subtotal, c) == 0
            else discount <= PromotionDiscount(subtotal, c) <==> Permits(subtotal, c, discount)
  {
    if c.effect.Percent? {
      assert subtotal * c.effect.rateBps >= 0 by { Monotone(0, subtotal, c.effect.rateBps); }
      QuotientFits(subtotal * c.effect.rateBps, 10_000, discount);
    }
  }

  /** The cap is the largest whole amount within the clamped percentage, and never exceeds the subtotal. */
  lemma CapFits(leq: (string, string) -> bool, subtotal: int, coupon: int, candidates: seq<Candidate>,
                maximumBps: int, amount: int)
    requires subtotal >= 0
    ensures var cap := StackedPromotionDiscount(leq, subtotal, coupon, candidates, maximumBps).capMinor;
            var bps := if maximumBps < 0 then 0 else if maximumBps > 10_000 then 10_000 else maximumBps;
            0 <= cap <= subtotal && (amount <= cap <==> amount * 10_000 <= subtotal * bps)
  {
    var bps := if maximumBps < 0 then 0 else if maximumBps > 10_000 then 10_000 else maximumBps;
    var product := subtotal * bps;
    assert 0 <= product <= subtotal * 10_000 by { Monotone(0, subtotal, bps); Monotone(bps, 10_000, subtotal); }
    QuotientFits(product, 10_000, amount);
    QuotientFits(product, 10_000, 0);
    QuotientFits(product, 10_000, subtotal + 1);
    assert (subtotal + 1) * 10_000 == subtotal * 10_000 + 10_000;
  }

  /**
   The two shares are non-negative and sum to the total, which is the coupon plus the best promotion, cut at the cap;
   the coupon is served first; and a promotion is reported exactly when its share is positive.
   */
  lemma StackedShares(leq: (string, string) -> bool, subtotal: int, coupon: int, candidates: seq<Candidate>,
                      maximumBps: int)
    requires TotalOrder(leq) && subtotal >= 0 && coupon >= 0
    ensures var plan := StackedPromotionDiscount(leq, subtotal, coupon, candidates, maximumBps);
            var selected := SelectPromotion(leq, subtotal, candidates);
            var offered := coupon + if selected.Some? then PromotionDiscount(subtotal, selected.value) else 0;
            && plan.couponDiscountMinor >= 0 && plan.automaticDiscountMinor >= 0
            && plan.couponDiscountMinor + plan.automaticDiscountMinor == plan.totalDiscountMinor
            && plan.totalDiscountMinor <= plan.capMinor <= subtotal && plan.totalDiscountMinor <= offered
            && (plan.totalDiscountMinor == plan.capMinor || plan.totalDiscountMinor == offered)
            && plan.couponDiscountMinor <= coupon
            && (plan.couponDiscountMinor == coupon || plan.couponDiscountMinor == plan.capMinor)
            && (plan.selectedPromotionId.Some? <==> plan.automaticDiscountMinor > 0)
            && (plan.automaticDiscountMinor > 0 ==>
                  selected.Some? && plan.selectedPromotionId == Some(selected.value.id)
                  && selected.value in candidates)
  {
    CapFits(leq, subtotal, coupon, candidates, maximumBps, 0);
    var selected := SelectPromotion(leq, subtotal, candidates);
    if selected.Some? { BestIsSelected(leq, subtotal, candidates, selected.value); }
  }

  /**
   At the default maximum no plan discounts more than 35 percent, and a plan that is cut reaches it to the last unit.
   */
  lemma DefaultMaximum(leq: (string, string) -> bool, subtotal: int, coupon: int, candidates: seq<Candidate>)
    requires TotalOrder(leq) && subtotal >= 0 && coupon >= 0
    ensures var plan := StackedPromotionDiscount(leq, subtotal, coupon, candidates, MAXIMUM_STACKED_DISCOUNT_BPS);
            var selected := SelectPromotion(leq, subtotal, candidates);
            var offered := coupon + if selected.Some? then PromotionDiscount(subtotal, selected.value) else 0;
            && plan.totalDiscountMinor * 100 <= subtotal * 35
            && (plan.totalDiscountMinor < offered ==> (plan.totalDiscountMinor + 1) * 100 > subtotal * 35)
  {
    var plan := StackedPromotionDiscount(leq, subtotal, coupon, candidates, MAXIMUM_STACKED_DISCOUNT_BPS);
    StackedShares(leq, subtotal, coupon, candidates, MAXIMUM_STACKED_DISCOUNT_BPS);
    CapFits(leq, subtotal, coupon, candidates, MAXIMUM_STACKED_DISCOUNT_BPS, plan.totalDiscountMinor);
    CapFits(leq, subtotal, coupon, candidates, MAXIMUM_STACKED_DISCOUNT_BPS, plan.totalDiscountMinor + 1);
  }
}
