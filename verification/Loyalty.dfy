/** Refund limits, and loyalty points: redemption at checkout and reversal on refunds. */
module Loyalty {
  import opened Wrappers
  import opened BigInts

  datatype Policy = Policy(enabled: bool, redeemMinorPerPoint: int, minimumRedemptionPoints: int,
                           maximumRedemptionBps: int)
  datatype Redemption = Redemption(points: int, amountMinor: int)

  function Min(a: int, b: int): int { if a < b then a else b }

  // ----- redemption -----

  function LoyaltyRedemption(requested: int, available: int, payable: int, policy: Policy): Redemption {
    if !policy.enabled || requested <= 0 then Redemption(0, 0)
    else if requested < policy.minimumRedemptionPoints then Redemption(0, 0)
    else
      var usable := Min(requested, if available > 0 then available else 0);
      var maximumAmount := Quotient(payable * policy.maximumRedemptionBps, 10_000);
      var maximumPoints := if policy.redeemMinorPerPoint > 0 then Quotient(maximumAmount, policy.redeemMinorPerPoint)
                           else 0;
      var points := Min(usable, maximumPoints);
      Redemption(points, points * policy.redeemMinorPerPoint)
  }

  /** Redemption is switched on and the request reaches the minimum. */
  predicate Eligible(requested: int, policy: Policy) {
    policy.enabled && requested > 0 && requested >= policy.minimumRedemptionPoints
  }

  /** The points are within the request, the balance, and the percentage of the payable amount. */
  predicate Affordable(points: int, requested: int, available: int, payable: int, policy: Policy) {
    && 0 <= points <= requested && points <= (if available > 0 then available else 0)
    && points * policy.redeemMinorPerPoint * 10_000 <= payable * policy.maximumRedemptionBps
  }

  /** Rounding twice loses nothing: a number of points fits the rounded cap exactly when it fits the percentage. */
  lemma PointsFit(points: int, cap: int, perPoint: int)
    requires cap >= 0 && perPoint > 0
    ensures points <= Quotient(Quotient(cap, 10_000), perPoint) <==> points * perPoint * 10_000 <= cap
  {
    QuotientFits(cap, 10_000, 0);
    QuotientFits(Quotient(cap, 10_000), perPoint, points);
    QuotientFits(cap, 10_000, points * perPoint);
  }

  /** An eligible request redeems the largest affordable number of points; any other redeems none. */
  lemma LargestRedemption(requested: int, available: int, payable: int, policy: Policy, points: int)
    requires payable * policy.maximumRedemptionBps >= 0
    ensures var r := LoyaltyRedemption(requested, available, payable, policy);
            var redeems := Eligible(requested, policy) && policy.redeemMinorPerPoint > 0;
            && r.amountMinor == r.points * policy.redeemMinorPerPoint
            && (redeems ==> Affordable(r.points, requested, available, payable, policy))
            && (redeems && Affordable(points, requested, available, payable, policy) ==> points <= r.points)
            && (!redeems ==> r.points == 0)
  {
    if Eligible(requested, policy) && policy.redeemMinorPerPoint > 0 {
      RedemptionFits(requested, available, payable, policy, points);
    }
  }

  lemma RedemptionFits(requested: int, available: int, payable: int, policy: Policy, points: int)
    requires payable * policy.maximumRedemptionBps >= 0 && policy.redeemMinorPerPoint > 0 && Eligible(requested, policy)
    ensures var r := LoyaltyRedemption(requested, available, payable, policy);
            Affordable(r.points, requested, available, payable, policy)
            && (Affordable(points, requested, available, payable, policy) ==> points <= r.points)
  {
    var cap := payable * policy.maximumRedemptionBps;
    var perPoint := policy.redeemMinorPerPoint;
    PointsFit(LoyaltyRedemption(requested, available, payable, policy).points, cap, perPoint);
    PointsFit(points, cap, perPoint);
    PointsFit(0, cap, perPoint);
    assert 0 * perPoint * 10_000 == 0;
  }

  /** At checkout, where the payable amount and the percentage are not negative, no redemption is. */
  lemma RedemptionNotNegative(requested: int, available: int, payable: int, policy: Policy)
    requires payable >= 0 && policy.maximumRedemptionBps >= 0
    ensures var r := LoyaltyRedemption(requested, available, payable, policy); r.points >= 0 && r.amountMinor >= 0
  {
    Monotone(0, payable, policy.maximumRedemptionBps);
    var r := LoyaltyRedemption(requested, available, payable, policy);
    LargestRedemption(requested, available, payable, policy, 0);
    if policy.redeemMinorPerPoint > 0 { Monotone(0, r.points, policy.redeemMinorPerPoint); }
  }

  /**
   The redemption is negative exactly when the percentage of the payable amount is at least one point's worth below
   zero.
   */
  lemma NegativeRedemption(requested: int, available: int, payable: int, policy: Policy)
    ensures LoyaltyRedemption(requested, available, payable, policy).points < 0
       <==> Eligible(requested, policy) && policy.redeemMinorPerPoint > 0
            && payable * policy.maximumRedemptionBps <= -(10_000 * policy.redeemMinorPerPoint)
  {
    if Eligible(requested, policy) && policy.redeemMinorPerPoint > 0 {
      var cap, perPoint := payable * policy.maximumRedemptionBps, policy.redeemMinorPerPoint;
      QuotientNegative(Quotient(cap, 10_000), perPoint);
      if cap < 0 { QuotientFits(-cap, 10_000, perPoint); }
    }
  }

  // ----- refund limit -----

  function AssertRefundLimit(captured: int, already: int, requested: int): Outcome<(), string> {
    if requested <= 0 || already < 0 || requested + already > captured then Fail("Refund exceeds captured payment")
    else Ok(())
  }

  function Sum(amounts: seq<int>): int {
    if amounts == [] then 0 else Sum(amounts[..|amounts| - 1]) + amounts[|amounts| - 1]
  }

  /** The accepted refunds of a run of requests; each acceptance raises the amount already refunded. */
  function AcceptedRefunds(captured: int, already: int, requests: seq<int>): seq<int> {
    if requests == [] then [] else
    var before := AcceptedRefunds(captured, already, requests[..|requests| - 1]);
    var request := requests[|requests| - 1];
    if AssertRefundLimit(captured, already + Sum(before), request).Ok? then before + [request] else before
  }

  ghost predicate AllPositive(amounts: seq<int>) { forall i :: 0 <= i < |amounts| ==> amounts[i] > 0 }

  /** Whatever is requested, the total refunded stays within the captured amount. */
  lemma {:induction false} RefundsStayWithinCaptured(captured: int, already: int, requests: seq<int>)
    requires already <= captured
    ensures AllPositive(AcceptedRefunds(captured, already, requests))
    ensures already + Sum(AcceptedRefunds(captured, already, requests)) <= captured
  {
    if requests != [] {
      var n := |requests| - 1;
      RefundsStayWithinCaptured(captured, already, requests[..n]);
      var before := AcceptedRefunds(captured, already, requests[..n]);
      assert (before + [requests[n]])[..|before|] == before;
    }
  }

  /** After any run, a request is accepted exactly when it is positive and fits what is left of the captured amount. */
  lemma AcceptedWhenFits(captured: int, already: int, requests: seq<int>, request: int)
    requires 0 <= already <= captured
    ensures var before := AcceptedRefunds(captured, already, requests);
            AcceptedRefunds(captured, already, requests + [request])
            == if 0 < request <= captured - (already + Sum(before)) then before + [request] else before
  {
    RefundsStayWithinCaptured(captured, already, requests);
    SumGrows(AcceptedRefunds(captured, already, requests));
    assert (requests + [request])[..|requests|] == requests;
  }

  lemma SumAppend(amounts: seq<int>, amount: int)
    ensures Sum(amounts + [amount]) == Sum(amounts) + amount
  {
    assert (amounts + [amount])[..|amounts|] == amounts;
  }

  /** So what is left can always be refunded at once, and nothing after it. */
  lemma RestCanBeRefunded(captured: int, already: int, requests: seq<int>, rest: int, more: int)
    requires 0 <= already <= captured
             && rest == captured - (already + Sum(AcceptedRefunds(captured, already, requests)))
    ensures var all := AcceptedRefunds(captured, already, requests + [rest]);
            already + Sum(all) == captured && AcceptedRefunds(captured, already, requests + [rest] + [more]) == all
  {
    RefundsStayWithinCaptured(captured, already, requests);
    AcceptedWhenFits(captured, already, requests, rest);
    SumAppend(AcceptedRefunds(captured, already, requests), rest);
    AcceptedWhenFits(captured, already, requests + [rest], more);
  }

  // ----- reversal -----

  function LoyaltyRefundReversal(total: int, refund: int, paid: int): int {
    if total <= 0 || refund <= 0 || paid <= 0 then 0
    else Quotient(total * (if refund > paid then paid else refund) + paid - 1, paid)
  }

  /** The reversal is the share of the points, rounded up. */
  lemma ReversalRoundsUp(total: int, refund: int, paid: int, k: int)
    requires total >= 0 && 0 < refund <= paid
    ensures LoyaltyRefundReversal(total, refund, paid) <= k <==> total * refund <= k * paid
  {
    if total == 0 {
      if k < 0 { Monotone(k, -1, paid); } else { Monotone(0, k, paid); }
    } else {
      assert total * refund >= 0 by { Monotone(0, total, refund); }
      CeilingReaches(total * refund, paid, k);
    }
  }

  /** Nothing is reversed exactly when there are no points, nothing is refunded or nothing was paid. */
  lemma NothingToReverse(total: int, refund: int, paid: int)
    ensures LoyaltyRefundReversal(total, refund, paid) == 0 <==> total <= 0 || refund <= 0 || paid <= 0
  {
    if total > 0 && refund > 0 && paid > 0 {
      var x := if refund > paid then paid else refund;
      ReversalRoundsUp(total, x, paid, 0);
      Monotone(1, total, x);
    }
  }

  /** A full refund reverses all points. */
  lemma FullRefundReversesAll(total: int, refund: int, paid: int)
    requires total >= 0 && 0 < paid <= refund
    ensures LoyaltyRefundReversal(total, refund, paid) == total
  {
    ReversalRoundsUp(total, paid, paid, total);
    ReversalRoundsUp(total, paid, paid, total - 1);
    assert (total - 1) * paid == total * paid - paid;
  }

  /** Each refund reversed by itself. */
  function SeparateReversals(total: int, refunds: seq<int>, paid: int): int {
    if refunds == [] then 0
    else SeparateReversals(total, refunds[..|refunds| - 1], paid)
         + LoyaltyRefundReversal(total, refunds[|refunds| - 1], paid)
  }

  /** How far one reversal rounds up, in units of 1 / paid. */
  function Slack(total: int, refund: int, paid: int): int {
    LoyaltyRefundReversal(total, refund, paid) * paid - total * refund
  }

  lemma SlackBounds(total: int, refund: int, paid: int)
    requires total >= 0 && 0 < refund <= paid
    ensures 0 <= Slack(total, refund, paid) < paid
    ensures Slack(total, refund, paid) == 0 <==> (total * refund) % paid == 0
  {
    var r := LoyaltyRefundReversal(total, refund, paid);
    ReversalRoundsUp(total, refund, paid, r);
    ReversalRoundsUp(total, refund, paid, r - 1);
    assert (r - 1) * paid == r * paid - paid;
    Remainder(total * refund, r, paid);
  }

  lemma Remainder(x: int, r: int, paid: int)
    requires paid > 0 && 0 <= r * paid - x < paid
    ensures r * paid - x == 0 <==> x % paid == 0
  {
    var q := x / paid;
    assert x == q * paid + x % paid;
    if x % paid == 0 {
      assert (q + 1) * paid == q * paid + paid;
      if r > q { Monotone(q + 1, r, paid); }
      if r < q { Monotone(r, q, paid); }
    }
    if r * paid == x { MultipleRemainder(r, paid); }
  }

  lemma MultipleRemainder(r: int, paid: int)
    requires paid > 0
    ensures (r * paid) % paid == 0
  {
    var x := r * paid;
    var q, m := x / paid, x % paid;
    assert x == q * paid + m;
    assert (r - q) * paid == m;
    if r - q >= 1 { Monotone(1, r - q, paid); }
    if r - q <= -1 { Monotone(r - q, -1, paid); }
  }

  function SlackSum(total: int, refunds: seq<int>, paid: int): int {
    if refunds == [] then 0
    else SlackSum(total, refunds[..|refunds| - 1], paid) + Slack(total, refunds[|refunds| - 1], paid)
  }

  ghost predicate Within(refunds: seq<int>, paid: int) {
    AllPositive(refunds) && Sum(refunds) <= paid
  }

  lemma {:induction false} SumGrows(refunds: seq<int>)
    requires AllPositive(refunds)
    ensures Sum(refunds) >= |refunds|
  {
    if refunds != [] { SumGrows(refunds[..|refunds| - 1]); }
  }

  lemma {:induction false} SlackAdds(total: int, refunds: seq<int>, paid: int)
    ensures SeparateReversals(total, refunds, paid) * paid == total * Sum(refunds) + SlackSum(total, refunds, paid)
  {
    if refunds != [] {
      var n := |refunds| - 1;
      SlackAdds(total, refunds[..n], paid);
      StepAdds(SeparateReversals(total, refunds[..n], paid), LoyaltyRefundReversal(total, refunds[n], paid), paid,
               total, Sum(refunds[..n]), refunds[n]);
    }
  }

  lemma StepAdds(a: int, b: int, paid: int, total: int, x: int, y: int)
    ensures (a + b) * paid == a * paid + b * paid && total * (x + y) == total * x + total * y
  {
  }

  lemma WithinFront(refunds: seq<int>, paid: int)
    requires refunds != [] && Within(refunds, paid)
    ensures Within(refunds[..|refunds| - 1], paid) && 0 < refunds[|refunds| - 1] <= paid
  {
    SumGrows(refunds[..|refunds| - 1]);
  }

  lemma {:induction false} SlackSumBounds(total: int, refunds: seq<int>, paid: int)
    requires total >= 0 && paid > 0 && Within(refunds, paid)
    ensures 0 <= SlackSum(total, refunds, paid) <= |refunds| * (paid - 1)
  {
    if refunds != [] {
      var n := |refunds| - 1;
      WithinFront(refunds, paid);
      SlackSumBounds(total, refunds[..n], paid);
      SlackBounds(total, refunds[n], paid);
      assert (n + 1) * (paid - 1) == n * (paid - 1) + (paid - 1);
    }
  }

  /** Every share is a whole number of points. */
  ghost predicate WholeShares(total: int, refunds: seq<int>, paid: int)
    requires paid > 0
  {
    forall i :: 0 <= i < |refunds| ==> WholeShare(total, refunds[i], paid)
  }

  predicate WholeShare(total: int, refund: int, paid: int)
    requires paid > 0
  {
    (total * refund) % paid == 0
  }

  lemma {:induction false} NoSlack(total: int, refunds: seq<int>, paid: int)
    requires total >= 0 && paid > 0 && Within(refunds, paid)
    ensures SlackSum(total, refunds, paid) == 0 <==> WholeShares(total, refunds, paid)
  {
    if refunds != [] {
      var n := |refunds| - 1;
      WithinFront(refunds, paid);
      NoSlack(total, refunds[..n], paid);
      SlackSumBounds(total, refunds[..n], paid);
      SlackBounds(total, refunds[n], paid);
      assert WholeShares(total, refunds, paid) <==>
             WholeShares(total, refunds[..n], paid) && WholeShare(total, refunds[n], paid) by {
        assert refunds == refunds[..n] + [refunds[n]];
      }
    }
  }

  /**
   Refunds reversed one by one take back at least the one-shot reversal, and less than one point more per further
   refund.
   */
  lemma SeparateReversalsBounds(total: int, refunds: seq<int>, paid: int)
    requires total >= 0 && paid > 0 && Within(refunds, paid) && refunds != []
    ensures var once := LoyaltyRefundReversal(total, Sum(refunds), paid);
            once <= SeparateReversals(total, refunds, paid) <= once + |refunds| - 1
  {
    SumGrows(refunds);
    SlackAdds(total, refunds, paid);
    SlackSumBounds(total, refunds, paid);
    SlackBounds(total, Sum(refunds), paid);
    Between(LoyaltyRefundReversal(total, Sum(refunds), paid), SeparateReversals(total, refunds, paid), paid,
            total * Sum(refunds), |refunds|);
  }

  /** `once` is x / paid rounded up, and `separate` overshoots x / paid by less than n. */
  lemma Between(once: int, separate: int, paid: int, x: int, n: nat)
    requires paid > 0 && n > 0 && 0 <= once * paid - x < paid && 0 <= separate * paid - x <= n * (paid - 1)
    ensures once <= separate <= once + n - 1
  {
    assert (separate + 1) * paid == separate * paid + paid;
    if separate + 1 <= once { Monotone(separate + 1, once, paid); }
    assert (once + n) * paid == once * paid + n * paid && n * (paid - 1) == n * paid - n;
    if once + n <= separate { Monotone(once + n, separate, paid); }
  }

  /**
   Refunds that together return the full amount reverse exactly all points precisely when each share is a whole number
   of points.
   */
  lemma SeparateReversalsExact(total: int, refunds: seq<int>, paid: int)
    requires total >= 0 && paid > 0 && AllPositive(refunds) && Sum(refunds) == paid
    ensures SeparateReversals(total, refunds, paid) == total <==> WholeShares(total, refunds, paid)
  {
    SlackAdds(total, refunds, paid);
    NoSlack(total, refunds, paid);
    Cancel(SeparateReversals(total, refunds, paid), total, paid);
  }

  lemma Cancel(a: int, b: int, paid: int)
    requires paid > 0
    ensures a * paid == b * paid <==> a == b
  {
    if a < b { Monotone(a + 1, b, paid); assert (a + 1) * paid == a * paid + paid; }
    if b < a { Monotone(b + 1, a, paid); assert (b + 1) * paid == b * paid + paid; }
  }

  /** One point over two equal refunds is reversed twice. */
  lemma SeparateReversalsOvershoot()
    ensures SeparateReversals(1, [1, 1], 2) == 2 && LoyaltyRefundReversal(1, 2, 2) == 1
  {
    assert [1, 1][..1] == [1] && [1][..0] == [];
  }

  // ----- the ledger -----

  /** What one refund still reverses, given what earlier refunds did. */
  function RemainingReversal(target: int, prior: int, maximum: int): int {
    if maximum - prior <= 0 || target - prior <= 0 then 0 else Min(target - prior, maximum - prior)
  }

  /** It is the largest number of points that takes the ledger neither past the target nor past the maximum. */
  lemma RemainingIsLargest(target: int, prior: int, maximum: int, k: nat)
    ensures RemainingReversal(target, prior, maximum) >= 0
    ensures k <= RemainingReversal(target, prior, maximum)
       <==> k == 0 || (prior + k <= target && prior + k <= maximum)
  {
  }

  /** The points reversed by the ledger after a run of completed refunds: each works from the total refunded so far. */
  function LedgerReversed(total: int, refunds: seq<int>, paid: int): int {
    if refunds == [] then 0 else
    var prior := LedgerReversed(total, refunds[..|refunds| - 1], paid);
    prior + RemainingReversal(LoyaltyRefundReversal(total, Sum(refunds), paid), prior, total)
  }

  lemma ReversalMonotone(total: int, a: int, b: int, paid: int)
    requires total >= 0 && paid > 0 && 0 <= a <= b
    ensures 0 <= LoyaltyRefundReversal(total, a, paid) <= LoyaltyRefundReversal(total, b, paid) <= total
  {
    if b > 0 {
      var y := Min(b, paid);
      BoundedReversal(total, y, paid);
      if a > 0 {
        var x := Min(a, paid);
        BoundedReversal(total, x, paid);
        var k := LoyaltyRefundReversal(total, y, paid);
        ReversalRoundsUp(total, y, paid, k);
        ReversalRoundsUp(total, x, paid, k);
        assert total * x <= total * y by { Monotone(x, y, total); }
      }
    }
  }

  lemma BoundedReversal(total: int, x: int, paid: int)
    requires total >= 0 && 0 < x <= paid
    ensures 0 <= LoyaltyRefundReversal(total, x, paid) <= total
  {
    ReversalRoundsUp(total, x, paid, -1);
    ReversalRoundsUp(total, x, paid, total);
    assert total * x <= total * paid by { Monotone(x, paid, total); }
    assert total * x >= 0 by { Monotone(0, total, x); }
  }

  /**
   Over any run of refunds the ledger has reversed exactly the one-shot reversal of their sum, so never more than all
   points.
   */
  lemma {:induction false} LedgerReversesOnce(total: int, refunds: seq<int>, paid: int)
    requires total >= 0 && paid > 0 && AllPositive(refunds)
    ensures LedgerReversed(total, refunds, paid) == LoyaltyRefundReversal(total, Sum(refunds), paid) <= total
    ensures Sum(refunds) >= paid ==> LedgerReversed(total, refunds, paid) == total
  {
    SumGrows(refunds);
    if refunds != [] {
      var n := |refunds| - 1;
      LedgerReversesOnce(total, refunds[..n], paid);
      SumGrows(refunds[..n]);
      ReversalMonotone(total, Sum(refunds[..n]), Sum(refunds), paid);
      if Sum(refunds) >= paid { FullRefundReversesAll(total, Sum(refunds), paid); }
    }
  }

  /**
   Refunds accepted by the limit check against the amount paid reverse at most all points in the ledger, and all of them
   once it is refunded in full.
   */
  lemma AcceptedRefundsReverse(total: int, paid: int, requests: seq<int>)
    requires total >= 0 && paid > 0
    ensures var refunds := AcceptedRefunds(paid, 0, requests);
            && Sum(refunds) <= paid
            && LedgerReversed(total, refunds, paid) <= total
            && (refunds != [] ==> LedgerReversed(total, refunds, paid) <= SeparateReversals(total, refunds, paid)
                               <= LedgerReversed(total, refunds, paid) + |refunds| - 1)
            && (Sum(refunds) == paid ==> LedgerReversed(total, refunds, paid) == total)
  {
    var refunds := AcceptedRefunds(paid, 0, requests);
    RefundsStayWithinCaptured(paid, 0, requests);
    LedgerReversesOnce(total, refunds, paid);
    if refunds != [] { SeparateReversalsBounds(total, refunds, paid); }
  }
}
