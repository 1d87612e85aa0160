/**
 * The X01 visit evaluator: how one dart is scored, and how a visit of up to
 * three darts takes a player's remaining score down, busts (rolling the score
 * back to where the visit started) or checks out on a double.
 *
 * Double-out is always enforced; there is no flag to switch it off.
 */
module Scoring {

  datatype Option<T> = None | Some(value: T)

  /** The multiplier of a dart: single, double or treble. */
  type Mult = m: int | 1 <= m <= 3 witness 1

  /** One dart: the face value hit (0..20, or 25 for the bull) and its multiplier. */
  datatype Dart = Dart(value: int, mult: Mult)

  /** The outcome of one visit. */
  datatype VisitResult = VisitResult(
    nextScore: int,
    bust: bool,
    finished: bool,
    checkoutDartIndex: Option<nat>)

  /** A dart a keypad can produce: a face 0..20 or the bull. */
  predicate ValidDart(d: Dart) {
    0 <= d.value <= 20 || d.value == 25
  }

  /**
   * Points scored by one dart. The bull is worth 25, or 50 when it is hit
   * with multiplier 2 (a "treble bull" is still worth 25); every other face is
   * worth its value times the multiplier.
   */
  function DartScore(d: Dart): (r: int)
    ensures d.value == 25 ==> (r == 50 <==> d.mult == 2) && (r == 25 <==> d.mult != 2)
    ensures d.value != 25 && d.mult == 1 ==> r == d.value
    ensures d.mult == 2 ==> r == 2 * d.value
    ensures d.value != 25 && d.mult == 3 ==> r == 3 * d.value
    ensures ValidDart(d) ==> 0 <= r <= 60
  {
    if d.value == 25 then (if d.mult == 2 then 50 else 25)
    else d.value * d.mult
  }

  /** Whether a dart may finish a leg: the inner bull clause adds nothing to "multiplier 2". */
  function IsDouble(d: Dart): (r: bool)
    ensures r <==> d.mult == 2
  {
    if d.value == 25 && d.mult == 2 then true
    else d.mult == 2
  }

  /**
   * The visit as the evaluator's loop runs it: `score` is the running score
   * before dart `i`; the first dart that leaves less than 2 stops the visit.
   */
  function Step(startScore: int, score: int, darts: seq<Dart>, i: nat): (r: VisitResult)
    requires i <= |darts|
    ensures r.bust ==> r.nextScore == startScore && !r.finished
    ensures r.checkoutDartIndex.Some? <==> r.finished
    ensures r.finished ==>
      && r.nextScore == 0
      && i <= r.checkoutDartIndex.value < |darts|
      && IsDouble(darts[r.checkoutDartIndex.value])
    ensures !r.bust && !r.finished ==> (i < |darts| ==> r.nextScore >= 2)
    decreases |darts| - i
  {
    if i == |darts| then VisitResult(score, false, false, None)
    else
      var proposed := score - DartScore(darts[i]);
      if proposed < 0 || proposed == 1 then VisitResult(startScore, true, false, None)
      else if proposed == 0 then
        if IsDouble(darts[i]) then VisitResult(0, false, true, Some(i))
        else VisitResult(startScore, true, false, None)
      else Step(startScore, proposed, darts, i + 1)
  }

  /** The outcome of throwing `darts` from `startScore`. */
  function Visit(startScore: int, darts: seq<Dart>): (r: VisitResult)
    ensures darts == [] ==> r == VisitResult(startScore, false, false, None)
    ensures r.bust ==> r.nextScore == startScore && !r.finished && r.checkoutDartIndex == None
    ensures r.finished ==>
      && r.nextScore == 0 && r.checkoutDartIndex.Some?
      && r.checkoutDartIndex.value < |darts| && IsDouble(darts[r.checkoutDartIndex.value])
  {
    Step(startScore, startScore, darts, 0)
  }

  /** The evaluator as the source writes it: a loop over the darts that stops at a bust or a finish. */
  method ApplyVisit(startScore: int, darts: seq<Dart>) returns (r: VisitResult)
    ensures r == Visit(startScore, darts)
  {
    var score := startScore;
    var bust := false;
    var finished := false;
    var checkoutDartIndex: Option<nat> := None;
    var i := 0;
    while i < |darts|
      invariant 0 <= i <= |darts|
      invariant !bust && !finished && checkoutDartIndex == None
      invariant Step(startScore, score, darts, i) == Visit(startScore, darts)
    {
      var d := darts[i];
      var s := DartScore(d);
      var proposed := score - s;
      if proposed < 0 || proposed == 1 {
        bust := true;
        score := startScore;
        break;
      }
      if proposed == 0 {
        if IsDouble(d) {
          finished := true;
          checkoutDartIndex := Some(i);
          score := 0;
        } else {
          bust := true;
          score := startScore;
        }
        break;
      }
      score := proposed;
      i := i + 1;
    }
    r := VisitResult(score, bust, finished, checkoutDartIndex);
  }

  // ---------------------------------------------------------------------------
  // A reference description of a visit, by prefix sums of the darts.

  /** The points scored by all of `darts`. */
  function Total(darts: seq<Dart>): int
  {
    if darts == [] then 0 else Total(darts[..|darts| - 1]) + DartScore(darts[|darts| - 1])
  }

  /** The score that dart `i` proposes: the start minus darts 0..i. */
  function Proposed(startScore: int, darts: seq<Dart>, i: nat): int
    requires i < |darts|
  {
    startScore - Total(darts[..i + 1])
  }

  /** None of the first `n` darts leaves less than 2, so none of them stops the visit. */
  ghost predicate Clear(startScore: int, darts: seq<Dart>, n: nat)
    requires n <= |darts|
  {
    forall j :: 0 <= j < n ==> Proposed(startScore, darts, j) >= 2
  }

  /** Dart `k` is the first to leave less than 2: the visit stops there. */
  ghost predicate StopsAt(startScore: int, darts: seq<Dart>, k: nat)
  {
    k < |darts| && Clear(startScore, darts, k) && Proposed(startScore, darts, k) <= 1
  }

  /** Dart `k` is where the visit busts: it overshoots, leaves 1, or reaches 0 without a double. */
  ghost predicate BustsAt(startScore: int, darts: seq<Dart>, k: nat)
  {
    StopsAt(startScore, darts, k) &&
    (Proposed(startScore, darts, k) < 0 || Proposed(startScore, darts, k) == 1 ||
     (Proposed(startScore, darts, k) == 0 && !IsDouble(darts[k])))
  }

  /** Dart `k` checks out: a double that reaches exactly 0. */
  ghost predicate FinishesAt(startScore: int, darts: seq<Dart>, k: nat)
  {
    StopsAt(startScore, darts, k) && Proposed(startScore, darts, k) == 0 && IsDouble(darts[k])
  }

  lemma TotalSnoc(darts: seq<Dart>, i: nat)
    requires i < |darts|
    ensures Total(darts[..i + 1]) == Total(darts[..i]) + DartScore(darts[i])
  {
    assert darts[..i + 1][..i] == darts[..i];
  }

  /** The loop's recursion, from dart `i` on, either runs out of darts or stops at the first dart that leaves less than 2. */
  lemma {:induction false} StepCases(startScore: int, score: int, darts: seq<Dart>, i: nat)
    requires i <= |darts|
    requires score == startScore - Total(darts[..i])
    requires Clear(startScore, darts, i)
    ensures var r := Step(startScore, score, darts, i);
      (Clear(startScore, darts, |darts|) && r == VisitResult(startScore - Total(darts), false, false, None)) ||
      (exists k: nat :: i <= k && StopsAt(startScore, darts, k) &&
         r == (if FinishesAt(startScore, darts, k) then VisitResult(0, false, true, Some(k))
               else VisitResult(startScore, true, false, None)))
    decreases |darts| - i
  {
    if i == |darts| {
      assert darts[..i] == darts;
    } else {
      TotalSnoc(darts, i);
      var proposed := score - DartScore(darts[i]);
      assert proposed == Proposed(startScore, darts, i);
      if proposed <= 1 {
        assert StopsAt(startScore, darts, i);
      } else {
        assert Clear(startScore, darts, i + 1);
        StepCases(startScore, proposed, darts, i + 1);
      }
    }
  }

  /** At most one dart is where a visit stops, and if one is, the darts do not all pass. */
  lemma StopUnique(startScore: int, darts: seq<Dart>, k: nat, k': nat)
    requires StopsAt(startScore, darts, k)
    ensures !Clear(startScore, darts, |darts|)
    ensures StopsAt(startScore, darts, k') ==> k == k'
  {
  }

  /**
   * A visit busts exactly when some dart, with no earlier dart stopping the
   * visit, overshoots, leaves 1 or reaches 0 without a double; a bust rolls the
   * score back and records no checkout. For example 2 with a single 1 busts.
   */
  lemma VisitBust(startScore: int, darts: seq<Dart>)
    ensures Visit(startScore, darts).bust <==> exists k: nat :: BustsAt(startScore, darts, k)
    ensures Visit(startScore, darts).bust ==>
      Visit(startScore, darts) == VisitResult(startScore, true, false, None)
  {
    assert darts[..0] == [];
    StepCases(startScore, startScore, darts, 0);
    if Visit(startScore, darts).bust {
      var k: nat :| StopsAt(startScore, darts, k) &&
        Visit(startScore, darts) == (if FinishesAt(startScore, darts, k) then VisitResult(0, false, true, Some(k))
          else VisitResult(startScore, true, false, None));
      assert BustsAt(startScore, darts, k);
    }
    forall k: nat | BustsAt(startScore, darts, k)
      ensures Visit(startScore, darts).bust
    {
      StopUnique(startScore, darts, k, k);
      var k' :| StopsAt(startScore, darts, k') &&
        Visit(startScore, darts) == (if FinishesAt(startScore, darts, k') then VisitResult(0, false, true, Some(k'))
          else VisitResult(startScore, true, false, None));
      StopUnique(startScore, darts, k, k');
    }
  }

  /**
   * A visit finishes exactly when some dart, with no earlier dart stopping
   * the visit, is a double that reaches 0; then the score is 0, that dart's
   * index is the checkout index, and the darts up to it add up to the start.
   */
  lemma VisitFinish(startScore: int, darts: seq<Dart>)
    ensures Visit(startScore, darts).finished <==> exists k: nat :: FinishesAt(startScore, darts, k)
    ensures forall k: nat :: FinishesAt(startScore, darts, k) ==>
      Visit(startScore, darts) == VisitResult(0, false, true, Some(k)) &&
      IsDouble(darts[k]) && Total(darts[..k + 1]) == startScore
  {
    assert darts[..0] == [];
    StepCases(startScore, startScore, darts, 0);
    if Visit(startScore, darts).finished {
      var k: nat :| StopsAt(startScore, darts, k) &&
        Visit(startScore, darts) == (if FinishesAt(startScore, darts, k) then VisitResult(0, false, true, Some(k))
          else VisitResult(startScore, true, false, None));
      assert FinishesAt(startScore, darts, k);
    }
    forall k: nat | FinishesAt(startScore, darts, k)
      ensures Visit(startScore, darts) == VisitResult(0, false, true, Some(k))
    {
      StopUnique(startScore, darts, k, k);
      var k' :| StopsAt(startScore, darts, k') &&
        Visit(startScore, darts) == (if FinishesAt(startScore, darts, k') then VisitResult(0, false, true, Some(k'))
          else VisitResult(startScore, true, false, None));
      StopUnique(startScore, darts, k, k');
    }
  }

  /**
   * The shape of every visit: it never both busts and finishes, it records a
   * checkout index exactly when it finishes, and a visit that does neither
   * subtracts every dart, leaving at least 2 (or the start when no dart was thrown).
   */
  lemma VisitOutcomes(startScore: int, darts: seq<Dart>)
    ensures var r := Visit(startScore, darts);
      !(r.bust && r.finished) &&
      (r.checkoutDartIndex.Some? <==> r.finished) &&
      (r.finished ==> r.nextScore == 0 && r.checkoutDartIndex.value < |darts|) &&
      (!r.bust && !r.finished ==>
         r.nextScore == startScore - Total(darts) &&
         (|darts| > 0 ==> r.nextScore >= 2) &&
         (|darts| == 0 ==> r.nextScore == startScore))
  {
    assert darts[..0] == [];
    StepCases(startScore, startScore, darts, 0);
    if Clear(startScore, darts, |darts|) && |darts| > 0 {
      assert darts[..|darts| - 1 + 1] == darts;
      assert Proposed(startScore, darts, |darts| - 1) >= 2;
    }
  }

  /** A visit never leaves a negative score, and with dartboard darts it never raises the score. */
  lemma VisitBounds(startScore: int, darts: seq<Dart>)
    requires startScore >= 0
    ensures Visit(startScore, darts).nextScore >= 0
    ensures (forall i :: 0 <= i < |darts| ==> ValidDart(darts[i])) ==>
      Visit(startScore, darts).nextScore <= startScore
  {
    VisitOutcomes(startScore, darts);
    VisitBust(startScore, darts);
    if forall i :: 0 <= i < |darts| ==> ValidDart(darts[i]) {
      TotalNonNegative(darts);
    }
  }

  lemma {:induction false} TotalNonNegative(darts: seq<Dart>)
    requires forall i :: 0 <= i < |darts| ==> ValidDart(darts[i])
    ensures Total(darts) >= 0
  {
    if darts != [] {
      var prefix := darts[..|darts| - 1];
      assert forall i :: 0 <= i < |prefix| ==> prefix[i] == darts[i];
      TotalNonNegative(prefix);
    }
  }

  // ---------------------------------------------------------------------------
  // Worked visits.

  /** 40 with double 20 checks out on the first dart. */
  lemma CheckoutFirstDart()
    ensures Visit(40, [Dart(20, 2)]) == VisitResult(0, false, true, Some(0))
  {
  }

  /** 2 with a single 1 leaves 1: a bust that keeps the 2. */
  lemma LeavingOneBusts()
    ensures Visit(2, [Dart(1, 1)]) == VisitResult(2, true, false, None)
  {
  }

  /** 32 with single 20 then double 6 checks out on the second dart. */
  lemma CheckoutSecondDart()
    ensures Visit(32, [Dart(20, 1), Dart(6, 2)]) == VisitResult(0, false, true, Some(1))
  {
  }

  /** 501 with three treble 20s leaves 321. */
  lemma MaximumVisit()
    ensures Visit(501, [Dart(20, 3), Dart(20, 3), Dart(20, 3)]) == VisitResult(321, false, false, None)
  {
  }

  /** 50 with the inner bull checks out; 25 with the outer bull reaches 0 on a single and busts. */
  lemma BullCheckouts()
    ensures Visit(50, [Dart(25, 2)]) == VisitResult(0, false, true, Some(0))
    ensures Visit(25, [Dart(25, 1)]) == VisitResult(25, true, false, None)
  {
  }
}
