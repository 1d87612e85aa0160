/**
 * The leg and match coordinator of X01: the turn order of a leg, each
 * player's remaining score, whose turn it is, the end of a leg, the legs-won
 * tally and the move to the next leg.
 *
 * A leg and a match are objects whose fields the coordinator updates in
 * place; the visit itself is scored by the evaluator in module Scoring.
 */
module Legs {
  import opened Scoring

  /** A roster entry: a player's id and display name. */
  datatype Member = Member(id: string, name: string)

  /** A player's state within one leg. */
  datatype Player = Player(id: string, name: string, score: int)

  /** The ids of a roster, in roster order. */
  function Ids(roster: seq<Member>): (ids: seq<string>)
    ensures |ids| == |roster|
    ensures forall i :: 0 <= i < |roster| ==> ids[i] == roster[i].id
  {
    seq(|roster|, i requires 0 <= i < |roster| => roster[i].id)
  }

  predicate Distinct(s: seq<string>) {
    forall i, j :: 0 <= i < j < |s| ==> s[i] != s[j]
  }

  /** The position of the first occurrence of `x` in `s`. */
  function IndexOf(s: seq<string>, x: string): (k: nat)
    requires x in s
    ensures k < |s| && s[k] == x
    ensures forall j :: 0 <= j < k ==> s[j] != x
  {
    if s[0] == x then 0 else 1 + IndexOf(s[1..], x)
  }

  /** `s` shifted cyclically left by `k` places. */
  function Rotate(s: seq<string>, k: nat): (r: seq<string>)
    requires k <= |s|
    ensures |r| == |s| && multiset(r) == multiset(s)
    ensures k < |s| ==> r[0] == s[k]
  {
    assert s == s[..k] + s[k..];
    s[k..] + s[..k]
  }

  /** A rotation sends position `i` to the element `k` places further on, wrapping around. */
  lemma RotateAt(s: seq<string>, k: nat)
    requires k < |s|
    ensures forall i :: 0 <= i < |s| ==> Rotate(s, k)[i] == s[(i + k) % |s|]
  {
    forall i | 0 <= i < |s|
      ensures Rotate(s, k)[i] == s[(i + k) % |s|]
    {
      if i + k < |s| {
        assert (i + k) % |s| == i + k;
      } else {
        assert (i + k) % |s| == i + k - |s|;
      }
    }
  }

  /** Whether createLeg moves `first` to the front: it is given, not empty, and on the roster. */
  function Forces(ids: seq<string>, first: Option<string>): (r: bool)
    ensures r ==> first.Some? && first.value in ids
    ensures first == None || first == Some("") ==> !r
  {
    first.Some? && first.value != "" && first.value in ids
  }

  /**
   * The turn order of a new leg: the roster order, rotated so that a forced
   * first thrower is at the front, and left alone otherwise.
   */
  function TurnOrder(ids: seq<string>, first: Option<string>): (order: seq<string>)
    ensures |order| == |ids| && multiset(order) == multiset(ids)
    ensures Forces(ids, first) ==>
      && order[0] == first.value
      && forall i :: 0 <= i < |ids| ==> order[i] == ids[(i + IndexOf(ids, first.value)) % |ids|]
    ensures !Forces(ids, first) ==> order == ids
  {
    if Forces(ids, first) then
      RotateAt(ids, IndexOf(ids, first.value));
      Rotate(ids, IndexOf(ids, first.value))
    else ids
  }

  /** Moving the head of a rotation to its back rotates one place further. */
  lemma RotateStep(s: seq<string>, k: nat)
    requires k < |s|
    ensures Rotate(s, k)[1..] + [Rotate(s, k)[0]] == Rotate(s, k + 1)
  {
    assert s[k..][1..] == s[k + 1..];
    assert s[..k] + [s[k]] == s[..k + 1];
  }

  /** createLeg's rotation loop: move the head to the back until `first` leads. */
  method RotateTo(ids: seq<string>, first: string) returns (order: seq<string>)
    requires first in ids
    ensures |order| == |ids| && order[0] == first
    ensures order == Rotate(ids, IndexOf(ids, first))
  {
    order := ids;
    ghost var k: nat := 0;
    while order[0] != first
      invariant k <= IndexOf(ids, first)
      invariant order == Rotate(ids, k)
      decreases IndexOf(ids, first) - k
    {
      RotateStep(ids, k);
      order := order[1..] + [order[0]];
      k := k + 1;
    }
  }

  /** createLeg's roster pass: every roster id gets a player at the starting score. */
  method FillPlayers(roster: seq<Member>, startingScore: int) returns (players: map<string, Player>)
    requires Distinct(Ids(roster))
    ensures forall id :: id in players <==> id in Ids(roster)
    ensures forall i :: 0 <= i < |roster| ==>
      players[roster[i].id] == Player(roster[i].id, roster[i].name, startingScore)
  {
    players := map[];
    for n := 0 to |roster|
      invariant forall id :: id in players <==> id in Ids(roster)[..n]
      invariant forall i :: 0 <= i < n ==>
        players[roster[i].id] == Player(roster[i].id, roster[i].name, startingScore)
    {
      assert Ids(roster)[..n + 1] == Ids(roster)[..n] + [roster[n].id];
      players := players[roster[n].id := Player(roster[n].id, roster[n].name, startingScore)];
    }
    assert Ids(roster)[..|roster|] == Ids(roster);
  }

  /** The players of a leg as roster entries, in the order they were entered. */
  function Values(keys: seq<string>, players: map<string, Player>): (roster: seq<Member>)
    requires forall i :: 0 <= i < |keys| ==> keys[i] in players
    requires forall id :: id in players ==> players[id].id == id
    ensures Ids(roster) == keys
    ensures forall i :: 0 <= i < |keys| ==> roster[i].name == players[keys[i]].name
  {
    var roster := seq(|keys|, i requires 0 <= i < |keys| => Member(players[keys[i]].id, players[keys[i]].name));
    assert Ids(roster) == keys;
    roster
  }

  /** The next turn index, wrapping around at the end of the order. */
  function Advance(i: nat, n: nat): (j: nat)
    requires n > 0
    ensures j < n
    ensures i + 1 < n ==> j == i + 1
    ensures i + 1 == n ==> j == 0
  {
    (i + 1) % n
  }

  /** The turn index after `k` visits that do not end the leg. */
  function AdvanceTimes(i: nat, n: nat, k: nat): (j: nat)
    requires n > 0
    ensures k == 0 ==> j == i
    ensures k > 0 ==> j < n
  {
    if k == 0 then i else Advance(AdvanceTimes(i, n, k - 1), n)
  }

  lemma ModBelow(x: nat, n: nat)
    requires 0 < n && x <= n
    ensures x % n == if x < n then x else 0
  {
    if x == n {
      assert x == 1 * n + 0;
    } else {
      assert x == 0 * n + x;
    }
  }

  lemma {:induction false} AdvanceTimesWraps(i: nat, n: nat, k: nat)
    requires i < n && k <= n
    ensures AdvanceTimes(i, n, k) == if i + k < n then i + k else i + k - n
  {
    if k > 0 {
      AdvanceTimesWraps(i, n, k - 1);
      var prev := AdvanceTimes(i, n, k - 1);
      ModBelow(prev + 1, n);
    }
  }

  /** After one non-finishing visit per player the turn is back with the player it started with. */
  lemma AdvanceCycle(i: nat, n: nat)
    requires i < n
    ensures AdvanceTimes(i, n, n) == i
    ensures forall k :: 0 < k < n ==> AdvanceTimes(i, n, k) != i
  {
    AdvanceTimesWraps(i, n, n);
    forall k | 0 < k < n
      ensures AdvanceTimes(i, n, k) != i
    {
      AdvanceTimesWraps(i, n, k);
    }
  }

  /** Who throws first in the next leg, as nextLeg picks it (None when the order is empty). */
  function FirstOfNext(order: seq<string>, activeIndex: nat, rotateFirst: bool): (first: Option<string>)
    ensures first.Some? <==> |order| > 0
    ensures first.Some? ==> first.value in order
    ensures |order| > 0 && activeIndex < |order| ==>
      first == Some(if rotateFirst then order[activeIndex] else order[0])
  {
    if |order| == 0 then None
    else if rotateFirst then Some(order[activeIndex % |order|])
    else Some(order[0])
  }

  /**
   * The part of the leg invariant about who plays: distinct entry-ordered ids,
   * one record per id, and a turn order that is a permutation of the ids.
   */
  ghost predicate Roster(keys: seq<string>, players: map<string, Player>, order: seq<string>)
  {
    && Distinct(keys)
    && (forall id :: id in players <==> id in keys)
    && (forall id :: id in players ==> players[id].id == id)
    && multiset(order) == multiset(keys)
    && (forall i :: 0 <= i < |order| ==> order[i] in players)
  }

  /** Changing one player's score leaves the roster part of the invariant intact. */
  lemma RescoreKeepsRoster(keys: seq<string>, players: map<string, Player>, order: seq<string>, id: string, score: int)
    requires Roster(keys, players, order) && id in players
    ensures Roster(keys, players[id := players[id].(score := score)], order)
  {
  }

  /** One leg: the race from the starting score down to 0. */
  class Leg {
    var startingScore: int
    var order: seq<string>
    var activeIndex: nat
    var players: map<string, Player>
    /** The ids of `players` in the order they were entered. */
    var keys: seq<string>
    var winnerId: Option<string>
    var finished: bool

    ghost predicate Valid()
      reads this
    {
      && Roster(keys, players, order)
      && (|order| > 0 ==> activeIndex < |order|)
      && (finished <==> winnerId.Some?)
      && (finished ==> |order| > 0 && order[activeIndex] == winnerId.value)
    }

    /**
     * createLeg: every roster player at the starting score, the turn order
     * rotated to a forced first thrower, the first in that order to throw.
     */
    constructor (startingScore: int, roster: seq<Member>, firstToThrowId: Option<string>)
      requires Distinct(Ids(roster))
      ensures Valid()
      ensures this.startingScore == startingScore && keys == Ids(roster)
      ensures forall i :: 0 <= i < |roster| ==>
        players[roster[i].id] == Player(roster[i].id, roster[i].name, startingScore)
      ensures order == TurnOrder(Ids(roster), firstToThrowId)
      ensures activeIndex == 0 && winnerId == None && !finished
    {
      var ids := Ids(roster);
      var o := ids;
      if firstToThrowId.Some? && firstToThrowId.value != "" && firstToThrowId.value in ids {
        o := RotateTo(ids, firstToThrowId.value);
      }
      var ps := FillPlayers(roster, startingScore);
      this.startingScore := startingScore;
      order := o;
      activeIndex := 0;
      players := ps;
      keys := ids;
      winnerId := None;
      finished := false;
      new;
      assert order == TurnOrder(ids, firstToThrowId);
      forall id | id in players
        ensures players[id].id == id
      {
        var i := IndexOf(ids, id);
        assert roster[i].id == id;
      }
    }
  }

  /** A match: a planned number of legs, the legs-won tally, and the leg in play. */
  class Match {
    var totalLegs: int
    var currentLegNumber: int
    var legsWon: map<string, int>
    var leg: Leg

    ghost predicate Valid()
      reads this, leg
    {
      leg.Valid() && legsWon.Keys == leg.players.Keys
    }

    /** createMatch: leg 1 in roster order, nobody has won a leg yet. */
    constructor (startingScore: int, roster: seq<Member>, totalLegs: int := 1)
      requires Distinct(Ids(roster))
      ensures Valid() && fresh(leg)
      ensures this.totalLegs == totalLegs && currentLegNumber == 1
      ensures forall id :: id in legsWon <==> id in Ids(roster)
      ensures forall id :: id in legsWon ==> legsWon[id] == 0
      ensures leg.startingScore == startingScore && leg.keys == Ids(roster) && leg.order == Ids(roster)
      ensures forall i :: 0 <= i < |roster| ==>
        leg.players[roster[i].id] == Player(roster[i].id, roster[i].name, startingScore)
      ensures leg.activeIndex == 0 && leg.winnerId == None && !leg.finished
    {
      this.totalLegs := totalLegs;
      currentLegNumber := 1;
      legsWon := map id | id in Ids(roster) :: 0;
      leg := new Leg(startingScore, roster, None);
    }

    /**
     * playVisit: score the active player's visit. A finished leg is left as
     * it is. Otherwise the player's score becomes the visit's result; a
     * finish closes the leg and credits the win with the turn left on the
     * winner, and any other visit passes the turn to the next player.
     */
    method PlayVisit(darts: seq<Dart>) returns (legEnded: bool, winnerId: Option<string>, visit: VisitResult)
      requires Valid()
      requires leg.finished || |leg.order| > 0
      modifies leg, this`legsWon
      ensures Valid() && leg == old(leg)
      ensures leg.startingScore == old(leg.startingScore) && leg.order == old(leg.order) && leg.keys == old(leg.keys)
      ensures old(leg.finished) ==>
        && legEnded && winnerId == old(leg.winnerId)
        && visit == VisitResult(0, false, true, Some(0))
        && leg.players == old(leg.players) && leg.activeIndex == old(leg.activeIndex)
        && leg.winnerId == old(leg.winnerId) && leg.finished && legsWon == old(legsWon)
      ensures !old(leg.finished) ==>
        var id := old(leg.order[leg.activeIndex]);
        var p := old(leg.players[id]);
        && visit == Visit(p.score, darts)
        && leg.players == old(leg.players)[id := p.(score := visit.nextScore)]
        && (visit.bust ==> leg.players == old(leg.players))
        && legEnded == visit.finished
        && (visit.finished ==>
              && winnerId == Some(id) && leg.winnerId == Some(id) && leg.finished
              && leg.activeIndex == old(leg.activeIndex)
              && legsWon == old(legsWon)[id := old(legsWon[id]) + 1])
        && (!visit.finished ==>
              && winnerId == None && leg.winnerId == None && !leg.finished
              && leg.activeIndex == Advance(old(leg.activeIndex), |leg.order|)
              && legsWon == old(legsWon))
    {
      if leg.finished {
        legEnded := true;
        winnerId := leg.winnerId;
        visit := VisitResult(0, false, true, Some(0));
        return;
      }
      var playerId := leg.order[leg.activeIndex];
      var p := leg.players[playerId];
      visit := ApplyVisit(p.score, darts);
      VisitBust(p.score, darts);
      RescoreKeepsRoster(leg.keys, leg.players, leg.order, playerId, visit.nextScore);
      leg.players := leg.players[playerId := p.(score := visit.nextScore)];
      if visit.finished {
        leg.winnerId := Some(playerId);
        leg.finished := true;
        legsWon := legsWon[playerId := (if playerId in legsWon then legsWon[playerId] else 0) + 1];
        legEnded := true;
        winnerId := Some(playerId);
        return;
      }
      leg.activeIndex := (leg.activeIndex + 1) % |leg.order|;
      legEnded := false;
      winnerId := None;
    }

    /**
     * nextLeg: count the next leg (never past the planned number) and start a
     * fresh leg at the same starting score, led by the player the old leg's
     * turn index points at, or by the old leg's first thrower.
     */
    method NextLeg(rotateFirst: bool := true)
      requires Valid()
      modifies this`currentLegNumber, this`leg
      ensures Valid() && fresh(leg)
      ensures totalLegs == old(totalLegs) && legsWon == old(legsWon)
      ensures currentLegNumber == if old(currentLegNumber) + 1 < totalLegs then old(currentLegNumber) + 1 else totalLegs
      ensures currentLegNumber <= totalLegs
      ensures leg.startingScore == old(leg.startingScore) && leg.keys == old(leg.keys)
      ensures forall id :: id in leg.players <==> id in old(leg.players)
      ensures forall id :: id in leg.players ==> leg.players[id] == old(leg.players[id]).(score := leg.startingScore)
      ensures leg.activeIndex == 0 && leg.winnerId == None && !leg.finished
      ensures leg.order == TurnOrder(old(leg.keys), FirstOfNext(old(leg.order), old(leg.activeIndex), rotateFirst))
      ensures rotateFirst && |old(leg.order)| > 0 && old(leg.order[leg.activeIndex]) != "" ==>
        leg.order[0] == old(leg.order[leg.activeIndex])
      ensures !rotateFirst && |old(leg.order)| > 0 && old(leg.order[0]) != "" ==>
        leg.order[0] == old(leg.order[0])
      ensures rotateFirst && old(leg.finished) && old(leg.winnerId).value != "" ==>
        leg.order[0] == old(leg.winnerId).value
    {
      currentLegNumber := if currentLegNumber + 1 < totalLegs then currentLegNumber + 1 else totalLegs;
      leg := StartNextLeg(leg, rotateFirst);
    }
  }

  /** The leg that follows `prev`: its players back at the starting score, led as nextLeg chooses. */
  method StartNextLeg(prev: Leg, rotateFirst: bool) returns (next: Leg)
    requires prev.Valid()
    ensures fresh(next) && next.Valid()
    ensures next.startingScore == prev.startingScore && next.keys == prev.keys
    ensures forall id :: id in next.players <==> id in prev.players
    ensures forall id :: id in next.players ==> next.players[id] == prev.players[id].(score := next.startingScore)
    ensures next.activeIndex == 0 && next.winnerId == None && !next.finished
    ensures next.order == TurnOrder(prev.keys, FirstOfNext(prev.order, prev.activeIndex, rotateFirst))
    ensures rotateFirst && |prev.order| > 0 && prev.order[prev.activeIndex] != "" ==>
      next.order[0] == prev.order[prev.activeIndex]
    ensures !rotateFirst && |prev.order| > 0 && prev.order[0] != "" ==>
      next.order[0] == prev.order[0]
    ensures rotateFirst && prev.finished && prev.winnerId.value != "" ==>
      next.order[0] == prev.winnerId.value
  {
    var firstOfNext := FirstOfNext(prev.order, prev.activeIndex, rotateFirst);
    if firstOfNext.Some? {
      assert firstOfNext.value in prev.players;
    }
    forall i | 0 <= i < |prev.keys|
      ensures prev.keys[i] in prev.players
    {
    }
    var roster := Values(prev.keys, prev.players);
    next := new Leg(prev.startingScore, roster, firstOfNext);
    ResetPlayers(prev.keys, prev.players, roster, next.players, prev.startingScore);
  }

  /** A leg built from `Values(keys, players)` holds the same players, each back at the starting score. */
  lemma ResetPlayers(keys: seq<string>, players: map<string, Player>, roster: seq<Member>,
                     reset: map<string, Player>, startingScore: int)
    requires forall id :: id in players <==> id in keys
    requires forall id :: id in players ==> players[id].id == id
    requires roster == Values(keys, players)
    requires forall id :: id in reset <==> id in keys
    requires forall i :: 0 <= i < |roster| ==>
      reset[roster[i].id] == Player(roster[i].id, roster[i].name, startingScore)
    ensures forall id :: id in reset ==> reset[id] == players[id].(score := startingScore)
  {
    forall id | id in reset
      ensures reset[id] == players[id].(score := startingScore)
    {
      var i := IndexOf(keys, id);
      assert roster[i].id == id;
    }
  }

  /** Two players, 40 to go: the first thrower checks out with double 20 on the first visit. */
  method FirstVisitWinsLeg() returns (m: Match)
    ensures fresh(m) && m.Valid()
    ensures m.leg.finished && m.leg.winnerId == Some("a") && m.legsWon["a"] == 1
    ensures m.currentLegNumber == 1 && m.totalLegs == 3
  {
    var roster := [Member("a", "Ann"), Member("b", "Ben")];
    assert Ids(roster) == ["a", "b"];
    m := new Match(40, roster, 3);
    assert m.leg.order[m.leg.activeIndex] == "a";
    assert m.leg.players["a"].score == 40;
    CheckoutFirstDart();
    var ended, winner, visit := m.PlayVisit([Dart(20, 2)]);
    assert visit.finished;
  }

  /**
   * The leg after that one is led by its winner, not by the next player:
   * the turn index still points at the winner when the leg closes.
   */
  method WinnerLeadsNextLeg() returns (leader: string, legNumber: int, won: int)
    ensures leader == "a" && legNumber == 2 && won == 1
  {
    var m := FirstVisitWinsLeg();
    m.NextLeg();
    leader, legNumber, won := m.leg.order[0], m.currentLegNumber, m.legsWon["a"];
  }
}
