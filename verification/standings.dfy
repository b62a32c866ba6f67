/** Rankings shown between rounds and at the end: players by balance, highest first, with ties
    in roster order; the end screen puts the first three on a podium and lists the rest. */
module Standings {
  import opened Wrappers
  import opened Sorting
  import opened Model

  /** Sort key that puts higher balances first. */
  function NegPoints(p: Player): int { -p.currentPoint }

  /** `[...players].sort((a, b) => b.currentPoint - a.currentPoint)`: the same players, highest
      balance first. */
  function Ranked(players: seq<Player>): (r: seq<Player>)
    ensures multiset(r) == multiset(players)
    ensures |r| == |players|
    ensures forall i, j :: 0 <= i < j < |r| ==> r[i].currentPoint >= r[j].currentPoint
  {
    var r := SortByKey(players, NegPoints);
    assert forall i, j :: 0 <= i < j < |r| ==> NegPoints(r[i]) <= NegPoints(r[j]);
    r
  }

  /** Ties keep roster order: for every key `k`, the players whose balance is `-k` appear in
      the ranking in the order they have in the roster. */
  lemma TiesKeepRosterOrder(players: seq<Player>, k: int)
    ensures KeyRun(Ranked(players), NegPoints, k) == KeyRun(players, NegPoints, k)
  {
    SortIsStable(players, NegPoints, k);
  }

  /** Ranking an already ranked list changes nothing. */
  lemma RankedIdempotent(players: seq<Player>)
    ensures Ranked(Ranked(players)) == Ranked(players)
  {
    var r := Ranked(players);
    assert SortedByKey(r, NegPoints);
    SortSortedIsIdentity(r, NegPoints);
  }

  /** The leader's balance is at least every player's balance. */
  lemma LeaderHasMostPoints(players: seq<Player>, q: Player)
    requires q in players
    ensures Ranked(players)[0].currentPoint >= q.currentPoint
  {
    var r := Ranked(players);
    assert q in multiset(r);
    var k :| 0 <= k < |r| && r[k] == q;
  }

  /** The podium place `k` (0 = first) shows a player only when there are more than `k`. */
  function PodiumSlot(ranked: seq<Player>, k: nat): (p: Option<Player>)
    requires k < 3
    ensures p.Some? <==> k < |ranked|
    ensures p.Some? ==> p.value == ranked[k]
  {
    if k < |ranked| then Some(ranked[k]) else None
  }

  /** The list under the podium: everyone from fourth place on, each with their rank. */
  function RestOfField(ranked: seq<Player>): (rest: seq<(nat, Player)>)
    ensures |rest| == if |ranked| > 3 then |ranked| - 3 else 0
    ensures forall j :: 0 <= j < |rest| ==> rest[j] == (j + 4, ranked[j + 3])
  {
    if |ranked| <= 3 then []
    else seq(|ranked| - 3, j requires 0 <= j < |ranked| - 3 => (j + 4, ranked[j + 3]))
  }
}
