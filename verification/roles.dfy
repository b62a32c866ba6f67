/** Derived, never stored: who the current company is, whether this participant is it, and the
    values every screen reads off the current round's company. */
module Roles {
  import opened Wrappers
  import opened Model
  import opened Store

  /** The company of the current round as the context exposes it: the round's own fields, or,
      when the round counter designates no round yet, the roster slot the rotation gives. The name is
      '---' when unknown. */
  function Company(s: GameState): (c: (string, string))
    ensures CurrentRound(s).Some? ==>
      c.0 == CurrentRound(s).value.companyId
      && c.1 == (if CurrentRound(s).value.companyName != "" then CurrentRound(s).value.companyName else "---")
    ensures CurrentRound(s).None? && s.currentRound > 0 && |s.players| > 0 ==>
      var p := s.players[(s.currentRound - 1) % |s.players|];
      c.0 == p.id && c.1 == (if p.name != "" then p.name else "---")
    ensures CurrentRound(s).None? && !(s.currentRound > 0 && |s.players| > 0) ==> c == ("", "---")
  {
    match CurrentRound(s)
    case Some(r) => (r.companyId, if r.companyName != "" then r.companyName else "---")
    case None =>
      if s.currentRound > 0 && |s.players| > 0 then
        var p := s.players[(s.currentRound - 1) % |s.players|];
        (p.id, if p.name != "" then p.name else "---")
      else ("", "---")
  }

  function CompanyId(s: GameState): string { Company(s).0 }

  /** Whether this participant acts as the company. On a single device whoever holds it is the
      company during topic selection and graph creation; online it is the participant whose id
      is the company's id. */
  function IsCompany(ses: Session, s: GameState): (b: bool)
    ensures ses.mode == Local ==> (b <==> s.phase == TopicSelection || s.phase == GraphCreation)
    ensures ses.mode == Online ==> (b <==> ses.playerId != "" && ses.playerId == CompanyId(s))
  {
    if ses.mode == Local then s.phase == TopicSelection || s.phase == GraphCreation
    else ses.playerId != "" && CompanyId(s) != "" && ses.playerId == CompanyId(s)
  }

  /** Online, at most one participant of a roster with distinct ids is the company. */
  lemma AtMostOneCompany(ses: Session, s: GameState, i: nat, j: nat)
    requires ses.mode == Online && PlayerIdsUnique(s.players)
    requires i < |s.players| && j < |s.players|
    requires IsCompany(ses.(playerId := s.players[i].id), s) && IsCompany(ses.(playerId := s.players[j].id), s)
    ensures i == j
  {
  }

  /** Right after a round is added on a roster whose ids are non-empty, the participant the
      rotation picks is the company, whether the round came from the host or from the fallback. */
  lemma AddedRoundNamesRotationCompany(ses: Session, s: GameState, round: Round)
    requires ses.mode == Online && round.roundNumber >= 1 && |s.players| > 0
    requires forall i :: 0 <= i < |s.players| ==> s.players[i].id != ""
    requires !HasRound(s.rounds, round.roundNumber)
    ensures var s' := AddRound(ses, s, round).state;
      var k := (round.roundNumber - 1) % |s.players|;
      && CompanyId(s') == s.players[k].id
      && IsCompany(ses.(playerId := s.players[k].id), s')
  {
    var s' := AddRound(ses, s, round).state;
    assert s'.rounds == s.rounds + [s'.rounds[|s.rounds|]];
    assert RoundIndex(s'.rounds, round.roundNumber) == |s.rounds|;
  }

  /** The oldest age the company's curve may reach: the company's age, or 100 when the company
      is unknown or its age is 0 (`company?.age || 100`). */
  function MaxAge(s: GameState): (m: int)
    ensures m != 0
    ensures CurrentRound(s).Some? && FindPlayer(s.players, CurrentRound(s).value.companyId).Some?
            && FindPlayer(s.players, CurrentRound(s).value.companyId).value.age != 0
            ==> m == FindPlayer(s.players, CurrentRound(s).value.companyId).value.age
    ensures CurrentRound(s).Some? ==>
              var p := FindPlayer(s.players, CurrentRound(s).value.companyId);
              p.None? || p.value.age == 0 ==> m == 100
    ensures CurrentRound(s).None? ==> m == 100
  {
    match CurrentRound(s)
    case None => 100
    case Some(r) =>
      match FindPlayer(s.players, r.companyId)
      case None => 100
      case Some(p) => if p.age != 0 then p.age else 100
  }

  /** Everyone except the current round's company, in roster order; everyone when there is no
      current round. */
  function Investors(s: GameState): (inv: seq<Player>)
    ensures |inv| <= |s.players|
    ensures CurrentRound(s).None? ==> inv == s.players
    ensures CurrentRound(s).Some? ==> inv == FilterOut(s.players, CurrentRound(s).value.companyId)
    ensures forall p :: p in inv <==> p in s.players && (CurrentRound(s).None? || p.id != CurrentRound(s).value.companyId)
  {
    match CurrentRound(s)
    case None => s.players
    case Some(r) => FilterOut(s.players, r.companyId)
  }

  /** `players.filter(p => p.id !== id)`. */
  function FilterOut(players: seq<Player>, id: string): (out: seq<Player>)
    ensures |out| <= |players|
    ensures forall p :: p in out <==> p in players && p.id != id
  {
    if |players| == 0 then []
    else
      var rest := FilterOut(players[1..], id);
      assert forall p :: p in players <==> p == players[0] || p in players[1..];
      if players[0].id == id then rest else [players[0]] + rest
  }

  /** Filtering keeps roster order: the filter of a concatenation is the concatenation of the
      filters. */
  lemma {:induction false} FilterOutAppend(a: seq<Player>, b: seq<Player>, id: string)
    ensures FilterOut(a + b, id) == FilterOut(a, id) + FilterOut(b, id)
  {
    if |a| > 0 {
      var ab := a + b;
      assert ab[0] == a[0] && ab[1..] == a[1..] + b;
      FilterOutAppend(a[1..], b, id);
      var head := if a[0].id == id then [] else [a[0]];
      assert FilterOut(ab, id) == head + FilterOut(a[1..] + b, id);
      assert FilterOut(a, id) == head + FilterOut(a[1..], id);
    } else {
      assert a + b == b;
    }
  }

  /** A single player stays exactly when the id is not theirs. */
  lemma FilterOutSingle(p: Player, id: string)
    ensures FilterOut([p], id) == if p.id == id then [] else [p]
  {
    assert [p][1..] == [];
  }

  /** The investors are the roster with the company's entry taken out, in roster order: on a
      roster `a + [c] + b` whose only entry with the company's id is `c`, they are `a + b`. */
  lemma InvestorsKeepRosterOrder(s: GameState, a: seq<Player>, c: Player, b: seq<Player>)
    requires CurrentRound(s).Some? && s.players == a + [c] + b
    requires c.id == CurrentRound(s).value.companyId
    requires forall p :: p in a + b ==> p.id != c.id
    ensures Investors(s) == a + b
  {
    assert Investors(s) == FilterOut(a + [c] + b, c.id);
    FilterOutRemovesEntry(a, c, b);
  }

  lemma FilterOutRemovesEntry(a: seq<Player>, c: Player, b: seq<Player>)
    requires forall p :: p in a + b ==> p.id != c.id
    ensures FilterOut(a + [c] + b, c.id) == a + b
  {
    var id := c.id;
    assert forall p :: p in a ==> p.id != id by {
      forall p | p in a ensures p.id != id { assert p in a + b; }
    }
    assert forall p :: p in b ==> p.id != id by {
      forall p | p in b ensures p.id != id { assert p in a + b; }
    }
    KeptWhole(a, id);
    KeptWhole(b, id);
    FilterOutSingle(c, id);
    FilterOutAppend(a, [c], id);
    assert FilterOut(a + [c], id) == a;
    FilterOutAppend(a + [c], b, id);
  }

  /** Filtering a roster of distinct ids leaves a roster of distinct ids. */
  lemma {:induction false} FilterOutKeepsIdsUnique(players: seq<Player>, id: string)
    requires PlayerIdsUnique(players)
    ensures PlayerIdsUnique(FilterOut(players, id))
  {
    if |players| > 0 {
      var rest := FilterOut(players[1..], id);
      FilterOutKeepsIdsUnique(players[1..], id);
      forall k | 0 <= k < |rest| ensures rest[k].id != players[0].id {
        assert rest[k] in players[1..];
        var j :| 0 <= j < |players[1..]| && players[1..][j] == rest[k];
        assert players[j + 1] == rest[k];
      }
    }
  }

  lemma {:induction false} KeptWhole(players: seq<Player>, id: string)
    requires forall p :: p in players ==> p.id != id
    ensures FilterOut(players, id) == players
  {
    if |players| > 0 {
      assert players == [players[0]] + players[1..];
      FilterOutAppend([players[0]], players[1..], id);
      FilterOutSingle(players[0], id);
      KeptWhole(players[1..], id);
    }
  }

  /** The oldest age on the curve axis belongs to the company `Company` names: it is that
      player's age when the roster holds them with a non-zero age, and 100 otherwise. With a
      roster of non-negative ages the axis is never empty, so a results table built on it
      covers ages 0 to `MaxAge`. */
  lemma MaxAgeIsCompanyAge(s: GameState)
    requires CurrentRound(s).Some?
    ensures var p := FindPlayer(s.players, CompanyId(s));
      MaxAge(s) == if p.Some? && p.value.age != 0 then p.value.age else 100
    ensures (forall i :: 0 <= i < |s.players| ==> s.players[i].age >= 0) ==> MaxAge(s) >= 1
  {
    var p := FindPlayer(s.players, CompanyId(s));
    if p.Some? {
      assert p.value in s.players;
    }
  }

  /** Removing the company from a roster of distinct ids removes exactly one player. */
  lemma {:induction false} FilterOutRemovesOne(players: seq<Player>, id: string)
    requires PlayerIdsUnique(players) && HasPlayer(players, id)
    ensures |FilterOut(players, id)| == |players| - 1
  {
    assert players[1..] == players[1..];
    if players[0].id == id {
      assert !HasPlayer(players[1..], id) by {
        forall j | 0 <= j < |players[1..]| ensures players[1..][j].id != id {
          assert players[1..][j] == players[j + 1];
        }
      }
      NoneFilteredOut(players[1..], id);
    } else {
      var k :| 0 <= k < |players| && players[k].id == id;
      assert players[1..][k - 1].id == id;
      FilterOutRemovesOne(players[1..], id);
    }
  }

  lemma {:induction false} NoneFilteredOut(players: seq<Player>, id: string)
    requires !HasPlayer(players, id)
    ensures |FilterOut(players, id)| == |players|
  {
    if |players| > 0 {
      assert !HasPlayer(players[1..], id) by {
        forall j | 0 <= j < |players[1..]| ensures players[1..][j].id != id {
          assert players[1..][j] == players[j + 1];
        }
      }
      NoneFilteredOut(players[1..], id);
    }
  }
}
