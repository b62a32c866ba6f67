/** The lobby: on one device the players are typed into a list of slots; online a host creates
    a room and guests join it with a room code. Room codes, player ids and stored ids come from
    randomness and device storage, so they are parameters here. */
module Lobby {
  import opened Wrappers
  import opened Seqs
  import opened Text
  import opened Model
  import opened Store
  import opened Protocol

  /** Most slots the local form offers. */
  const MaxSlots: nat := 20
  /** Fewest slots the local form keeps, and fewest players a game needs. */
  const MinPlayers: nat := 2

  /** The local form: a name and an age text per slot. */
  datatype Slots = Slots(names: seq<string>, ages: seq<string>)

  const FreshSlots: Slots := Slots(["", ""], ["", ""])

  /** The form's shape: one age per name, between two and twenty slots. */
  predicate WellFormed(f: Slots) {
    |f.names| == |f.ages| && MinPlayers <= |f.names| <= MaxSlots
  }

  /** "Add player": a blank slot at the end, while there are fewer than twenty. */
  function AddSlot(f: Slots): (out: Slots)
    ensures |f.names| < MaxSlots ==> out == Slots(f.names + [""], f.ages + [""])
    ensures |f.names| >= MaxSlots ==> out == f
  {
    if |f.names| < MaxSlots then Slots(f.names + [""], f.ages + [""]) else f
  }

  /** "Remove": slot `i` goes from both lists, as long as more than two remain. */
  function RemoveSlot(f: Slots, i: int): (out: Slots)
    ensures |f.names| > MinPlayers ==> out == Slots(RemoveAt(f.names, i), RemoveAt(f.ages, i))
    ensures |f.names| <= MinPlayers ==> out == f
  {
    if |f.names| > MinPlayers then Slots(RemoveAt(f.names, i), RemoveAt(f.ages, i)) else f
  }

  /** Adding and removing slots keeps the form well formed. */
  lemma SlotsStayWellFormed(f: Slots, i: int)
    requires WellFormed(f)
    ensures WellFormed(AddSlot(f))
    ensures WellFormed(RemoveSlot(f, i))
  {
  }

  /** The filled-in slots, in order: a trimmed name that is not empty and an age that is not
      empty. */
  function Entries(names: seq<string>, ages: seq<string>): (out: seq<(string, string)>)
    requires |names| == |ages|
    ensures |out| <= |names|
    ensures forall k :: 0 <= k < |out| ==> out[k].0 != "" && out[k].1 != "" && Trim(out[k].0) == out[k].0
  {
    if |names| == 0 then []
    else
      var rest := Entries(names[1..], ages[1..]);
      var name := Trim(names[0]);
      TrimIdempotent(names[0]);
      if name != "" && ages[0] != "" then [(name, ages[0])] + rest else rest
  }

  /** One slot enters, as its trimmed name and its age, exactly when both are filled in. */
  lemma EntriesOneSlot(name: string, age: string)
    ensures Entries([name], [age]) == if Trim(name) != "" && age != "" then [(Trim(name), age)] else []
  {
    assert [name][1..] == [] && [age][1..] == [];
  }

  /** Slots are read in order and independently of one another: the entries of two runs of
      slots are the first run's entries followed by the second's. */
  lemma {:induction false} EntriesAppend(n1: seq<string>, a1: seq<string>, n2: seq<string>, a2: seq<string>)
    requires |n1| == |a1| && |n2| == |a2|
    ensures Entries(n1 + n2, a1 + a2) == Entries(n1, a1) + Entries(n2, a2)
  {
    if |n1| == 0 {
      assert n1 + n2 == n2 && a1 + a2 == a2;
    } else {
      assert (n1 + n2)[1..] == n1[1..] + n2 && (a1 + a2)[1..] == a1[1..] + a2;
      assert (n1 + n2)[0] == n1[0] && (a1 + a2)[0] == a1[0];
      EntriesAppend(n1[1..], a1[1..], n2, a2);
    }
  }

  /** When every slot is filled in, every slot becomes an entry, at its own position. */
  lemma FilledSlotsAllEnter(names: seq<string>, ages: seq<string>)
    requires |names| == |ages|
    requires forall k :: 0 <= k < |names| ==> Trim(names[k]) != "" && ages[k] != ""
    ensures |Entries(names, ages)| == |names|
    ensures forall k :: 0 <= k < |names| ==> Entries(names, ages)[k] == (Trim(names[k]), ages[k])
  {
    FilledSlotsCount(names, ages);
    forall k | 0 <= k < |names| ensures Entries(names, ages)[k] == (Trim(names[k]), ages[k]) {
      SlotEnters(names, ages, k);
    }
  }

  lemma SlotEnters(names: seq<string>, ages: seq<string>, k: nat)
    requires |names| == |ages| && k < |names|
    requires forall j :: 0 <= j < |names| ==> Trim(names[j]) != "" && ages[j] != ""
    ensures |Entries(names, ages)| > k && Entries(names, ages)[k] == (Trim(names[k]), ages[k])
  {
    FilledPrefix(names, ages, k);
    FilledSlotsCount(names[..k], ages[..k]);
    FilledSlotAt(names, ages, k);
  }

  lemma FilledPrefix(names: seq<string>, ages: seq<string>, k: nat)
    requires |names| == |ages| && k <= |names|
    requires forall j :: 0 <= j < |names| ==> Trim(names[j]) != "" && ages[j] != ""
    ensures forall j :: 0 <= j < k ==> Trim(names[..k][j]) != "" && ages[..k][j] != ""
  {
    forall j | 0 <= j < k ensures Trim(names[..k][j]) != "" && ages[..k][j] != "" {
      assert names[..k][j] == names[j] && ages[..k][j] == ages[j];
    }
  }

  lemma {:induction false} FilledSlotsCount(names: seq<string>, ages: seq<string>)
    requires |names| == |ages|
    requires forall k :: 0 <= k < |names| ==> Trim(names[k]) != "" && ages[k] != ""
    ensures |Entries(names, ages)| == |names|
  {
    if |names| > 0 {
      assert forall k :: 0 <= k < |names| - 1 ==> names[1..][k] == names[k + 1] && ages[1..][k] == ages[k + 1];
      FilledSlotsCount(names[1..], ages[1..]);
    }
  }

  lemma SplitAround<T>(s: seq<T>, k: nat)
    requires k < |s|
    ensures s == s[..k] + ([s[k]] + s[k + 1..])
  {
    assert s[k..] == [s[k]] + s[k + 1..];
    assert s == s[..k] + s[k..];
  }

  /** Slot `k` enters at position `k` when it is filled and every slot before it entered. */
  lemma FilledSlotAt(names: seq<string>, ages: seq<string>, k: nat)
    requires |names| == |ages| && k < |names|
    requires |Entries(names[..k], ages[..k])| == k
    requires Trim(names[k]) != "" && ages[k] != ""
    ensures |Entries(names, ages)| > k
    ensures Entries(names, ages)[k] == (Trim(names[k]), ages[k])
  {
    var n1, a1 := names[..k], ages[..k];
    var n2, a2 := names[k + 1..], ages[k + 1..];
    SplitAround(names, k);
    SplitAround(ages, k);
    EntriesAppend(n1, a1, [names[k]] + n2, [ages[k]] + a2);
    EntriesAppend([names[k]], [ages[k]], n2, a2);
    EntriesOneSlot(names[k], ages[k]);
  }

  /** The id of the `i`-th local player. */
  function LocalId(i: nat): string {
    "player-" + Show(i)
  }

  /** The players built from the filled-in slots: ids by position, the starting balance, the
      palette colour by position, and the age read with `parseInt` (0 when it reads nothing). */
  function Roster(entries: seq<(string, string)>): (ps: seq<Player>)
    ensures |ps| == |entries|
    ensures forall i :: 0 <= i < |ps| ==>
      && ps[i].id == LocalId(i) && ps[i].name == entries[i].0
      && ps[i].age == ParseInt(entries[i].1).GetOr(0)
      && ps[i].currentPoint == InitialPoints && ps[i].color == ColorFor(i)
  {
    seq(|entries|, i requires 0 <= i < |entries| =>
      Player(LocalId(i), entries[i].0, ParseInt(entries[i].1).GetOr(0), InitialPoints, ColorFor(i)))
  }

  /** Local player ids are all different. */
  lemma RosterIdsUnique(entries: seq<(string, string)>)
    ensures PlayerIdsUnique(Roster(entries))
  {
    var ps := Roster(entries);
    forall i, j | 0 <= i < j < |ps| ensures ps[i].id != ps[j].id {
      if ps[i].id == ps[j].id {
        assert Show(i) == LocalId(i)[7..] && Show(j) == LocalId(j)[7..];
        ShowInjective(i, j);
      }
    }
  }

  /** "Start" on one device: with at least two filled-in slots the roster is set and the game
      moves to topic selection; otherwise nothing changes. */
  function StartLocalGame(ses: Session, s: GameState, f: Slots): (out: Step)
    requires |f.names| == |f.ages|
    ensures |Entries(f.names, f.ages)| < MinPlayers ==> out == Step(s, [])
    ensures |Entries(f.names, f.ages)| >= MinPlayers ==>
      out.state == s.(players := Roster(Entries(f.names, f.ages)), phase := TopicSelection)
  {
    var entries := Entries(f.names, f.ages);
    if |entries| < MinPlayers then Step(s, [])
    else
      var first := SetPlayers(ses, s, Roster(entries));
      Then(first, SetPhase(ses, first.state, TopicSelection))
  }

  /** A started local game has at least two players with distinct ids, non-empty names, full
      balances and the palette colours in order. */
  lemma LocalGameRoster(ses: Session, s: GameState, f: Slots)
    requires |f.names| == |f.ages| && |Entries(f.names, f.ages)| >= MinPlayers
    ensures var ps := StartLocalGame(ses, s, f).state.players;
      && |ps| >= MinPlayers && PlayerIdsUnique(ps)
      && forall i :: 0 <= i < |ps| ==> ps[i].name != "" && ps[i].currentPoint == InitialPoints && ps[i].color == PlayerColors[i % 20]
  {
    RosterIdsUnique(Entries(f.names, f.ages));
  }

  /** "Create room": with a name and an age, the participant becomes the host of room `code`
      under `id` and the sole player, with the first palette colour and the starting balance. */
  function CreateRoom(ses: Session, s: GameState, name: string, age: string, code: string, id: string): (out: Option<(Session, GameState)>)
    ensures name == "" || age == "" ==> out.None?
    ensures name != "" && age != "" ==> out == Some((ses.(roomId := code, playerId := id, isHost := true),
      s.(players := [Player(id, name, ParseInt(age).GetOr(0), InitialPoints, PlayerColors[0])])))
  {
    if name == "" || age == "" then None
    else Some((ses.(roomId := code, playerId := id, isHost := true),
               s.(players := [Player(id, name, ParseInt(age).GetOr(0), InitialPoints, PlayerColors[0])])))
  }

  /** "Join room": with a name, an age and a room code, the participant becomes a guest of the
      room whose code is the typed one in upper case. */
  function JoinRoom(ses: Session, name: string, age: string, code: string, id: string): (out: Option<Session>)
    ensures name == "" || age == "" || code == "" ==> out.None?
    ensures out.Some? ==> !out.value.isHost && out.value.playerId == id && out.value.roomId == ToUpperAscii(code)
    ensures out.Some? ==> out.value.mode == ses.mode && out.value.subscribed == ses.subscribed
  {
    if name == "" || age == "" || code == "" then None
    else Some(ses.(roomId := ToUpperAscii(code), playerId := id, isHost := false))
  }

  /** A joined guest announces itself to the host, with a placeholder colour the host replaces. */
  function AnnounceJoin(ses: Session, joined: bool, name: string, age: string): (out: seq<Event>)
    ensures !(ses.mode == Online && joined && !ses.isHost && ses.roomId != "" && ses.playerId != "") ==> out == []
    ensures ses.mode == Online && joined && !ses.isHost && ses.playerId != "" && CanSend(ses) ==>
      out == [PlayerJoin(Player(ses.playerId, name, ParseInt(age).GetOr(0), InitialPoints, PlayerColors[0]))]
  {
    if ses.mode == Online && joined && !ses.isHost && ses.roomId != "" && ses.playerId != "" then
      Send(ses, PlayerJoin(Player(ses.playerId, name, ParseInt(age).GetOr(0), InitialPoints, PlayerColors[0])))
    else []
  }

  /** "Start" online: with at least two players the game moves to topic selection and the state
      is broadcast once more; otherwise nothing changes. */
  function StartOnlineGame(ses: Session, s: GameState): (out: Step)
    ensures |s.players| < MinPlayers ==> out == Step(s, [])
    ensures |s.players| >= MinPlayers ==> out.state == s.(phase := TopicSelection)
    ensures |s.players| >= MinPlayers && ses.mode == Online && ses.isHost && CanSend(ses) ==>
      out.events == [StateUpdate(FullSnapshot(out.state)), StateUpdate(FullSnapshot(out.state))]
  {
    if |s.players| < MinPlayers then Step(s, [])
    else
      var first := SetPhase(ses, s, TopicSelection);
      Then(first, Step(first.state, Broadcast(ses, first.state)))
  }

  /** A host that created a room, joined by one guest with another id, can start the game: the
      guest is second on the roster, with the second palette colour. */
  lemma OneGuestMakesAGame(host: Session, guest: Session, s: GameState, name: string, age: string, code: string,
                           gName: string, gAge: string)
    requires host.mode == Online && guest.mode == Online && !guest.isHost && CanSend(guest)
    requires name != "" && age != "" && guest.playerId != "" && guest.playerId != host.playerId
    ensures var created := CreateRoom(host, s, name, age, code, host.playerId).value;
      var joined := Receive(created.0, created.1, AnnounceJoin(guest, true, gName, gAge)[0]).state;
      && |joined.players| == 2 && joined.players[1].id == guest.playerId && joined.players[1].color == PlayerColors[1]
      && StartOnlineGame(created.0, joined).state.phase == TopicSelection
  {
    var created := CreateRoom(host, s, name, age, code, host.playerId).value;
    assert created.0.isHost && |created.1.players| == 1 && created.1.players[0].id == host.playerId;
    var p := Player(guest.playerId, gName, ParseInt(gAge).GetOr(0), InitialPoints, PlayerColors[0]);
    assert AnnounceJoin(guest, true, gName, gAge) == [PlayerJoin(p)];
    SecondPlayerJoins(created.0, created.1, p);
  }

  /** A new id joining a one-player room becomes the second player, with the second colour. */
  lemma SecondPlayerJoins(host: Session, s: GameState, p: Player)
    requires host.isHost && |s.players| == 1 && p.id != "" && s.players[0].id != p.id
    ensures var joined := Receive(host, s, PlayerJoin(p)).state;
      && |joined.players| == 2 && joined.players[1].id == p.id && joined.players[1].color == PlayerColors[1]
      && StartOnlineGame(host, joined).state.phase == TopicSelection
  {
    assert !HasPlayer(s.players, p.id);
    assert |PlayerColors| == 20;
    var c := ColorFor(1);
    assert c == PlayerColors[1];
    var joined := HostJoin(host, s, p).state;
    assert joined.players == s.players + [p.(color := c)];
    assert joined.players[1] == p.(color := c);
  }
}
