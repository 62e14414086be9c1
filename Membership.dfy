/** The player -> rank map of an organization and the two batch operations on
    it (Organization.addPlayersToOrganization and removePlayersFromOrganization),
    as functions on values. Each batch applies its players in order and stops
    at the first one whose single-player call throws; earlier players stay applied. */
module Membership {
  import opened OrgTypes

  /** The rank slot addPlayerToOrganization gives a new member. */
  const JoinRank := 0

  /** The membership map after a batch, and how the batch ended. */
  datatype Batch = Batch(members: map<Uuid, int>, outcome: Outcome)

  /** The players of a list, as a set. */
  function Elements(players: seq<Uuid>): set<Uuid>
  {
    set p | p in players
  }

  /** Every player of the list at the join rank. */
  function JoiningRanks(players: seq<Uuid>): map<Uuid, int>
  {
    map p | p in Elements(players) :: JoinRank
  }

  /** addPlayersToOrganization: existing members keep their rank, and the only
      new keys are players of the list, at the join rank. */
  function AddPlayers(members: map<Uuid, int>, players: seq<Uuid>): (b: Batch)
    ensures members.Keys <= b.members.Keys
    ensures forall p :: p in b.members ==>
              if p in members then b.members[p] == members[p]
              else p in players && b.members[p] == JoinRank
    decreases |players|
  {
    if |players| == 0 then Batch(members, Pass)
    else if players[0] in members then Batch(members, Fail(PlayerAlreadyMember))
    else AddPlayers(members[players[0] := JoinRank], players[1..])
  }

  /** removePlayersFromOrganization: only keys of the list leave, and whoever
      stays keeps their rank. */
  function RemovePlayers(members: map<Uuid, int>, players: seq<Uuid>): (b: Batch)
    ensures b.members.Keys <= members.Keys
    ensures forall p :: p in members && p !in players ==> p in b.members
    ensures forall p :: p in b.members ==> b.members[p] == members[p]
    decreases |players|
  {
    if |players| == 0 then Batch(members, Pass)
    else if players[0] !in members then Batch(members, Fail(PlayerNotMember))
    else RemovePlayers(members - {players[0]}, players[1..])
  }

  /** The first i + 1 players are the head followed by the first i of the tail. */
  lemma PrefixOfTail(players: seq<Uuid>, i: nat)
    requires i < |players|
    ensures players[..i + 1] == [players[0]] + players[1..][..i]
  {
  }

  lemma JoiningRanksCons(members: map<Uuid, int>, p: Uuid, players: seq<Uuid>)
    ensures members[p := JoinRank] + JoiningRanks(players) == members + JoiningRanks([p] + players)
  {
    assert Elements([p] + players) == {p} + Elements(players);
  }

  lemma ElementsCons(members: map<Uuid, int>, p: Uuid, players: seq<Uuid>)
    ensures (members - {p}) - Elements(players) == members - Elements([p] + players)
  {
    assert Elements([p] + players) == {p} + Elements(players);
  }

  /** When the k-th player is the first that is already a member (or repeats
      an earlier player of the list), the batch adds exactly the first k players
      and fails; when there is none (k is the length), it adds them all. */
  lemma {:induction false} AddPlayersStopsAt(members: map<Uuid, int>, players: seq<Uuid>, k: nat)
    requires k <= |players|
    requires forall i :: 0 <= i < k ==> players[i] !in members && players[i] !in players[..i]
    requires k < |players| ==> players[k] in members || players[k] in players[..k]
    ensures AddPlayers(members, players)
         == Batch(members + JoiningRanks(players[..k]),
                  if k == |players| then Pass else Fail(PlayerAlreadyMember))
    decreases k
  {
    if k == 0 {
      assert JoiningRanks(players[..0]) == map[];
      assert members + map[] == members;
    } else {
      var p := players[0];
      var rest := players[1..];
      var m' := members[p := JoinRank];
      assert AddPlayers(members, players) == AddPlayers(m', rest);
      forall i | 0 <= i < k - 1
        ensures rest[i] !in m' && rest[i] !in rest[..i]
      {
        PrefixOfTail(players, i);
        assert players[i + 1] !in players[..i + 1];
      }
      PrefixOfTail(players, k - 1);
      if k - 1 < |rest| {
        PrefixOfTail(players, k);
        assert players[k] in members || players[k] in players[..k];
        assert players[k] == rest[k - 1];
      }
      AddPlayersStopsAt(m', rest, k - 1);
      JoiningRanksCons(members, p, rest[..k - 1]);
    }
  }

  /** When the k-th player is the first that is not a member (or repeats an
      earlier player of the list, who is gone by then), the batch removes exactly
      the first k players and fails; when there is none, it removes them all. */
  lemma {:induction false} RemovePlayersStopsAt(members: map<Uuid, int>, players: seq<Uuid>, k: nat)
    requires k <= |players|
    requires forall i :: 0 <= i < k ==> players[i] in members && players[i] !in players[..i]
    requires k < |players| ==> players[k] !in members || players[k] in players[..k]
    ensures RemovePlayers(members, players)
         == Batch(members - Elements(players[..k]),
                  if k == |players| then Pass else Fail(PlayerNotMember))
    decreases k
  {
    if k == 0 {
      assert Elements(players[..0]) == {};
      assert members - {} == members;
    } else {
      var p := players[0];
      var rest := players[1..];
      var m' := members - {p};
      assert RemovePlayers(members, players) == RemovePlayers(m', rest);
      forall i | 0 <= i < k - 1
        ensures rest[i] in m' && rest[i] !in rest[..i]
      {
        PrefixOfTail(players, i);
        assert players[i + 1] !in players[..i + 1];
      }
      PrefixOfTail(players, k - 1);
      if k - 1 < |rest| {
        PrefixOfTail(players, k);
        assert players[k] !in members || players[k] in players[..k];
        assert players[k] == rest[k - 1];
      }
      RemovePlayersStopsAt(m', rest, k - 1);
      ElementsCons(members, p, rest[..k - 1]);
    }
  }

  /** A batch add succeeds exactly when its players are distinct and none is a member yet. */
  lemma {:induction false} AddPlayersSucceeds(members: map<Uuid, int>, players: seq<Uuid>)
    ensures AddPlayers(members, players).outcome == Pass
        <==> forall i :: 0 <= i < |players| ==> players[i] !in members && players[i] !in players[..i]
    decreases |players|
  {
    if |players| > 0 {
      var p := players[0];
      var rest := players[1..];
      AddPlayersSucceeds(members[p := JoinRank], rest);
      forall i | 1 <= i < |players|
        ensures players[..i] == [p] + rest[..i - 1]
      {
      }
    }
  }

  /** Removing the players a successful batch add has just added restores the
      membership map, and the removal succeeds. */
  lemma AddThenRemoveRestores(members: map<Uuid, int>, players: seq<Uuid>)
    requires AddPlayers(members, players).outcome == Pass
    ensures RemovePlayers(AddPlayers(members, players).members, players) == Batch(members, Pass)
  {
    AddPlayersSucceeds(members, players);
    AddPlayersStopsAt(members, players, |players|);
    assert players[..|players|] == players;
    var added := members + JoiningRanks(players);
    RemovePlayersStopsAt(added, players, |players|);
    assert added - Elements(players) == members;
  }
}
