/** The Organization entity and the process-wide registry that Organization.java
    keeps in static fields, modelled as a Registry object passed to the
    operations that read or change it. */
module Organizations {
  import opened OrgTypes
  import opened JavaLists
  import opened Membership
  import opened Logo

  const NameMaxCharLength := 40
  const NameMinCharLength := 3
  const MotdMaxCharLength := 100
  const DescriptionMaxCharLength := 255
  const RankMaxCharLength := 50
  const MaxNumOfRanks := 10
  const MaxSubOrganizationCount := 5
  /** The rank slot the founding player receives. */
  const LeaderRank := 9

  /** The name-length guard of the founding constructor and setName. It throws
      when the length lies INSIDE (3, 40], the opposite of what its message
      announces; the model keeps the guard as written, so only names of at most
      3 or more than 40 characters get past it. */
  predicate NameLengthGuardTrips(name: string) {
    |name| <= NameMaxCharLength && |name| > NameMinCharLength
  }

  /** Every field of an organization, as a value. */
  datatype OrgState = OrgState(
    name: string,
    motd: string,
    description: string,
    logo: string,
    foundingDate: Date,
    uuid: Option<Uuid>,
    ranks: map<int, string>,
    subOrganizations: seq<Uuid>,
    parentOrganization: Option<Uuid>,
    members: map<Uuid, int>,
    explicitMembers: seq<Uuid>,
    joinedTowns: seq<Uuid>,
    joinedNations: seq<Uuid>)

  /** The state the founding constructor leaves: empty texts, the two default
      ranks, no relations, and the founder as the one member, at LeaderRank.
      The uuid is never assigned and stays null. */
  ghost function FoundingState(name: string, foundingDate: Date, founder: Uuid): OrgState
  {
    OrgState(name, "", "", "", foundingDate, None,
             map[0 := "Member", LeaderRank := "Leader"],
             [], None, map[founder := LeaderRank], [founder], [], [])
  }

  /** A non-empty set has an element to pick. */
  lemma NonEmptyHasElement(s: set<int>)
    requires s != {}
    ensures exists x :: x in s
  {
    if forall x :: x !in s {
      assert false;
    }
  }

  class Organization {
    /** The registry key, taken from the registry's counter at construction. */
    const tempId: int
    var name: string
    var motd: string
    var description: string
    var logo: string
    var foundingDate: Date
    var uuid: Option<Uuid>
    var ranksMap: map<int, string>
    var subOrganizations: seq<Uuid>
    var parentOrganization: Option<Uuid>
    var playerUuidRankMap: map<Uuid, int>
    var explicitlyJoinedPlayers: seq<Uuid>
    var joinedTownUuids: seq<Uuid>
    var joinedNationUuids: seq<Uuid>

    ghost function Abstract(): OrgState
      reads this
    {
      OrgState(name, motd, description, logo, foundingDate, uuid, ranksMap,
               subOrganizations, parentOrganization, playerUuidRankMap,
               explicitlyJoinedPlayers, joinedTownUuids, joinedNationUuids)
    }

    /** Every rank slot lies in [0, MaxNumOfRanks). */
    ghost predicate RankSlotsInRange()
      reads this
    {
      forall i :: i in ranksMap ==> 0 <= i < MaxNumOfRanks
    }

    /** What addSubOrganization keeps: no duplicates, at most one more than
      MaxSubOrganizationCount children, and never the organization itself. */
    ghost predicate SubOrganizationsWellFormed()
      reads this
    {
      && NoDuplicates(subOrganizations)
      && |subOrganizations| <= MaxSubOrganizationCount + 1
      && (uuid.Some? ==> uuid.value !in subOrganizations)
    }

    /** The field assignments of the founding constructor, with the player map
      and the explicit-member list initialised (the Java code leaves both null). */
    constructor Founded(tempId: int, name: string, foundingDate: Date, founder: Uuid)
      ensures this.tempId == tempId
      ensures Abstract() == FoundingState(name, foundingDate, founder)
      ensures RankSlotsInRange() && SubOrganizationsWellFormed()
    {
      this.tempId := tempId;
      this.name := name;
      this.motd := "";
      this.description := "";
      this.logo := "";
      this.foundingDate := foundingDate;
      this.uuid := None;
      this.ranksMap := map[0 := "Member", LeaderRank := "Leader"];
      this.subOrganizations := [];
      this.parentOrganization := None;
      this.playerUuidRankMap := map[founder := LeaderRank];
      this.explicitlyJoinedPlayers := [founder];
      this.joinedTownUuids := [];
      this.joinedNationUuids := [];
    }

    /** The field assignments of the snapshot constructor. The player map it is
      handed is ignored; the model starts it, and the explicit-member list, empty. */
    constructor Restored(tempId: int, name: string, motd: string, description: string,
                         logo: string, foundingDate: Date, uuid: Option<Uuid>,
                         ranksMap: map<int, string>, subOrganizations: seq<Uuid>,
                         parentOrganization: Option<Uuid>,
                         joinedTownUuids: seq<Uuid>, joinedNationUuids: seq<Uuid>)
      ensures this.tempId == tempId
      ensures Abstract() == OrgState(name, motd, description, logo, foundingDate, uuid,
                                     ranksMap, subOrganizations, parentOrganization,
                                     map[], [], joinedTownUuids, joinedNationUuids)
    {
      this.tempId := tempId;
      this.name := name;
      this.motd := motd;
      this.description := description;
      this.logo := logo;
      this.foundingDate := foundingDate;
      this.uuid := uuid;
      this.ranksMap := ranksMap;
      this.subOrganizations := subOrganizations;
      this.parentOrganization := parentOrganization;
      this.playerUuidRankMap := map[];
      this.explicitlyJoinedPlayers := [];
      this.joinedTownUuids := joinedTownUuids;
      this.joinedNationUuids := joinedNationUuids;
    }

    /** setName: the inverted length guard first, then the registry-wide
      uniqueness scan; only the name changes, and the registry's names stay
      pairwise distinct. */
    method SetName(reg: Registry, name: string) returns (r: Outcome)
      requires reg.Valid()
      modifies this
      ensures r.Pass? <==> !NameLengthGuardTrips(name) && !old(reg.NameInUse(name))
      ensures r.Fail? ==> r.error == (if NameLengthGuardTrips(name) then NameLength else NameTaken)
      ensures Abstract() == if r.Pass? then old(Abstract()).(name := name) else old(Abstract())
      ensures reg.Valid()
    {
      if NameLengthGuardTrips(name) {
        return Fail(NameLength);
      }
      r := reg.CheckIfNameIsBeingUsed(name);
      if r.Pass? {
        this.name := name;
      }
    }

    /** setMotd: succeeds exactly when the text is at most MotdMaxCharLength long. */
    method SetMotd(motd: string) returns (r: Outcome)
      modifies this
      ensures r.Pass? <==> |motd| <= MotdMaxCharLength
      ensures r.Fail? ==> r.error == MotdTooLong
      ensures Abstract() == if r.Pass? then old(Abstract()).(motd := motd) else old(Abstract())
    {
      if |motd| > MotdMaxCharLength {
        return Fail(MotdTooLong);
      }
      this.motd := motd;
      r := Pass;
    }

    /** setDescription: succeeds exactly when the text is at most
      DescriptionMaxCharLength long. */
    method SetDescription(description: string) returns (r: Outcome)
      modifies this
      ensures r.Pass? <==> |description| <= DescriptionMaxCharLength
      ensures r.Fail? ==> r.error == DescriptionTooLong
      ensures Abstract() == if r.Pass? then old(Abstract()).(description := description) else old(Abstract())
    {
      if |description| > DescriptionMaxCharLength {
        return Fail(DescriptionTooLong);
      }
      this.description := description;
      r := Pass;
    }

    /** setLogo: stores the logo exactly when LogoVerdict accepts it. */
    method SetLogo(logo: string) returns (r: Outcome)
      modifies this
      ensures r == LogoVerdict(logo)
      ensures Abstract() == if r.Pass? then old(Abstract()).(logo := logo) else old(Abstract())
    {
      r := ValidateLogo(logo);
      if r.Pass? {
        this.logo := logo;
      }
    }

    /** updateRanksMap: an upsert of one slot, refused for a slot outside
      [0, MaxNumOfRanks) and then for a name longer than RankMaxCharLength. */
    method UpdateRanksMap(i: int, s: string) returns (r: Outcome)
      modifies this
      ensures r.Pass? <==> 0 <= i < MaxNumOfRanks && |s| <= RankMaxCharLength
      ensures r.Fail? ==> r.error == (if 0 <= i < MaxNumOfRanks then RankNameTooLong else RankIdOutOfBounds)
      ensures Abstract() == if r.Pass? then old(Abstract()).(ranks := old(ranksMap)[i := s]) else old(Abstract())
      ensures old(RankSlotsInRange()) ==> RankSlotsInRange()
    {
      if i < 0 || i >= MaxNumOfRanks {
        return Fail(RankIdOutOfBounds);
      }
      if |s| > RankMaxCharLength {
        return Fail(RankNameTooLong);
      }
      ranksMap := ranksMap[i := s];
      r := Pass;
    }

    /** addRank: updateRanksMap with the given name. */
    method AddRank(rankId: int, rankName: string) returns (r: Outcome)
      modifies this
      ensures r.Pass? <==> 0 <= rankId < MaxNumOfRanks && |rankName| <= RankMaxCharLength
      ensures r.Fail? ==> r.error == (if 0 <= rankId < MaxNumOfRanks then RankNameTooLong else RankIdOutOfBounds)
      ensures Abstract() == if r.Pass? then old(Abstract()).(ranks := old(ranksMap)[rankId := rankName]) else old(Abstract())
      ensures old(RankSlotsInRange()) ==> RankSlotsInRange()
    {
      r := UpdateRanksMap(rankId, rankName);
    }

    /** removeRank: blanks the slot's name; the slot itself stays in the map. */
    method RemoveRank(rankId: int) returns (r: Outcome)
      modifies this
      ensures r.Pass? <==> 0 <= rankId < MaxNumOfRanks
      ensures r.Fail? ==> r.error == RankIdOutOfBounds
      ensures r.Pass? ==> rankId in ranksMap && ranksMap[rankId] == ""
      ensures Abstract() == if r.Pass? then old(Abstract()).(ranks := old(ranksMap)[rankId := ""]) else old(Abstract())
      ensures old(RankSlotsInRange()) ==> RankSlotsInRange()
    {
      r := UpdateRanksMap(rankId, "");
    }

    /** addSubOrganization: refuses the organization's own id, then its parent,
      then a child already listed, then a list already longer than
      MaxSubOrganizationCount (so a sixth child is still admitted); otherwise
      appends the child. The well-formedness of the list is kept. */
    method AddSubOrganization(subOrganization: Uuid) returns (r: Outcome)
      modifies this
      ensures r == old(
        if uuid == Some(subOrganization) then Fail(OwnSubOrganization)
        else if parentOrganization == Some(subOrganization) then Fail(ParentAsSubOrganization)
        else if subOrganization in subOrganizations then Fail(DuplicateSubOrganization)
        else if |subOrganizations| > MaxSubOrganizationCount then Fail(TooManySubOrganizations)
        else Pass)
      ensures Abstract() == if r.Pass? then old(Abstract()).(subOrganizations := old(subOrganizations) + [subOrganization])
                            else old(Abstract())
      ensures old(SubOrganizationsWellFormed()) ==> SubOrganizationsWellFormed()
    {
      // The Java code compares the ids with == (reference identity); the model compares values.
      if uuid == Some(subOrganization) {
        return Fail(OwnSubOrganization);
      }
      if Some(subOrganization) == parentOrganization {
        return Fail(ParentAsSubOrganization);
      }
      if subOrganization in subOrganizations {
        return Fail(DuplicateSubOrganization);
      }
      if |subOrganizations| > MaxSubOrganizationCount {
        return Fail(TooManySubOrganizations);
      }
      if NoDuplicates(subOrganizations) {
        AppendFresh(subOrganizations, subOrganization);
      }
      subOrganizations := subOrganizations + [subOrganization];
      r := Pass;
    }

    /** removeSubOrganization: refuses a child that is not listed; otherwise
      removes its first occurrence, which in a well-formed list is its only one. */
    method RemoveSubOrganization(subOrganization: Uuid) returns (r: Outcome)
      modifies this
      ensures r.Pass? <==> subOrganization in old(subOrganizations)
      ensures r.Fail? ==> r.error == NotASubOrganization
      ensures Abstract() == if r.Pass? then old(Abstract()).(subOrganizations := RemoveFirst(old(subOrganizations), subOrganization))
                            else old(Abstract())
      ensures old(SubOrganizationsWellFormed()) ==> SubOrganizationsWellFormed() && subOrganization !in subOrganizations
    {
      if subOrganization !in subOrganizations {
        return Fail(NotASubOrganization);
      }
      if NoDuplicates(subOrganizations) {
        RemoveFirstOfDistinct(subOrganizations, subOrganization);
      }
      subOrganizations := RemoveFirst(subOrganizations, subOrganization);
      r := Pass;
    }

    /** updateParentOrganization: refuses the organization's own id (so a null
      argument on an organization whose uuid is null) and the current parent;
      otherwise replaces the parent. The sub-organization list is not consulted. */
    method UpdateParentOrganization(parentOrganization: Option<Uuid>) returns (r: Outcome)
      modifies this
      ensures r == old(
        if uuid == parentOrganization then Fail(OwnParent)
        else if this.parentOrganization == parentOrganization then Fail(SameParent)
        else Pass)
      ensures Abstract() == if r.Pass? then old(Abstract()).(parentOrganization := parentOrganization)
                            else old(Abstract())
      ensures old(SubOrganizationsWellFormed()) ==> SubOrganizationsWellFormed()
    {
      // Both comparisons are == on references in the Java code.
      if uuid == parentOrganization {
        return Fail(OwnParent);
      }
      if this.parentOrganization == parentOrganization {
        return Fail(SameParent);
      }
      this.parentOrganization := parentOrganization;
      r := Pass;
    }

    /** addPlayerToOrganization: refuses a player who is already a key;
      otherwise maps the player to JoinRank, the batch add of one player. */
    method AddPlayerToOrganization(playerUuid: Uuid) returns (r: Outcome)
      modifies this
      ensures r.Pass? <==> playerUuid !in old(playerUuidRankMap)
      ensures r.Fail? ==> r.error == PlayerAlreadyMember
      ensures Abstract() == if r.Pass? then old(Abstract()).(members := old(playerUuidRankMap)[playerUuid := JoinRank])
                            else old(Abstract())
      ensures AddPlayers(old(playerUuidRankMap), [playerUuid]) == Batch(playerUuidRankMap, r)
    {
      if playerUuid in playerUuidRankMap {
        return Fail(PlayerAlreadyMember);
      }
      playerUuidRankMap := playerUuidRankMap[playerUuid := JoinRank];
      r := Pass;
    }

    /** addPlayersToOrganization: the players in order, stopping at the first
      that throws; the players added before it stay added. */
    method AddPlayersToOrganization(playerUuids: seq<Uuid>) returns (r: Outcome)
      modifies this
      ensures AddPlayers(old(playerUuidRankMap), playerUuids) == Batch(playerUuidRankMap, r)
      ensures Abstract() == old(Abstract()).(members := playerUuidRankMap)
    {
      r := Pass;
      for i := 0 to |playerUuids|
        invariant r == Pass
        invariant AddPlayers(old(playerUuidRankMap), playerUuids) == AddPlayers(playerUuidRankMap, playerUuids[i..])
        invariant Abstract() == old(Abstract()).(members := playerUuidRankMap)
      {
        assert playerUuids[i..][1..] == playerUuids[i + 1..];
        r := AddPlayerToOrganization(playerUuids[i]);
        if r.Fail? {
          return;
        }
      }
    }

    /** removePlayerFromOrganization: refuses a player who is not a key;
      otherwise deletes that one entry, the batch removal of one player. */
    method RemovePlayerFromOrganization(playerUuid: Uuid) returns (r: Outcome)
      modifies this
      ensures r.Pass? <==> playerUuid in old(playerUuidRankMap)
      ensures r.Fail? ==> r.error == PlayerNotMember
      ensures Abstract() == if r.Pass? then old(Abstract()).(members := old(playerUuidRankMap) - {playerUuid})
                            else old(Abstract())
      ensures RemovePlayers(old(playerUuidRankMap), [playerUuid]) == Batch(playerUuidRankMap, r)
    {
      if playerUuid !in playerUuidRankMap {
        return Fail(PlayerNotMember);
      }
      playerUuidRankMap := playerUuidRankMap - {playerUuid};
      r := Pass;
    }

    /** removePlayersFromOrganization: the players in order, stopping at the
      first that throws; the players removed before it stay removed. */
    method RemovePlayersFromOrganization(playerUuids: seq<Uuid>) returns (r: Outcome)
      modifies this
      ensures RemovePlayers(old(playerUuidRankMap), playerUuids) == Batch(playerUuidRankMap, r)
      ensures Abstract() == old(Abstract()).(members := playerUuidRankMap)
    {
      r := Pass;
      for i := 0 to |playerUuids|
        invariant r == Pass
        invariant RemovePlayers(old(playerUuidRankMap), playerUuids) == RemovePlayers(playerUuidRankMap, playerUuids[i..])
        invariant Abstract() == old(Abstract()).(members := playerUuidRankMap)
      {
        assert playerUuids[i..][1..] == playerUuids[i + 1..];
        r := RemovePlayerFromOrganization(playerUuids[i]);
        if r.Fail? {
          return;
        }
      }
    }

    /** addTownToOrganization, with the territory lookup as the map towns from a
      town id to its residents (a town missing from it does not exist). Refuses a
      town already joined, then an unknown town; otherwise joins the town and
      then adds its residents as a batch, so a resident who is already a member
      ends the pull-in with a failure while the town stays joined. */
    method AddTownToOrganization(towns: map<Uuid, seq<Uuid>>, townUuid: Uuid) returns (r: Outcome)
      modifies this
      ensures old(townUuid in joinedTownUuids) ==> r == Fail(TownAlreadyJoined) && Abstract() == old(Abstract())
      ensures old(townUuid !in joinedTownUuids) && townUuid !in towns ==>
                r == Fail(TownDoesNotExist) && Abstract() == old(Abstract())
      ensures old(townUuid !in joinedTownUuids) && townUuid in towns ==>
                && AddPlayers(old(playerUuidRankMap), towns[townUuid]) == Batch(playerUuidRankMap, r)
                && Abstract() == old(Abstract()).(joinedTowns := old(joinedTownUuids) + [townUuid],
                                                  members := playerUuidRankMap)
    {
      if townUuid in joinedTownUuids {
        return Fail(TownAlreadyJoined);
      }
      if townUuid !in towns {
        return Fail(TownDoesNotExist);
      }
      joinedTownUuids := joinedTownUuids + [townUuid];
      r := AddPlayersToOrganization(towns[townUuid]);
    }
  }

  /** updateParentOrganization never consults the sub-organization list, so an
      organization's child can afterwards be made its parent as well: the
      shallow hierarchy checks do not keep parent and children apart. */
  method ParentCanAlsoBeSubOrganization(org: Organization, x: Uuid)
    requires org.uuid != Some(x) && org.parentOrganization != Some(x) && x !in org.subOrganizations
    requires |org.subOrganizations| <= MaxSubOrganizationCount
    modifies org
    ensures org.parentOrganization == Some(x) && org.subOrganizations == old(org.subOrganizations) + [x]
  {
    var added := org.AddSubOrganization(x);
    assert added == Pass;
    var updated := org.UpdateParentOrganization(Some(x));
    assert updated == Pass;
  }

  /** The static registry of Organization.java: the counter that hands out
      temporary ids and the two indexes, by temporary id and by uuid. */
  class Registry {
    var organizationCount: int
    var organizationList: map<int, Organization>
    var organizationListByUuid: map<Option<Uuid>, Organization>

    /** Every registered organization sits under its own temporary id, which
      the counter has already passed; registered names are pairwise distinct;
      every organization in the uuid index is registered under its temporary id
      and indexed under its own uuid. Since no organization is ever given a
      uuid, the only key the uuid index can hold is null. */
    ghost predicate Valid()
      reads this, organizationList.Values
    {
      && organizationCount >= 0
      && (forall k :: k in organizationList ==> 0 <= k < organizationCount && organizationList[k].tempId == k)
      && (forall k1, k2 :: k1 in organizationList && k2 in organizationList && k1 != k2 ==>
            organizationList[k1].name != organizationList[k2].name)
      && (forall id :: id in organizationListByUuid ==> IsRegistered(organizationListByUuid[id]))
      && (forall id :: id in organizationListByUuid ==> organizationListByUuid[id].uuid == id)
      && organizationListByUuid.Keys <= {None}
    }

    /** The organization sits in the temporary-id index under its own id. */
    ghost predicate IsRegistered(o: Organization)
      reads this
    {
      o.tempId in organizationList && organizationList[o.tempId] == o
    }

    /** Some registered organization has exactly this name (String.equals). */
    ghost predicate NameInUse(name: string)
      reads this, organizationList.Values
    {
      exists k :: k in organizationList && organizationList[k].name == name
    }

    /** The registry at class-load time. */
    constructor ()
      ensures Valid()
      ensures organizationCount == 0 && organizationList == map[] && organizationListByUuid == map[]
    {
      organizationCount := 0;
      organizationList := map[];
      organizationListByUuid := map[];
    }

    /** checkIfNameIsBeingUsed: the scan over every registered organization,
      failing when one has this name. */
    method CheckIfNameIsBeingUsed(name: string) returns (r: Outcome)
      ensures r == if NameInUse(name) then Fail(NameTaken) else Pass
    {
      var remaining := organizationList.Keys;
      while remaining != {}
        invariant remaining <= organizationList.Keys
        invariant forall k :: k in organizationList && k !in remaining ==> organizationList[k].name != name
        decreases remaining
      {
        NonEmptyHasElement(remaining);
        var k :| k in remaining;
        if organizationList[k].name == name {
          return Fail(NameTaken);
        }
        remaining := remaining - {k};
      }
      return Pass;
    }

    /** getOrganizationByUUID: the organization indexed under the id, or null;
      whatever it returns is a registered organization carrying that id, and a
      real (non-null) uuid is never found. */
    function GetOrganizationByUuid(organizationUuid: Option<Uuid>): (r: Option<Organization>)
      reads this, organizationList.Values
      ensures r.Some? <==> organizationUuid in organizationListByUuid
      ensures r.Some? ==> r.value == organizationListByUuid[organizationUuid]
      ensures Valid() && r.Some? ==> IsRegistered(r.value)
      ensures Valid() && r.Some? ==> r.value.uuid == organizationUuid
      ensures Valid() && organizationUuid.Some? ==> r == None
    {
      if organizationUuid in organizationListByUuid then Some(organizationListByUuid[organizationUuid]) else None
    }

    /** The founding constructor. The counter advances before any check, so a
      refused construction still uses up a temporary id. The name must pass the
      inverted length guard and be unused; the new organization is then indexed
      under its temporary id and under its (unassigned, so null) uuid. */
    method Found(name: string, foundingDate: Date, founder: Uuid) returns (r: Result<Organization>)
      requires Valid()
      modifies this
      ensures Valid()
      ensures organizationCount == old(organizationCount) + 1
      ensures r.Ok? <==> !NameLengthGuardTrips(name) && !old(NameInUse(name))
      ensures r.Err? ==> r.error == (if NameLengthGuardTrips(name) then NameLength else NameTaken)
      ensures r.Err? ==> organizationList == old(organizationList) && organizationListByUuid == old(organizationListByUuid)
      ensures r.Ok? ==>
                && fresh(r.value)
                && r.value.tempId == old(organizationCount)
                && r.value.Abstract() == FoundingState(name, foundingDate, founder)
                && organizationList == old(organizationList)[old(organizationCount) := r.value]
                && organizationListByUuid == old(organizationListByUuid)[None := r.value]
    {
      var tempId := organizationCount;
      organizationCount := organizationCount + 1;
      if NameLengthGuardTrips(name) {
        return Err(NameLength);
      }
      var used := CheckIfNameIsBeingUsed(name);
      if used.Fail? {
        return Err(NameTaken);
      }
      var o := new Organization.Founded(tempId, name, foundingDate, founder);
      organizationList := organizationList[tempId := o];
      organizationListByUuid := organizationListByUuid[o.uuid := o];
      r := Ok(o);
    }

    /** The snapshot constructor: only the uniqueness scan (no length guard),
      and the organization it builds is not registered, although the counter
      still advances. */
    method Restore(name: string, motd: string, description: string, logo: string,
                   foundingDate: Date, uuid: Option<Uuid>, ranksMap: map<int, string>,
                   subOrganizations: seq<Uuid>, parentOrganization: Option<Uuid>,
                   playerUuidsRankMap: map<Uuid, int>,
                   joinedTownUuids: seq<Uuid>, joinedNationUuids: seq<Uuid>)
      returns (r: Result<Organization>)
      requires Valid()
      modifies this
      ensures Valid()
      ensures organizationCount == old(organizationCount) + 1
      ensures organizationList == old(organizationList) && organizationListByUuid == old(organizationListByUuid)
      ensures r.Ok? <==> !old(NameInUse(name))
      ensures r.Err? ==> r.error == NameTaken
      ensures r.Ok? ==>
                && fresh(r.value)
                && r.value.tempId == old(organizationCount)
                && r.value.Abstract() == OrgState(name, motd, description, logo, foundingDate, uuid,
                                                  ranksMap, subOrganizations, parentOrganization,
                                                  map[], [], joinedTownUuids, joinedNationUuids)
    {
      var tempId := organizationCount;
      organizationCount := organizationCount + 1;
      var used := CheckIfNameIsBeingUsed(name);
      if used.Fail? {
        return Err(NameTaken);
      }
      var o := new Organization.Restored(tempId, name, motd, description, logo, foundingDate, uuid,
                                         ranksMap, subOrganizations, parentOrganization,
                                         joinedTownUuids, joinedNationUuids);
      r := Ok(o);
    }
  }
}
