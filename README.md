# Organizations — a Dafny model of the Organization entity and its registry

This project models the core of the Organizations game-server plugin: the
`Organization` entity (name, message of the day, description, a small ASCII
logo, a rank table of ten slots, a player→rank membership map, a parent and a
list of sub-organizations, joined towns and nations) and the process-wide
registry that `Organization.java` keeps in static fields (a counter handing out
temporary ids, an index by temporary id and an index by UUID).

The entity is a `class Organization` whose methods mirror the Java mutators:
each checks its argument and then either fails (the Java code throws
`IllegalArgumentException`; here the method returns `Fail(e)` of an `Outcome`)
or commits one change. Every mutator states its whole new state through the
ghost function `Abstract()`, so "nothing else changes" is part of each
contract. The static registry is a `class Registry` passed explicitly to the
operations that read or change it; the Towny territory lookup is a parameter
(a map from town id to its residents). Batch membership changes are specified
by the functions `Membership.AddPlayers` / `Membership.RemovePlayers`, proved
against an independent "first failing index" characterisation; the logo check
is specified by `Logo.LogoVerdict` over a model of Java's `String.split`
(`JavaStrings.JavaSplit`), with split/join round trips proved.

Modules: `OrgTypes` (ids, dates, errors), `JavaStrings` (`String.split`),
`JavaLists` (`List.remove(Object)`), `Membership` (batch membership),
`Logo` (logo limits), `Organizations` (the two classes).

Behaviour kept as the code has it, where the code and its stated intent differ:

- The name-length guard (`Organization.java:46`, `:104`) throws when
  `3 < length ≤ 40`, so only names of at most 3 or more than 40 characters are
  accepted (`NameLengthGuardTrips`).
- The logo limit is `15 * (15 + 1) = 240` characters, not 225, and a logo that
  `split` cuts into 15 or more lines is refused, so at most 14 lines are
  accepted (`Logo.LogoFifteenLinesRejected`). Trailing newlines are dropped by
  `split` and do not count as lines (`Logo.LogoTrailingNewlineIgnored`).
- The sub-organization cap tests `size() > 5`, which admits a sixth child.
- The batch add/remove loops stop at the first player that throws; earlier
  players stay applied and the remaining ones are not processed. The same holds
  for the residents pulled in by `addTownToOrganization`, after the town itself
  has been joined.
- `updateParentOrganization` does not look at the sub-organization list, so a
  child can also become the parent (`Organizations.ParentCanAlsoBeSubOrganization`);
  no check rejects longer cycles either.
- The snapshot constructor checks only name uniqueness (no length guard),
  ignores the player map it is given and does not register the organization.
- Every construction advances the counter, including one that fails, because
  the temporary id is taken in a field initializer before the constructor body runs.

## Model

| member | source | states |
|---|---|---|
| `Organizations.Registry.constructor` | src/main/java/io/github/Xavbeat03/Organizations/objects/Organization.java:21-23 | the registry starts with counter 0 and both indexes empty, and is valid |
| `Organizations.Registry.CheckIfNameIsBeingUsed` | src/main/java/io/github/Xavbeat03/Organizations/objects/Organization.java:109-111 | fails with NameTaken exactly when some registered organization has an equal name (case-sensitive), passes otherwise |
| `Organizations.Registry.GetOrganizationByUuid` | src/main/java/io/github/Xavbeat03/Organizations/objects/Organization.java:268-270 | returns the organization indexed under the id, or none when the id is not indexed; in a valid registry the result is registered under its own temporary id and carries the requested uuid, and a non-null uuid is never found because only the null key is ever indexed |
| `Organizations.Registry.Found` | src/main/java/io/github/Xavbeat03/Organizations/objects/Organization.java:21-65 | the counter always advances; succeeds exactly when the inverted length guard lets the name through and no registered organization has it; length is reported before uniqueness; on success a fresh organization in the founding state is indexed under the old counter and under the null uuid; on failure both indexes are unchanged; registry validity (distinct names, consistent keys) is kept |
| `Organizations.Registry.Restore` | src/main/java/io/github/Xavbeat03/Organizations/objects/Organization.java:81-97 | the counter advances, the indexes never change; succeeds exactly when the name is unused; the new organization holds every given field, and an empty player map in place of the one passed |
| `Organizations.Organization.Founded` | src/main/java/io/github/Xavbeat03/Organizations/objects/Organization.java:45-61 | empty texts, ranks {0: Member, 9: Leader}, no relations, the founder as sole member at rank 9 and sole explicit member, uuid null; rank slots in range and the sub-organization list well formed |
| `Organizations.Organization.Restored` | src/main/java/io/github/Xavbeat03/Organizations/objects/Organization.java:81-97 | every field as given, with empty membership and explicit-member lists |
| `Organizations.Organization.SetName` | src/main/java/io/github/Xavbeat03/Organizations/objects/Organization.java:103-111 | succeeds exactly when the inverted length guard passes and the name is unused in the registry; on success only the name changes, on failure nothing does; the registry's names stay pairwise distinct |
| `Organizations.Organization.SetMotd` | src/main/java/io/github/Xavbeat03/Organizations/objects/Organization.java:117-120 | succeeds exactly when the text has at most 100 characters; success changes only the motd, failure nothing |
| `Organizations.Organization.SetDescription` | src/main/java/io/github/Xavbeat03/Organizations/objects/Organization.java:126-130 | succeeds exactly when the text has at most 255 characters; success changes only the description, failure nothing |
| `Organizations.Organization.SetLogo` | src/main/java/io/github/Xavbeat03/Organizations/objects/Organization.java:136-150 | the outcome is LogoVerdict of the logo; success changes only the logo, failure nothing |
| `Organizations.Organization.UpdateRanksMap` | src/main/java/io/github/Xavbeat03/Organizations/objects/Organization.java:174-178 | succeeds exactly when the slot is in [0, 10) and the name has at most 50 characters, the slot check first; success sets that one slot (an upsert), every other slot and field unchanged; keeps every slot in range |
| `Organizations.Organization.AddRank` | src/main/java/io/github/Xavbeat03/Organizations/objects/Organization.java:157-159 | succeeds exactly when the slot is in [0, 10) and the name has at most 50 characters, failing with the out-of-bounds error before the name-length error; only that slot is upserted |
| `Organizations.Organization.RemoveRank` | src/main/java/io/github/Xavbeat03/Organizations/objects/Organization.java:165-167 | succeeds exactly when the slot is in [0, 10), otherwise fails with the out-of-bounds error; the slot then stays present with the empty name |
| `Organizations.Organization.AddSubOrganization` | src/main/java/io/github/Xavbeat03/Organizations/objects/Organization.java:184-190 | refuses, in order, its own id, its parent, a listed child, a list of more than 5; otherwise appends the child and changes nothing else; keeps the list duplicate-free, at most 6 long and free of its own id |
| `Organizations.Organization.RemoveSubOrganization` | src/main/java/io/github/Xavbeat03/Organizations/objects/Organization.java:196-199 | fails exactly when the child is not listed; otherwise removes its first occurrence; from a well-formed list the child is then absent and the list stays well formed |
| `Organizations.Organization.UpdateParentOrganization` | src/main/java/io/github/Xavbeat03/Organizations/objects/Organization.java:205-209 | refuses its own id (null when both are null), then the current parent; otherwise replaces the parent and nothing else |
| `Organizations.ParentCanAlsoBeSubOrganization` | src/main/java/io/github/Xavbeat03/Organizations/objects/Organization.java:184-209 | for any organization with room for one more child that neither is, lists nor has as parent the id, adding it as a child and then making it the parent both succeed, leaving it parent and sub-organization at once |
| `Organizations.Organization.AddPlayerToOrganization` | src/main/java/io/github/Xavbeat03/Organizations/objects/Organization.java:216-220 | fails exactly when the player is already a key; otherwise maps the player to rank 0 and nothing else changes; agrees with the one-player batch add |
| `Organizations.Organization.AddPlayersToOrganization` | src/main/java/io/github/Xavbeat03/Organizations/objects/Organization.java:226-230 | the new membership map and the outcome are those of AddPlayers on the old map; no other field changes |
| `Organizations.Organization.RemovePlayerFromOrganization` | src/main/java/io/github/Xavbeat03/Organizations/objects/Organization.java:236-240 | fails exactly when the player is not a key; otherwise deletes only that entry; agrees with the one-player batch removal |
| `Organizations.Organization.RemovePlayersFromOrganization` | src/main/java/io/github/Xavbeat03/Organizations/objects/Organization.java:246-250 | the new membership map and the outcome are those of RemovePlayers on the old map; no other field changes |
| `Organizations.Organization.AddTownToOrganization` | src/main/java/io/github/Xavbeat03/Organizations/objects/Organization.java:252-259 | an already joined town, then an unknown town, fail with no change; otherwise the town is appended and the residents are added as by AddPlayers, whose outcome is returned while the town stays joined |
| `Membership.AddPlayers` | src/main/java/io/github/Xavbeat03/Organizations/objects/Organization.java:216-230 | existing members keep their rank; every new key is a player of the list, at rank 0 |
| `Membership.RemovePlayers` | src/main/java/io/github/Xavbeat03/Organizations/objects/Organization.java:236-250 | only players of the list leave; whoever stays keeps their rank |
| `Membership.AddPlayersStopsAt` | src/main/java/io/github/Xavbeat03/Organizations/objects/Organization.java:216-230 | if the k-th player is the first already present (in the map or earlier in the list), the batch adds exactly the first k at rank 0 and fails; with no such player it adds all and passes |
| `Membership.RemovePlayersStopsAt` | src/main/java/io/github/Xavbeat03/Organizations/objects/Organization.java:236-250 | if the k-th player is the first absent (or already removed), the batch removes exactly the first k and fails; with no such player it removes all and passes |
| `Membership.AddPlayersSucceeds` | src/main/java/io/github/Xavbeat03/Organizations/objects/Organization.java:216-230 | a batch add passes if and only if its players are distinct and none is already a member |
| `Membership.AddThenRemoveRestores` | src/main/java/io/github/Xavbeat03/Organizations/objects/Organization.java:216-250 | removing the players a successful batch add has added succeeds and gives back the original map |
| `JavaLists.RemoveFirst` | src/main/java/io/github/Xavbeat03/Organizations/objects/Organization.java:198 | the list with the first occurrence of the element cut out, everything else in order |
| `JavaLists.RemoveFirstOfDistinct` | src/main/java/io/github/Xavbeat03/Organizations/objects/Organization.java:196-198 | in a duplicate-free list the removed element is gone, the list stays duplicate-free and is one shorter |
| `JavaStrings.JavaSplit` | src/main/java/io/github/Xavbeat03/Organizations/objects/Organization.java:139 | no returned line contains the separator |
| `JavaStrings.JoinSplitAll` | src/main/java/io/github/Xavbeat03/Organizations/objects/Organization.java:139 | joining the pieces of a split with the separator gives back the string |
| `JavaStrings.SplitAllJoin` | src/main/java/io/github/Xavbeat03/Organizations/objects/Organization.java:139 | splitting a join of separator-free pieces gives back the pieces |
| `JavaStrings.SplitAllCount` | src/main/java/io/github/Xavbeat03/Organizations/objects/Organization.java:139 | there is one piece more than there are separators |
| `JavaStrings.JavaSplitLines` | src/main/java/io/github/Xavbeat03/Organizations/objects/Organization.java:139-147 | split returns no more lines than pieces, and all its lines fit a width exactly when all pieces do |
| `JavaStrings.JavaSplitLineCount` | src/main/java/io/github/Xavbeat03/Organizations/objects/Organization.java:139-140 | for a string not ending in the separator, split returns one line more than there are separators |
| `JavaStrings.JavaSplitIgnoresTrailingSeparator` | src/main/java/io/github/Xavbeat03/Organizations/objects/Organization.java:139-140 | a separator appended to a non-empty string does not change what split returns |
| `Logo.ValidateLogo` | src/main/java/io/github/Xavbeat03/Organizations/objects/Organization.java:136-148 | the loop's verdict equals LogoVerdict: too long, then 15 or more lines, then some line wider than 15, otherwise pass |
| `Logo.LogoAcceptedIsGrid` | src/main/java/io/github/Xavbeat03/Organizations/objects/Organization.java:136-148 | an accepted logo has at most 240 characters and is the newline-join of lines none wider than 15 |
| `Logo.LogoGridAccepted` | src/main/java/io/github/Xavbeat03/Organizations/objects/Organization.java:13-15 | 1 to 14 newline-free lines of at most 15 characters, joined by newlines, are accepted |
| `Logo.LogoFifteenLinesRejected` | src/main/java/io/github/Xavbeat03/Organizations/objects/Organization.java:139-141 | 15 such lines, the last non-empty, fit in 240 characters and are refused for too many lines |
| `Logo.LogoWideLineRejected` | src/main/java/io/github/Xavbeat03/Organizations/objects/Organization.java:142-147 | up to 14 lines within 240 characters with one line wider than 15 are refused for that line |
| `Logo.LogoTrailingNewlineIgnored` | src/main/java/io/github/Xavbeat03/Organizations/objects/Organization.java:137-141 | appending a newline to a non-empty logo under 240 characters does not change the verdict |

## Left out

- `Organizations.Registry.Found`: as written every founding whose name passes the length guard at `Organization.java:46` and the uniqueness scan at `:48` ends in a `NullPointerException` at `:58` (a name refused by either check throws `IllegalArgumentException` first), because `playerUUIDRankMap` and `explicitlyJoinedPlayers` are never initialised; the model initialises both (the intended behaviour), so it enrols the founder and registers the organization where the Java code never gets that far.
- `Organizations.Organization.Founded`: the same two collections are modelled as initialised; the uuid is never assigned in the source and stays null (`None`), so the organization is indexed under the null key.
- `Organizations.Registry.Restore`: as written the player map and the explicit-member list stay null; the model starts both empty, so later membership operations work instead of throwing.
- UUID comparisons at `Organization.java:185-186` and `:206-207` use `==` (reference identity); the model compares UUIDs by value, so two distinct but equal UUID objects are treated as the same id. `contains`, `containsKey` and `remove` use `equals`, which the model matches.
- Null arguments are not modelled except for the parent id of `updateParentOrganization`; a null sub-organization, player or town id is outside the model.
- String lengths are counted in Unicode scalar values; Java's `length()` counts UTF-16 code units, so the two differ for characters outside the Basic Multilingual Plane.
- The counter is an unbounded integer; Java's 32-bit `int` would wrap after 2^31 constructions.
- The Towny lookup is the `towns` map parameter of `AddTownToOrganization`; the model assumes both `getTown` calls at `Organization.java:255-258` return the same town.
- Exception message texts, including the line index at `Organization.java:143-146` that is always 0, are not modelled; each failure is an `Error` constructor.
- The getters (`Organization.java:263-403`) are plain field reads; the aliasing they create by returning the internal mutable collections is not modelled.
- `Organizations.Registry.Restore`: the snapshot constructor (`Organization.java:92-96`) stores the caller's `ranksMap`, `subOrganizations`, `joinedTownUUIDs` and `joinedNationUUIDs` by reference, so later changes on either side show on the other; the model copies them as values and does not capture that sharing. `getOrganizationCount` and `getOrganizationList` are the `Registry` fields themselves.
- `Player` and `Date` are opaque: the founder is a player UUID, the founding date a value.
- No operation of the source changes the joined nations, removes an organization from the registry, or runs concurrently, so there is nothing of that to model.
- Plugin lifecycle, command and listener registration, Vault service dispatch, database migration, configuration and logging (`Organizations.java`, `command/`, `listener/`, `db/`, `utility/`) are not part of this model.
