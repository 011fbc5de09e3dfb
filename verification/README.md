# A verified model of baton-jamf

`baton-jamf` syncs a Jamf Pro tenant into Baton and creates and deletes Jamf
accounts. This project models its two hard parts in Dafny 4.11 and proves
properties of whole runs, not of single calls.

* **Managed-device sync.** `List` is a state machine whose whole state travels
  through a string token, against a server that may cap the page size, report
  no total, or change. `DevicePaging` and `DeviceTermination` prove what a sync
  delivers, from which tokens, in how many calls, exactly when it is cut short,
  and that it always ends; `DeviceOvercount` does so for tokens that count too
  much. `DeviceOwners`, `UserIndex` and `ManagedDevice` carry this through the two
  caches to the entitlements and grants of every device.
* **Account provisioning.** `EntityStore` and `Server` model the reference
  server's locked sections, `JamfClient` the client's token life cycle, and
  `Provisioning` any number of connectors interleaving step by step through
  both, with rotating tokens and faults; `ProvisioningRuns` has the results on
  whole runs. `Xml`, `Roles` and `Sites` follow a
  creation profile through the XML body and the store to role grants, and site
  references to site grants.

Modules, in dependency order: `Wrappers`, `GoInt` (64-bit integers, `Itoa`,
`Atoi`), `Models`, `DevicePageToken`, `Pagination`, `DeviceSync`,
`DevicePaging`, `DeviceTermination`, `DeviceOvercount`, `DeviceOwners`,
`UserIndex`, `ManagedDevice`, `EntityStore`, `Server`, `JamfClient`,
`Provisioning`, `ProvisioningRuns`, `Xml`, `Roles`, `Sites`.
`dafny verify dfyconfig.toml` checks all of them.

Objects the source updates in place are classes (`Pagination.Bag`,
`ManagedDevice.ManagedDeviceBuilder`, `JamfClient.Client`, `Server.Table`, `Server.JamfServer`) and
its loops are methods with invariants, each proved against a specification
function that the lemmas then reason about.

What turned out not to hold of the code, with its exact condition:

* Without totals, a sync over a server whose page cap is below the requested
  page size stops after one page of each phase. It is complete exactly when the
  server reports totals, or serves pages of the requested size, or each
  inventory fits one page (`SyncIsCompleteExactlyWhen`). The comment at
  `pkg/jamf/device_client.go:26-28` describes a loop on `(page+1)*pageSize`;
  the code loops on the records seen, and the model follows the code.
* A token the server no longer keeps alive is recovered within a call exactly when
  no keep-alive is due (`CallGetsThroughExactlyWhen`). When one is due the
  keep-alive fails before the retry, and no later call ever asks for a new token
  (`StaleTokenIsNeverReplaced`).
* A creator's fetch returns the record it created exactly when nobody removed
  that id by then (`FetchReturnsOwnRecordExactlyWhen`);
  `CreatorMayReturnAnothersRecord` is a concrete run of two creators and a
  deleter in which Success carries the other creator's record.
* CreateAccount and Delete fail exactly when one of their steps meets a fault or
  a rejected token, or the server turns the request down
  (`StepFailsExactlyWhen`, `EndsWellExactlyWhen`).
* A listing of users or accounts fails exactly when a listed record is deleted
  before it is fetched (`GetAll`).
* A device token that counts too many records cuts its phase short, unless at
  most one page was left or the excess is smaller than the last page
  (`OvercountedPhaseIsCompleteExactlyWhen`).
* An external match has an empty value exactly when both owner fields are white
  space only (`WholeSyncGrants`, through `GrantsOwner`; `BlankOwnerGetsEmptyMatch`
  is such an owner).
* Adding users can change whom an owner resolves to, although it changes no key
  of the index: to whom (`AppendingUsers`), exactly when
  (`AppendingUsersKeepsOwnerExactlyWhen`), and two users that show it
  (`AppendingUsersMayChangeOwner`).
* An individual role that is itself named "Custom" is granted to every Custom
  account (`CreatedAccountIsGrantedItsProfile`, last case;
  `RoleNamedCustomGoesToCustomAccounts`).

Assumptions on what is outside the repository: a page token is the empty string,
undecodable, or the bag it was made from; the bag is the stack of the vendored
`pagination.go`; `strings.ToLower` maps rune by rune by some table, a parameter
of every statement; one `wrapper.Do` is one send; status codes map to gRPC codes
as in the vendored `uhttp`.

## Model

| member | source | states |
|---|---|---|
| `GoInt.AtoiOfItoa` | pkg/connector/managedDevice.go:347-370 | a printed page or count is parsed back, for every 64-bit integer |
| `GoInt.ItoaInjective` | pkg/connector/site.go:87-88 | two ids that print alike are the same id, which comparing printed site ids relies on |
| `GoInt.AtoiReadsExactly` | pkg/connector/managedDevice.go:359-366 | a string is read as n if and only if it is one or more digits with or without a sign whose value is n |
| `GoInt.AddWraps` | pkg/connector/managedDevice.go:100-100 | the next page and count wrap: the machine integer congruent to the sum modulo 2^64 |
| `DevicePageToken.TokenRoundTrip` | pkg/connector/managedDevice.go:347-370 | parsing a new page token gives back page and count, for all machine integers |
| `DevicePageToken.ParseReadsHalvesIndependently` | pkg/connector/managedDevice.go:354-370 | each half of any string is read on its own, a malformed half as 0; a bare token leaves the count 0 |
| `DevicePageToken.EveryTokenIsBareOrSplit` | pkg/connector/managedDevice.go:358 | every string is one of the two shapes of the previous row, so parsing is total |
| `Pagination.Bag.Push` | vendor/github.com/conductorone/baton-sdk/pkg/pagination/pagination.go:41-49 | the stack grows by the pushed state |
| `Pagination.Bag.Pop` | vendor/github.com/conductorone/baton-sdk/pkg/pagination/pagination.go:51-66 | the current state is returned and the one saved below becomes current |
| `Pagination.Bag.Next` | vendor/github.com/conductorone/baton-sdk/pkg/pagination/pagination.go:79-92 | only the current state's token changes; an empty token pops; an empty bag is an error |
| `DevicePaging.CallsFromNextPage` | pkg/connector/managedDevice.go:99-108 | how one call's decision to go on changes the calls left, with totals (and a low count) and without |
| `DevicePaging.WalkDeliversSuffix` | pkg/connector/managedDevice.go:82-131 | walking any paginated phase from any position delivers exactly the suffix from its page, in order, in exactly the predicted number of calls |
| `DevicePaging.ListAnswersPage` | pkg/connector/managedDevice.go:63-142 | one List call inside a phase returns its page and either the token of the next position or the token after the phase |
| `DevicePaging.ListStepAsks` | pkg/connector/managedDevice.go:63-142 | a call asks the token's page of the phase's endpoint, of the positive size requested or else 100, and lists its records in their own fields; endpoint errors, unknown phases and undecodable tokens are errors; the empty token is page 0 of the computers |
| `DevicePaging.ResumedPhaseDeliversSuffix` | pkg/connector/managedDevice.go:99-129 | a phase resumed from any token string with a page of at least 0 and a count that is not too high returns exactly the inventory's suffix from its page; a low count, as in a bare token, costs one more call |
| `DevicePaging.SyncDeliversEveryDevice` | pkg/connector/managedDevice.go:63-142 | a sync from the empty token returns every computer, then every mobile device, in order and once, in exactly the stated number of calls, and ends |
| `DevicePaging.AllDevicesAre` | pkg/jamf/device_models.go:79-87 | the devices of a sync in the fields of the inventory: which resource, which username, which of the two e-mail fields |
| `DevicePaging.PagesForIsCeiling` | pkg/connector/managedDevice.go:378-386 | the pages a phase needs with totals are the records over the page size, rounded up |
| `DevicePaging.FullPagesIsQuotient` | pkg/connector/managedDevice.go:378-386 | the full pages that keep a sync without totals going are the quotient |
| `DeviceTermination.CappedSyncWithoutTotalsIsCutShort` | pkg/connector/managedDevice.go:378-386 | without totals and with a cap below the page size, a sync returns one page of each phase and ends after two calls |
| `DeviceTermination.SyncIsCompleteExactlyWhen` | pkg/connector/managedDevice.go:371-386 | a sync over a stable server misses nothing if and only if it reports totals, or serves full pages, or each inventory fits one page |
| `DeviceTermination.CallSpendsBudget` | pkg/connector/managedDevice.go:82-134 | whatever totals are reported, a call that does not fail ends the sync or returns a token with a smaller budget |
| `DeviceTermination.EverySyncEnds` | pkg/connector/managedDevice.go:63-142 | from every token, over endpoints that change, fail and report anything but are empty from some page on, the sync ends within the token's budget: that page number plus one for each phase from the empty token |
| `DeviceTermination.FreshSyncEnds` | pkg/connector/managedDevice.go:372-390 | a fresh sync ends within last + 1 calls for each of the two phases |
| `DeviceOvercount.OvercountedPhaseIsCompleteExactlyWhen` | pkg/connector/managedDevice.go:99-129 | with a count that is too high a phase returns its inventory up to a page end, which is all of it if and only if at most one page was left or the excess is smaller than the last page |
| `DeviceOwners.AssigneeIsLastNonEmpty` | pkg/connector/managedDevice.go:549-568 | the assignee is the owner of the last record that named one, and there is none exactly when no record did |
| `DeviceOwners.AssigneeOverHistory` | pkg/connector/managedDevice.go:88-122 | the same over any history of List calls on one builder, to any servers, failed calls included |
| `DeviceOwners.DeviceObjectIDInjective` | pkg/connector/managedDevice.go:339-341 | a device id determines both phase and Jamf id |
| `UserIndex.TrimSpaceEmpty` | pkg/connector/managedDevice.go:582-585 | trimming leaves nothing exactly when all is white space |
| `UserIndex.TrimSpaceIs` | pkg/connector/managedDevice.go:216-216 | trimming removes exactly the white space at both ends |
| `UserIndex.EveryStringTrims` | pkg/connector/managedDevice.go:216-216 | every string is white space, a text without any at its ends, and white space |
| `UserIndex.SameKeyExactlyWhen` | pkg/connector/managedDevice.go:216-216 | two strings have the same key if and only if they differ only in surrounding white space and in case |
| `UserIndex.IndexUser` | pkg/connector/managedDevice.go:215-224 | one user adds exactly the keys they carry that were free, under their own id |
| `UserIndex.BuildUserIndex` | pkg/connector/managedDevice.go:206-225 | the built index agrees on every key with a scan for the first user in list order that carries it |
| `UserIndex.FirstCarrierIsFirst` | pkg/connector/managedDevice.go:220-223 | that scan finds a carrier with none before it, or nothing when nobody carries the key |
| `UserIndex.ResolveUserIsScan` | pkg/connector/managedDevice.go:533-544 | resolving through the index equals scanning by username, then by e-mail |
| `UserIndex.AppendingUsers` | pkg/connector/managedDevice.go:533-544 | appending users changes no existing key, and exactly whom an owner then resolves to |
| `UserIndex.AppendingUsersKeepsOwnerExactlyWhen` | pkg/connector/managedDevice.go:533-544 | an owner keeps resolving to the same user if and only if the username was carried, or the added users do not override or supply the e-mail's user |
| `UserIndex.AppendingUsersMayChangeOwner` | pkg/connector/managedDevice.go:533-544 | two concrete users with which it does not |
| `ManagedDevice.ManagedDeviceBuilder.RecordDeviceOwner` | pkg/connector/managedDevice.go:549-559 | an owner replaces the one on record, an empty one changes nothing |
| `ManagedDevice.ManagedDeviceBuilder.ListComputers` | pkg/connector/managedDevice.go:88-98 | a page of computers becomes the resources "computer:" + id in order; the owners recorded are each location's username and its email field, or emailAddress when that is empty, and none without a location |
| `ManagedDevice.ManagedDeviceBuilder.ListMobiles` | pkg/connector/managedDevice.go:114-122 | a page of mobile devices becomes the resources "mobile:" + id in order, with their usernames recorded |
| `ManagedDevice.ManagedDeviceBuilder.List` | pkg/connector/managedDevice.go:63-142 | result, next token and recorded owners are those of the step function; a failed call records nothing |
| `ManagedDevice.ManagedDeviceBuilder.Entitlements` | pkg/connector/managedDevice.go:146-159 | one entitlement for a device with an assignee, otherwise none |
| `ManagedDevice.ManagedDeviceBuilder.GetUserIndex` | pkg/connector/managedDevice.go:193-229 | a cached index is returned as it is, a failed fetch caches nothing, a successful one caches an index of those users |
| `ManagedDevice.ManagedDeviceBuilder.Grants` | pkg/connector/managedDevice.go:165-181 | the grants of the recorded assignee over the cached or newly built index, or the fetch's error |
| `ManagedDevice.Sync` | pkg/connector/managedDevice.go:63-142 | the sync loop over a builder ends as the run of step functions does, with all resources returned and all owners recorded |
| `ManagedDevice.DeviceGrantsAreRight` | pkg/connector/managedDevice.go:573-598 | one grant to the user a scan finds, else an external match on the trimmed e-mail, else on the trimmed username, blank exactly when both are |
| `ManagedDevice.ObjectIDsAreUnique` | pkg/connector/managedDevice.go:337-341 | with ids unique in each phase, no two devices of a sync share a resource id |
| `ManagedDevice.WholeSyncGrants` | pkg/connector/managedDevice.go:146-181 | after a whole sync of a fresh builder every computer whose location has a username or an e-mail, and every mobile device with a username, has exactly one "assigned" entitlement and the right grant; every other device has neither; stated over the fields of the inventory |
| `ManagedDevice.SyncAndGrant` | pkg/connector/managedDevice.go:63-181 | the same of the methods: a sync of a fresh builder, then entitlements and grants of every returned resource through the cached index |
| `ManagedDevice.BlankOwnerGetsEmptyMatch` | pkg/connector/managedDevice.go:582-595 | an owner of white space gets an external match with an empty value |
| `EntityStore.WithoutKeepsTheRest` | test-server/main.go:758-768 | deleting keeps exactly the records with other ids, still distinct |
| `EntityStore.RunKeepsValid` | test-server/main.go:371-403 | any sequence of operations keeps map and list in agreement, ids and names distinct, ids within the counter |
| `EntityStore.DeletedIDStaysAbsent` | test-server/main.go:380-403 | an id once handed out and deleted never comes back, and deleting it again changes nothing |
| `EntityStore.RecordStaysUnlessDeleted` | test-server/main.go:395-403 | a record is there unchanged after any operations if and only if none deletes its id |
| `EntityStore.FetchedRecordIsCreatedOneExactlyWhen` | pkg/connector/user.go:173-184 | the record fetched by name is the one created if and only if its id was not deleted in between; otherwise it is a newer one |
| `EntityStore.FetchedRecordMayBeAnothers` | test-server/main.go:371-403 | create, delete and create again of one name: the lookup by name returns the second record |
| `EntityStore.NamesAreConserved` | test-server/main.go:371-403 | initial presence of a name plus creations less removals is its presence, after any operations |
| `Server.DeleteByID` | test-server/main.go:758-768 | compacting in the array being read gives the order-preserving filter and leaves the tail behind it as it was |
| `Server.HandlerIsOneOperation` | test-server/main.go:334-413 | a request by id is one operation; the store changes exactly when the reply is Created or a DELETE's OK, never for an unauthorised request; what each reply says of the store |
| `EntityStore.FindByNameIsFirst` | test-server/main.go:437-445 | a lookup by name finds the first record of the list with it, or nothing when there is none |
| `Server.Table.FindByNameLocked` | test-server/main.go:437-445 | the first record of the list with the name |
| `Server.Table.HandleID` | test-server/main.go:480-580 | reply and new store of the GET, POST and DELETE handler |
| `Server.Table.HandleName` | test-server/main.go:583-601 | reply of the lookup by name |
| `Server.JamfServer.HandleUserByID` | test-server/main.go:299-413 | without the server's token Unauthorized and nothing changes; with it, each method's reply and new user store in the request's own fields: a bad path number, an empty name, a taken name, the record a POST stores, the record a DELETE removes; accounts stay as they are |
| `Server.JamfServer.HandleAccountByID` | test-server/main.go:480-580 | the same for accounts: also an empty password and unknown access levels, privilege sets and enabled values are bad requests, and a POST stores the body's fields and privileges; users stay as they are |
| `Server.JamfServer.HandleUserByName` | test-server/main.go:416-434 | without the server's token Unauthorized; otherwise a GET finds the first user with the name, or none has it |
| `Server.JamfServer.HandleAccountByName` | test-server/main.go:583-601 | the same for accounts |
| `Server.SeededServerStaysValid` | test-server/main.go:139-191 | the seeded users and accounts satisfy the store invariant, and so does every later state |
| `Server.SeedUsersAre` | test-server/main.go:148-172 | the five seeded users, field by field, and the last id handed out |
| `Server.SeedAccountsAre` | test-server/main.go:174-191 | the three seeded accounts, field by field, and the last id handed out |
| `JamfClient.Client.SetBearerToken` | pkg/jamf/client.go:68-71 | the token is replaced and the keep-alive clock restarted |
| `JamfClient.Client.KeepAliveToken` | pkg/jamf/client.go:81-130 | an error without a token; nothing before five minutes; then the token the old one was traded for and the time after it, or the keep-alive's error and an unchanged client |
| `JamfClient.Client.DoRequest` | pkg/jamf/client.go:465-544 | the tokens sent, the result and the client left, in every case: nothing is sent without a token or after a failed keep-alive; first the old or traded token; then, exactly after Unauthenticated and a successful renewal, the renewed one |
| `JamfClient.CallGetsThroughExactlyWhen` | pkg/jamf/client.go:474-527 | against a server that trades, accepts and renews any tokens: a call fails leaving the client unchanged if and only if it has no token or one due for a keep-alive that the server no longer keeps; otherwise which token gets through and stays |
| `JamfClient.RefreshesAreSpaced` | pkg/jamf/client.go:90-127 | over any run with a monotone clock, successful keep-alives are five minutes apart and lastKeepAlive never decreases |
| `JamfClient.KeepAlivesAreRateLimited` | pkg/jamf/client.go:58-71 | from the client's creation on, at most one successful keep-alive per five minutes elapsed |
| `JamfClient.StaleTokenIsNeverReplaced` | pkg/jamf/client.go:117-120 | once a keep-alive is due for a token no longer kept alive, no number of calls changes the client |
| `Provisioning.EveryStepIsOneMove` | pkg/connector/user.go:159-215 | a provisioner's step leaves the store alone, or makes exactly the creation or the removal its own login, body or resource id asks for; a Delete that ends without a removal found its id absent |
| `Provisioning.RunKeepsInv` | pkg/connector/userAccount.go:302-341 | the joint invariant of store, log and provisioners holds in every reachable state |
| `ProvisioningRuns.EveryInterleavingConservesNames` | test-server/main.go:530-570 | in every interleaving with token rotation, faults and retries, names are conserved and each provisioner changed the store at most once |
| `ProvisioningRuns.CreatorsAgree` | pkg/connector/user.go:173-196 | without removals all creators of a name return the stored record, at most one the success, none if the name was there before |
| `ProvisioningRuns.StepFailsExactlyWhen` | pkg/jamf/client.go:474-527 | a step makes its provisioner fail if and only if it meets a fault, no token, a keep-alive due with a rejected token, a second rejection, an unacceptable body or a vanished name |
| `ProvisioningRuns.RunOfOne` | pkg/connector/user.go:159-215 | a provisioner that takes its steps finishes, and has failed if and only if it started so or one of its steps was refused or turned down |
| `ProvisioningRuns.EndsWellExactlyWhen` | pkg/connector/userAccount.go:302-360 | a creator without removals ends with a record, and a Delete as Deleted, if and only if none of its steps is refused |
| `ProvisioningRuns.BadGoalsFailAtOnce` | pkg/connector/user.go:34-40 | a creator without a login, or a Delete of a resource id that is no number, fails in every run without any change of the store; all others start with a keep-alive check |
| `ProvisioningRuns.ExactlyOneCreatorSucceeds` | pkg/connector/userAccount.go:302-341 | on a fresh name without removals, when every creator takes its steps and none is refused, exactly one returns Success, all others AlreadyExists, all the same record |
| `ProvisioningRuns.CalmCreatorsSucceedOnce` | pkg/connector/userAccount.go:302-341 | the same whenever no fault and no rotation happens and every creator's client has a token that is accepted or less than five minutes old, without assuming that nothing is refused |
| `ProvisioningRuns.DeletedIDsAreNeverReused` | test-server/main.go:541-570 | in every interleaving a deleted id stays absent |
| `ProvisioningRuns.DeleteMeansGone` | pkg/connector/user.go:201-215 | a Delete that ended as Deleted leaves its id absent in every later state of every interleaving |
| `ProvisioningRuns.AbsentIDIsNeverRemoved` | test-server/main.go:563-570 | once a handed-out id is absent, every later removal is of another id |
| `ProvisioningRuns.RepeatedDeleteSucceeds` | pkg/connector/userAccount.go:346-360 | a Delete of an absent id removes nothing in any run, and with its steps taken succeeds if and only if none is refused |
| `ProvisioningRuns.FetchReturnsOwnRecordExactlyWhen` | pkg/connector/user.go:180-196 | the record a creator's fetch returns is the one it created if and only if that id was not removed by then |
| `ProvisioningRuns.SuccessesReturnTheirOwnRecord` | pkg/connector/userAccount.go:302-341 | in every interleaving a Success comes with a creation of the own login and body, and returns it unless its id was removed |
| `ProvisioningRuns.CreatorMayReturnAnothersRecord` | pkg/connector/user.go:173-196 | a concrete run of two creators and a deleter in which Success carries the other creator's record |
| `Xml.MarshalXML` | pkg/jamf/models.go:95-123 | the loop emits the start, the non-empty categories in order, and the end |
| `Xml.PrivilegesRoundTrip` | pkg/jamf/models.go:48-123 | for all privileges the stream is well-formed, decodes to the same seven lists, and has a category's element exactly when its list is not empty |
| `Xml.AccountRoundTrip` | pkg/jamf/models.go:204-217 | the server decodes exactly the account body that was sent, for every body |
| `Xml.PrivilegesOnTheWire` | pkg/jamf/models.go:95-123 | the tokens of a privileges element, every category by its literal name and only when not empty |
| `Xml.AccountOnTheWire` | pkg/jamf/models.go:204-217 | the tokens of an account body, every field by its literal name, empty ones left out but for name and password |
| `Xml.ItemsOnTheWire` | pkg/jamf/models.go:113-119 | each privilege is an element "privilege" |
| `Roles.StringSliceFromProfile` | pkg/connector/helpers.go:11-23 | the loop returns the filtered list, empty for an absent or wrongly typed field |
| `Roles.NonEmptyStringsAre` | pkg/connector/helpers.go:17-21 | a name is kept if and only if it is a non-empty string entry |
| `Roles.ProvidedPrivilegesAre` | pkg/connector/userAccount.go:77-86 | each category is provided exactly the non-empty strings of its own field, and the categories together exactly what one of the seven fields lists |
| `Roles.CreateBodyAcceptsExactly` | pkg/connector/userAccount.go:77-104 | a profile is accepted if and only if it has a login, a known privilege set or none, and privileges exactly for Custom; otherwise which error it gets |
| `Roles.CreateBodyIs` | pkg/connector/userAccount.go:270-311 | every field of the body posted, from the profile: the set it names or Auditor, its strings, Enabled with full access, and privileges only for Custom, each category from its own field |
| `Roles.GetAll` | pkg/jamf/client.go:343-368 | listing and then fetching by id, while others change the store, succeeds if and only if no listed record is deleted between the list and its fetch, and then returns the records as listed |
| `Roles.RoleGrants` | pkg/connector/role.go:100-144 | the two loops grant a role to the groups and then the accounts that hold it, in order |
| `Roles.HoldersAreGrantedOnce` | pkg/connector/role.go:91-142 | with distinct ids, an account or group is granted a role once if its set is the role, or it is Custom, the role is no built-in set and one of its seven lists has it; otherwise never; the two kinds are not confused |
| `Roles.RoleNamedCustomGoesToCustomAccounts` | pkg/connector/role.go:138-141 | a Custom account that does not list it holds a role named Custom |
| `Roles.CreatedAccountIsGrantedItsProfile` | pkg/connector/userAccount.go:270-341 | the XML of an accepted profile is stored under the next id with the profile's strings; read back after any operations that do not delete it, the account is granted an individual role exactly when Custom and listed in the profile, and a built-in role exactly when the profile names it, or names none and it is Auditor |
| `Sites.Grants` | pkg/connector/site.go:72-145 | the four loops return, in order, the principals whose reference prints as the site |
| `Sites.UserEntryGrants` | pkg/connector/site.go:86-92 | a user is granted once per matching site entry |
| `Sites.SiteGrantsAreCounted` | pkg/connector/site.go:72-145 | how often each principal is granted a site: a user once per entry, a user group, account and group once per record of that id with that site, the kinds not confused |
| `Sites.SiteGrantsAreTheReferences` | pkg/connector/site.go:72-145 | over distinct listed sites the grants are, as a multiset, exactly the references to a listed site |

## Left out

- HTTP, URL building and escaping, JSON, logging and contexts: requests and replies are abstract values.
- Character-level XML: escaping, and characters XML cannot carry, which the encoder replaces. Streams are token sequences.
- Bag serialisation to JSON and the `ResourceID` field of a page state, which the phases never set.
- Resource, entitlement and grant constructors of the SDK, display names, device traits and their errors, password generation.
- Replies lost after the server acted: a fault in `Provisioning` keeps a request from the server. Creations counted by the log would still be conserved, successes seen by callers would not.
- Wrap-around of the server's id counters, which takes 2^63 creations.
- Parallel calls sharing one client: each provisioner has its own, and the client's fields are not locked in the source either.
- CreateAccount and Delete as methods: they are stages of `Provisioning`'s state machine, so that they can interleave between their two calls.
- The backing array behind the server's list slices: `Server.Table` holds a sequence, and only `Server.DeleteByID` works in place on an array.
- Token expiry text, `GetTokenDetails` and `CreateBearerToken`'s HTTP side: a renewal succeeds with a token or fails.
- DevicePaging.ResumedPhaseDeliversSuffix: says nothing of a token with a negative page, for which the API's answer is not defined; `EverySyncEnds` covers it.
- DeviceOvercount.OvercountedPhaseIsCompleteExactlyWhen: says nothing of a count so high that adding the records left exceeds the 64-bit range.
- `group.go`, `userGroup.go`, `connector.go`, `pkg/config`, `cmd`, creation schemas, and the read-only group, site and privilege handlers of the test server: they would only add easy members.
