/** The managed-device builder: its two caches, its three operations, and what a
    whole sync grants (pkg/connector/managedDevice.go). */
module ManagedDevice {
  import opened Wrappers
  import opened GoInt
  import opened Pagination
  import opened DevicePageToken
  import opened DeviceSync
  import opened DevicePaging
  import opened DeviceOwners
  import opened Models
  import opened UserIndex

  const ASSIGNED := "assigned"
  const MATCH_KEY_EMAIL := "email"
  const MATCH_KEY_USERNAME := "username"

  datatype Entitlement = Entitlement(objectID: string, slug: string)

  datatype ExternalMatch = ExternalMatch(key: string, value: string)

  datatype Grant = Grant(objectID: string, slug: string, principal: ResourceId, external: Option<ExternalMatch>)

  /** The grant of a device to its assignee: the synced user, or else an
      external match on the trimmed e-mail, or else on the trimmed username. */
  function DeviceGrants(
    lower: char -> char, objectID: string, owner: Owner, idx: map<string, ResourceId>): seq<Grant>
  {
    if owner == NO_OWNER then []
    else
      var user := ResolveUser(lower, idx, owner.username, owner.email);
      if user.Some? then [Grant(objectID, ASSIGNED, user.value, None)]
      else
        var email := TrimSpace(owner.email);
        var external := if email == "" then ExternalMatch(MATCH_KEY_USERNAME, TrimSpace(owner.username))
                      else ExternalMatch(MATCH_KEY_EMAIL, email);
        [Grant(objectID, ASSIGNED, ResourceId(TYPE_USER, external.value), Some(external))]
  }

  function DeviceEntitlements(objectID: string, owner: Owner): seq<Entitlement> {
    if owner == NO_OWNER then [] else [Entitlement(objectID, ASSIGNED)]
  }

  datatype ListResult = ListResult(resources: seq<string>, next: Token)

  function ObjectIDs(ls: seq<Listed>): seq<string> {
    Map((l: Listed) => l.objectID, ls)
  }

  lemma ObjectIDsConcat(a: seq<Listed>, b: seq<Listed>)
    ensures ObjectIDs(a + b) == ObjectIDs(a) + ObjectIDs(b)
  {
  }

  class ManagedDeviceBuilder {
    const lower: char -> char
    var userIndex: Option<map<string, ResourceId>>
    var deviceOwners: Owners

    constructor (lower: char -> char)
      ensures this.lower == lower && userIndex == None && deviceOwners == map[]
    {
      this.lower := lower;
      userIndex := None;
      deviceOwners := map[];
    }

    method RecordDeviceOwner(objectID: string, username: string, email: string)
      modifies this`deviceOwners
      ensures deviceOwners == RecordOwner(old(deviceOwners), Listed(objectID, Owner(username, email)))
    {
      if username == "" && email == "" {
        return;
      }
      deviceOwners := deviceOwners[objectID := Owner(username, email)];
    }

    /** The loop over a page of computers. */
    method ListComputers(results: seq<Computer>) returns (resources: seq<string>, ghost records: seq<Listed>)
      modifies this`deviceOwners
      ensures |records| == |results| && forall i :: 0 <= i < |results| ==> ListsComputer(records[i], results[i])
      ensures resources == ObjectIDs(records)
      ensures deviceOwners == RecordAll(old(deviceOwners), records)
    {
      hide ListsComputer;
      ComputersAreListed(results);
      records := Map(ComputerListed, results);
      resources := [];
      for i := 0 to |results|
        invariant resources == ObjectIDs(records[..i])
        invariant deviceOwners == RecordAll(old(deviceOwners), records[..i])
      {
        var c := results[i];
        var objectID := DeviceObjectID(PHASE_COMPUTER, c.id);
        if c.userAndLocation.Some? {
          RecordDeviceOwner(objectID, c.userAndLocation.value.username, c.userAndLocation.value.EmailAddr());
        }
        resources := resources + [objectID];
        assert records[..i + 1][..i] == records[..i] && records[..i + 1][i] == ComputerListed(c);
      }
      assert records[..|results|] == records;
    }

    /** The loop over a page of mobile devices. */
    method ListMobiles(results: seq<MobileDevice>) returns (resources: seq<string>, ghost records: seq<Listed>)
      modifies this`deviceOwners
      ensures |records| == |results| && forall i :: 0 <= i < |results| ==> ListsMobile(records[i], results[i])
      ensures resources == ObjectIDs(records)
      ensures deviceOwners == RecordAll(old(deviceOwners), records)
    {
      hide ListsMobile;
      MobilesAreListed(results);
      records := Map(MobileListed, results);
      resources := [];
      for i := 0 to |results|
        invariant resources == ObjectIDs(records[..i])
        invariant deviceOwners == RecordAll(old(deviceOwners), records[..i])
      {
        var m := results[i];
        var objectID := DeviceObjectID(PHASE_MOBILE, m.id);
        RecordDeviceOwner(objectID, m.username, "");
        resources := resources + [objectID];
        assert records[..i + 1][..i] == records[..i] && records[..i + 1][i] == MobileListed(m);
      }
      assert records[..|results|] == records;
    }

    /** One List call: what ListStep says, with the owners recorded. A call
        that fails records nothing. */
    method List(token: Token, size: Int, api: DeviceApi) returns (r: Result<ListResult, ListError>)
      modifies this`deviceOwners
      ensures match ListStep(token, size, api)
              case Err(e) => r == Err(e) && deviceOwners == old(deviceOwners)
              case Ok(l) => r == Ok(ListResult(ObjectIDs(l.records), l.next))
                            && deviceOwners == RecordAll(old(deviceOwners), l.records)
    {
      hide ListsComputer, ListsMobile, ParseDevicePageToken, HasMorePages, RecordAll;
      if token == Corrupt {
        return Err(BadToken);
      }
      var bag := new Bag(Unmarshal(token).value);
      if bag.current.None? {
        bag.Push(StartOfPhase(PHASE_COMPUTER));
      }
      var pageSize := if size <= 0 then DEFAULT_PAGE_SIZE else size;
      var current := bag.current.value;
      var (page, seen) := ParseDevicePageToken(current.token);
      ghost var atEntry := bag.View();
      var resources: seq<string>;
      ghost var records: seq<Listed>;
      ghost var more: bool;
      ghost var got: Int;
      if current.phase == PHASE_COMPUTER {
        var resp := api.computers(page, pageSize);
        if resp.Err? {
          return Err(resp.error);
        }
        resources, records := ListComputers(resp.value.results);
        ComputersDetermine(records, resp.value.results);
        got := |records|;
        if HasMorePages(seen, pageSize, resp.value.totalCount, |resp.value.results|) {
          var _ := bag.Next(NewDevicePageToken(Add(page, 1), Add(seen, |resp.value.results|)));
          more := true;
        } else {
          var _ := bag.Pop();
          bag.Push(StartOfPhase(PHASE_MOBILE));
          more := false;
        }
      } else if current.phase == PHASE_MOBILE {
        var resp := api.mobiles(page, pageSize);
        if resp.Err? {
          return Err(resp.error);
        }
        resources, records := ListMobiles(resp.value.results);
        MobilesDetermine(records, resp.value.results);
        got := |records|;
        if HasMorePages(seen, pageSize, resp.value.totalCount, |resp.value.results|) {
          var _ := bag.Next(NewDevicePageToken(Add(page, 1), Add(seen, |resp.value.results|)));
          more := true;
        } else {
          var _ := bag.Pop();
          more := false;
        }
      } else {
        return Err(UnknownPhase(current.phase));
      }
      assert bag.View() == Advance(atEntry, more, page, seen, got);
      return Ok(ListResult(resources, Marshal(bag.View())));
    }

    function Assignee(objectID: string): Owner
      reads this`deviceOwners
    {
      DeviceAssignee(deviceOwners, objectID)
    }

    method Entitlements(objectID: string) returns (r: seq<Entitlement>)
      ensures r == DeviceEntitlements(objectID, Assignee(objectID))
    {
      var owner := Assignee(objectID);
      if owner.username == "" && owner.email == "" {
        return [];
      }
      return [Entitlement(objectID, ASSIGNED)];
    }

    /** The cached index, built from `users` (what fetching the users would
        give now) when there is none. A failed fetch caches nothing. */
    method GetUserIndex(users: Result<seq<Option<User>>, ListError>) returns (r: Result<map<string, ResourceId>, ListError>)
      modifies this`userIndex
      ensures old(userIndex).Some? ==> r == Ok(old(userIndex).value) && userIndex == old(userIndex)
      ensures old(userIndex).None? && users.Err? ==> r == Err(users.error) && userIndex == None
      ensures old(userIndex).None? && users.Ok? ==>
                r.Ok? && userIndex == Some(r.value) && IsIndexOf(r.value, lower, users.value)
    {
      if userIndex.Some? {
        return Ok(userIndex.value);
      }
      if users.Err? {
        return Err(users.error);
      }
      var idx := BuildUserIndex(lower, users.value);
      userIndex := Some(idx);
      return Ok(idx);
    }

    method Grants(objectID: string, users: Result<seq<Option<User>>, ListError>) returns (r: Result<seq<Grant>, ListError>)
      modifies this`userIndex
      ensures Assignee(objectID) == NO_OWNER ==> r == Ok([]) && userIndex == old(userIndex)
      ensures old(userIndex).Some? ==>
                r == Ok(DeviceGrants(lower, objectID, Assignee(objectID), old(userIndex).value))
                && userIndex == old(userIndex)
      ensures Assignee(objectID) != NO_OWNER && old(userIndex).None? ==>
                match users
                case Err(e) => r == Err(e) && userIndex == None
                case Ok(list) => userIndex.Some? && IsIndexOf(userIndex.value, lower, list)
                                 && r == Ok(DeviceGrants(lower, objectID, Assignee(objectID), userIndex.value))
    {
      var owner := Assignee(objectID);
      if owner.username == "" && owner.email == "" {
        return Ok([]);
      }
      var idx := GetUserIndex(users);
      if idx.Err? {
        return Err(idx.error);
      }
      return Ok(DeviceGrants(lower, objectID, owner, idx.value));
    }
  }

  lemma DriveIs(world: nat -> DeviceApi, size: Int, token: Token, calls: nat, records: seq<Listed>, fuel: nat)
    ensures Drive(ListCalls(world, size), token, calls, records, fuel) ==
            if fuel == 0 then Running
            else
              match ListStep(token, size, world(calls))
              case Err(e) => Failed(calls + 1, e)
              case Ok(l) => if l.next == NoToken then Done(calls + 1, records + l.records)
                            else Drive(ListCalls(world, size), l.next, calls + 1, records + l.records, fuel - 1)
  {
    hide ListStep;
    assert ListCalls(world, size)(token, calls) == ListStep(token, size, world(calls));
  }

  /** The SDK's sync loop over a builder's List, for at most `fuel` calls: it
      ends as Drive says, with the records' resources in order and every owner
      on record. */
  method Sync(b: ManagedDeviceBuilder, world: nat -> DeviceApi, size: Int, fuel: nat)
    returns (resources: seq<string>, ended: bool, ghost o: Outcome)
    modifies b`deviceOwners
    ensures o == Drive(ListCalls(world, size), NoToken, 0, [], fuel) && ended == o.Done?
    ensures o.Done? ==> resources == ObjectIDs(o.records) && b.deviceOwners == RecordAll(old(b.deviceOwners), o.records)
  {
    assert RecordAll(b.deviceOwners, []) == b.deviceOwners && ObjectIDs([]) == [];
    hide ListStep, RecordAll, ObjectIDs, Drive;
    ghost var call := ListCalls(world, size);
    ghost var records: seq<Listed> := [];
    var token := NoToken;
    resources := [];
    for calls := 0 to fuel
      invariant resources == ObjectIDs(records)
      invariant b.deviceOwners == RecordAll(old(b.deviceOwners), records)
      invariant Drive(call, NoToken, 0, [], fuel) == Drive(call, token, calls, records, fuel - calls)
    {
      DriveIs(world, size, token, calls, records, fuel - calls);
      var r := b.List(token, size, world(calls));
      if r.Err? {
        return resources, false, Failed(calls + 1, r.error);
      }
      ghost var listed := ListStep(token, size, world(calls)).value.records;
      RecordAllConcat(old(b.deviceOwners), records, listed);
      ObjectIDsConcat(records, listed);
      records := records + listed;
      resources := resources + r.value.resources;
      token := r.value.next;
      if token == NoToken {
        return resources, true, Done(calls + 1, records);
      }
    }
    DriveIs(world, size, token, fuel, records, 0);
    return resources, false, Running;
  }

  // ---- What a whole sync grants ----

  ghost predicate UniqueIDs(s: Setting) {
    (forall i, j :: 0 <= i < j < |s.computers| ==> s.computers[i].id != s.computers[j].id)
    && (forall i, j :: 0 <= i < j < |s.mobiles| ==> s.mobiles[i].id != s.mobiles[j].id)
  }

  /** Computers and mobile devices never share a resource id, even when Jamf
      numbers them alike. */
  lemma ObjectIDsAreUnique(s: Setting)
    requires UniqueIDs(s)
    ensures forall i, j :: 0 <= i < j < |AllDevices(s)| ==> AllDevices(s)[i].objectID != AllDevices(s)[j].objectID
  {
    var all, n := AllDevices(s), |s.computers|;
    forall i, j | 0 <= i < j < |all|
      ensures all[i].objectID != all[j].objectID
    {
      var (p, a) := if i < n then (PHASE_COMPUTER, s.computers[i].id) else (PHASE_MOBILE, s.mobiles[i - n].id);
      var (q, b) := if j < n then (PHASE_COMPUTER, s.computers[j].id) else (PHASE_MOBILE, s.mobiles[j - n].id);
      assert all[i].objectID == DeviceObjectID(p, a) && all[j].objectID == DeviceObjectID(q, b);
      if all[i].objectID == all[j].objectID {
        DeviceObjectIDInjective(p, a, q, b);
        assert false;
      }
    }
  }

  /** The grant a device with an owner must get: to the user a plain scan finds
      by username and then e-mail, otherwise an external match on the trimmed
      e-mail, or on the trimmed username when that is blank. */
  ghost predicate GrantsOwner(
    g: Grant, id: string, username: string, email: string, lower: char -> char, users: seq<Option<User>>)
  {
    g.objectID == id && g.slug == "assigned"
    && match ScanUsers(lower, users, username, email)
       case Some(rid) => g.principal == rid && g.external == None
       case None =>
         var byEmail := !AllSpace(email);
         var value := TrimSpace(if byEmail then email else username);
         && g.external == Some(ExternalMatch(if byEmail then "email" else "username", value))
         && g.principal == ResourceId("user", value)
         && (value == "" <==> AllSpace(email) && AllSpace(username))
  }

  lemma DeviceGrantsAreRight(
    id: string, username: string, email: string, lower: char -> char, users: seq<Option<User>>, idx: map<string, ResourceId>)
    requires IsIndexOf(idx, lower, users)
    ensures var grants := DeviceGrants(lower, id, Owner(username, email), idx);
            if username == "" && email == "" then grants == []
            else |grants| == 1 && GrantsOwner(grants[0], id, username, email, lower, users)
  {
    ResolveUserIsScan(lower, idx, users, username, email);
    TrimSpaceEmpty(email);
    TrimSpaceEmpty(username);
    hide TrimSpace, AllSpace, ResolveUser, ScanUsers;
  }

  /** A device's resource, entitlements and grants once its sync is over, from
      its id and its owner's two fields: one entitlement and one right grant
      for an owner, neither without one. */
  ghost predicate DeviceEndsWith(
    resource: string, entitlements: seq<Entitlement>, grants: seq<Grant>,
    id: string, username: string, email: string, lower: char -> char, users: seq<Option<User>>)
  {
    resource == id
    && if username == "" && email == "" then entitlements == [] && grants == []
       else entitlements == [Entitlement(id, "assigned")]
            && |grants| == 1 && GrantsOwner(grants[0], id, username, email, lower, users)
  }

  /** The same of a whole inventory, in its own fields: computers by the
      username and whichever e-mail of their location, then mobile devices by
      their username. */
  ghost predicate InventoryEndsWith(
    computers: seq<Computer>, mobiles: seq<MobileDevice>,
    resources: seq<string>, entitlements: seq<seq<Entitlement>>, grants: seq<seq<Grant>>,
    lower: char -> char, users: seq<Option<User>>)
  {
    var n := |computers|;
    && |resources| == |entitlements| == |grants| == n + |mobiles|
    && (forall i :: 0 <= i < n ==>
          match computers[i].userAndLocation
          case None =>
            DeviceEndsWith(resources[i], entitlements[i], grants[i], "computer:" + computers[i].id, "", "", lower, users)
          case Some(u) =>
            DeviceEndsWith(resources[i], entitlements[i], grants[i], "computer:" + computers[i].id,
                           u.username, if u.email != "" then u.email else u.emailAddress, lower, users))
    && (forall i :: 0 <= i < |mobiles| ==>
          DeviceEndsWith(resources[n + i], entitlements[n + i], grants[n + i], "mobile:" + mobiles[i].id,
                         mobiles[i].username, "", lower, users))
  }

  ghost predicate ListedEndsWith(
    d: Listed, resource: string, entitlements: seq<Entitlement>, grants: seq<Grant>,
    lower: char -> char, users: seq<Option<User>>)
  {
    DeviceEndsWith(resource, entitlements, grants, d.objectID, d.owner.username, d.owner.email, lower, users)
  }

  lemma InventoryEndsAsListed(
    s: Setting, resources: seq<string>, entitlements: seq<seq<Entitlement>>, grants: seq<seq<Grant>>,
    lower: char -> char, users: seq<Option<User>>)
    requires |resources| == |entitlements| == |grants| == |AllDevices(s)|
    requires forall i :: 0 <= i < |AllDevices(s)| ==>
               ListedEndsWith(AllDevices(s)[i], resources[i], entitlements[i], grants[i], lower, users)
    ensures InventoryEndsWith(s.computers, s.mobiles, resources, entitlements, grants, lower, users)
  {
    AllDevicesAre(s);
    hide AllDevices, DeviceEndsWith;
    forall i | 0 <= i < |s.mobiles|
      ensures ListsMobile(AllDevices(s)[|s.computers| + i], s.mobiles[i])
    {
    }
  }

  /** The entitlements and grants of every resource, from the owners on record. */
  function EntitlementsOf(owners: Owners, resources: seq<string>): seq<seq<Entitlement>> {
    Map((id: string) => DeviceEntitlements(id, DeviceAssignee(owners, id)), resources)
  }

  function GrantsOf(
    lower: char -> char, owners: Owners, idx: map<string, ResourceId>, resources: seq<string>): seq<seq<Grant>>
  {
    Map((id: string) => DeviceGrants(lower, id, DeviceAssignee(owners, id), idx), resources)
  }

  /** After a whole sync of a fresh builder, every device that names an owner has
      exactly one entitlement and one grant, to the right principal, and every
      other device has neither. */
  lemma WholeSyncGrants(
    s: Setting, fuel: nat, lower: char -> char, users: seq<Option<User>>, idx: map<string, ResourceId>)
    requires s.Stable() && s.Eff() >= 1 && (s.totals || s.cap >= PageSize(s.size)) && UniqueIDs(s)
    ensures var o := Drive(ListCalls(s.world, s.size), NoToken, 0, [], fuel);
            fuel >= SyncCalls(s) ==>
            && o.Done?
            && var owners, resources := RecordAll(map[], o.records), ObjectIDs(o.records);
               (IsIndexOf(idx, lower, users) ==>
                  InventoryEndsWith(s.computers, s.mobiles, resources,
                                    EntitlementsOf(owners, resources), GrantsOf(lower, owners, idx, resources), lower, users))
  {
    hide Drive, ListStep, SyncCalls, AllDevices, InventoryEndsWith, DeviceGrants, GrantsOwner, RecordAll;
    SyncDeliversEveryDevice(s, fuel);
    ObjectIDsAreUnique(s);
    var devices := AllDevices(s);
    var owners, resources := RecordAll(map[], devices), ObjectIDs(devices);
    if IsIndexOf(idx, lower, users) {
      forall i | 0 <= i < |devices|
        ensures ListedEndsWith(devices[i], resources[i], EntitlementsOf(owners, resources)[i],
                               GrantsOf(lower, owners, idx, resources)[i], lower, users)
      {
        AssigneeOfUniqueRecord(devices, i);
        DeviceGrantsAreRight(devices[i].objectID, devices[i].owner.username, devices[i].owner.email, lower, users, idx);
      }
      InventoryEndsAsListed(s, resources, EntitlementsOf(owners, resources), GrantsOf(lower, owners, idx, resources), lower, users);
    }
  }

  /** An owner of white space only gets an external match with an empty value. */
  lemma BlankOwnerGetsEmptyMatch(lower: char -> char)
    ensures DeviceGrants(lower, "computer:1", Owner(" ", ""), map[]) ==
            [Grant("computer:1", "assigned", ResourceId("user", ""), Some(ExternalMatch("username", "")))]
  {
    TrimSpaceEmpty(" ");
    TrimSpaceEmpty("");
    hide TrimSpace;
  }

  /** A whole sync and then the entitlements and grants of every resource it
      returned, on a fresh builder: every computer and every mobile device ends
      with exactly those its own fields ask for. `users` is what fetching the
      users gives. */
  method SyncAndGrant(lower: char -> char, s: Setting, fuel: nat, users: seq<Option<User>>)
    returns (resources: seq<string>, entitlements: seq<seq<Entitlement>>, grants: seq<seq<Grant>>)
    requires s.Stable() && s.Eff() >= 1 && (s.totals || s.cap >= PageSize(s.size)) && UniqueIDs(s) && fuel >= SyncCalls(s)
    ensures InventoryEndsWith(s.computers, s.mobiles, resources, entitlements, grants, lower, users)
  {
    hide Drive, ListStep, SyncCalls, AllDevices, DeviceGrants, GrantsOwner, InventoryEndsWith;
    ghost var devices := AllDevices(s);
    SyncDeliversEveryDevice(s, fuel);
    ObjectIDsAreUnique(s);
    var b := new ManagedDeviceBuilder(lower);
    var ended;
    ghost var o;
    resources, ended, o := Sync(b, s.world, s.size, fuel);
    entitlements, grants := [], [];
    for i := 0 to |resources|
      invariant b.deviceOwners == RecordAll(map[], devices) && b.lower == lower
      invariant b.userIndex.Some? ==> IsIndexOf(b.userIndex.value, lower, users)
      invariant |entitlements| == |grants| == i
      invariant forall j :: 0 <= j < i ==>
        ListedEndsWith(devices[j], resources[j], entitlements[j], grants[j], lower, users)
    {
      AssigneeOfUniqueRecord(devices, i);
      var e := b.Entitlements(resources[i]);
      var g := b.Grants(resources[i], Ok(users));
      if b.userIndex.Some? {
        DeviceGrantsAreRight(
          devices[i].objectID, devices[i].owner.username, devices[i].owner.email, lower, users, b.userIndex.value);
      }
      entitlements, grants := entitlements + [e], grants + [g.value];
    }
    InventoryEndsAsListed(s, resources, entitlements, grants, lower, users);
  }
}
