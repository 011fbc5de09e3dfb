/** From an account-creation profile to role grants (pkg/connector/helpers.go,
    pkg/connector/userAccount.go, pkg/connector/role.go). */
module Roles {
  import opened Wrappers
  import opened GoInt
  import opened Models
  import opened EntityStore
  import opened Server
  import opened Xml
  import C = JamfClient

  // ---- The profile ----

  /** A profile field as decoded from JSON; Other is a number, a boolean, null
      or an object. */
  datatype Value = Str(s: string) | List(items: seq<Value>) | Other

  type Profile = map<string, Value>

  function NonEmptyStrings(items: seq<Value>): seq<string> {
    if items == [] then []
    else
      var last := items[|items| - 1];
      NonEmptyStrings(items[..|items| - 1]) + if last.Str? && last.s != "" then [last.s] else []
  }

  function ProfileList(profile: Profile, key: string): seq<string> {
    if key in profile && profile[key].List? then NonEmptyStrings(profile[key].items) else []
  }

  method StringSliceFromProfile(profile: Profile, key: string) returns (out: seq<string>)
    ensures out == ProfileList(profile, key)
  {
    if key !in profile || !profile[key].List? {
      return [];
    }
    var raw := profile[key].items;
    out := [];
    for i := 0 to |raw|
      invariant out == NonEmptyStrings(raw[..i])
    {
      assert raw[..i + 1][..i] == raw[..i];
      if raw[i].Str? && raw[i].s != "" {
        out := out + [raw[i].s];
      }
    }
    assert raw[..|raw|] == raw;
  }

  /** A name is kept exactly when it is a non-empty string entry. */
  lemma {:induction false} NonEmptyStringsAre(items: seq<Value>, p: string)
    ensures p in NonEmptyStrings(items) <==> p != "" && Str(p) in items
  {
    if items != [] {
      NonEmptyStringsAre(items[..|items| - 1], p);
      assert items == items[..|items| - 1] + [items[|items| - 1]];
    }
  }

  function StringField(profile: Profile, key: string): string {
    if key in profile && profile[key].Str? then profile[key].s else ""
  }

  // ---- Privileges ----

  const PRIVILEGE_SET_CUSTOM := "Custom"
  const DEFAULT_PRIVILEGE_SET := "Auditor"
  const PRIVILEGE_SETS := ["Administrator", "Auditor", "Enrollment Only"]
  const KNOWN_PRIVILEGE_SETS := PRIVILEGE_SETS + [PRIVILEGE_SET_CUSTOM]

  const PRIVILEGE_FIELDS := [
    "privileges_jss_objects", "privileges_jss_settings", "privileges_jss_actions", "privileges_recon",
    "privileges_casper_admin", "privileges_casper_remote", "privileges_casper_imaging"
  ]

  function ProvidedPrivileges(profile: Profile): Privileges {
    Privileges(
      ProfileList(profile, PRIVILEGE_FIELDS[0]), ProfileList(profile, PRIVILEGE_FIELDS[1]),
      ProfileList(profile, PRIVILEGE_FIELDS[2]), ProfileList(profile, PRIVILEGE_FIELDS[3]),
      ProfileList(profile, PRIVILEGE_FIELDS[4]), ProfileList(profile, PRIVILEGE_FIELDS[5]),
      ProfileList(profile, PRIVILEGE_FIELDS[6]))
  }

  datatype CreateError = LoginRequired | UnknownPrivilegeSet | NoPrivilegesSet | PrivilegesNotAllowed

  function ResolvePrivileges(profile: Profile, privilegeSet: string): Result<Option<Privileges>, CreateError> {
    var provided := ProvidedPrivileges(profile);
    if privilegeSet == PRIVILEGE_SET_CUSTOM && provided.IsEmpty() then Err(NoPrivilegesSet)
    else if privilegeSet == PRIVILEGE_SET_CUSTOM then Ok(Some(provided))
    else if !provided.IsEmpty() then Err(PrivilegesNotAllowed)
    else Ok(None)
  }

  /** The body CreateAccount posts, or the error it stops with before posting. */
  function CreateBody(login: string, password: string, profile: Profile): Result<UserAccountCreateBody, CreateError> {
    var raw := StringField(profile, "privilege_set");
    var privilegeSet := if raw == "" then DEFAULT_PRIVILEGE_SET else raw;
    if login == "" then Err(LoginRequired)
    else if privilegeSet !in KNOWN_PRIVILEGE_SETS then Err(UnknownPrivilegeSet)
    else
      match ResolvePrivileges(profile, privilegeSet)
      case Err(e) => Err(e)
      case Ok(privileges) =>
        Ok(UserAccountCreateBody(login, password, StringField(profile, "full_name"), StringField(profile, "email"),
                                 "Enabled", "Full Access", privilegeSet, privileges))
  }

  /** A non-empty string entry of a list field. */
  predicate FieldLists(profile: Profile, key: string, p: string) {
    p != "" && key in profile && profile[key].List? && Str(p) in profile[key].items
  }

  /** An entry of one of the seven privilege fields. */
  predicate ListsPrivilege(profile: Profile, p: string) {
    || FieldLists(profile, "privileges_jss_objects", p)
    || FieldLists(profile, "privileges_jss_settings", p)
    || FieldLists(profile, "privileges_jss_actions", p)
    || FieldLists(profile, "privileges_recon", p)
    || FieldLists(profile, "privileges_casper_admin", p)
    || FieldLists(profile, "privileges_casper_remote", p)
    || FieldLists(profile, "privileges_casper_imaging", p)
  }

  lemma ProfileListIs(profile: Profile, key: string, p: string)
    ensures p in ProfileList(profile, key) <==> FieldLists(profile, key, p)
  {
    if key in profile && profile[key].List? {
      NonEmptyStringsAre(profile[key].items, p);
    }
  }

  /** Each category has the entries of its own field. */
  lemma ProvidedPrivilegesAre(profile: Profile, p: string)
    ensures var given := ProvidedPrivileges(profile);
                    && (p in given.jssObjects <==> FieldLists(profile, "privileges_jss_objects", p))
                    && (p in given.jssSettings <==> FieldLists(profile, "privileges_jss_settings", p))
                    && (p in given.jssActions <==> FieldLists(profile, "privileges_jss_actions", p))
                    && (p in given.recon <==> FieldLists(profile, "privileges_recon", p))
                    && (p in given.casperAdmin <==> FieldLists(profile, "privileges_casper_admin", p))
                    && (p in given.casperRemote <==> FieldLists(profile, "privileges_casper_remote", p))
                    && (p in given.casperImaging <==> FieldLists(profile, "privileges_casper_imaging", p))
    ensures ProvidedPrivileges(profile).Contains(p) <==> ListsPrivilege(profile, p)
  {
    hide ProfileList, FieldLists;
    forall key: string
      ensures p in ProfileList(profile, key) <==> FieldLists(profile, key, p)
    {
      ProfileListIs(profile, key, p);
    }
  }

  /** Which profiles CreateAccount accepts, and what it says of the others: a
      login, a known privilege set or none, and privileges listed exactly for
      Custom. */
  lemma CreateBodyAcceptsExactly(login: string, password: string, profile: Profile)
    ensures var raw := if "privilege_set" in profile && profile["privilege_set"].Str? then profile["privilege_set"].s else "";
            var r := CreateBody(login, password, profile);
            if login == "" then r == Err(LoginRequired)
            else if raw !in ["", "Administrator", "Auditor", "Enrollment Only", "Custom"] then r == Err(UnknownPrivilegeSet)
            else if exists p :: ListsPrivilege(profile, p) then
              (if raw == "Custom" then r.Ok? else r == Err(PrivilegesNotAllowed))
            else (if raw == "Custom" then r == Err(NoPrivilegesSet) else r.Ok?)
  {
    var provided := ProvidedPrivileges(profile);
    forall p: string
      ensures provided.Contains(p) <==> ListsPrivilege(profile, p)
    {
      ProvidedPrivilegesAre(profile, p);
    }
    hide ListsPrivilege, ProvidedPrivileges;
    assert provided.IsEmpty() <==> !exists p :: ListsPrivilege(profile, p) by {
      if !provided.IsEmpty() {
        var p := AnyPrivilege(provided);
        assert provided.Contains(p);
      }
    }
  }

  /** The body posted for an accepted profile, field by field: an Auditor when
      the profile names no set, and privileges only for Custom, each category
      with the entries of its own field. */
  lemma CreateBodyIs(login: string, password: string, profile: Profile)
    requires CreateBody(login, password, profile).Ok?
    ensures var b := CreateBody(login, password, profile).value;
            && b.name == login && b.password == password
            && b.fullName == (if "full_name" in profile && profile["full_name"].Str? then profile["full_name"].s else "")
            && b.email == (if "email" in profile && profile["email"].Str? then profile["email"].s else "")
            && b.enabled == "Enabled" && b.accessLevel == "Full Access"
            && b.privilegeSet == (if "privilege_set" in profile && profile["privilege_set"].Str? && profile["privilege_set"].s != ""
                                  then profile["privilege_set"].s else "Auditor")
            && (b.privileges.Some? <==> b.privilegeSet == "Custom")
            && (b.privileges.Some? ==>
                  var given := b.privileges.value;
                  forall p: string ::
                    && (p in given.jssObjects <==> FieldLists(profile, "privileges_jss_objects", p))
                    && (p in given.jssSettings <==> FieldLists(profile, "privileges_jss_settings", p))
                    && (p in given.jssActions <==> FieldLists(profile, "privileges_jss_actions", p))
                    && (p in given.recon <==> FieldLists(profile, "privileges_recon", p))
                    && (p in given.casperAdmin <==> FieldLists(profile, "privileges_casper_admin", p))
                    && (p in given.casperRemote <==> FieldLists(profile, "privileges_casper_remote", p))
                    && (p in given.casperImaging <==> FieldLists(profile, "privileges_casper_imaging", p)))
  {
    forall p: string
      ensures var given := ProvidedPrivileges(profile);
                    && (p in given.jssObjects <==> FieldLists(profile, "privileges_jss_objects", p))
                    && (p in given.jssSettings <==> FieldLists(profile, "privileges_jss_settings", p))
                    && (p in given.jssActions <==> FieldLists(profile, "privileges_jss_actions", p))
                    && (p in given.recon <==> FieldLists(profile, "privileges_recon", p))
                    && (p in given.casperAdmin <==> FieldLists(profile, "privileges_casper_admin", p))
                    && (p in given.casperRemote <==> FieldLists(profile, "privileges_casper_remote", p))
                    && (p in given.casperImaging <==> FieldLists(profile, "privileges_casper_imaging", p))
    {
      ProvidedPrivilegesAre(profile, p);
    }
    hide ProvidedPrivileges, FieldLists;
  }

  lemma AnyPrivilege(p: Privileges) returns (name: string)
    requires !p.IsEmpty()
    ensures p.Contains(name)
  {
    name := if p.jssObjects != [] then p.jssObjects[0]
            else if p.jssSettings != [] then p.jssSettings[0]
            else if p.jssActions != [] then p.jssActions[0]
            else if p.recon != [] then p.recon[0]
            else if p.casperAdmin != [] then p.casperAdmin[0]
            else if p.casperRemote != [] then p.casperRemote[0]
            else p.casperImaging[0];
  }

  // ---- Reading accounts back ----

  /** What others have done to the store by request k of a listing, ops(k) being
      what they do after it: request 0 is the list, request i + 1 fetches the
      i-th record. */
  function DoneBy<B>(ops: nat -> seq<Op<B>>, k: nat): seq<Op<B>> {
    if k == 0 then [] else DoneBy(ops, k - 1) + ops(k - 1)
  }

  lemma {:induction false} DoneByIs<B(!new)>(ops: nat -> seq<Op<B>>, k: nat, op: Op<B>)
    ensures op in DoneBy(ops, k) <==> exists j: nat :: j < k && op in ops(j)
  {
    if k > 0 {
      DoneByIs(ops, k - 1, op);
    }
  }

  /** GetAccounts and GetUsers: the list, then each record by its id, while
      others go on changing the store between the requests. It succeeds exactly
      when no listed record is deleted before it is fetched, and then returns
      the records as listed. */
  method GetAll<B(!new)>(s: Store<B>, ops: nat -> seq<Op<B>>) returns (r: Result<seq<Record<B>>, C.Code>)
    requires Valid(s)
    ensures r.Ok? <==> forall i: nat, j: nat :: j <= i < |s.list| ==> Delete(s.list[i].id) !in ops(j)
    ensures r == if r.Ok? then Ok(s.list) else Err(C.NotFound)
  {
    hide DoneBy, Run;
    var records: seq<Record<B>> := [];
    for i := 0 to |s.list|
      invariant records == s.list[..i]
      invariant forall k: nat, j: nat :: j <= k < i ==> Delete(s.list[k].id) !in ops(j)
    {
      var id := s.list[i].id;
      DoneByIs(ops, i + 1, Delete(id));
      var now := Run(s, DoneBy(ops, i + 1));
      RecordStaysUnlessDeleted(s, DoneBy(ops, i + 1), id);
      if id !in now.byID {
        return Err(C.NotFound);
      }
      records := records + [now.byID[id]];
    }
    assert s.list[..|s.list|] == s.list;
    return Ok(records);
  }

  // ---- Role grants ----

  predicate MatchesIndividualPrivilege(privilegeSet: string, privileges: Privileges, p: string) {
    privilegeSet == PRIVILEGE_SET_CUSTOM && privileges.Contains(p)
  }

  /** Whether a holder of a privilege set and privileges is granted a role. */
  predicate HoldsRole(role: string, privilegeSet: string, privileges: Privileges) {
    (role !in PRIVILEGE_SETS && MatchesIndividualPrivilege(privilegeSet, privileges, role)) || privilegeSet == role
  }

  /** Privilege set and privileges of an account and of a group. */
  function AccountAccess(a: AccountInfo): (string, Privileges) {
    (a.privilegeSet, a.privileges)
  }

  function GroupAccess(g: GroupInfo): (string, Privileges) {
    (g.privilegeSet, g.privileges)
  }

  /** The holders of a role among some records, in order. */
  function Holders<B>(
    role: string, kind: string, access: B -> (string, Privileges), records: seq<Record<B>>): seq<ResourceId>
  {
    if records == [] then []
    else
      var last := records[|records| - 1];
      Holders(role, kind, access, records[..|records| - 1])
      + if HoldsRole(role, access(last.info).0, access(last.info).1) then [ResourceId(kind, Itoa(last.id))] else []
  }

  /** The principals a role is granted to: groups, then accounts. */
  function GrantedTo(role: string, accounts: seq<UserAccount>, groups: seq<Group>): seq<ResourceId> {
    Holders(role, TYPE_GROUP, GroupAccess, groups) + Holders(role, TYPE_USER_ACCOUNT, AccountAccess, accounts)
  }

  method RoleGrants(role: string, accounts: seq<UserAccount>, groups: seq<Group>) returns (rv: seq<ResourceId>)
    ensures rv == GrantedTo(role, accounts, groups)
  {
    rv := [];
    var isCustomPrivilege := role !in PRIVILEGE_SETS;
    for i := 0 to |groups|
      invariant rv == Holders(role, TYPE_GROUP, GroupAccess, groups[..i])
    {
      assert groups[..i + 1][..i] == groups[..i];
      var g := groups[i];
      if isCustomPrivilege && MatchesIndividualPrivilege(g.info.privilegeSet, g.info.privileges, role) {
        rv := rv + [ResourceId(TYPE_GROUP, Itoa(g.id))];
        continue;
      }
      if g.info.privilegeSet == role {
        rv := rv + [ResourceId(TYPE_GROUP, Itoa(g.id))];
      }
    }
    assert groups[..|groups|] == groups;
    ghost var granted := rv;
    for i := 0 to |accounts|
      invariant rv == granted + Holders(role, TYPE_USER_ACCOUNT, AccountAccess, accounts[..i])
    {
      assert accounts[..i + 1][..i] == accounts[..i];
      var a := accounts[i];
      if isCustomPrivilege && MatchesIndividualPrivilege(a.info.privilegeSet, a.info.privileges, role) {
        rv := rv + [ResourceId(TYPE_USER_ACCOUNT, Itoa(a.id))];
        continue;
      }
      if a.info.privilegeSet == role {
        rv := rv + [ResourceId(TYPE_USER_ACCOUNT, Itoa(a.id))];
      }
    }
    assert accounts[..|accounts|] == accounts;
  }

  ghost predicate DistinctIDs<B>(records: seq<Record<B>>) {
    forall i, j :: 0 <= i < j < |records| ==> records[i].id != records[j].id
  }

  lemma {:induction false} HoldersOfOtherKind<B>(
    role: string, kind: string, access: B -> (string, Privileges), records: seq<Record<B>>, other: ResourceId)
    requires other.resourceType != kind
    ensures multiset(Holders(role, kind, access, records))[other] == 0
  {
    if records != [] {
      HoldersOfOtherKind(role, kind, access, records[..|records| - 1], other);
    }
  }

  lemma {:induction false} HoldersCount<B>(
    role: string, kind: string, access: B -> (string, Privileges), records: seq<Record<B>>, r: Record<B>)
    requires DistinctIDs(records)
    requires forall i :: 0 <= i < |records| && records[i].id == r.id ==> records[i] == r
    ensures multiset(Holders(role, kind, access, records))[ResourceId(kind, Itoa(r.id))] ==
            if r in records && HoldsRole(role, access(r.info).0, access(r.info).1) then 1 else 0
  {
    if records != [] {
      var n := |records| - 1;
      HoldersCount(role, kind, access, records[..n], r);
      assert records == records[..n] + [records[n]];
      if Itoa(records[n].id) == Itoa(r.id) {
        ItoaInjective(records[n].id, r.id);
      }
      hide Itoa, HoldsRole;
    }
  }

  /** Who holds a role: whoever has it as privilege set, and for a role that is
      not a built-in set, a Custom holder that lists it in some category. */
  lemma HoldsRoleIs(role: string, privilegeSet: string, privileges: Privileges)
    ensures HoldsRole(role, privilegeSet, privileges) <==>
            privilegeSet == role
            || (privilegeSet == "Custom" && role !in ["Administrator", "Auditor", "Enrollment Only"]
                && (role in privileges.jssObjects || role in privileges.jssSettings || role in privileges.jssActions
                    || role in privileges.recon || role in privileges.casperAdmin || role in privileges.casperRemote
                    || role in privileges.casperImaging))
  {
  }

  /** Among accounts with distinct ids, each is granted a role once when its
      privilege set is the role, or it is Custom, the role is no built-in set and
      one of its seven lists holds it; and never otherwise. The same of groups,
      and an account and a group of the same id are not mistaken for each other. */
  lemma HoldersAreGrantedOnce(role: string, accounts: seq<UserAccount>, groups: seq<Group>, i: nat)
    ensures DistinctIDs(accounts) && i < |accounts| ==>
              var a := accounts[i].info;
              multiset(GrantedTo(role, accounts, groups))[ResourceId("userAccount", Itoa(accounts[i].id))] ==
              if a.privilegeSet == role
                 || (a.privilegeSet == "Custom" && role !in ["Administrator", "Auditor", "Enrollment Only"]
                     && (role in a.privileges.jssObjects || role in a.privileges.jssSettings
                         || role in a.privileges.jssActions || role in a.privileges.recon
                         || role in a.privileges.casperAdmin || role in a.privileges.casperRemote
                         || role in a.privileges.casperImaging))
              then 1 else 0
    ensures DistinctIDs(groups) && i < |groups| ==>
              var g := groups[i].info;
              multiset(GrantedTo(role, accounts, groups))[ResourceId("group", Itoa(groups[i].id))] ==
              if g.privilegeSet == role
                 || (g.privilegeSet == "Custom" && role !in ["Administrator", "Auditor", "Enrollment Only"]
                     && (role in g.privileges.jssObjects || role in g.privileges.jssSettings
                         || role in g.privileges.jssActions || role in g.privileges.recon
                         || role in g.privileges.casperAdmin || role in g.privileges.casperRemote
                         || role in g.privileges.casperImaging))
              then 1 else 0
  {
    hide HoldsRole, GrantedTo, Itoa;
    if DistinctIDs(accounts) && i < |accounts| {
      AccountIsGrantedOnce(role, accounts, groups, i);
      HoldsRoleIs(role, accounts[i].info.privilegeSet, accounts[i].info.privileges);
    }
    if DistinctIDs(groups) && i < |groups| {
      GroupIsGrantedOnce(role, accounts, groups, i);
      HoldsRoleIs(role, groups[i].info.privilegeSet, groups[i].info.privileges);
    }
  }

  lemma AccountIsGrantedOnce(role: string, accounts: seq<UserAccount>, groups: seq<Group>, i: nat)
    requires DistinctIDs(accounts) && i < |accounts|
    ensures multiset(GrantedTo(role, accounts, groups))[ResourceId("userAccount", Itoa(accounts[i].id))] ==
            if HoldsRole(role, accounts[i].info.privilegeSet, accounts[i].info.privileges) then 1 else 0
  {
    hide HoldsRole, Holders, Itoa;
    assert TYPE_GROUP[0] != TYPE_USER_ACCOUNT[0];
    HoldersCount(role, TYPE_USER_ACCOUNT, AccountAccess, accounts, accounts[i]);
    HoldersOfOtherKind(role, TYPE_GROUP, GroupAccess, groups, ResourceId(TYPE_USER_ACCOUNT, Itoa(accounts[i].id)));
  }

  lemma GroupIsGrantedOnce(role: string, accounts: seq<UserAccount>, groups: seq<Group>, i: nat)
    requires DistinctIDs(groups) && i < |groups|
    ensures multiset(GrantedTo(role, accounts, groups))[ResourceId("group", Itoa(groups[i].id))] ==
            if HoldsRole(role, groups[i].info.privilegeSet, groups[i].info.privileges) then 1 else 0
  {
    hide HoldsRole, Holders, Itoa;
    assert TYPE_GROUP[0] != TYPE_USER_ACCOUNT[0];
    HoldersCount(role, TYPE_GROUP, GroupAccess, groups, groups[i]);
    HoldersOfOtherKind(role, TYPE_USER_ACCOUNT, AccountAccess, accounts, ResourceId(TYPE_GROUP, Itoa(groups[i].id)));
  }

  // ---- End to end ----

  /** Every account created through CreateAccount on a free name, the body read
      back from its XML by the server, is stored under the next id with the
      profile's strings; it is still there after any operations that do not
      delete it, and when read back is granted a role exactly once or not at all:
      a Custom account an individual role exactly when the profile lists it, and
      never a built-in one; any other account exactly the role of its privilege
      set, which is Auditor when the profile names none. */
  lemma CreatedAccountIsGrantedItsProfile(
    login: string, password: string, profile: Profile, s: Store<AccountInfo>, ops: seq<Op<AccountInfo>>,
    groups: seq<Group>, role: string)
    requires CreateBody(login, password, profile).Ok? && password != ""
    requires Valid(s) && FindByName(s.list, login).None? && Delete(s.nextID + 1) !in ops
    ensures var sent := AccountTokens(CreateBody(login, password, profile).value);
            var (t, reply) := HandleByID(true, s, "0", Checked(POST(DecodeAccount(sent)), AccountBody));
            var after := Run(t, ops);
            && reply == Created(s.nextID + 1)
            && FindByName(after.list, login).Some?
            && var a := FindByName(after.list, login).value;
               var named := if "privilege_set" in profile && profile["privilege_set"].Str? then profile["privilege_set"].s else "";
               var chosen := if named == "" then "Auditor" else named;
               && a.id == s.nextID + 1 && a.name == login
               && a.info.fullName == (if "full_name" in profile && profile["full_name"].Str? then profile["full_name"].s else "")
               && a.info.email == (if "email" in profile && profile["email"].Str? then profile["email"].s else "")
               && a.info.enabled == "Enabled" && a.info.accessLevel == "Full Access" && a.info.privilegeSet == chosen
               && multiset(GrantedTo(role, after.list, groups))[ResourceId("userAccount", Itoa(s.nextID + 1))] ==
                  (if chosen == "Custom" && role != "Custom"
                   then (if role !in ["Administrator", "Auditor", "Enrollment Only"] && ListsPrivilege(profile, role) then 1 else 0)
                   else (if role == chosen then 1 else 0))
  {
    hide *;
    BodyIsStored(login, password, profile, s);
    StoredIs(login, password, profile, role);
    CreatedIsGrantedOnce(login, AccountBody(CreateBody(login, password, profile).value).info, s, ops, groups, role);
  }

  lemma PostIsStored<B>(s: Store<B>, body: Body<B>)
    requires body.acceptable && FindByName(s.list, body.name).None?
    ensures HandleByID(true, s, "0", POST(Some(body))) == (Apply(s, Post(body.name, body.info)), Created(s.nextID + 1))
  {
    AtoiOfItoa(0);
    assert Itoa(0) == "0";
    hide Atoi, Itoa, FindByName;
  }

  lemma BodyIsStored(login: string, password: string, profile: Profile, s: Store<AccountInfo>)
    requires CreateBody(login, password, profile).Ok? && password != "" && FindByName(s.list, login).None?
    ensures var body := CreateBody(login, password, profile).value;
            HandleByID(true, s, "0", Checked(POST(DecodeAccount(AccountTokens(body))), AccountBody)) ==
            (Apply(s, Post(login, AccountBody(body).info)), Created(s.nextID + 1))
  {
    hide AccountTokens, DecodeAccount, CreateBody, AccountBody, FindByName, HandleByID, Apply;
    AccountRoundTrip(CreateBody(login, password, profile).value);
    BodyIsAcceptable(login, password, profile);
    PostIsStored(s, AccountBody(CreateBody(login, password, profile).value));
  }

  lemma CreatedIsGrantedOnce(
    login: string, info: AccountInfo, s: Store<AccountInfo>, ops: seq<Op<AccountInfo>>, groups: seq<Group>, role: string)
    requires Valid(s) && FindByName(s.list, login).None? && Delete(s.nextID + 1) !in ops
    ensures var created := Record(s.nextID + 1, login, info);
            var after := Run(Apply(s, Post(login, info)), ops);
            && FindByName(after.list, login) == Some(created)
            && multiset(GrantedTo(role, after.list, groups))[ResourceId("userAccount", Itoa(s.nextID + 1))] ==
               if HoldsRole(role, info.privilegeSet, info.privileges) then 1 else 0
  {
    hide HoldsRole, GrantedTo, Itoa, Run;
    FetchedRecordIsCreatedOneExactlyWhen(s, login, info, ops);
    ApplyKeepsValid(s, Post(login, info));
    RunKeepsValid(Apply(s, Post(login, info)), ops);
    var created := Record(s.nextID + 1, login, info);
    var after := Run(Apply(s, Post(login, info)), ops);
    FindByNameIs(after, created);
    assert created in after.list;
    var i :| 0 <= i < |after.list| && after.list[i] == created;
    AccountIsGrantedOnce(role, after.list, groups, i);
  }

  lemma BodyIsAcceptable(login: string, password: string, profile: Profile)
    requires CreateBody(login, password, profile).Ok? && password != ""
    ensures var b := CreateBody(login, password, profile).value;
            AccountBody(b).acceptable && AccountBody(b).name == login
  {
    var b := CreateBody(login, password, profile).value;
    assert b.privilegeSet in KNOWN_PRIVILEGE_SETS;
    assert KNOWN_PRIVILEGE_SETS == VALID_PRIVILEGE_SETS;
    assert "Full Access" == VALID_ACCESS_LEVELS[0] && "Enabled" == VALID_ENABLED_VALUES[0];
  }

  /** What is stored of a body, in terms of the profile, and the roles it holds. */
  lemma StoredIs(login: string, password: string, profile: Profile, role: string)
    requires CreateBody(login, password, profile).Ok?
    ensures var info := AccountBody(CreateBody(login, password, profile).value).info;
            var named := if "privilege_set" in profile && profile["privilege_set"].Str? then profile["privilege_set"].s else "";
            var chosen := if named == "" then "Auditor" else named;
            && info.fullName == (if "full_name" in profile && profile["full_name"].Str? then profile["full_name"].s else "")
            && info.email == (if "email" in profile && profile["email"].Str? then profile["email"].s else "")
            && info.enabled == "Enabled" && info.accessLevel == "Full Access" && info.privilegeSet == chosen
            && (HoldsRole(role, info.privilegeSet, info.privileges) <==>
                if chosen == "Custom" && role != "Custom"
                then role !in ["Administrator", "Auditor", "Enrollment Only"] && ListsPrivilege(profile, role)
                else role == chosen)
  {
    CreateBodyIs(login, password, profile);
    HoldsRoleIs(role, AccountBody(CreateBody(login, password, profile).value).info.privilegeSet,
                AccountBody(CreateBody(login, password, profile).value).info.privileges);
    hide CreateBody, HoldsRole, FieldLists;
  }

  /** A role that is itself named "Custom" goes to a Custom account that does
      not list it. */
  lemma RoleNamedCustomGoesToCustomAccounts()
    ensures var p := Privileges([], [], [], ["Read User"], [], [], []);
            var a := Record(7, "ann", AccountInfo("", "", "Enabled", "Full Access", "Custom", p, BaseType(0, "")));
            GrantedTo("Custom", [a], []) == [ResourceId("userAccount", Itoa(7))] && "Custom" !in p.recon
  {
    hide Itoa;
    assert "Custom"[0] != "Read User"[0];
    var p := Privileges([], [], [], ["Read User"], [], [], []);
    var a := Record(7, "ann", AccountInfo("", "", "Enabled", "Full Access", "Custom", p, BaseType(0, "")));
    assert [a][..0] == [];
  }
}
