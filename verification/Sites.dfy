/** Site membership collected from four sources (pkg/connector/site.go). */
module Sites {
  import opened Wrappers
  import opened GoInt
  import opened Models

  /** One membership reference: a principal and the id of the site it names. */
  datatype Ref = Ref(site: int, principal: ResourceId)

  datatype Inventory = Inventory(users: seq<User>, userGroups: seq<UserGroup>, accounts: seq<UserAccount>, groups: seq<Group>)

  function UserRefs(u: User): seq<Ref> {
    seq(|u.info.sites|, i requires 0 <= i < |u.info.sites| => Ref(u.info.sites[i].id, ResourceId(TYPE_USER, Itoa(u.id))))
  }

  function AllUserRefs(users: seq<User>): seq<Ref> {
    if users == [] then [] else AllUserRefs(users[..|users| - 1]) + UserRefs(users[|users| - 1])
  }

  function UserGroupRef(g: UserGroup): Ref {
    Ref(g.info.site.id, ResourceId(TYPE_USER_GROUP, Itoa(g.id)))
  }

  function AccountRef(a: UserAccount): Ref {
    Ref(a.info.site.id, ResourceId(TYPE_USER_ACCOUNT, Itoa(a.id)))
  }

  function GroupRef(g: Group): Ref {
    Ref(g.info.site.id, ResourceId(TYPE_GROUP, Itoa(g.id)))
  }

  /** Every membership reference of an inventory, users' with multiplicity. */
  function Refs(d: Inventory): seq<Ref> {
    AllUserRefs(d.users) + Map(UserGroupRef, d.userGroups) + Map(AccountRef, d.accounts) + Map(GroupRef, d.groups)
  }

  /** The references whose site is printed as `resource`, in order. */
  function RefsOf(refs: seq<Ref>, resource: string): seq<ResourceId> {
    if refs == [] then []
    else
      var last := refs[|refs| - 1];
      RefsOf(refs[..|refs| - 1], resource) + if Itoa(last.site) == resource then [last.principal] else []
  }

  lemma {:induction false} RefsOfConcat(a: seq<Ref>, b: seq<Ref>, resource: string)
    ensures RefsOf(a + b, resource) == RefsOf(a, resource) + RefsOf(b, resource)
  {
    if b == [] {
      assert a + b == a;
    } else {
      assert (a + b)[..|a + b| - 1] == a + b[..|b| - 1];
      RefsOfConcat(a, b[..|b| - 1], resource);
    }
  }

  lemma RefsOfSnoc(refs: seq<Ref>, i: nat, resource: string)
    requires i < |refs|
    ensures RefsOf(refs[..i + 1], resource) ==
            RefsOf(refs[..i], resource) + if Itoa(refs[i].site) == resource then [refs[i].principal] else []
  {
    assert refs[..i + 1][..i] == refs[..i];
  }

  /** Grants of a site: the four loops. */
  method Grants(resource: string, d: Inventory) returns (rv: seq<ResourceId>)
    ensures rv == RefsOf(Refs(d), resource)
  {
    hide RefsOf, Itoa;
    rv := [];
    ghost var users, userGroups, accounts, groups :=
      AllUserRefs(d.users), Map(UserGroupRef, d.userGroups), Map(AccountRef, d.accounts), Map(GroupRef, d.groups);
    rv := UserGrants(resource, d.users);
    var more := MappedGrants(resource, UserGroupRef, d.userGroups);
    rv := rv + more;
    RefsOfConcat(users, userGroups, resource);
    more := MappedGrants(resource, AccountRef, d.accounts);
    rv := rv + more;
    RefsOfConcat(users + userGroups, accounts, resource);
    more := MappedGrants(resource, GroupRef, d.groups);
    rv := rv + more;
    RefsOfConcat(users + userGroups + accounts, groups, resource);
  }

  /** The loop over the users. */
  method UserGrants(resource: string, users: seq<User>) returns (rv: seq<ResourceId>)
    ensures rv == RefsOf(AllUserRefs(users), resource)
  {
    hide RefsOf, UserRefs;
    rv := [];
    assert RefsOf([], resource) == [] by {
      RefsOfNothing(resource);
    }
    for i := 0 to |users|
      invariant rv == RefsOf(AllUserRefs(users[..i]), resource)
    {
      var entries := UserEntryGrants(resource, users[i]);
      rv := rv + entries;
      assert users[..i + 1][..i] == users[..i];
      RefsOfConcat(AllUserRefs(users[..i]), UserRefs(users[i]), resource);
    }
    assert users[..|users|] == users;
  }

  lemma RefsOfNothing(resource: string)
    ensures RefsOf([], resource) == []
  {
  }

  /** The inner loop over one user's site entries. */
  method UserEntryGrants(resource: string, u: User) returns (rv: seq<ResourceId>)
    ensures rv == RefsOf(UserRefs(u), resource)
  {
    rv := [];
    ghost var refs := UserRefs(u);
    for j := 0 to |u.info.sites|
      invariant rv == RefsOf(refs[..j], resource)
    {
      RefsOfSnoc(refs, j, resource);
      if Itoa(u.info.sites[j].id) == resource {
        rv := rv + [ResourceId(TYPE_USER, Itoa(u.id))];
      }
    }
    assert refs[..|refs|] == refs;
  }

  /** One of the three loops over records with a single site. */
  method MappedGrants<B>(resource: string, ref: B -> Ref, records: seq<B>) returns (rv: seq<ResourceId>)
    ensures rv == RefsOf(Map(ref, records), resource)
  {
    rv := [];
    for i := 0 to |records|
      invariant rv == RefsOf(Map(ref, records)[..i], resource)
    {
      RefsOfSnoc(Map(ref, records), i, resource);
      if Itoa(ref(records[i]).site) == resource {
        rv := rv + [ref(records[i]).principal];
      }
    }
    assert Map(ref, records)[..|records|] == Map(ref, records);
  }

  // ---- How often each principal is granted ----

  /** How many elements of a sequence satisfy a predicate. */
  function CountIf<T>(s: seq<T>, p: T -> bool): nat {
    if s == [] then 0 else CountIf(s[..|s| - 1], p) + if p(s[|s| - 1]) then 1 else 0
  }

  /** How many site entries of users with an id name a site. */
  function SiteEntries(users: seq<User>, id: int, site: int): nat {
    if users == [] then 0
    else
      var last := users[|users| - 1];
      SiteEntries(users[..|users| - 1], id, site)
      + if last.id == id then CountIf(last.info.sites, (e: BaseType) => e.id == site) else 0
  }

  /** A principal is granted a site as often as it is referred to there. */
  lemma {:induction false} GrantsCountRefs(refs: seq<Ref>, site: int, p: ResourceId)
    ensures multiset(RefsOf(refs, Itoa(site)))[p] == multiset(refs)[Ref(site, p)]
  {
    hide Itoa;
    if refs != [] {
      var last := refs[|refs| - 1];
      GrantsCountRefs(refs[..|refs| - 1], site, p);
      assert refs == refs[..|refs| - 1] + [last];
      if Itoa(last.site) == Itoa(site) {
        ItoaInjective(last.site, site);
      }
    }
  }

  /** References made one for each record count the records they are made of. */
  lemma {:induction false} MappedCount<T>(ref: T -> Ref, records: seq<T>, r: Ref, hit: T -> bool)
    requires forall i :: 0 <= i < |records| ==> (hit(records[i]) <==> ref(records[i]) == r)
    ensures multiset(Map(ref, records))[r] == CountIf(records, hit)
  {
    if records != [] {
      var init := records[..|records| - 1];
      MappedCount(ref, init, r, hit);
      assert Map(ref, records) == Map(ref, init) + [ref(records[|records| - 1])];
    }
  }

  lemma OneUserRefsCount(u: User, id: int, site: int)
    ensures multiset(UserRefs(u))[Ref(site, ResourceId("user", Itoa(id)))] ==
            if u.id == id then CountIf(u.info.sites, (e: BaseType) => e.id == site) else 0
  {
    if Itoa(u.id) == Itoa(id) {
      ItoaInjective(u.id, id);
    }
    hide Itoa, CountIf;
    var r := Ref(site, ResourceId("user", Itoa(id)));
    var ref := (e: BaseType) => Ref(e.id, ResourceId("user", Itoa(u.id)));
    assert UserRefs(u) == Map(ref, u.info.sites);
    if u.id == id {
      MappedCount(ref, u.info.sites, r, (e: BaseType) => e.id == site);
    } else {
      assert forall i :: 0 <= i < |u.info.sites| ==> UserRefs(u)[i] != r;
    }
  }

  lemma {:induction false} UserRefsCount(users: seq<User>, id: int, site: int)
    ensures multiset(AllUserRefs(users))[Ref(site, ResourceId("user", Itoa(id)))] == SiteEntries(users, id, site)
  {
    if users != [] {
      UserRefsCount(users[..|users| - 1], id, site);
      OneUserRefsCount(users[|users| - 1], id, site);
      hide Itoa, UserRefs, CountIf;
    }
  }

  /** The users refer to sites as users only. */
  lemma {:induction false} UserRefsAreUsers(users: seq<User>, r: Ref)
    requires r in AllUserRefs(users)
    ensures r.principal.resourceType == "user"
  {
    if r in AllUserRefs(users[..|users| - 1]) {
      UserRefsAreUsers(users[..|users| - 1], r);
    }
  }

  /** References of another kind do not count. */
  lemma OtherKindsDoNotCount<T>(ref: T -> Ref, records: seq<T>, r: Ref)
    requires forall i :: 0 <= i < |records| ==> ref(records[i]).principal.resourceType != r.principal.resourceType
    ensures multiset(Map(ref, records))[r] == 0
  {
    assert forall i :: 0 <= i < |records| ==> Map(ref, records)[i] != r;
  }

  /** The counts of the four lists add up, and each list counts for its kind only. */
  lemma CountsOfKind(d: Inventory, site: int, kind: string, resource: string)
    ensures var r := Ref(site, ResourceId(kind, resource));
            multiset(RefsOf(Refs(d), Itoa(site)))[r.principal] ==
              (if kind == "user" then multiset(AllUserRefs(d.users))[r] else 0)
            + (if kind == "userGroup" then multiset(Map(UserGroupRef, d.userGroups))[r] else 0)
            + (if kind == "userAccount" then multiset(Map(AccountRef, d.accounts))[r] else 0)
            + (if kind == "group" then multiset(Map(GroupRef, d.groups))[r] else 0)
  {
    var r := Ref(site, ResourceId(kind, resource));
    GrantsCountRefs(Refs(d), site, r.principal);
    hide Itoa, AllUserRefs;
    if kind != "user" && r in AllUserRefs(d.users) {
      UserRefsAreUsers(d.users, r);
    }
    if kind != "userGroup" {
      OtherKindsDoNotCount(UserGroupRef, d.userGroups, r);
    }
    if kind != "userAccount" {
      OtherKindsDoNotCount(AccountRef, d.accounts, r);
    }
    if kind != "group" {
      OtherKindsDoNotCount(GroupRef, d.groups, r);
    }
  }

  /** The records of a kind with an id and a site, counted. */
  lemma OwnKindCounts<B>(
    records: seq<Record<B>>, siteOf: B -> BaseType, kind: string, ref: Record<B> -> Ref, site: int, id: int, hit: Record<B> -> bool)
    requires forall i :: 0 <= i < |records| ==>
               ref(records[i]) == Ref(siteOf(records[i].info).id, ResourceId(kind, Itoa(records[i].id)))
    requires forall i :: 0 <= i < |records| ==>
               (hit(records[i]) <==> records[i].id == id && siteOf(records[i].info).id == site)
    ensures multiset(Map(ref, records))[Ref(site, ResourceId(kind, Itoa(id)))] == CountIf(records, hit)
  {
    forall i | 0 <= i < |records| && Itoa(records[i].id) == Itoa(id)
      ensures records[i].id == id
    {
      ItoaInjective(records[i].id, id);
    }
    hide Itoa, CountIf;
    MappedCount(ref, records, Ref(site, ResourceId(kind, Itoa(id))), hit);
  }

  /** Over the four source lists: a user is granted a site once for each of its
      entries of that site; a user group, an account and a group once when the
      record's own site it is, counting records should an id repeat; and the
      kinds are not confused. */
  lemma SiteGrantsAreCounted(d: Inventory, site: int, id: int)
    ensures var granted := multiset(RefsOf(Refs(d), Itoa(site)));
            && granted[ResourceId("user", Itoa(id))] == SiteEntries(d.users, id, site)
            && granted[ResourceId("userGroup", Itoa(id))] ==
               CountIf(d.userGroups, (g: UserGroup) => g.id == id && g.info.site.id == site)
            && granted[ResourceId("userAccount", Itoa(id))] ==
               CountIf(d.accounts, (a: UserAccount) => a.id == id && a.info.site.id == site)
            && granted[ResourceId("group", Itoa(id))] ==
               CountIf(d.groups, (g: Group) => g.id == id && g.info.site.id == site)
  {
    hide Itoa, AllUserRefs, CountIf, SiteEntries, RefsOf, Refs;
    CountsOfKind(d, site, "user", Itoa(id));
    CountsOfKind(d, site, "userGroup", Itoa(id));
    CountsOfKind(d, site, "userAccount", Itoa(id));
    CountsOfKind(d, site, "group", Itoa(id));
    UserRefsCount(d.users, id, site);
    OwnKindCounts(d.userGroups, (g: UserGroupInfo) => g.site, "userGroup", UserGroupRef, site, id,
                  (g: UserGroup) => g.id == id && g.info.site.id == site);
    OwnKindCounts(d.accounts, (a: AccountInfo) => a.site, "userAccount", AccountRef, site, id,
                  (a: UserAccount) => a.id == id && a.info.site.id == site);
    OwnKindCounts(d.groups, (g: GroupInfo) => g.site, "group", GroupRef, site, id,
                  (g: Group) => g.id == id && g.info.site.id == site);
  }

  // ---- Over all sites ----

  /** The grants of all listed sites, each with its site. */
  function AllGrants(refs: seq<Ref>, sites: seq<int>): seq<Ref> {
    if sites == [] then []
    else
      var site := sites[|sites| - 1];
      AllGrants(refs, sites[..|sites| - 1]) + Map((p: ResourceId) => Ref(site, p), RefsOf(refs, Itoa(site)))
  }

  /** The references that name a listed site. */
  function Listed(refs: seq<Ref>, sites: seq<int>): seq<Ref> {
    if refs == [] then []
    else
      var last := refs[|refs| - 1];
      Listed(refs[..|refs| - 1], sites) + if last.site in sites then [last] else []
  }

  lemma {:induction false} ListedOne(refs: seq<Ref>, site: int)
    ensures Map((p: ResourceId) => Ref(site, p), RefsOf(refs, Itoa(site))) == Listed(refs, [site])
  {
    if refs != [] {
      ListedOne(refs[..|refs| - 1], site);
      var last := refs[|refs| - 1];
      if Itoa(last.site) == Itoa(site) {
        ItoaInjective(last.site, site);
      }
      hide Itoa;
    }
  }

  lemma {:induction false} ListedSplits(refs: seq<Ref>, sites: seq<int>, site: int)
    requires site !in sites
    ensures multiset(Listed(refs, sites + [site])) == multiset(Listed(refs, sites)) + multiset(Listed(refs, [site]))
  {
    if refs != [] {
      ListedSplits(refs[..|refs| - 1], sites, site);
    }
  }

  /** Over listed sites with distinct ids, the grants are, as a multiset, exactly
      the references that name a listed site: none lost, none counted twice. */
  lemma {:induction false} SiteGrantsAreTheReferences(refs: seq<Ref>, sites: seq<int>)
    requires forall i, j :: 0 <= i < j < |sites| ==> sites[i] != sites[j]
    ensures multiset(AllGrants(refs, sites)) == multiset(Listed(refs, sites))
  {
    if sites == [] {
      NothingListed(refs);
    } else {
      var n := |sites| - 1;
      SiteGrantsAreTheReferences(refs, sites[..n]);
      ListedOne(refs, sites[n]);
      ListedSplits(refs, sites[..n], sites[n]);
      assert sites[..n] + [sites[n]] == sites;
    }
  }

  lemma {:induction false} NothingListed(refs: seq<Ref>)
    ensures Listed(refs, []) == []
  {
    if refs != [] {
      NothingListed(refs[..|refs| - 1]);
    }
  }
}
