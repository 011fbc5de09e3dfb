/** The reference Jamf server (test-server/main.go): each handler is one locked
    section over a store of users or of accounts, behind the bearer check. */
module Server {
  import opened Wrappers
  import opened GoInt
  import opened Models
  import opened EntityStore

  // ---- deleteByID, in place ----

  /** Compacts the first n elements in the array they are read from. The write
      position never passes the read position, so no element is lost; what is
      left behind the result is not cleared. */
  method DeleteByID<B>(items: array<Record<B>>, id: int) returns (n: nat)
    modifies items
    ensures n <= items.Length && items[..n] == Without(old(items[..]), id)
    ensures items[n..] == old(items[..])[n..]
  {
    hide Without;
    ghost var was := items[..];
    WithoutSplits(was, 0, id);
    n := 0;
    for i := 0 to items.Length
      invariant n <= i
      invariant items[n..] == was[n..]
      invariant items[..n] == Without(was[..i], id)
    {
      assert items[i] == items[n..][i - n] == was[i];
      WithoutSplits(was, i, id);
      if items[i].id != id {
        ghost var kept := items[..n];
        items[n] := items[i];
        n := n + 1;
        assert items[..n] == kept + [was[i]];
      }
    }
    assert was[..items.Length] == was;
  }

  lemma WithoutSplits<B>(list: seq<Record<B>>, i: nat, id: int)
    requires i <= |list|
    ensures Without(list[..0], id) == []
    ensures i < |list| ==> Without(list[..i + 1], id) == Without(list[..i], id) + if list[i].id == id then [] else [list[i]]
  {
    if i < |list| {
      assert list[..i + 1] == list[..i] + [list[i]];
      WithoutSnoc(list[..i], list[i], id);
    }
  }

  lemma {:induction false} WithoutSnoc<B>(list: seq<Record<B>>, r: Record<B>, id: int)
    ensures Without(list + [r], id) == Without(list, id) + if r.id == id then [] else [r]
  {
    if list != [] {
      assert (list + [r])[1..] == list[1..] + [r];
      WithoutSnoc(list[1..], r, id);
    }
  }

  // ---- Requests and replies ----

  datatype Reply<B> =
    | OK
    | Found(record: Record<B>)
    | Created(id: int)
    | BadRequest
    | Unauthorized
    | NotFound
    | MethodNotAllowed
    | Conflict

  /** A decoded POST body; `acceptable` when it passes the handler's checks. */
  datatype Body<B> = Body(name: string, acceptable: bool, info: B)

  /** None is a body that is not XML or does not decode. */
  datatype Method<T> = GET | POST(body: Option<T>) | DELETE | OtherMethod

  /** The method with its decoded body checked. */
  function Checked<T, B>(m: Method<T>, check: T -> Body<B>): Method<Body<B>> {
    match m
    case GET => GET
    case POST(None) => POST(None)
    case POST(Some(body)) => POST(Some(check(body)))
    case DELETE => DELETE
    case OtherMethod => OtherMethod
  }

  /** The path ends in the number; a POST ignores which. */
  function HandleByID<B>(authorised: bool, s: Store<B>, tail: string, m: Method<Body<B>>): (Store<B>, Reply<B>) {
    if !authorised then (s, Unauthorized)
    else if Atoi(tail).None? then (s, BadRequest)
    else
      var id := Atoi(tail).value;
      match m
      case GET => (s, if id in s.byID then Found(s.byID[id]) else NotFound)
      case POST(None) => (s, BadRequest)
      case POST(Some(body)) =>
        if !body.acceptable then (s, BadRequest)
        else if FindByName(s.list, body.name).Some? then (s, Conflict)
        else (Apply(s, Post(body.name, body.info)), Created(s.nextID + 1))
      case DELETE => (Apply(s, Delete(id)), if id in s.byID then OK else NotFound)
      case OtherMethod => (s, MethodNotAllowed)
  }

  function HandleByName<B>(authorised: bool, s: Store<B>, name: string, isGet: bool): Reply<B> {
    if !authorised then Unauthorized
    else if !isGet then MethodNotAllowed
    else
      match FindByName(s.list, name)
      case Some(r) => Found(r)
      case None => NotFound
  }

  /** The operation a request amounts to. */
  function OpOf<B>(authorised: bool, tail: string, m: Method<Body<B>>): Op<B> {
    if !authorised || Atoi(tail).None? then Read
    else
      match m
      case POST(Some(body)) => if body.acceptable then Post(body.name, body.info) else Read
      case DELETE => Delete(Atoi(tail).value)
      case _ => Read
  }

  /** A handler's effect is one operation, and its reply tells which effect it
      had: Created and a DELETE's OK are the only replies that come with a
      change, and an unauthorised request never touches the store. */
  lemma HandlerIsOneOperation<B(!new)>(authorised: bool, s: Store<B>, tail: string, m: Method<Body<B>>)
    requires Valid(s)
    ensures var (t, reply) := HandleByID(authorised, s, tail, m);
            && t == Apply(s, OpOf(authorised, tail, m))
            && (t != s <==> reply.Created? || reply.OK?)
            && (reply.Unauthorized? <==> !authorised)
            && (reply.Found? ==> Atoi(tail).Some? && reply.record.id == Atoi(tail).value
                                 && s.byID[reply.record.id] == reply.record)
            && (reply.NotFound? ==> Atoi(tail).Some? && Atoi(tail).value !in s.byID)
            && (reply.OK? ==> Atoi(tail).Some? && Atoi(tail).value in s.byID && t.byID == s.byID - {Atoi(tail).value})
            && (reply.Created? ==> FindByName(s.list, m.body.value.name).None? && reply.id == t.nextID > s.nextID
                                   && t.byID[reply.id] == Record(reply.id, m.body.value.name, m.body.value.info))
  {
  }

  // ---- The server object ----

  datatype UserCreateBody = UserCreateBody(name: string, fullName: string, email: string)

  datatype UserAccountCreateBody = UserAccountCreateBody(
    name: string, password: string, fullName: string, email: string, enabled: string, accessLevel: string,
    privilegeSet: string, privileges: Option<Privileges>)

  const VALID_ACCESS_LEVELS := ["Full Access", "Site Access", "Group Access"]
  const VALID_PRIVILEGE_SETS := ["Administrator", "Auditor", "Enrollment Only", "Custom"]
  const VALID_ENABLED_VALUES := ["Enabled", "Disabled"]

  const NO_SITE := BaseType(0, "")

  function UserBody(b: UserCreateBody): Body<UserInfo> {
    Body(b.name, b.name != "", UserInfo(b.fullName, b.email, "", "", []))
  }

  function AccountBody(b: UserAccountCreateBody): Body<AccountInfo> {
    var acceptable := b.name != "" && b.password != ""
      && (b.accessLevel == "" || b.accessLevel in VALID_ACCESS_LEVELS)
      && (b.privilegeSet == "" || b.privilegeSet in VALID_PRIVILEGE_SETS)
      && (b.enabled == "" || b.enabled in VALID_ENABLED_VALUES);
    Body(b.name, acceptable,
         AccountInfo(b.fullName, b.email, b.enabled, b.accessLevel, b.privilegeSet,
                     if b.privileges.Some? then b.privileges.value else NO_PRIVILEGES, NO_SITE))
  }

  /** The fields that hold one kind of entity. */
  class Table<B> {
    var byID: map<int, Record<B>>
    var list: seq<Record<B>>
    var nextID: int

    constructor (s: Store<B>)
      ensures View() == s
    {
      byID, list, nextID := s.byID, s.list, s.nextID;
    }

    function View(): Store<B>
      reads this
    {
      Store(byID, list, nextID)
    }

    method FindByNameLocked(name: string) returns (r: Option<Record<B>>)
      ensures r == FindByName(list, name)
    {
      for i := 0 to |list|
        invariant FindByName(list, name) == FindByName(list[i..], name)
      {
        assert list[i..][1..] == list[i + 1..];
        if list[i].name == name {
          return Some(list[i]);
        }
      }
      return None;
    }

    method HandleID(authorised: bool, tail: string, m: Method<Body<B>>) returns (reply: Reply<B>)
      modifies this
      ensures (View(), reply) == HandleByID(authorised, old(View()), tail, m)
    {
      if !authorised {
        return Unauthorized;
      }
      var id := Atoi(tail);
      if id.None? {
        return BadRequest;
      }
      match m {
        case GET =>
          return if id.value in byID then Found(byID[id.value]) else NotFound;
        case POST(None) =>
          return BadRequest;
        case POST(Some(body)) =>
          if !body.acceptable {
            return BadRequest;
          }
          var existing := FindByNameLocked(body.name);
          if existing.Some? {
            return Conflict;
          }
          nextID := nextID + 1;
          var r := Record(nextID, body.name, body.info);
          byID := byID[r.id := r];
          list := list + [r];
          return Created(r.id);
        case DELETE =>
          if id.value !in byID {
            return NotFound;
          }
          byID := byID - {id.value};
          var items := new Record<B>[|list|](i requires 0 <= i < |list| reads this => list[i]);
          assert items[..] == list;
          var n := DeleteByID(items, id.value);
          list := items[..n];
          return OK;
        case OtherMethod =>
          return MethodNotAllowed;
      }
    }

    method HandleName(authorised: bool, name: string, isGet: bool) returns (reply: Reply<B>)
      ensures reply == HandleByName(authorised, View(), name, isGet)
    {
      if !authorised {
        return Unauthorized;
      }
      if !isGet {
        return MethodNotAllowed;
      }
      var r := FindByNameLocked(name);
      return if r.Some? then Found(r.value) else NotFound;
    }
  }

  // ---- The seed ----

  const HEADQUARTERS := BaseType(1, "Headquarters")
  const REMOTE := BaseType(2, "Remote")

  function SeedUser(id: int, name: string, fullName: string, sites: seq<BaseType>): User {
    Record(id, name, UserInfo(fullName, name + "@example.com", "", "", sites))
  }

  function SeedAccount(
    id: int, name: string, fullName: string, enabled: string, privilegeSet: string, objects: seq<string>, site: BaseType): UserAccount
  {
    Record(id, name, AccountInfo(fullName, name + "@example.com", enabled, "Full Access", privilegeSet,
                                 NO_PRIVILEGES.(jssObjects := objects), site))
  }

  const SEED_USERS: seq<User> := [
    SeedUser(1, "john.appleseed", "John Appleseed", [HEADQUARTERS]),
    SeedUser(2, "jane.doe", "Jane Doe", []),
    SeedUser(3, "carol.smith", "Carol Smith", []),
    SeedUser(4, "dave.jones", "Dave Jones", []),
    SeedUser(5, "eve.miller", "Eve Miller", [REMOTE])
  ]

  const SEED_ACCOUNTS: seq<UserAccount> := [
    SeedAccount(101, "admin1", "Admin One", "Enabled", "Administrator", [], HEADQUARTERS),
    SeedAccount(102, "admin2", "Admin Two", "Disabled", "Auditor", [], HEADQUARTERS),
    SeedAccount(103, "admin3", "Admin Three", "Enabled", "Custom", ["Read Advanced Computer Searches"], REMOTE)
  ]

  /** The seeding loop: each record goes into the map and onto the list. */
  function Seeded<B>(records: seq<Record<B>>): map<int, Record<B>> {
    if records == [] then map[]
    else Seeded(records[..|records| - 1])[records[|records| - 1].id := records[|records| - 1]]
  }

  const SEED_USER_STORE: Store<UserInfo> := Store(Seeded(SEED_USERS), SEED_USERS, |SEED_USERS|)
  const SEED_ACCOUNT_STORE: Store<AccountInfo> :=
    Store(Seeded(SEED_ACCOUNTS), SEED_ACCOUNTS, SEED_ACCOUNTS[|SEED_ACCOUNTS| - 1].id)

  /** The server: the token it accepts, and one table for each kind. */
  class JamfServer {
    var token: string
    const users: Table<UserInfo>
    const accounts: Table<AccountInfo>

    constructor (token: string)
      ensures this.token == token && users.View() == SEED_USER_STORE && accounts.View() == SEED_ACCOUNT_STORE
      ensures fresh(users) && fresh(accounts)
    {
      this.token := token;
      users := new Table(SEED_USER_STORE);
      accounts := new Table(SEED_ACCOUNT_STORE);
    }

    predicate RequireBearer(bearer: string)
      reads this
    {
      bearer == token
    }

    /** Without the server's own token: Unauthorized, and nothing changes. With
        it, every method has its effect on the users alone. */
    method HandleUserByID(bearer: string, tail: string, m: Method<UserCreateBody>) returns (reply: Reply<UserInfo>)
      modifies users
      ensures accounts.View() == old(accounts.View())
      ensures bearer != token ==> reply == Unauthorized && users.View() == old(users.View())
      ensures bearer == token && Atoi(tail).None? ==> reply == BadRequest && users.View() == old(users.View())
      ensures bearer == token && Atoi(tail).Some? ==>
                var id, s := Atoi(tail).value, old(users.View());
                match m
                case GET => users.View() == s && reply == if id in s.byID then Found(s.byID[id]) else NotFound
                case POST(None) => users.View() == s && reply == BadRequest
                case POST(Some(b)) =>
                  if b.name == ""
                  then users.View() == s && reply == BadRequest
                  else if exists i :: 0 <= i < |s.list| && s.list[i].name == b.name
                  then users.View() == s && reply == Conflict
                  else
                    var r := Record(s.nextID + 1, b.name, UserInfo(b.fullName, b.email, "", "", []));
                    && reply == Created(s.nextID + 1)
                    && users.View() == Store(s.byID[s.nextID + 1 := r], s.list + [r], s.nextID + 1)
                case DELETE =>
                  if id in s.byID
                  then reply == OK && users.View() == Store(s.byID - {id}, Without(s.list, id), s.nextID)
                  else reply == NotFound && users.View() == s
                case OtherMethod => users.View() == s && reply == MethodNotAllowed
    {
      if m.POST? && m.body.Some? {
        FindByNameFinds(users.list, m.body.value.name);
      }
      hide FindByName, Without, Atoi;
      reply := users.HandleID(RequireBearer(bearer), tail, Checked(m, UserBody));
    }

    method HandleUserByName(bearer: string, name: string, isGet: bool) returns (reply: Reply<UserInfo>)
      ensures bearer != token ==> reply == Unauthorized
      ensures bearer == token && !isGet ==> reply == MethodNotAllowed
      ensures bearer == token && isGet ==>
                if forall i :: 0 <= i < |users.list| ==> users.list[i].name != name then reply == NotFound
                else exists i :: 0 <= i < |users.list| && users.list[i].name == name
                                 && (forall j :: 0 <= j < i ==> users.list[j].name != name)
                                 && reply == Found(users.list[i])
    {
      FindByNameIsFirst(users.list, name);
      hide FindByName;
      reply := users.HandleName(RequireBearer(bearer), name, isGet);
    }

    /** The same for accounts: a body needs a password too, and values of the
        three enumerated fields that Jamf knows, or none. */
    method HandleAccountByID(bearer: string, tail: string, m: Method<UserAccountCreateBody>) returns (reply: Reply<AccountInfo>)
      modifies accounts
      ensures users.View() == old(users.View())
      ensures bearer != token ==> reply == Unauthorized && accounts.View() == old(accounts.View())
      ensures bearer == token && Atoi(tail).None? ==> reply == BadRequest && accounts.View() == old(accounts.View())
      ensures bearer == token && Atoi(tail).Some? ==>
                var id, s := Atoi(tail).value, old(accounts.View());
                match m
                case GET => accounts.View() == s && reply == if id in s.byID then Found(s.byID[id]) else NotFound
                case POST(None) => accounts.View() == s && reply == BadRequest
                case POST(Some(b)) =>
                  if b.name == "" || b.password == ""
                     || b.accessLevel !in ["", "Full Access", "Site Access", "Group Access"]
                     || b.privilegeSet !in ["", "Administrator", "Auditor", "Enrollment Only", "Custom"]
                     || b.enabled !in ["", "Enabled", "Disabled"]
                  then accounts.View() == s && reply == BadRequest
                  else if exists i :: 0 <= i < |s.list| && s.list[i].name == b.name
                  then accounts.View() == s && reply == Conflict
                  else
                    var r := Record(s.nextID + 1, b.name, AccountInfo(
                      b.fullName, b.email, b.enabled, b.accessLevel, b.privilegeSet,
                      if b.privileges.Some? then b.privileges.value else Privileges([], [], [], [], [], [], []),
                      BaseType(0, "")));
                    && reply == Created(s.nextID + 1)
                    && accounts.View() == Store(s.byID[s.nextID + 1 := r], s.list + [r], s.nextID + 1)
                case DELETE =>
                  if id in s.byID
                  then reply == OK && accounts.View() == Store(s.byID - {id}, Without(s.list, id), s.nextID)
                  else reply == NotFound && accounts.View() == s
                case OtherMethod => accounts.View() == s && reply == MethodNotAllowed
    {
      if m.POST? && m.body.Some? {
        FindByNameFinds(accounts.list, m.body.value.name);
      }
      hide FindByName, Without, Atoi;
      reply := accounts.HandleID(RequireBearer(bearer), tail, Checked(m, AccountBody));
    }

    method HandleAccountByName(bearer: string, name: string, isGet: bool) returns (reply: Reply<AccountInfo>)
      ensures bearer != token ==> reply == Unauthorized
      ensures bearer == token && !isGet ==> reply == MethodNotAllowed
      ensures bearer == token && isGet ==>
                if forall i :: 0 <= i < |accounts.list| ==> accounts.list[i].name != name then reply == NotFound
                else exists i :: 0 <= i < |accounts.list| && accounts.list[i].name == name
                                 && (forall j :: 0 <= j < i ==> accounts.list[j].name != name)
                                 && reply == Found(accounts.list[i])
    {
      FindByNameIsFirst(accounts.list, name);
      hide FindByName;
      reply := accounts.HandleName(RequireBearer(bearer), name, isGet);
    }
  }

  /** The users a server starts with, and the id handed out last. */
  lemma SeedUsersAre()
    ensures SEED_USER_STORE.nextID == 5
    ensures SEED_USER_STORE.list == [
              Record(1, "john.appleseed", UserInfo("John Appleseed", "john.appleseed@example.com", "", "",
                                                   [BaseType(1, "Headquarters")])),
              Record(2, "jane.doe", UserInfo("Jane Doe", "jane.doe@example.com", "", "", [])),
              Record(3, "carol.smith", UserInfo("Carol Smith", "carol.smith@example.com", "", "", [])),
              Record(4, "dave.jones", UserInfo("Dave Jones", "dave.jones@example.com", "", "", [])),
              Record(5, "eve.miller", UserInfo("Eve Miller", "eve.miller@example.com", "", "", [BaseType(2, "Remote")]))]
  {
    hide Seeded;
    assert "john.appleseed" + "@example.com" == "john.appleseed@example.com";
    assert "jane.doe" + "@example.com" == "jane.doe@example.com";
    assert "carol.smith" + "@example.com" == "carol.smith@example.com";
    assert "dave.jones" + "@example.com" == "dave.jones@example.com";
    assert "eve.miller" + "@example.com" == "eve.miller@example.com";
  }

  /** The accounts likewise. */
  lemma SeedAccountsAre()
    ensures SEED_ACCOUNT_STORE.nextID == 103
    ensures var none := Privileges([], [], [], [], [], [], []);
            SEED_ACCOUNT_STORE.list == [
              Record(101, "admin1", AccountInfo("Admin One", "admin1@example.com", "Enabled", "Full Access",
                                                "Administrator", none, BaseType(1, "Headquarters"))),
              Record(102, "admin2", AccountInfo("Admin Two", "admin2@example.com", "Disabled", "Full Access",
                                                "Auditor", none, BaseType(1, "Headquarters"))),
              Record(103, "admin3", AccountInfo("Admin Three", "admin3@example.com", "Enabled", "Full Access", "Custom",
                                                none.(jssObjects := ["Read Advanced Computer Searches"]),
                                                BaseType(2, "Remote")))]
  {
    hide Seeded;
    assert "admin1" + "@example.com" == "admin1@example.com";
    assert "admin2" + "@example.com" == "admin2@example.com";
    assert "admin3" + "@example.com" == "admin3@example.com";
  }

  lemma {:induction false} SeededIsMapOfList<B(!new)>(records: seq<Record<B>>)
    requires forall i, j :: 0 <= i < j < |records| ==> records[i].id != records[j].id
    ensures var m := Seeded(records);
            && (forall i :: 0 <= i < |records| ==> records[i].id in m && m[records[i].id] == records[i])
            && (forall id :: id in m ==> m[id].id == id && m[id] in records)
  {
    if records != [] {
      var init := records[..|records| - 1];
      SeededIsMapOfList(init);
      assert records == init + [records[|records| - 1]];
    }
  }

  lemma SeedUsersAreValid()
    ensures Valid(SEED_USER_STORE)
  {
    var u := SEED_USERS;
    assert u[0].name[..3] == "joh" && u[1].name[..3] == "jan" && u[2].name[..3] == "car"
        && u[3].name[..3] == "dav" && u[4].name[..3] == "eve";
    SeededIsMapOfList(u);
    hide Seeded;
  }

  lemma SeedAccountsAreValid()
    ensures Valid(SEED_ACCOUNT_STORE)
  {
    var a := SEED_ACCOUNTS;
    assert a[0].name[5] == '1' && a[1].name[5] == '2' && a[2].name[5] == '3';
    SeededIsMapOfList(a);
    hide Seeded;
  }

  /** Whatever sequence of operations the handlers of a freshly seeded server
      perform, its users and its accounts each keep the store invariant. */
  lemma SeededServerStaysValid(userOps: seq<Op<UserInfo>>, accountOps: seq<Op<AccountInfo>>)
    ensures Valid(SEED_USER_STORE) && Valid(SEED_ACCOUNT_STORE)
    ensures Valid(Run(SEED_USER_STORE, userOps)) && Valid(Run(SEED_ACCOUNT_STORE, accountOps))
  {
    hide *;
    SeedUsersAreValid();
    SeedAccountsAreValid();
    RunKeepsValid(SEED_USER_STORE, userOps);
    RunKeepsValid(SEED_ACCOUNT_STORE, accountOps);
  }
}
