/** The lazily built username and e-mail index, and user resolution through it
    (pkg/connector/managedDevice.go). */
module UserIndex {
  import opened Wrappers
  import opened GoInt
  import opened Models

  // ---- strings.TrimSpace and strings.ToLower ----

  /** unicode.IsSpace. */
  predicate IsSpace(c: char) {
    var n := c as int;
    9 <= n <= 13 || n == 0x20 || n == 0x85 || n == 0xA0 || n == 0x1680 || 0x2000 <= n <= 0x200a
    || n == 0x2028 || n == 0x2029 || n == 0x202f || n == 0x205f || n == 0x3000
  }

  /** The 25 characters it holds of. */
  lemma SpacesAre(c: char)
    ensures IsSpace(c) <==>
            c as int in [0x09, 0x0a, 0x0b, 0x0c, 0x0d, 0x20, 0x85, 0xa0, 0x1680, 0x2000, 0x2001, 0x2002, 0x2003, 0x2004, 0x2005,
                         0x2006, 0x2007, 0x2008, 0x2009, 0x200a, 0x2028, 0x2029, 0x202f, 0x205f, 0x3000]
  {
  }

  function TrimLeft(s: string): (r: string)
    ensures |r| <= |s|
  {
    if s != "" && IsSpace(s[0]) then TrimLeft(s[1..]) else s
  }

  function TrimRight(s: string): (r: string)
    ensures |r| <= |s|
  {
    if s != "" && IsSpace(s[|s| - 1]) then TrimRight(s[..|s| - 1]) else s
  }

  function TrimSpace(s: string): string {
    TrimRight(TrimLeft(s))
  }

  predicate AllSpace(s: string) {
    forall i :: 0 <= i < |s| ==> IsSpace(s[i])
  }

  lemma {:induction false} TrimLeftEmpty(s: string)
    ensures TrimLeft(s) == "" <==> AllSpace(s)
    ensures TrimLeft(s) != "" ==> !IsSpace(TrimLeft(s)[0])
  {
    if s != "" && IsSpace(s[0]) {
      TrimLeftEmpty(s[1..]);
      assert AllSpace(s[1..]) ==> AllSpace(s) by {
        assert forall i :: 0 < i < |s| ==> s[i] == s[1..][i - 1];
      }
    }
  }

  lemma {:induction false} TrimRightEmpty(s: string)
    ensures TrimRight(s) == "" <==> AllSpace(s)
  {
    if s != "" && IsSpace(s[|s| - 1]) {
      TrimRightEmpty(s[..|s| - 1]);
    }
  }

  /** Trimming leaves nothing exactly when there is nothing but white space. */
  lemma TrimSpaceEmpty(s: string)
    ensures TrimSpace(s) == "" <==> AllSpace(s)
  {
    TrimLeftEmpty(s);
    TrimRightEmpty(TrimLeft(s));
  }

  /** A key of the index. strings.ToLower maps rune by rune; `lower` is that
      rune mapping, whatever its table says. */
  function Key(lower: char -> char, s: string): string {
    Map(lower, TrimSpace(s))
  }

  predicate NoSpaceAtEnds(s: string) {
    s == "" || (!IsSpace(s[0]) && !IsSpace(s[|s| - 1]))
  }

  lemma {:induction false} TrimLeftIs(left: string, s: string)
    requires AllSpace(left) && (s == "" || !IsSpace(s[0]))
    ensures TrimLeft(left + s) == s
  {
    if left == "" {
      assert left + s == s;
    } else {
      assert (left + s)[1..] == left[1..] + s;
      TrimLeftIs(left[1..], s);
    }
  }

  lemma {:induction false} TrimRightIs(s: string, right: string)
    requires AllSpace(right) && (s == "" || !IsSpace(s[|s| - 1]))
    ensures TrimRight(s + right) == s
  {
    if right == "" {
      assert s + right == s;
    } else {
      assert (s + right)[..|s + right| - 1] == s + right[..|right| - 1];
      TrimRightIs(s, right[..|right| - 1]);
    }
  }

  /** Trimming removes the white space at both ends and nothing else. */
  lemma TrimSpaceIs(left: string, s: string, right: string)
    requires AllSpace(left) && AllSpace(right) && NoSpaceAtEnds(s)
    ensures TrimSpace(left + s + right) == s
  {
    if s == "" {
      TrimSpaceEmpty(left + s + right);
    } else {
      assert left + s + right == left + (s + right);
      TrimLeftIs(left, s + right);
      TrimRightIs(s, right);
    }
  }

  /** Every string has the shape of the lemma above. */
  lemma {:induction false} EveryStringTrims(s: string) returns (left: string, middle: string, right: string)
    ensures s == left + middle + right && AllSpace(left) && AllSpace(right) && NoSpaceAtEnds(middle)
  {
    if NoSpaceAtEnds(s) {
      left, middle, right := "", s, "";
    } else if IsSpace(s[0]) {
      left, middle, right := EveryStringTrims(s[1..]);
      left := [s[0]] + left;
    } else {
      left, middle, right := EveryStringTrims(s[..|s| - 1]);
      right := right + [s[|s| - 1]];
    }
  }

  /** Two strings have the same key exactly when they differ only in the white
      space around them and in case, as `lower` has it. */
  lemma SameKeyExactlyWhen(
    lower: char -> char, left: string, s: string, right: string, left': string, s': string, right': string)
    requires AllSpace(left) && AllSpace(right) && NoSpaceAtEnds(s)
    requires AllSpace(left') && AllSpace(right') && NoSpaceAtEnds(s')
    ensures Key(lower, left + s + right) == Key(lower, left' + s' + right') <==>
            |s| == |s'| && forall k :: 0 <= k < |s| ==> lower(s[k]) == lower(s'[k])
  {
    TrimSpaceIs(left, s, right);
    TrimSpaceIs(left', s', right');
    hide TrimSpace;
    var a, b := Key(lower, left + s + right), Key(lower, left' + s' + right');
    assert a == b ==> forall k :: 0 <= k < |s| ==> a[k] == b[k];
  }

  // ---- The index ----

  function UserResourceID(u: User): ResourceId {
    ResourceId(TYPE_USER, Itoa(u.id))
  }

  /** Whether a user carries a key in one of the four fields. */
  predicate Carries(lower: char -> char, user: Option<User>, key: string) {
    user.Some? && key != "" &&
    var u := user.value;
    (key == Key(lower, u.name) || key == Key(lower, u.info.username)
     || key == Key(lower, u.info.email) || key == Key(lower, u.info.emailAddress))
  }

  /** A plain scan: the first user in list order that carries the key. */
  function FirstCarrier(lower: char -> char, users: seq<Option<User>>, key: string): Option<ResourceId> {
    if users == [] then None
    else if Carries(lower, users[0], key) then Some(UserResourceID(users[0].value))
    else FirstCarrier(lower, users[1..], key)
  }

  /** The index agrees with the scan on every key. */
  ghost predicate IsIndexOf(idx: map<string, ResourceId>, lower: char -> char, users: seq<Option<User>>) {
    forall key: string :: FirstCarrier(lower, users, key) == if key in idx then Some(idx[key]) else None
  }

  lemma {:induction false} FirstCarrierConcat(lower: char -> char, a: seq<Option<User>>, b: seq<Option<User>>, key: string)
    ensures FirstCarrier(lower, a + b, key) ==
            if FirstCarrier(lower, a, key).Some? then FirstCarrier(lower, a, key) else FirstCarrier(lower, b, key)
  {
    if a == [] {
      assert a + b == b;
    } else {
      assert (a + b)[0] == a[0] && (a + b)[1..] == a[1..] + b;
      FirstCarrierConcat(lower, a[1..], b, key);
    }
  }

  lemma FirstCarrierSnoc(lower: char -> char, users: seq<Option<User>>, u: Option<User>, key: string)
    ensures FirstCarrier(lower, users + [u], key) ==
            if FirstCarrier(lower, users, key).Some? then FirstCarrier(lower, users, key)
            else if Carries(lower, u, key) then Some(UserResourceID(u.value)) else None
  {
    FirstCarrierConcat(lower, users, [u], key);
    assert FirstCarrier(lower, [u][1..], key) == None;
  }

  /** The inner loop of getUserIndex: one user's four keys, first writer wins. */
  method IndexUser(lower: char -> char, idx: map<string, ResourceId>, u: User) returns (r: map<string, ResourceId>)
    ensures forall key :: key in r <==> key in idx || Carries(lower, Some(u), key)
    ensures forall key :: key in r ==> r[key] == if key in idx then idx[key] else UserResourceID(u)
  {
    hide Key, UserResourceID;
    r := idx;
    var rid := UserResourceID(u);
    var fields := [u.name, u.info.username, u.info.email, u.info.emailAddress];
    for f := 0 to 4
      invariant forall key :: key in idx ==> key in r && r[key] == idx[key]
      invariant forall key :: key in r && key !in idx ==>
        r[key] == rid && key != "" && exists g :: 0 <= g < f && key == Key(lower, fields[g])
      invariant forall g :: 0 <= g < f && Key(lower, fields[g]) != "" ==> Key(lower, fields[g]) in r
    {
      var key := Key(lower, fields[f]);
      if key == "" {
        continue;
      }
      if key !in r {
        r := r[key := rid];
      }
    }
    assert fields[0] == u.name && fields[1] == u.info.username && fields[2] == u.info.email
        && fields[3] == u.info.emailAddress;
  }

  /** The outer loop of getUserIndex. */
  method BuildUserIndex(lower: char -> char, users: seq<Option<User>>) returns (idx: map<string, ResourceId>)
    ensures IsIndexOf(idx, lower, users)
  {
    idx := map[];
    for i := 0 to |users|
      invariant IsIndexOf(idx, lower, users[..i])
    {
      ghost var before := idx;
      if users[i].Some? {
        idx := IndexUser(lower, idx, users[i].value);
      }
      assert users[..i + 1] == users[..i] + [users[i]];
      forall key: string
        ensures FirstCarrier(lower, users[..i + 1], key) == if key in idx then Some(idx[key]) else None
      {
        FirstCarrierSnoc(lower, users[..i], users[i], key);
        assert key in idx <==> key in before || Carries(lower, users[i], key);
      }
    }
    assert users[..|users|] == users;
  }

  /** resolveUser: the username's entry, otherwise the e-mail's. */
  function ResolveUser(
    lower: char -> char, idx: map<string, ResourceId>, username: string, email: string): Option<ResourceId>
  {
    var byName, byEmail := Key(lower, username), Key(lower, email);
    if byName != "" && byName in idx then Some(idx[byName])
    else if byEmail != "" && byEmail in idx then Some(idx[byEmail])
    else None
  }

  /** The same by two plain scans of the users. */
  function ScanUsers(lower: char -> char, users: seq<Option<User>>, username: string, email: string): Option<ResourceId> {
    var byName := FirstCarrier(lower, users, Key(lower, username));
    if byName.Some? then byName else FirstCarrier(lower, users, Key(lower, email))
  }

  lemma {:induction false} NoUserCarriesEmptyKey(lower: char -> char, users: seq<Option<User>>)
    ensures FirstCarrier(lower, users, "") == None
  {
    if users != [] {
      NoUserCarriesEmptyKey(lower, users[1..]);
    }
  }

  /** Looking up the index is scanning the users by username, then by e-mail. */
  lemma ResolveUserIsScan(
    lower: char -> char, idx: map<string, ResourceId>, users: seq<Option<User>>, username: string, email: string)
    requires IsIndexOf(idx, lower, users)
    ensures ResolveUser(lower, idx, username, email) == ScanUsers(lower, users, username, email)
  {
    NoUserCarriesEmptyKey(lower, users);
    assert FirstCarrier(lower, users, Key(lower, username)).Some? <==> Key(lower, username) in idx;
    assert FirstCarrier(lower, users, Key(lower, email)).Some? <==> Key(lower, email) in idx;
  }

  /** What a scan finds is a user of the list carrying the key, and no earlier
      user carries it; it finds nothing only when nobody does. */
  lemma {:induction false} FirstCarrierIsFirst(lower: char -> char, users: seq<Option<User>>, key: string)
    ensures match FirstCarrier(lower, users, key)
            case None => forall i :: 0 <= i < |users| ==> !Carries(lower, users[i], key)
            case Some(rid) => exists i :: 0 <= i < |users| && Carries(lower, users[i], key)
                                          && rid == UserResourceID(users[i].value)
                                          && forall j :: 0 <= j < i ==> !Carries(lower, users[j], key)
  {
    if users != [] && !Carries(lower, users[0], key) {
      FirstCarrierIsFirst(lower, users[1..], key);
      assert forall i :: 0 < i < |users| ==> users[i] == users[1..][i - 1];
      if FirstCarrier(lower, users, key).Some? {
        var i :| 0 <= i < |users[1..]| && Carries(lower, users[1..][i], key)
                 && FirstCarrier(lower, users, key).value == UserResourceID(users[1..][i].value)
                 && forall j :: 0 <= j < i ==> !Carries(lower, users[1..][j], key);
        assert users[i + 1] == users[1..][i];
      }
    }
  }

  /** Appending users changes no key that was there, and gives whom an owner
      resolves to then. */
  lemma AppendingUsers(
    lower: char -> char, users: seq<Option<User>>, more: seq<Option<User>>, username: string, email: string)
    ensures forall key :: FirstCarrier(lower, users, key).Some? ==>
              FirstCarrier(lower, users + more, key) == FirstCarrier(lower, users, key)
    ensures var byName := FirstCarrier(lower, users, Key(lower, username));
            var added := FirstCarrier(lower, more, Key(lower, username));
            var before := ScanUsers(lower, users, username, email);
            ScanUsers(lower, users + more, username, email) ==
            if byName.Some? then byName
            else if added.Some? then added
            else if before.Some? then before
            else FirstCarrier(lower, more, Key(lower, email))
  {
    forall key: string
      ensures FirstCarrier(lower, users + more, key) ==
              if FirstCarrier(lower, users, key).Some? then FirstCarrier(lower, users, key)
              else FirstCarrier(lower, more, key)
    {
      FirstCarrierConcat(lower, users, more, key);
    }
    hide FirstCarrier, Key;
  }

  /** An owner keeps resolving to whom it did exactly when it resolved by
      username; or else, when an added user carries the username, it resolved
      by e-mail to that same user; or else it resolved by e-mail, or no added
      user carries the e-mail either. */
  lemma AppendingUsersKeepsOwnerExactlyWhen(
    lower: char -> char, users: seq<Option<User>>, more: seq<Option<User>>, username: string, email: string)
    ensures var added := FirstCarrier(lower, more, Key(lower, username));
            var byEmail := FirstCarrier(lower, users, Key(lower, email));
            ScanUsers(lower, users + more, username, email) == ScanUsers(lower, users, username, email) <==>
            FirstCarrier(lower, users, Key(lower, username)).Some?
            || (if added.Some? then byEmail == added
                else byEmail.Some? || FirstCarrier(lower, more, Key(lower, email)).None?)
  {
    AppendingUsers(lower, users, more, username, email);
    hide FirstCarrier, Key;
  }

  /** A user with a login name and an e-mail address and nothing else. */
  function SimpleUser(id: int, name: string, email: string): User {
    Record(id, name, UserInfo("", email, "", "", []))
  }

  lemma KeyOfLetter(lower: char -> char, c: char)
    requires !IsSpace(c) && lower(c) == c
    ensures Key(lower, [c]) == [c] && Key(lower, "") == ""
  {
    assert TrimSpace([c]) == [c] && TrimSpace("") == "";
  }

  lemma FirstCarrierOfOne(lower: char -> char, u: User, key: string)
    ensures FirstCarrier(lower, [Some(u)], key) == if Carries(lower, Some(u), key) then Some(UserResourceID(u)) else None
  {
    assert [Some(u)][1..] == [];
  }

  /** Two users that show it, with any lower-case table that keeps four letters:
      an owner known by e-mail as user 2 becomes user 1 once a user with that
      login is added. */
  lemma AppendingUsersMayChangeOwner(lower: char -> char)
    requires forall c :: c in "abmx" ==> lower(c) == c
    ensures var users, more := [Some(SimpleUser(2, "b", "m"))], [Some(SimpleUser(1, "a", "x"))];
            && ScanUsers(lower, users, "a", "m") == Some(ResourceId(TYPE_USER, Itoa(2)))
            && ScanUsers(lower, users + more, "a", "m") == Some(ResourceId(TYPE_USER, Itoa(1)))
  {
    var u, v := SimpleUser(2, "b", "m"), SimpleUser(1, "a", "x");
    AppendingUsers(lower, [Some(u)], [Some(v)], "a", "m");
    assert "abmx"[0] == 'a' && "abmx"[1] == 'b' && "abmx"[2] == 'm' && "abmx"[3] == 'x';
    KeyOfLetter(lower, 'a');
    KeyOfLetter(lower, 'b');
    KeyOfLetter(lower, 'm');
    KeyOfLetter(lower, 'x');
    hide Key, Itoa, FirstCarrier;
    FirstCarrierOfOne(lower, u, "a");
    FirstCarrierOfOne(lower, u, "m");
    FirstCarrierOfOne(lower, v, "a");
  }
}
