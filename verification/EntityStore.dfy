/** One kind of entity of the reference server (test-server/main.go): every
    record kept twice, in a map and in a list, under ids handed out by a counter. */
module EntityStore {
  import opened Wrappers
  import opened Models

  datatype Store<B> = Store(byID: map<int, Record<B>>, list: seq<Record<B>>, nextID: int)

  /** The list scan both name lookups share. */
  function FindByName<B>(list: seq<Record<B>>, name: string): Option<Record<B>> {
    if list == [] then None
    else if list[0].name == name then Some(list[0])
    else FindByName(list[1..], name)
  }

  function Without<B>(list: seq<Record<B>>, id: int): seq<Record<B>> {
    if list == [] then []
    else if list[0].id == id then Without(list[1..], id)
    else [list[0]] + Without(list[1..], id)
  }

  /** What one locked section does. Creating a name that is taken and deleting
      an id that is absent change nothing. */
  datatype Op<B> = Post(name: string, info: B) | Delete(id: int) | Read

  function Apply<B>(s: Store<B>, op: Op<B>): Store<B> {
    match op
    case Read => s
    case Post(name, info) =>
      if FindByName(s.list, name).Some? then s
      else
        var r := Record(s.nextID + 1, name, info);
        Store(s.byID[r.id := r], s.list + [r], s.nextID + 1)
    case Delete(id) =>
      if id in s.byID then Store(s.byID - {id}, Without(s.list, id), s.nextID) else s
  }

  function Run<B>(s: Store<B>, ops: seq<Op<B>>): Store<B>
    decreases |ops|
  {
    if ops == [] then s else Run(Apply(s, ops[0]), ops[1..])
  }

  /** The two copies agree, ids and names are distinct, and no id is beyond
      the counter. */
  ghost predicate Valid<B(!new)>(s: Store<B>) {
    && (forall i :: 0 <= i < |s.list| ==> s.list[i].id in s.byID && s.byID[s.list[i].id] == s.list[i])
    && (forall id :: id in s.byID ==> s.byID[id].id == id && s.byID[id] in s.list)
    && (forall i, j :: 0 <= i < j < |s.list| ==> s.list[i].id != s.list[j].id)
    && (forall i, j :: 0 <= i < j < |s.list| ==> s.list[i].name != s.list[j].name)
    && (forall id :: id in s.byID ==> id <= s.nextID)
  }

  lemma {:induction false} FindByNameFinds<B(!new)>(list: seq<Record<B>>, name: string)
    ensures match FindByName(list, name)
            case None => forall i :: 0 <= i < |list| ==> list[i].name != name
            case Some(r) => r in list && r.name == name
  {
    if list != [] && list[0].name != name {
      FindByNameFinds(list[1..], name);
      assert forall i :: 0 < i < |list| ==> list[i] == list[1..][i - 1];
    }
  }

  /** What the scan finds is the first record of the list with the name. */
  lemma {:induction false} FindByNameIsFirst<B(!new)>(list: seq<Record<B>>, name: string)
    ensures match FindByName(list, name)
            case None => forall i :: 0 <= i < |list| ==> list[i].name != name
            case Some(r) => exists i :: 0 <= i < |list| && list[i] == r && r.name == name
                                        && forall j :: 0 <= j < i ==> list[j].name != name
  {
    if list != [] && list[0].name != name {
      FindByNameIsFirst(list[1..], name);
      assert forall i :: 0 < i < |list| ==> list[i] == list[1..][i - 1];
      if FindByName(list, name).Some? {
        var i :| 0 <= i < |list[1..]| && list[1..][i] == FindByName(list, name).value
                 && forall j :: 0 <= j < i ==> list[1..][j].name != name;
        assert list[i + 1] == list[1..][i];
      }
    }
  }

  /** Deleting from the list keeps the order and removes exactly the id. */
  lemma {:induction false} WithoutKeepsTheRest<B(!new)>(list: seq<Record<B>>, id: int)
    requires forall i, j :: 0 <= i < j < |list| ==> list[i].id != list[j].id && list[i].name != list[j].name
    ensures var r := Without(list, id);
            && (forall i, j :: 0 <= i < j < |r| ==> r[i].id != r[j].id && r[i].name != r[j].name)
            && (forall x :: x in r <==> x in list && x.id != id)
  {
    if list != [] {
      var tail := list[1..];
      assert forall i :: 0 <= i < |tail| ==> tail[i] == list[i + 1];
      WithoutKeepsTheRest(tail, id);
      var rest := Without(tail, id);
      assert forall i :: 0 <= i < |rest| ==> rest[i] in tail;
    }
  }

  lemma PostKeepsValid<B(!new)>(s: Store<B>, name: string, info: B)
    requires Valid(s)
    ensures Valid(Apply(s, Post(name, info)))
  {
    FindByNameFinds(s.list, name);
    hide FindByName;
  }

  lemma DeleteKeepsValid<B(!new)>(s: Store<B>, id: int)
    requires Valid(s)
    ensures Valid(Apply(s, Delete(id)))
  {
    WithoutKeepsTheRest(s.list, id);
    hide Without;
    if id in s.byID {
      var t := Apply(s, Delete(id));
      forall i | 0 <= i < |t.list|
        ensures t.list[i].id in t.byID && t.byID[t.list[i].id] == t.list[i]
      {
        assert t.list[i] in Without(s.list, id);
      }
    }
  }

  lemma ApplyKeepsValid<B(!new)>(s: Store<B>, op: Op<B>)
    requires Valid(s)
    ensures Valid(Apply(s, op)) && s.nextID <= Apply(s, op).nextID
  {
    match op
    case Read =>
    case Post(name, info) => PostKeepsValid(s, name, info);
    case Delete(id) => DeleteKeepsValid(s, id);
  }

  /** The invariant holds after every sequence of operations, and the id
      counter never goes back. */
  lemma {:induction false} RunKeepsValid<B(!new)>(s: Store<B>, ops: seq<Op<B>>)
    requires Valid(s)
    ensures Valid(Run(s, ops)) && s.nextID <= Run(s, ops).nextID
    decreases |ops|
  {
    if ops != [] {
      ApplyKeepsValid(s, ops[0]);
      RunKeepsValid(Apply(s, ops[0]), ops[1..]);
    }
  }

  /** An id once handed out and not present never comes back, whatever is
      created, deleted and re-created; deleting it again changes nothing. */
  lemma {:induction false} DeletedIDStaysAbsent<B(!new)>(s: Store<B>, ops: seq<Op<B>>, id: int)
    requires Valid(s) && id <= s.nextID && id !in s.byID
    ensures id !in Run(s, ops).byID && id <= Run(s, ops).nextID
    ensures Apply(Run(s, ops), Delete(id)) == Run(s, ops)
    decreases |ops|
  {
    if ops != [] {
      ApplyKeepsValid(s, ops[0]);
      DeletedIDStaysAbsent(Apply(s, ops[0]), ops[1..], id);
    }
  }

  lemma {:induction false} RecordStaysUnlessDeleted<B(!new)>(s: Store<B>, ops: seq<Op<B>>, id: int)
    requires Valid(s) && id in s.byID
    ensures Delete(id) !in ops ==> id in Run(s, ops).byID && Run(s, ops).byID[id] == s.byID[id]
    ensures Delete(id) in ops ==> id !in Run(s, ops).byID
    decreases |ops|
  {
    if ops != [] {
      ApplyKeepsValid(s, ops[0]);
      assert ops == [ops[0]] + ops[1..];
      if ops[0] == Delete(id) {
        DeletedIDStaysAbsent(Apply(s, ops[0]), ops[1..], id);
      } else {
        RecordStaysUnlessDeleted(Apply(s, ops[0]), ops[1..], id);
      }
    }
  }

  /** In a valid store a name lookup finds a record exactly when it carries the name. */
  lemma FindByNameIs<B(!new)>(s: Store<B>, r: Record<B>)
    requires Valid(s)
    ensures FindByName(s.list, r.name) == Some(r) <==> r.id in s.byID && s.byID[r.id] == r
  {
    FindByNameFinds(s.list, r.name);
    if r.id in s.byID && s.byID[r.id] == r {
      var i :| 0 <= i < |s.list| && s.list[i] == r;
      var found := FindByName(s.list, r.name).value;
      var j :| 0 <= j < |s.list| && s.list[j] == found;
    }
  }

  /** A creator that later looks its name up gets the record it created exactly
      when nobody deleted that id in between, whatever else happened to the
      name. */
  lemma FetchedRecordIsCreatedOneExactlyWhen<B(!new)>(s: Store<B>, name: string, info: B, ops: seq<Op<B>>)
    requires Valid(s) && FindByName(s.list, name).None?
    ensures var created := Record(s.nextID + 1, name, info);
            var after := Run(Apply(s, Post(name, info)), ops);
            && (FindByName(after.list, name) == Some(created) <==> Delete(created.id) !in ops)
            && (FindByName(after.list, name).Some? && Delete(created.id) in ops ==>
                  FindByName(after.list, name).value.id > created.id)
  {
    var created := Record(s.nextID + 1, name, info);
    var t := Apply(s, Post(name, info));
    ApplyKeepsValid(s, Post(name, info));
    RunKeepsValid(t, ops);
    RecordStaysUnlessDeleted(t, ops, created.id);
    var after := Run(t, ops);
    FindByNameIs(after, created);
    FindByNameFinds(after.list, name);
    if FindByName(after.list, name).Some? && Delete(created.id) in ops {
      SameNameIsNewer(t, ops, created.id, FindByName(after.list, name).value);
    }
  }

  /** A record that replaced a deleted one of the same name has a larger id. */
  lemma {:induction false} SameNameIsNewer<B(!new)>(s: Store<B>, ops: seq<Op<B>>, id: int, later: Record<B>)
    requires Valid(s) && id in s.byID && s.nextID == id
    requires later in Run(s, ops).list && later.name == s.byID[id].name && Delete(id) in ops
    ensures later.id > id
  {
    RunKeepsValid(s, ops);
    RecordStaysUnlessDeleted(s, ops, id);
    if later.id < id {
      assert later.id in Run(s, ops).byID;
      if later.id in s.byID {
        assert s.byID[later.id] in s.list && s.byID[id] in s.list;
        RecordStaysUnlessDeleted(s, ops, later.id);
      } else {
        DeletedIDStaysAbsent(s, ops, later.id);
      }
    }
  }

  /** The same race in the concrete: a creator's fetch can return somebody
      else's record when its own was deleted and the name taken again. */
  lemma FetchedRecordMayBeAnothers()
    ensures var s: Store<int> := Store(map[], [], 0);
            var after := Run(Apply(s, Post("n", 1)), [Delete(1), Post("n", 2)]);
            FindByName(after.list, "n") == Some(Record(2, "n", 2))
  {
    var s: Store<int> := Store(map[], [], 0);
    var t := Apply(s, Post("n", 1));
    assert t == Store(map[1 := Record(1, "n", 1)], [Record(1, "n", 1)], 1);
    var u := Apply(t, Delete(1));
    assert u == Store(map[], [], 1);
    var v := Apply(u, Post("n", 2));
    assert v.list == [Record(2, "n", 2)];
    var ops: seq<Op<int>> := [Delete(1), Post("n", 2)];
    assert ops[1..] == [Post("n", 2)] && ops[1..][1..] == [];
  }

  // ---- Conservation of names ----

  function Present<B>(s: Store<B>, name: string): int {
    if FindByName(s.list, name).Some? then 1 else 0
  }

  /** +1 when the operation creates the name, -1 when it deletes its record. */
  function Change<B>(s: Store<B>, op: Op<B>, name: string): int {
    match op
    case Read => 0
    case Post(n, _) => if n == name && FindByName(s.list, n).None? then 1 else 0
    case Delete(id) => if id in s.byID && s.byID[id].name == name then -1 else 0
  }

  function TotalChange<B>(s: Store<B>, ops: seq<Op<B>>, name: string): int
    decreases |ops|
  {
    if ops == [] then 0 else Change(s, ops[0], name) + TotalChange(Apply(s, ops[0]), ops[1..], name)
  }

  lemma PostConserves<B(!new)>(s: Store<B>, n: string, info: B, name: string)
    ensures Present(Apply(s, Post(n, info)), name) == Present(s, name) + Change(s, Post(n, info), name)
  {
    var t := Apply(s, Post(n, info));
    FindByNameFinds(s.list, name);
    FindByNameFinds(t.list, name);
    if t != s {
      assert t.list[|s.list|].name == n;
      assert forall i :: 0 <= i < |s.list| ==> t.list[i] == s.list[i];
    }
  }

  lemma DeleteConserves<B(!new)>(s: Store<B>, id: int, name: string)
    requires Valid(s) && id in s.byID
    ensures Present(Apply(s, Delete(id)), name) == Present(s, name) + Change(s, Delete(id), name)
  {
    var t := Without(s.list, id);
    FindByNameFinds(s.list, name);
    FindByNameFinds(t, name);
    WithoutKeepsTheRest(s.list, id);
    assert s.byID[id] in s.list;
    hide FindByName, Without;
  }

  lemma ApplyConserves<B(!new)>(s: Store<B>, op: Op<B>, name: string)
    requires Valid(s)
    ensures Present(Apply(s, op), name) == Present(s, name) + Change(s, op, name)
  {
    match op
    case Read =>
    case Post(n, info) => PostConserves(s, n, info, name);
    case Delete(id) => if id in s.byID { DeleteConserves(s, id, name); }
  }

  /** For every name and every interleaving: presence at the start, plus the
      creations that succeeded, minus the deletions that removed it, is presence
      at the end, and presence is 0 or 1. */
  lemma {:induction false} NamesAreConserved<B(!new)>(s: Store<B>, ops: seq<Op<B>>, name: string)
    requires Valid(s)
    ensures Present(s, name) + TotalChange(s, ops, name) == Present(Run(s, ops), name)
    decreases |ops|
  {
    if ops != [] {
      ApplyConserves(s, ops[0], name);
      ApplyKeepsValid(s, ops[0]);
      NamesAreConserved(Apply(s, ops[0]), ops[1..], name);
    }
  }
}
