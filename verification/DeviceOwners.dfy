/** What the builder remembers about device owners over its whole history
    (pkg/connector/managedDevice.go). */
module DeviceOwners {
  import opened Wrappers
  import opened GoInt
  import opened Pagination
  import opened DeviceSync

  lemma {:induction false} RecordAllConcat(owners: Owners, a: seq<Listed>, b: seq<Listed>)
    ensures RecordAll(owners, a + b) == RecordAll(RecordAll(owners, a), b)
  {
    if b == [] {
      assert a + b == a;
    } else {
      assert (a + b)[..|a + b| - 1] == a + b[..|b| - 1];
      RecordAllConcat(owners, a, b[..|b| - 1]);
    }
  }

  /** `ls[i]` is the last record that names an owner for the device. */
  ghost predicate LastNonEmptyAt(ls: seq<Listed>, objectID: string, i: int) {
    0 <= i < |ls| && ls[i].objectID == objectID && ls[i].owner != NO_OWNER
    && forall j :: i < j < |ls| && ls[j].objectID == objectID ==> ls[j].owner == NO_OWNER
  }

  ghost predicate NeverOwned(ls: seq<Listed>, objectID: string) {
    forall j :: 0 <= j < |ls| && ls[j].objectID == objectID ==> ls[j].owner == NO_OWNER
  }

  /** The assignee is the owner of the last record that named one; records
      without an owner never clear it. */
  lemma {:induction false} AssigneeIsLastNonEmpty(ls: seq<Listed>, objectID: string)
    ensures var a := DeviceAssignee(RecordAll(map[], ls), objectID);
            if a == NO_OWNER then NeverOwned(ls, objectID)
            else exists i :: LastNonEmptyAt(ls, objectID, i) && ls[i].owner == a
  {
    if ls != [] {
      var init, last := ls[..|ls| - 1], ls[|ls| - 1];
      AssigneeIsLastNonEmpty(init, objectID);
      var before := DeviceAssignee(RecordAll(map[], init), objectID);
      if last.objectID == objectID && last.owner != NO_OWNER {
        assert LastNonEmptyAt(ls, objectID, |ls| - 1);
      } else if before != NO_OWNER {
        var i :| LastNonEmptyAt(init, objectID, i) && init[i].owner == before;
        assert LastNonEmptyAt(ls, objectID, i);
      }
    }
  }

  /** A device id names both its phase and the id Jamf gave it. */
  lemma DeviceObjectIDInjective(p: string, i: string, q: string, j: string)
    requires IsPhase(p) && IsPhase(q) && DeviceObjectID(p, i) == DeviceObjectID(q, j)
    ensures p == q && i == j
  {
    var x, y := DeviceObjectID(p, i), DeviceObjectID(q, j);
    assert x[0] == p[0] && y[0] == q[0];
    assert x[|p| + 1..] == i && y[|q| + 1..] == j;
  }

  // ---- Many List calls on one builder ----

  datatype ListCall = ListCall(token: Token, size: Int, api: DeviceApi)

  /** The records of the calls that did not fail, in order. */
  function Recorded(history: seq<ListCall>): seq<Listed> {
    if history == [] then []
    else
      var last := history[|history| - 1];
      Recorded(history[..|history| - 1]) +
      match ListStep(last.token, last.size, last.api) case Ok(l) => l.records case Err(_) => []
  }

  /** The owners a fresh builder holds after the calls of `history`. */
  function OwnersAfter(history: seq<ListCall>): Owners {
    if history == [] then map[]
    else
      var last := history[|history| - 1];
      var before := OwnersAfter(history[..|history| - 1]);
      match ListStep(last.token, last.size, last.api) case Ok(l) => RecordAll(before, l.records) case Err(_) => before
  }

  lemma {:induction false} OwnersAfterIsRecordAll(history: seq<ListCall>)
    ensures OwnersAfter(history) == RecordAll(map[], Recorded(history))
  {
    if history != [] {
      hide ListStep;
      var last, init := history[|history| - 1], history[..|history| - 1];
      OwnersAfterIsRecordAll(init);
      match ListStep(last.token, last.size, last.api)
      case Ok(l) => RecordAllConcat(map[], Recorded(init), l.records);
      case Err(_) => assert Recorded(init) + [] == Recorded(init);
    }
  }

  /** Over any history of calls, from any tokens and to any servers, the
      assignee of a device is the last non-empty owner recorded for it. */
  lemma AssigneeOverHistory(history: seq<ListCall>, objectID: string)
    ensures var a := DeviceAssignee(OwnersAfter(history), objectID);
            if a == NO_OWNER then NeverOwned(Recorded(history), objectID)
            else exists i :: LastNonEmptyAt(Recorded(history), objectID, i) && Recorded(history)[i].owner == a
  {
    OwnersAfterIsRecordAll(history);
    AssigneeIsLastNonEmpty(Recorded(history), objectID);
  }

  /** Without repeated ids, the assignee is just what the record says. */
  lemma AssigneeOfUniqueRecord(ls: seq<Listed>, i: nat)
    requires i < |ls|
    requires forall j, k :: 0 <= j < k < |ls| ==> ls[j].objectID != ls[k].objectID
    ensures DeviceAssignee(RecordAll(map[], ls), ls[i].objectID) == ls[i].owner
  {
    AssigneeIsLastNonEmpty(ls, ls[i].objectID);
  }
}
