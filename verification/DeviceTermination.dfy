/** When a sync without totals is cut short, and why every sync ends
    (pkg/connector/managedDevice.go). */
module DeviceTermination {
  import opened Wrappers
  import opened GoInt
  import opened Pagination
  import opened DevicePageToken
  import opened DeviceSync
  import opened DevicePaging

  // ---- Without totals, below the requested page size ----

  /** Without totals, a cap below the requested page size makes the first page
      of a phase look like the last. */
  lemma CappedPhaseEndsAfterOnePage(s: Setting, k: nat, phase: string)
    requires s.Stable() && IsPhase(phase) && !s.totals && s.cap < PageSize(s.size)
    ensures s.Eff() >= 1
    ensures ListStep(At([], phase, NewDevicePageToken(0, 0)), s.size, s.world(k)) ==
            Ok(Listing(PageSlice(s.Inventory(phase), 0, s.Eff()), After([], phase)))
  {
    var token := At([], phase, NewDevicePageToken(0, 0));
    PositionOfNewToken([], phase, 0, 0);
    hide ListStep, PositionIn, NewDevicePageToken;
    ListAnswersPage(s, k, [], phase, token);
  }

  lemma CappedSyncWithoutTotalsIsCutShort(s: Setting, fuel: nat)
    requires s.Stable() && !s.totals && s.cap < PageSize(s.size) && fuel >= 2
    ensures s.Eff() >= 1
    ensures Drive(ListCalls(s.world, s.size), NoToken, 0, [], fuel) ==
            Done(2, PageSlice(s.Inventory(PHASE_COMPUTER), 0, s.Eff()) + PageSlice(s.Inventory(PHASE_MOBILE), 0, s.Eff()))
  {
    EmptyTokenStartsComputers(s.world, s.size, 0, [], fuel);
    CappedPhaseEndsAfterOnePage(s, 0, PHASE_COMPUTER);
    CappedPhaseEndsAfterOnePage(s, 1, PHASE_MOBILE);
    hide ListStep, NewDevicePageToken;
    var call := ListCalls(s.world, s.size);
    var first := PageSlice(s.Inventory(PHASE_COMPUTER), 0, s.Eff());
    assert [] + first == first;
    assert Drive(call, EmptyTokenStart(), 0, [], fuel) == Drive(call, After([], PHASE_COMPUTER), 1, first, fuel - 1);
    var second := PageSlice(s.Inventory(PHASE_MOBILE), 0, s.Eff());
    assert Drive(call, After([], PHASE_COMPUTER), 1, first, fuel - 1) == Resume(call, NoToken, 2, first + second, fuel - 2);
  }

  /** Exactly when a sync over a server that holds still misses nothing: it
      reports totals, or it serves pages of the requested size, or each
      inventory fits one capped page. */
  lemma SyncIsCompleteExactlyWhen(s: Setting, fuel: nat)
    requires s.Stable() && s.Eff() >= 1
    ensures var o := Drive(ListCalls(s.world, s.size), NoToken, 0, [], fuel);
            fuel >= SyncCalls(s) + 2 ==>
            && o.Done?
            && (o.records == AllDevices(s) <==>
                s.totals || s.cap >= PageSize(s.size) || (|s.computers| <= s.cap && |s.mobiles| <= s.cap))
  {
    hide ListStep, Drive, SyncCalls;
    if s.totals || s.cap >= PageSize(s.size) {
      SyncDeliversEveryDevice(s, fuel);
    } else if fuel >= 2 {
      CappedSyncWithoutTotalsIsCutShort(s, fuel);
      var c, m := s.Inventory(PHASE_COMPUTER), s.Inventory(PHASE_MOBILE);
      var got := PageSlice(c, 0, s.Eff()) + PageSlice(m, 0, s.Eff());
      assert PageStart(1, s.Eff()) == s.Eff();
      assert |got| == Min(s.Eff(), |c|) + Min(s.Eff(), |m|);
      if |c| <= s.cap && |m| <= s.cap {
        assert PageSlice(c, 0, s.Eff()) == c && PageSlice(m, 0, s.Eff()) == m;
      } else {
        assert |got| < |AllDevices(s)|;
      }
    }
  }

  // ---- Every sync ends ----

  /** Endpoints that may change from call to call, fail, and report any total,
      but serve nothing from page `last` on. */
  ghost predicate EmptyFrom(world: nat -> DeviceApi, last: Int) {
    && last >= 0
    && (forall k: nat, page: Int, size: Int :: page >= last && world(k).computers(page, size).Ok? ==>
          world(k).computers(page, size).value.results == [])
    && (forall k: nat, page: Int, size: Int :: page >= last && world(k).mobiles(page, size).Ok? ==>
          world(k).mobiles(page, size).value.results == [])
  }

  /** Calls still possible for one saved page state. */
  function StateBudget(state: PageState, last: Int): nat
    requires last >= 0
  {
    var page := ParseDevicePageToken(state.token).0;
    var here := if page < last then last - page + 1 else 1;
    if state.phase == PHASE_COMPUTER then here + (last + 1)
    else if state.phase == PHASE_MOBILE then here
    else 1
  }

  function StackBudget(states: seq<PageState>, last: Int): nat
    requires last >= 0
  {
    if states == [] then 0 else StackBudget(states[..|states| - 1], last) + StateBudget(states[|states| - 1], last)
  }

  function BagBudget(b: BagState, last: Int): nat
    requires last >= 0
  {
    StackBudget(b.states, last) + if b.current.None? then 0 else StateBudget(b.current.value, last)
  }

  /** Calls still possible for a page token; a token that cannot be decoded
      costs the call that fails. */
  function TokenBudget(token: Token, last: Int): nat
    requires last >= 0
  {
    match token
    case NoToken => 2 * (last + 1)
    case Corrupt => 1
    case Encoded(b) => BagBudget(OpenBag(b), last)
  }

  lemma StartBudget(phase: string, last: Int)
    requires last >= 0 && IsPhase(phase)
    ensures StateBudget(StartOfPhase(phase), last) == if phase == PHASE_COMPUTER then 2 * (last + 1) else last + 1
  {
    TokenRoundTrip(0, 0);
  }

  lemma PopBudget(b: BagState, last: Int)
    requires last >= 0 && b.current.Some?
    ensures BagBudget(b.Pop(), last) == StackBudget(b.states, last)
    ensures BagBudget(b.Pop().Push(StartOfPhase(PHASE_MOBILE)), last) == StackBudget(b.states, last) + last + 1
  {
    StartBudget(PHASE_MOBILE, last);
    hide StateBudget;
    if b.states != [] {
      assert b.states[..|b.states| - 1] + [b.states[|b.states| - 1]] == b.states;
    }
  }

  /** What one call makes of the bag costs at least one unit of its budget. */
  lemma AdvanceSpendsBudget(b: BagState, more: bool, page: Int, seen: Int, got: Int, last: Int)
    requires last >= 0 && b.current.Some? && IsPhase(b.current.value.phase)
    requires ParseDevicePageToken(b.current.value.token) == (page, seen)
    requires more ==> page < last
    ensures BagBudget(Advance(b, more, page, seen, got), last) < BagBudget(b, last)
  {
    if more {
      TokenRoundTrip(Add(page, 1), Add(seen, got));
      hide NewDevicePageToken, ParseDevicePageToken;
    } else {
      PopBudget(b, last);
      hide BagState.Pop, BagState.Push, ParseDevicePageToken, NewDevicePageToken;
    }
  }

  lemma TokenBudgetOfBag(token: Token, last: Int)
    requires last >= 0 && token != Corrupt
    ensures TokenBudget(token, last) == BagBudget(OpenBag(Unmarshal(token).value), last)
  {
    StartBudget(PHASE_COMPUTER, last);
  }

  /** A page that is not empty comes before page `last`. */
  lemma FetchIsEmptyFrom(world: nat -> DeviceApi, k: nat, phase: string, page: Int, size: Int, last: Int)
    requires EmptyFrom(world, last) && IsPhase(phase)
    ensures var r := Fetch(world(k), phase, page, size);
            r.Ok? && r.value.results != [] ==> page < last
  {
  }

  /** The measure: a call that does not fail ends the sync or returns a token
      with a smaller budget, whatever totals it was told. */
  lemma CallSpendsBudget(world: nat -> DeviceApi, size: Int, token: Token, k: nat, last: Int)
    requires EmptyFrom(world, last)
    ensures TokenBudget(token, last) >= 1
    ensures var r := ListStep(token, size, world(k));
            r.Ok? && r.value.next != NoToken ==> TokenBudget(r.value.next, last) < TokenBudget(token, last)
  {
    if token != Corrupt {
      TokenBudgetOfBag(token, last);
      var r := ListStep(token, size, world(k));
      var bag := OpenBag(Unmarshal(token).value);
      if r.Ok? {
        var (page, seen) := ParseDevicePageToken(bag.current.value.token);
        var p := Fetch(world(k), bag.current.value.phase, page, PageSize(size)).value;
        var more := HasMorePages(seen, PageSize(size), p.totalCount, |p.results|);
        FetchIsEmptyFrom(world, k, bag.current.value.phase, page, PageSize(size), last);
        AdvanceSpendsBudget(bag, more, page, seen, |p.results|, last);
        assert r.value.next == Marshal(Advance(bag, more, page, seen, |p.results|));
        hide ListStep, Advance, StateBudget, StackBudget, ParseDevicePageToken, EmptyFrom;
        if r.value.next != NoToken {
          TokenBudgetOfBag(r.value.next, last);
        }
      }
    }
  }

  /** From every token, over every sequence of server answers that are empty
      from page `last` on, the sync ends, within the token's budget of calls:
      from the empty token, last + 1 for each of the two phases. */
  lemma {:induction false} EverySyncEnds(
    world: nat -> DeviceApi, size: Int, token: Token, calls: nat, records: seq<Listed>, last: Int, fuel: nat)
    requires EmptyFrom(world, last) && fuel >= TokenBudget(token, last)
    ensures var o := Drive(ListCalls(world, size), token, calls, records, fuel);
            !o.Running? && o.calls <= calls + TokenBudget(token, last)
    decreases fuel
  {
    hide ListStep, TokenBudget, EmptyFrom;
    CallSpendsBudget(world, size, token, calls, last);
    var call := ListCalls(world, size);
    assert call(token, calls) == ListStep(token, size, world(calls));
    var r := call(token, calls);
    if r.Ok? && r.value.next != NoToken {
      EverySyncEnds(world, size, r.value.next, calls + 1, records + r.value.records, last, fuel - 1);
    }
  }

  /** A fresh sync takes at most last + 1 calls for each phase. */
  lemma FreshSyncEnds(world: nat -> DeviceApi, size: Int, last: Int, fuel: nat)
    requires EmptyFrom(world, last) && fuel >= 2 * (last + 1)
    ensures var o := Drive(ListCalls(world, size), NoToken, 0, [], fuel);
            !o.Running? && o.calls <= 2 * (last + 1)
  {
    hide ListStep, Drive, EmptyFrom;
    EverySyncEnds(world, size, NoToken, 0, [], last, fuel);
  }
}
