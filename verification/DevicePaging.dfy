/** Completeness, exactly-once delivery, resumption and termination of the
    managed-device sync, over whole runs of List calls. */
module DevicePaging {
  import opened Wrappers
  import opened GoInt
  import opened Pagination
  import opened DevicePageToken
  import opened DeviceSync

  // ---- Pages ----

  function Min(a: int, b: int): int {
    if a <= b then a else b
  }

  /** Where page `page` starts when every earlier page holds `eff` records. */
  function PageStart(page: nat, eff: nat): nat {
    if page == 0 then 0 else PageStart(page - 1, eff) + eff
  }

  /** How many of `n` records come before page `page`. */
  function Before(n: nat, page: nat, eff: nat): nat {
    Min(PageStart(page, eff), n)
  }

  function PageSlice<T>(inventory: seq<T>, page: nat, eff: nat): seq<T> {
    inventory[Before(|inventory|, page, eff)..Before(|inventory|, page + 1, eff)]
  }

  /** Pages needed for n records, and full pages among n records. */
  function PagesFor(n: nat, eff: nat): nat
    requires eff >= 1
  {
    if n == 0 then 0 else 1 + PagesFor(n - Min(n, eff), eff)
  }

  function FullPages(n: nat, eff: nat): nat
    requires eff >= 1
  {
    if n < eff then 0 else 1 + FullPages(n - eff, eff)
  }

  lemma {:induction false} PageStartIsProduct(page: nat, eff: nat)
    ensures PageStart(page, eff) == page * eff
  {
    if page > 0 {
      PageStartIsProduct(page - 1, eff);
      assert page * eff == (page - 1) * eff + eff;
    }
  }

  lemma {:induction false} PageStartAtLeastPage(page: nat, eff: nat)
    requires eff >= 1
    ensures page <= PageStart(page, eff)
  {
    if page > 0 {
      PageStartAtLeastPage(page - 1, eff);
    }
  }

  lemma QuotientIs(n: nat, d: nat, q: nat)
    requires d >= 1 && d * q <= n < d * q + d
    ensures n / d == q
  {
    var p := n / d;
    assert d * p <= n < d * p + d;
    assert p < q ==> d * (p + 1) <= d * q;
    assert q < p ==> d * (q + 1) <= d * p;
  }

  lemma {:induction false} FullPagesIsQuotient(n: nat, eff: nat)
    requires eff >= 1
    ensures eff * FullPages(n, eff) <= n < eff * FullPages(n, eff) + eff
    ensures FullPages(n, eff) == n / eff
  {
    if n >= eff {
      FullPagesIsQuotient(n - eff, eff);
      var q := FullPages(n - eff, eff);
      assert eff * (q + 1) == eff * q + eff;
    }
    QuotientIs(n, eff, FullPages(n, eff));
  }

  lemma {:induction false} PagesForIsCeiling(n: nat, eff: nat)
    requires eff >= 1
    ensures PagesFor(n, eff) == (n + eff - 1) / eff
  {
    if n == 0 {
      QuotientIs(eff - 1, eff, 0);
    } else if n <= eff {
      QuotientIs(n + eff - 1, eff, 1);
    } else {
      PagesForIsCeiling(n - eff, eff);
      var q := PagesFor(n - eff, eff);
      assert eff * (q + 1) == eff * q + eff;
      QuotientIs(n + eff - 1, eff, q + 1);
    }
  }

  // ---- One paginated phase ----

  /** Calls a phase of n records takes from page `page` when the token says
      `seen`: with totals, one per remaining page and one more if `seen` is too
      low; without, one per full page and the short one that ends it. */
  function CallsFrom(totals: bool, n: nat, eff: nat, page: nat, seen: int): nat
    requires eff >= 1
  {
    var left := n - Before(n, page, eff);
    if !totals then FullPages(left, eff) + 1
    else if left == 0 then 1
    else PagesFor(left, eff) + if seen < Before(n, page, eff) then 1 else 0
  }

  /** The arithmetic of one call: whether it asks for another page, and what
      is then left to do. */
  lemma CallsFromNextPage(totals: bool, n: Int, eff: nat, pageSize: Int, page: nat, seen: Int)
    requires eff >= 1 && n >= 0 && pageSize >= 1
    requires totals ==> seen <= Before(n, page, eff)
    requires !totals ==> eff == pageSize
    ensures var got: Int := Before(n, page + 1, eff) - Before(n, page, eff);
            var more := HasMorePages(seen, pageSize, if totals then n else 0, got);
            && CallsFrom(totals, n, eff, page, seen) ==
               1 + (if more then CallsFrom(totals, n, eff, page + 1, Add(seen, got)) else 0)
            && (if more
                then Before(n, page, eff) < Before(n, page + 1, eff) && PageStart(page, eff) < n
                     && (totals ==> Add(seen, got) <= Before(n, page + 1, eff))
                else Before(n, page + 1, eff) == n)
  {
    if n <= PageStart(page, eff) + eff && totals && PageStart(page, eff) < n {
      var left := n - PageStart(page, eff);
      assert PagesFor(left - Min(left, eff), eff) == 0;
    }
  }

  lemma SuffixFromPage<T>(records: seq<T>, inventory: seq<T>, page: nat, eff: nat)
    ensures var slice := PageSlice(inventory, page, eff);
            var stop := Before(|inventory|, page + 1, eff);
            && |slice| == stop - Before(|inventory|, page, eff)
            && records + inventory[Before(|inventory|, page, eff)..] == (records + slice) + inventory[stop..]
            && (stop == |inventory| ==> records + inventory[Before(|inventory|, page, eff)..] == records + slice)
  {
  }

  datatype Position = InPhase(page: Int, seen: Int) | Elsewhere

  /** An answer at position `here` of a phase: that page's slice of the
      inventory and then, as HasMorePages says, a token of the next position or
      the token `after`. `there` is the position of the token it returns. */
  ghost predicate AnswersPage(
    answer: Result<Listing, ListError>, here: Position, there: Position, after: Token,
    inventory: Slice<Listed>, eff: nat, pageSize: Int, totals: bool)
    requires here.InPhase? && here.page >= 0
  {
    var slice := PageSlice(inventory, here.page, eff);
    && answer.Ok?
    && answer.value.records == slice
    && if HasMorePages(here.seen, pageSize, if totals then |inventory| else 0, |slice|)
       then answer.value.next != NoToken && there == InPhase(Add(here.page, 1), Add(here.seen, |slice|))
       else answer.value.next == after
  }

  function NextOf(answer: Result<Listing, ListError>): Token {
    if answer.Ok? then answer.value.next else NoToken
  }

  /** `call` pages through `inventory` from every token that has a position. */
  ghost predicate PagesThrough(
    call: Caller, position: Token -> Position, after: Token, inventory: Slice<Listed>, eff: nat, pageSize: Int, totals: bool)
  {
    forall token: Token, k: nat :: position(token).InPhase? && position(token).page >= 0 ==>
      AnswersPage(call(token, k), position(token), position(NextOf(call(token, k))), after, inventory, eff, pageSize, totals)
  }

  /** Walking a phase from any position delivers exactly the suffix of the
      inventory from its page, in order and once, in exactly CallsFrom calls. */
  lemma {:induction false} WalkDeliversSuffix(
    call: Caller, position: Token -> Position, after: Token,
    inventory: Slice<Listed>, eff: nat, pageSize: Int, totals: bool,
    token: Token, page: Int, seen: Int, calls: nat, records: seq<Listed>, fuel: nat)
    requires PagesThrough(call, position, after, inventory, eff, pageSize, totals)
    requires eff >= 1 && pageSize >= 1
    requires position(token) == InPhase(page, seen) && page >= 0
    requires totals ==> seen <= Before(|inventory|, page, eff)
    requires !totals ==> eff == pageSize
    requires fuel >= CallsFrom(totals, |inventory|, eff, page, seen)
    ensures var n := CallsFrom(totals, |inventory|, eff, page, seen);
            Drive(call, token, calls, records, fuel) ==
            Resume(call, after, calls + n, records + inventory[Before(|inventory|, page, eff)..], fuel - n)
    decreases |inventory| - Before(|inventory|, page, eff)
  {
    hide CallsFrom, HasMorePages, PageStart;
    var slice := PageSlice(inventory, page, eff);
    var next := NextOf(call(token, calls));
    assert AnswersPage(call(token, calls), position(token), position(next), after, inventory, eff, pageSize, totals);
    CallsFromNextPage(totals, |inventory|, eff, pageSize, page, seen);
    SuffixFromPage(records, inventory, page, eff);
    assert Drive(call, token, calls, records, fuel) == Resume(call, next, calls + 1, records + slice, fuel - 1);
    if HasMorePages(seen, pageSize, if totals then |inventory| else 0, |slice|) {
      PageStartAtLeastPage(page, eff);
      WalkDeliversSuffix(call, position, after, inventory, eff, pageSize, totals,
                         next, page + 1, Add(seen, |slice|), calls + 1, records + slice, fuel - 1);
    }
  }

  // ---- A server that does not change during the sync ----

  /** An endpoint over a fixed inventory that never serves more than `cap`
      records a page, and reports its true total or none at all. */
  ghost predicate Serves<T(!new)>(
    endpoint: (Int, Int) -> Result<Page<T>, ListError>, inventory: Slice<T>, cap: Int, totals: bool)
  {
    cap >= 1
    && forall page: Int, size: Int :: page >= 0 && size >= 1 ==>
         endpoint(page, size) ==
         Ok(Page(if totals then |inventory| else 0, PageSlice(inventory, page, Min(size, cap))))
  }

  datatype Setting = Setting(
    world: nat -> DeviceApi, computers: Slice<Computer>, mobiles: Slice<MobileDevice>, cap: Int, totals: bool, size: Int)
  {
    ghost predicate Stable() {
      && (forall k: nat :: Serves(world(k).computers, computers, cap, totals))
      && (forall k: nat :: Serves(world(k).mobiles, mobiles, cap, totals))
    }

    /** Records per page actually served. */
    function Eff(): int {
      Min(PageSize(size), cap)
    }

    function Inventory(phase: string): Slice<Listed> {
      if phase == PHASE_COMPUTER then Map(ComputerListed, computers) else Map(MobileListed, mobiles)
    }
  }

  /** The token of a phase in progress above the saved states `below`. */
  function At(below: seq<PageState>, phase: string, token: string): Token {
    Encoded(BagState(below, Some(PageState(phase, token))))
  }

  /** The token once a phase is over. */
  function After(below: seq<PageState>, phase: string): Token {
    if phase == PHASE_COMPUTER then At(below, PHASE_MOBILE, NewDevicePageToken(0, 0))
    else if below == [] then NoToken
    else Encoded(BagState(below[..|below| - 1], Some(below[|below| - 1])))
  }

  lemma MapSlice<A, B>(f: A -> B, s: seq<A>, page: nat, eff: nat)
    ensures Map(f, PageSlice(s, page, eff)) == PageSlice(Map(f, s), page, eff)
  {
  }

  lemma FetchServesSlices(s: Setting, k: nat, phase: string, page: Int)
    requires s.Stable() && IsPhase(phase) && page >= 0
    ensures s.Eff() >= 1
    ensures Fetch(s.world(k), phase, page, PageSize(s.size)) ==
            Ok(Page(if s.totals then |s.Inventory(phase)| else 0, PageSlice(s.Inventory(phase), page, s.Eff())))
  {
    assert Serves(s.world(k).computers, s.computers, s.cap, s.totals);
    assert Serves(s.world(k).mobiles, s.mobiles, s.cap, s.totals);
    if phase == PHASE_COMPUTER {
      MapSlice(ComputerListed, s.computers, page, s.Eff());
    } else {
      MapSlice(MobileListed, s.mobiles, page, s.Eff());
    }
  }

  /** Where a token stands in a phase above the saved states `below`. */
  function PositionIn(below: seq<PageState>, phase: string, token: Token): Position {
    if token.Encoded? && token.bag.states == below && token.bag.current.Some? && token.bag.current.value.phase == phase
    then
      var (page, seen) := ParseDevicePageToken(token.bag.current.value.token);
      InPhase(page, seen)
    else Elsewhere
  }

  function PhasePosition(below: seq<PageState>, phase: string): Token -> Position {
    token => PositionIn(below, phase, token)
  }

  lemma PositionOfNewToken(below: seq<PageState>, phase: string, page: Int, seen: Int)
    ensures PositionIn(below, phase, At(below, phase, NewDevicePageToken(page, seen))) == InPhase(page, seen)
  {
    TokenRoundTrip(page, seen);
  }

  /** Popping a finished phase, and pushing the mobile phase after computers. */
  lemma BagAfterPhase(below: seq<PageState>, state: PageState)
    ensures Marshal(BagState(below, Some(state)).Pop().Push(StartOfPhase(PHASE_MOBILE)))
         == At(below, PHASE_MOBILE, NewDevicePageToken(0, 0))
    ensures Marshal(BagState(below, Some(state)).Pop()) == After(below, PHASE_MOBILE)
  {
    hide NewDevicePageToken;
    if below != [] {
      assert below[..|below| - 1] + [below[|below| - 1]] == below;
    }
  }

  /** The bag after a call: at the next position of the phase, or past it. */
  lemma AdvanceInPhase(below: seq<PageState>, phase: string, text: string, more: bool, page: Int, seen: Int, got: Int)
    requires IsPhase(phase)
    ensures var next := Marshal(Advance(BagState(below, Some(PageState(phase, text))), more, page, seen, got));
            if more
            then next != NoToken && PositionIn(below, phase, next) == InPhase(Add(page, 1), Add(seen, got))
            else next == After(below, phase)
  {
    if more {
      PositionOfNewToken(below, phase, Add(page, 1), Add(seen, got));
      hide NewDevicePageToken, PositionIn, Add;
    } else {
      BagAfterPhase(below, PageState(phase, text));
      hide NewDevicePageToken, PositionIn, Add, BagState.Push, BagState.Pop;
    }
  }

  /** One List call inside a phase, whatever string the position is written as. */
  lemma ListAnswersPage(s: Setting, k: nat, below: seq<PageState>, phase: string, token: Token)
    requires s.Stable() && IsPhase(phase)
    requires PositionIn(below, phase, token).InPhase? && PositionIn(below, phase, token).page >= 0
    ensures s.Eff() >= 1
    ensures var answer := ListStep(token, s.size, s.world(k));
            AnswersPage(answer, PositionIn(below, phase, token), PositionIn(below, phase, NextOf(answer)),
                        After(below, phase), s.Inventory(phase), s.Eff(), PageSize(s.size), s.totals)
  {
    var inventory := s.Inventory(phase);
    var text := token.bag.current.value.token;
    var (page, seen) := ParseDevicePageToken(text);
    FetchServesSlices(s, k, phase, page);
    var slice := PageSlice(inventory, page, s.Eff());
    var more := HasMorePages(seen, PageSize(s.size), if s.totals then |inventory| else 0, |slice|);
    AdvanceInPhase(below, phase, text, more, page, seen, |slice|);
    assert token.bag == BagState(below, Some(PageState(phase, text)));
  }

  lemma ListPagesThroughPhase(s: Setting, below: seq<PageState>, phase: string)
    requires s.Stable() && IsPhase(phase)
    ensures s.Eff() >= 1
    ensures PagesThrough(ListCalls(s.world, s.size), PhasePosition(below, phase), After(below, phase),
                         s.Inventory(phase), s.Eff(), PageSize(s.size), s.totals)
  {
    FetchServesSlices(s, 0, phase, 0);
    forall token: Token, k: nat | PositionIn(below, phase, token).InPhase? && PositionIn(below, phase, token).page >= 0
      ensures var answer := ListStep(token, s.size, s.world(k));
              AnswersPage(answer, PositionIn(below, phase, token), PositionIn(below, phase, NextOf(answer)),
                          After(below, phase), s.Inventory(phase), s.Eff(), PageSize(s.size), s.totals)
    {
      ListAnswersPage(s, k, below, phase, token);
    }
  }

  /** A phase resumed from any token string, on a server reporting its true
      total (or none, when pages are served full): List returns exactly the
      suffix of the phase's inventory from the token's page and hands over to
      what follows the phase. A count that is too low, as in a bare token,
      costs one more call and drops nothing. */
  lemma ResumedPhaseDeliversSuffix(
    s: Setting, below: seq<PageState>, phase: string, token: string, page: Int, seen: Int,
    calls: nat, records: seq<Listed>, fuel: nat)
    requires s.Stable() && IsPhase(phase) && s.Eff() >= 1
    requires ParseDevicePageToken(token) == (page, seen) && page >= 0
    requires s.totals ==> seen <= Before(|s.Inventory(phase)|, page, s.Eff())
    requires !s.totals ==> s.cap >= PageSize(s.size)
    requires fuel >= CallsFrom(s.totals, |s.Inventory(phase)|, s.Eff(), page, seen)
    ensures var inventory := s.Inventory(phase);
            var n := CallsFrom(s.totals, |inventory|, s.Eff(), page, seen);
            Drive(ListCalls(s.world, s.size), At(below, phase, token), calls, records, fuel) ==
            Resume(ListCalls(s.world, s.size), After(below, phase), calls + n,
                   records + inventory[Before(|inventory|, page, s.Eff())..], fuel - n)
  {
    hide ListStep;
    ListPagesThroughPhase(s, below, phase);
    WalkDeliversSuffix(ListCalls(s.world, s.size), PhasePosition(below, phase), After(below, phase),
                       s.Inventory(phase), s.Eff(), PageSize(s.size), s.totals,
                       At(below, phase, token), page, seen, calls, records, fuel);
  }

  // ---- Whole syncs ----

  function EmptyTokenStart(): Token {
    At([], PHASE_COMPUTER, NewDevicePageToken(0, 0))
  }

  /** A sync that starts from the empty token starts with page 0 of the computers. */
  lemma EmptyTokenStartsComputers(world: nat -> DeviceApi, size: Int, calls: nat, records: seq<Listed>, fuel: nat)
    ensures Drive(ListCalls(world, size), NoToken, calls, records, fuel) ==
            Drive(ListCalls(world, size), EmptyTokenStart(), calls, records, fuel)
  {
    assert ListStep(NoToken, size, world(calls)) == ListStep(EmptyTokenStart(), size, world(calls));
  }

  function AllDevices(s: Setting): seq<Listed> {
    s.Inventory(PHASE_COMPUTER) + s.Inventory(PHASE_MOBILE)
  }

  /** The resource of a computer and the owner it names: none without a
      location, else the username and whichever e-mail field Jamf filled. */
  predicate ListsComputer(l: Listed, c: Computer) {
    && l.objectID == "computer:" + c.id
    && match c.userAndLocation
       case None => l.owner.username == "" && l.owner.email == ""
       case Some(u) => l.owner.username == u.username && l.owner.email == if u.email != "" then u.email else u.emailAddress
  }

  /** The resource of a mobile device, and the username alone. */
  predicate ListsMobile(l: Listed, m: MobileDevice) {
    l.objectID == "mobile:" + m.id && l.owner.username == m.username && l.owner.email == ""
  }

  /** Those fields determine the records of a page. */
  lemma ComputersDetermine(records: seq<Listed>, results: seq<Computer>)
    requires |records| == |results| && forall i :: 0 <= i < |results| ==> ListsComputer(records[i], results[i])
    ensures records == Map(ComputerListed, results)
  {
    assert forall id: string :: "computer:" + id == DeviceObjectID(PHASE_COMPUTER, id);
  }

  lemma MobilesDetermine(records: seq<Listed>, results: seq<MobileDevice>)
    requires |records| == |results| && forall i :: 0 <= i < |results| ==> ListsMobile(records[i], results[i])
    ensures records == Map(MobileListed, results)
  {
    assert forall id: string :: "mobile:" + id == DeviceObjectID(PHASE_MOBILE, id);
  }

  lemma ComputersAreListed(results: seq<Computer>)
    ensures var records := Map(ComputerListed, results);
            |records| == |results| && forall i :: 0 <= i < |results| ==> ListsComputer(records[i], results[i])
  {
  }

  lemma MobilesAreListed(results: seq<MobileDevice>)
    ensures var records := Map(MobileListed, results);
            |records| == |results| && forall i :: 0 <= i < |results| ==> ListsMobile(records[i], results[i])
  {
  }

  /** The devices of a sync, in the fields of the inventory. */
  lemma AllDevicesAre(s: Setting)
    ensures var devices, n := AllDevices(s), |s.computers|;
            && |devices| == n + |s.mobiles|
            && (forall i :: 0 <= i < n ==> ListsComputer(devices[i], s.computers[i]))
            && (forall i :: 0 <= i < |s.mobiles| ==> ListsMobile(devices[n + i], s.mobiles[i]))
  {
  }

  /** What one call asks of which endpoint and what it lists: the page named by
      the token, of the positive size requested or else of 100. Any other phase,
      an answer that is an error and an undecodable token are errors, and the
      empty token stands for page 0 of the computers. */
  lemma ListStepAsks(states: seq<PageState>, phase: string, text: string, size: Int, api: DeviceApi)
    ensures var asked: Int := if size > 0 then size else 100;
            var (page, _) := ParseDevicePageToken(text);
            var r := ListStep(Encoded(BagState(states, Some(PageState(phase, text)))), size, api);
            if phase == "computer" then
              match api.computers(page, asked)
              case Err(e) => r == Err(e)
              case Ok(p) => r.Ok? && |r.value.records| == |p.results|
                            && forall i :: 0 <= i < |p.results| ==> ListsComputer(r.value.records[i], p.results[i])
            else if phase == "mobile" then
              match api.mobiles(page, asked)
              case Err(e) => r == Err(e)
              case Ok(p) => r.Ok? && |r.value.records| == |p.results|
                            && forall i :: 0 <= i < |p.results| ==> ListsMobile(r.value.records[i], p.results[i])
            else r == Err(UnknownPhase(phase))
    ensures ListStep(Corrupt, size, api) == Err(BadToken)
    ensures ListStep(NoToken, size, api) == ListStep(Encoded(BagState([], Some(PageState("computer", "0:0")))), size, api)
  {
    hide ParseDevicePageToken, Advance, HasMorePages;
    assert NewDevicePageToken(0, 0) == "0:0";
  }

  /** How many calls a phase of n records takes from its first page. */
  function PhaseCalls(totals: bool, n: nat, eff: nat): nat
    requires eff >= 1
  {
    if totals then (if n == 0 then 1 else (n + eff - 1) / eff) else n / eff + 1
  }

  /** The calls of a whole sync from the empty token. */
  function SyncCalls(s: Setting): nat
    requires s.Eff() >= 1
  {
    PhaseCalls(s.totals, |s.computers|, s.Eff()) + PhaseCalls(s.totals, |s.mobiles|, s.Eff())
  }

  lemma CallsFromFirstPage(totals: bool, n: nat, eff: nat)
    requires eff >= 1
    ensures CallsFrom(totals, n, eff, 0, 0) == PhaseCalls(totals, n, eff)
  {
    PagesForIsCeiling(n, eff);
    FullPagesIsQuotient(n, eff);
  }

  /** A sync from the empty token over a server that reports its true totals,
      whatever its page cap, or that reports none but serves full pages, returns
      every computer and then every mobile device, in order and exactly once,
      in exactly the stated number of calls, and ends. */
  lemma SyncDeliversEveryDevice(s: Setting, fuel: nat)
    requires s.Stable() && s.Eff() >= 1 && (s.totals || s.cap >= PageSize(s.size))
    ensures fuel >= SyncCalls(s) ==>
              Drive(ListCalls(s.world, s.size), NoToken, 0, [], fuel) == Done(SyncCalls(s), AllDevices(s))
  {
    hide ListStep;
    if fuel < SyncCalls(s) {
      return;
    }
    var eff := s.Eff();
    CallsFromFirstPage(s.totals, |s.computers|, eff);
    CallsFromFirstPage(s.totals, |s.mobiles|, eff);
    var first := PhaseCalls(s.totals, |s.computers|, eff);
    hide PhaseCalls, CallsFrom;
    TokenRoundTrip(0, 0);
    EmptyTokenStartsComputers(s.world, s.size, 0, [], fuel);
    var start := NewDevicePageToken(0, 0);
    ResumedPhaseDeliversSuffix(s, [], PHASE_COMPUTER, start, 0, 0, 0, [], fuel);
    var computers := s.Inventory(PHASE_COMPUTER);
    assert [] + computers[0..] == computers;
    ResumedPhaseDeliversSuffix(s, [], PHASE_MOBILE, start, 0, 0, first, computers, fuel - first);
    assert computers + s.Inventory(PHASE_MOBILE)[0..] == AllDevices(s);
  }
}
