/** One List call of the managed-device syncer as a function of the page token
    and of what Jamf answers (pkg/connector/managedDevice.go). */
module DeviceSync {
  import opened Wrappers
  import opened GoInt
  import opened Pagination
  import opened DevicePageToken

  const PHASE_COMPUTER := "computer"
  const PHASE_MOBILE := "mobile"
  const DEFAULT_PAGE_SIZE: int := 100

  datatype Owner = Owner(username: string, email: string)

  const NO_OWNER := Owner("", "")

  datatype UserAndLocation = UserAndLocation(username: string, email: string, emailAddress: string) {
    function EmailAddr(): string {
      if email != "" then email else emailAddress
    }
  }

  datatype Computer = Computer(id: string, userAndLocation: Option<UserAndLocation>)

  datatype MobileDevice = MobileDevice(id: string, username: string)

  /** What List takes from one record: the resource it returns and the owner it
      records, NO_OWNER when there is nothing to record. */
  datatype Listed = Listed(objectID: string, owner: Owner)

  function DeviceObjectID(phase: string, id: string): string {
    phase + ":" + id
  }

  function ComputerListed(c: Computer): Listed {
    Listed(DeviceObjectID(PHASE_COMPUTER, c.id),
           if c.userAndLocation.None? then NO_OWNER
           else Owner(c.userAndLocation.value.username, c.userAndLocation.value.EmailAddr()))
  }

  function MobileListed(m: MobileDevice): Listed {
    Listed(DeviceObjectID(PHASE_MOBILE, m.id), Owner(m.username, ""))
  }

  datatype ListError = BadToken | ApiError | UnknownPhase(phase: string)

  datatype Page<T> = Page(totalCount: Int, results: Slice<T>)

  /** The two inventory endpoints, each a function of page and page size. */
  datatype DeviceApi = DeviceApi(
    computers: (Int, Int) -> Result<Page<Computer>, ListError>,
    mobiles: (Int, Int) -> Result<Page<MobileDevice>, ListError>)

  predicate IsPhase(phase: string) {
    phase == PHASE_COMPUTER || phase == PHASE_MOBILE
  }

  function Fetch(api: DeviceApi, phase: string, page: Int, size: Int): Result<Page<Listed>, ListError>
    requires IsPhase(phase)
  {
    if phase == PHASE_COMPUTER then
      match api.computers(page, size)
      case Err(e) => Err(e)
      case Ok(p) => Ok(Page(p.totalCount, Map(ComputerListed, p.results)))
    else
      match api.mobiles(page, size)
      case Err(e) => Err(e)
      case Ok(p) => Ok(Page(p.totalCount, Map(MobileListed, p.results)))
  }

  predicate HasMorePages(seenBefore: Int, pageSize: Int, totalCount: Int, gotThisPage: Int) {
    if gotThisPage == 0 then false
    else if totalCount > 0 then Add(seenBefore, gotThisPage) < totalCount
    else gotThisPage >= pageSize
  }

  function PageSize(size: Int): Int {
    if size <= 0 then DEFAULT_PAGE_SIZE else size
  }

  function StartOfPhase(phase: string): PageState {
    PageState(phase, NewDevicePageToken(0, 0))
  }

  /** The bag a call works on: a fresh sync starts with the computers. */
  function OpenBag(b: BagState): (r: BagState)
    ensures r.current.Some?
  {
    if b.current.None? then b.Push(StartOfPhase(PHASE_COMPUTER)) else b
  }

  /** The bag a call leaves behind. */
  function Advance(b: BagState, more: bool, page: Int, seen: Int, got: Int): BagState
    requires b.current.Some?
  {
    if more then b.(current := Some(b.current.value.(token := NewDevicePageToken(Add(page, 1), Add(seen, got)))))
    else if b.current.value.phase == PHASE_COMPUTER then b.Pop().Push(StartOfPhase(PHASE_MOBILE))
    else b.Pop()
  }

  datatype Listing = Listing(records: seq<Listed>, next: Token)

  function ListStep(token: Token, size: Int, api: DeviceApi): Result<Listing, ListError> {
    match Unmarshal(token)
    case Err(_) => Err(BadToken)
    case Ok(decoded) =>
      var bag := OpenBag(decoded);
      var phase := bag.current.value.phase;
      var (page, seen) := ParseDevicePageToken(bag.current.value.token);
      if !IsPhase(phase) then Err(UnknownPhase(phase))
      else
        match Fetch(api, phase, page, PageSize(size))
        case Err(e) => Err(e)
        case Ok(p) =>
          var more := HasMorePages(seen, PageSize(size), p.totalCount, |p.results|);
          Ok(Listing(p.results, Marshal(Advance(bag, more, page, seen, |p.results|))))
  }

  // ---- The owners a builder remembers ----

  type Owners = map<string, Owner>

  function RecordOwner(owners: Owners, l: Listed): Owners {
    if l.owner == NO_OWNER then owners else owners[l.objectID := l.owner]
  }

  function RecordAll(owners: Owners, ls: seq<Listed>): Owners {
    if ls == [] then owners
    else RecordOwner(RecordAll(owners, ls[..|ls| - 1]), ls[|ls| - 1])
  }

  function DeviceAssignee(owners: Owners, objectID: string): Owner {
    if objectID in owners then owners[objectID] else NO_OWNER
  }

  // ---- A whole sync ----

  /** How a sync that is granted `fuel` calls ends. */
  datatype Outcome =
    | Done(calls: nat, records: seq<Listed>)
    | Running
    | Failed(calls: nat, error: ListError)

  /** What the k-th call of a sync returns for a page token. */
  type Caller = (Token, nat) -> Result<Listing, ListError>

  /** List calls against endpoints that may change from call to call:
      `world(k)` is what they answer during the k-th one. */
  function ListCalls(world: nat -> DeviceApi, size: Int): Caller {
    (token: Token, k: nat) => ListStep(token, size, world(k))
  }

  /** The SDK's loop: call List with the token the last call returned until it
      returns the empty one. */
  function Drive(call: Caller, token: Token, calls: nat, records: seq<Listed>, fuel: nat): Outcome
    decreases fuel, 0
  {
    if fuel == 0 then Running
    else
      match call(token, calls)
      case Err(e) => Failed(calls + 1, e)
      case Ok(l) => Resume(call, l.next, calls + 1, records + l.records, fuel - 1)
  }

  /** Where the loop stands after a call returned `token`. */
  function Resume(call: Caller, token: Token, calls: nat, records: seq<Listed>, fuel: nat): Outcome
    decreases fuel, 1
  {
    if token == NoToken then Done(calls, records) else Drive(call, token, calls, records, fuel)
  }
}
