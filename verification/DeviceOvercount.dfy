/** A phase resumed from a token that counts more records than really came
    before its page, as one kept while devices were deleted would
    (pkg/connector/managedDevice.go). */
module DeviceOvercount {
  import opened Wrappers
  import opened GoInt
  import opened Pagination
  import opened DevicePageToken
  import opened DeviceSync
  import opened DevicePaging

  /** How many of n records have been delivered when the walk from `page`, told
      that `seen` records came before, stops. */
  function StopAt(n: nat, eff: nat, page: nat, seen: int): nat
    requires eff >= 1
    decreases n - Before(n, page, eff)
  {
    var next := Before(n, page + 1, eff);
    var seen' := seen + next - Before(n, page, eff);
    if Before(n, page, eff) == n || seen' >= n then next else StopAt(n, eff, page + 1, seen')
  }

  function OvercountedCalls(n: nat, eff: nat, page: nat, seen: int): nat
    requires eff >= 1
    decreases n - Before(n, page, eff)
  {
    var next := Before(n, page + 1, eff);
    var seen' := seen + next - Before(n, page, eff);
    if Before(n, page, eff) == n || seen' >= n then 1 else 1 + OvercountedCalls(n, eff, page + 1, seen')
  }

  /** The size of the last page when n records are left. */
  function LastPage(n: nat, eff: nat): nat
    requires eff >= 1
  {
    if n <= eff then n else LastPage(n - eff, eff)
  }

  lemma {:induction false} LastPageIsAtMost(n: nat, eff: nat)
    requires eff >= 1
    ensures LastPage(n, eff) <= eff && LastPage(n, eff) <= n
  {
    if n > eff {
      LastPageIsAtMost(n - eff, eff);
    }
  }

  /** The walk reaches the end exactly when its first page is the last, or the
      count is too high by less than the last page holds. */
  lemma {:induction false} StopAtEndExactlyWhen(n: nat, eff: nat, page: nat, seen: int)
    requires eff >= 1 && seen >= Before(n, page, eff)
    ensures var left := n - Before(n, page, eff);
            && Before(n, page, eff) <= StopAt(n, eff, page, seen) <= n
            && (StopAt(n, eff, page, seen) == n <==>
                left <= eff || seen - Before(n, page, eff) < LastPage(left, eff))
    decreases n - Before(n, page, eff)
  {
    var left := n - Before(n, page, eff);
    if left > eff {
      LastPageIsAtMost(left - eff, eff);
      if seen + eff < n {
        StopAtEndExactlyWhen(n, eff, page + 1, seen + eff);
      }
    }
  }

  /** One step of the walk, in numbers. */
  lemma StopAtNextPage(n: Int, eff: nat, pageSize: Int, page: nat, seen: Int)
    requires eff >= 1 && n >= 0 && pageSize >= 1
    requires seen >= Before(n, page, eff) && seen + n - Before(n, page, eff) <= MAX_INT
    ensures var got: Int := Before(n, page + 1, eff) - Before(n, page, eff);
            if HasMorePages(seen, pageSize, n, got)
            then StopAt(n, eff, page, seen) == StopAt(n, eff, page + 1, seen + got)
                 && OvercountedCalls(n, eff, page, seen) == 1 + OvercountedCalls(n, eff, page + 1, seen + got)
                 && Before(n, page, eff) < Before(n, page + 1, eff) && PageStart(page, eff) < n
                 && Add(seen, got) == seen + got
            else StopAt(n, eff, page, seen) == Before(n, page + 1, eff) && OvercountedCalls(n, eff, page, seen) == 1
  {
  }

  lemma SlicesJoin<T>(records: seq<T>, inventory: seq<T>, page: nat, eff: nat, stop: nat)
    requires Before(|inventory|, page + 1, eff) <= stop <= |inventory|
    ensures records + inventory[Before(|inventory|, page, eff)..stop] ==
            (records + PageSlice(inventory, page, eff)) + inventory[Before(|inventory|, page + 1, eff)..stop]
  {
  }

  lemma {:induction false} OvercountedWalk(
    call: Caller, position: Token -> Position, after: Token, inventory: Slice<Listed>, eff: nat, pageSize: Int,
    token: Token, page: Int, seen: Int, calls: nat, records: seq<Listed>, fuel: nat)
    requires PagesThrough(call, position, after, inventory, eff, pageSize, true)
    requires eff >= 1 && pageSize >= 1 && position(token) == InPhase(page, seen) && page >= 0
    requires seen >= Before(|inventory|, page, eff) && seen + |inventory| - Before(|inventory|, page, eff) <= MAX_INT
    requires fuel >= OvercountedCalls(|inventory|, eff, page, seen)
    ensures var n := OvercountedCalls(|inventory|, eff, page, seen);
            var stop := StopAt(|inventory|, eff, page, seen);
            && Before(|inventory|, page, eff) <= stop <= |inventory|
            && Drive(call, token, calls, records, fuel) ==
               Resume(call, after, calls + n, records + inventory[Before(|inventory|, page, eff)..stop], fuel - n)
    decreases |inventory| - Before(|inventory|, page, eff)
  {
    hide StopAt, OvercountedCalls, HasMorePages, PageStart, LastPage;
    var slice := PageSlice(inventory, page, eff);
    var next := NextOf(call(token, calls));
    assert AnswersPage(call(token, calls), position(token), position(next), after, inventory, eff, pageSize, true);
    StopAtEndExactlyWhen(|inventory|, eff, page, seen);
    StopAtNextPage(|inventory|, eff, pageSize, page, seen);
    assert Drive(call, token, calls, records, fuel) == Resume(call, next, calls + 1, records + slice, fuel - 1);
    if HasMorePages(seen, pageSize, |inventory|, |slice|) {
      PageStartAtLeastPage(page, eff);
      StopAtEndExactlyWhen(|inventory|, eff, page + 1, seen + |slice|);
      SlicesJoin(records, inventory, page, eff, StopAt(|inventory|, eff, page + 1, seen + |slice|));
      OvercountedWalk(call, position, after, inventory, eff, pageSize,
                      next, page + 1, seen + |slice|, calls + 1, records + slice, fuel - 1);
    }
  }

  /** A phase resumed with a count that is too high, on a server reporting its
      true total: List returns the inventory from the token's page up to a page
      end, and that is all of it exactly when at most one page was left, or the
      count is too high by less than the last page holds. */
  lemma OvercountedPhaseIsCompleteExactlyWhen(
    s: Setting, below: seq<PageState>, phase: string, token: string, page: Int, seen: Int,
    calls: nat, records: seq<Listed>, fuel: nat)
    requires s.Stable() && IsPhase(phase) && s.Eff() >= 1 && s.totals
    requires ParseDevicePageToken(token) == (page, seen) && page >= 0
    requires var n := |s.Inventory(phase)|;
             seen >= Before(n, page, s.Eff()) && seen + n - Before(n, page, s.Eff()) <= MAX_INT
    ensures var inventory, eff := s.Inventory(phase), s.Eff();
            var start := Before(|inventory|, page, eff);
            var stop := StopAt(|inventory|, eff, page, seen);
            var n := OvercountedCalls(|inventory|, eff, page, seen);
            && start <= stop <= |inventory|
            && (stop == |inventory| <==>
                |inventory| - start <= eff || seen - start < LastPage(|inventory| - start, eff))
            && (fuel >= n ==>
                  Drive(ListCalls(s.world, s.size), At(below, phase, token), calls, records, fuel) ==
                  Resume(ListCalls(s.world, s.size), After(below, phase), calls + n,
                         records + inventory[start..stop], fuel - n))
  {
    hide ListStep, StopAt, OvercountedCalls, LastPage, Drive, Resume, PageStart;
    var inventory, eff := s.Inventory(phase), s.Eff();
    StopAtEndExactlyWhen(|inventory|, eff, page, seen);
    ListPagesThroughPhase(s, below, phase);
    if fuel >= OvercountedCalls(|inventory|, eff, page, seen) {
      OvercountedWalk(ListCalls(s.world, s.size), PhasePosition(below, phase), After(below, phase), inventory, eff,
                      PageSize(s.size), At(below, phase, token), page, seen, calls, records, fuel);
    }
  }
}
