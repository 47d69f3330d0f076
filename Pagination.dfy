/**
 * The offset-paginated sweep over the executions of one cycle. The first
 * page is fetched at offset 0 and its `totalCount` T fixes the loop bound
 * once; while the offset is at most T the current page's items are
 * appended, the offset grows by the page size 50 and the next page is
 * fetched. The page fetched at the first offset above T is discarded.
 *
 * The server is a function from an offset to a page or a failed request.
 */
module Pagination {

  import opened Wrappers
  import opened Errors
  import opened Executions

  /** Zapi's maximal page size, and the step of the offset. */
  const PageSize: nat := 50

  /** A parsed search response: `totalCount` and `searchObjectList`. */
  datatype Page = Page(totalCount: int, searchObjectList: seq<Execution>)

  /** The remote search endpoint for one cycle, by offset. */
  type Fetch = nat -> Result<Page, Failure>

  /**
   * The number of times the loop body runs for total count `total`: once
   * for each of the offsets 0, 50, ..., 50 * (total / 50).
   */
  function Rounds(total: int): (n: nat)
    ensures total < 0 ==> n == 0
    ensures total >= 0 ==> PageSize * (n - 1) <= total < PageSize * n
  {
    if total < 0 then 0 else total / PageSize + 1
  }

  /** The loop guard `offset <= total` at offset 50 * done, in terms of rounds. */
  lemma GuardAt(total: int, done: nat)
    requires done <= Rounds(total)
    ensures PageSize * done <= total <==> done < Rounds(total)
  {
    if total >= 0 && done < Rounds(total) {
      assert PageSize * done <= PageSize * (Rounds(total) - 1);
    }
  }

  function Prepend(items: seq<Execution>, r: Result<seq<Execution>, Failure>): Result<seq<Execution>, Failure>
  {
    match r
    case Ok(rest) => Ok(items + rest)
    case Err(e) => Err(e)
  }

  lemma PrependNothing(r: Result<seq<Execution>, Failure>)
    ensures Prepend([], r) == r
  {
    if r.Ok? {
      assert [] + r.value == r.value;
    }
  }

  lemma PrependTwice(a: seq<Execution>, b: seq<Execution>, r: Result<seq<Execution>, Failure>)
    ensures Prepend(a, Prepend(b, r)) == Prepend(a + b, r)
  {
    if r.Ok? {
      assert a + (b + r.value) == (a + b) + r.value;
    }
  }

  /**
   * What the loop still collects when `page` is the response at `offset`
   * and the body has `rounds` more runs: the page's items, then, if the
   * next fetch succeeds, what is collected from there.
   */
  function Collect(fetch: Fetch, page: Page, offset: nat, rounds: nat): Result<seq<Execution>, Failure>
    decreases rounds
  {
    if rounds == 0 then Ok([])
    else
      match fetch(offset + PageSize)
      case Err(e) => Err(e)
      case Ok(next) => Prepend(page.searchObjectList, Collect(fetch, next, offset + PageSize, rounds - 1))
  }

  /** The offsets the loop still requests from `offset` on. */
  function TraceFrom(fetch: Fetch, offset: nat, rounds: nat): seq<nat>
    decreases rounds
  {
    if rounds == 0 then []
    else [offset + PageSize] + (if fetch(offset + PageSize).Err? then [] else TraceFrom(fetch, offset + PageSize, rounds - 1))
  }

  /** The executions a sweep caches, or the failure that stops it. */
  function Sweep(fetch: Fetch): Result<seq<Execution>, Failure>
  {
    match fetch(0)
    case Err(e) => Err(e)
    case Ok(first) => Collect(fetch, first, 0, Rounds(first.totalCount))
  }

  /** The offsets a sweep requests, in order. */
  function Trace(fetch: Fetch): seq<nat>
  {
    [0] + match fetch(0)
          case Err(_) => []
          case Ok(first) => TraceFrom(fetch, 0, Rounds(first.totalCount))
  }

  /** One more run of the loop body, when the next fetch succeeds. */
  lemma StepServed(fetch: Fetch, acc: seq<Execution>, page: Page, offset: nat, rounds: nat)
    requires rounds > 0 && fetch(offset + PageSize).Ok?
    ensures Prepend(acc, Collect(fetch, page, offset, rounds))
         == Prepend(acc + page.searchObjectList, Collect(fetch, fetch(offset + PageSize).value, offset + PageSize, rounds - 1))
    ensures TraceFrom(fetch, offset, rounds) == [offset + PageSize] + TraceFrom(fetch, offset + PageSize, rounds - 1)
  {
    PrependTwice(acc, page.searchObjectList, Collect(fetch, fetch(offset + PageSize).value, offset + PageSize, rounds - 1));
  }

  /** One more run of the loop body, when the next fetch fails. */
  lemma StepFailed(fetch: Fetch, acc: seq<Execution>, page: Page, offset: nat, rounds: nat)
    requires rounds > 0 && fetch(offset + PageSize).Err?
    ensures Prepend(acc, Collect(fetch, page, offset, rounds)) == Err(fetch(offset + PageSize).error)
    ensures TraceFrom(fetch, offset, rounds) == [offset + PageSize]
  {
  }

  /**
   * The state of the sweep loop after `done` runs: the offset is 50 * done,
   * `content` is the page served there, and what was collected so far
   * followed by what the remaining runs collect is `goal`; likewise for the
   * requested offsets and `goalTrace`.
   */
  ghost predicate Progress(fetch: Fetch, total: int, goal: Result<seq<Execution>, Failure>, goalTrace: seq<nat>,
                           acc: seq<Execution>, requested: seq<nat>, content: Page, offset: nat, done: nat)
  {
    && done <= Rounds(total)
    && offset == PageSize * done
    && fetch(offset) == Ok(content)
    && Prepend(acc, Collect(fetch, content, offset, Rounds(total) - done)) == goal
    && requested + TraceFrom(fetch, offset, Rounds(total) - done) == goalTrace
  }

  /** Before the loop: the first page is served and nothing is collected yet. */
  lemma ProgressStart(fetch: Fetch)
    requires fetch(0).Ok?
    ensures Progress(fetch, fetch(0).value.totalCount, Sweep(fetch), Trace(fetch), [], [0], fetch(0).value, 0, 0)
  {
    PrependNothing(Sweep(fetch));
  }

  /** The loop guard at offset 50 * done, and the offset of the next run. */
  lemma GuardStep(total: int, offset: nat, done: nat)
    requires done <= Rounds(total) && offset == PageSize * done
    ensures offset <= total <==> done < Rounds(total)
    ensures offset + PageSize == PageSize * (done + 1)
  {
    GuardAt(total, done);
  }

  /**
   * One run of the loop body while `offset <= T`: either the next fetch
   * fails, and that failure is the sweep's outcome, or the loop state moves
   * 50 further with the page's items appended.
   */
  lemma ProgressStep(fetch: Fetch, total: int, goal: Result<seq<Execution>, Failure>, goalTrace: seq<nat>,
                     acc: seq<Execution>, requested: seq<nat>, content: Page, offset: nat, done: nat)
    requires Progress(fetch, total, goal, goalTrace, acc, requested, content, offset, done)
    requires offset <= total
    ensures done < Rounds(total)
    ensures fetch(offset + PageSize).Err? ==>
      goal == Err(fetch(offset + PageSize).error) && goalTrace == requested + [offset + PageSize]
    ensures fetch(offset + PageSize).Ok? ==>
      Progress(fetch, total, goal, goalTrace, acc + content.searchObjectList, requested + [offset + PageSize],
               fetch(offset + PageSize).value, offset + PageSize, done + 1)
  {
    GuardStep(total, offset, done);
    if fetch(offset + PageSize).Err? {
      StepFailed(fetch, acc, content, offset, Rounds(total) - done);
    } else {
      ProgressServed(fetch, total, goal, goalTrace, acc, requested, content, offset, done);
    }
  }

  /** The run of the loop body whose next fetch is served. */
  lemma ProgressServed(fetch: Fetch, total: int, goal: Result<seq<Execution>, Failure>, goalTrace: seq<nat>,
                       acc: seq<Execution>, requested: seq<nat>, content: Page, offset: nat, done: nat)
    requires Progress(fetch, total, goal, goalTrace, acc, requested, content, offset, done)
    requires done < Rounds(total) && fetch(offset + PageSize).Ok?
    ensures Progress(fetch, total, goal, goalTrace, acc + content.searchObjectList, requested + [offset + PageSize],
                     fetch(offset + PageSize).value, offset + PageSize, done + 1)
  {
    var left := Rounds(total) - done;
    var next := offset + PageSize;
    StepServed(fetch, acc, content, offset, left);
    GuardStep(total, offset, done);
    assert requested + ([next] + TraceFrom(fetch, next, left - 1)) == (requested + [next]) + TraceFrom(fetch, next, left - 1);
  }

  /** Once `offset > T` the loop has collected the whole sweep and made every request. */
  lemma ProgressEnd(fetch: Fetch, total: int, goal: Result<seq<Execution>, Failure>, goalTrace: seq<nat>,
                    acc: seq<Execution>, requested: seq<nat>, content: Page, offset: nat, done: nat)
    requires Progress(fetch, total, goal, goalTrace, acc, requested, content, offset, done)
    requires offset > total
    ensures goal == Ok(acc) && goalTrace == requested
  {
    GuardAt(total, done);
    assert acc + [] == acc;
  }

  /**
   * `get_all_executions_in_cycle`: the sweep that caches every execution.
   * Besides the cache it returns the offsets it requested.
   */
  method GetAllExecutionsInCycle(fetch: Fetch) returns (cache: Result<seq<Execution>, Failure>, requested: seq<nat>)
    ensures cache == Sweep(fetch)
    ensures requested == Trace(fetch)
  {
    var processed: nat := 0;
    requested := [processed];
    var response := fetch(processed);
    if response.Err? {
      return Err(response.error), requested;
    }
    var content := response.value;
    var execs: seq<Execution> := [];
    var total := content.totalCount;
    ghost var done: nat := 0;
    ghost var goal, goalTrace := Sweep(fetch), Trace(fetch);
    ProgressStart(fetch);
    while processed <= total
      invariant Progress(fetch, total, goal, goalTrace, execs, requested, content, processed, done)
      decreases Rounds(total) - done
    {
      ProgressStep(fetch, total, goal, goalTrace, execs, requested, content, processed, done);
      execs := execs + content.searchObjectList;
      processed := processed + PageSize;
      done := done + 1;
      requested := requested + [processed];
      response := fetch(processed);
      if response.Err? {
        return Err(response.error), requested;
      }
      content := response.value;
    }
    ProgressEnd(fetch, total, goal, goalTrace, execs, requested, content, processed, done);
    cache := Ok(execs);
  }

  /**
   * `get_executions_by_status_and_label` of the earlier draft: the same
   * sweep, keeping only the executions that match `(status, labels)`.
   */
  method GetExecutionsByStatusAndLabel(fetch: Fetch, status: string, labels: seq<string>)
    returns (byStatus: Result<seq<Execution>, Failure>, requested: seq<nat>)
    ensures Sweep(fetch).Err? ==> byStatus == Err(Sweep(fetch).error)
    ensures Sweep(fetch).Ok? ==> byStatus == Ok(Select(Sweep(fetch).value, status, labels))
    ensures requested == Trace(fetch)
  {
    var offset: nat := 0;
    requested := [offset];
    var executions := fetch(offset);
    if executions.Err? {
      return Err(executions.error), requested;
    }
    var content := executions.value;
    var byLabel: seq<Execution> := [];
    ghost var seen: seq<Execution> := [];
    var total := content.totalCount;
    ghost var done: nat := 0;
    ghost var goal, goalTrace := Sweep(fetch), Trace(fetch);
    ProgressStart(fetch);
    while offset <= total
      invariant Progress(fetch, total, goal, goalTrace, seen, requested, content, offset, done)
      invariant byLabel == Select(seen, status, labels)
      decreases Rounds(total) - done
    {
      ProgressStep(fetch, total, goal, goalTrace, seen, requested, content, offset, done);
      byLabel := AppendMatches(byLabel, content.searchObjectList, status, labels);
      SelectConcat(seen, content.searchObjectList, status, labels);
      seen := seen + content.searchObjectList;
      offset := offset + PageSize;
      done := done + 1;
      requested := requested + [offset];
      executions := fetch(offset);
      if executions.Err? {
        return Err(executions.error), requested;
      }
      content := executions.value;
    }
    ProgressEnd(fetch, total, goal, goalTrace, seen, requested, content, offset, done);
    byStatus := Ok(byLabel);
  }

  /** The items of the page at `offset`, or nothing if that fetch fails. */
  function ItemsAt(fetch: Fetch, offset: nat): seq<Execution>
  {
    match fetch(offset)
    case Ok(page) => page.searchObjectList
    case Err(_) => []
  }

  /** The items of `count` consecutive pages, the first at `offset`. */
  function PagesFrom(fetch: Fetch, offset: nat, count: nat): seq<Execution>
    decreases count
  {
    if count == 0 then [] else ItemsAt(fetch, offset) + PagesFrom(fetch, offset + PageSize, count - 1)
  }

  /** `count` offsets, 50 apart, from `start` on. */
  function Offsets(start: nat, count: nat): (r: seq<nat>)
    ensures |r| == count
    ensures forall i :: 0 <= i < count ==> r[i] == start + PageSize * i
    decreases count
  {
    if count == 0 then [] else [start] + Offsets(start + PageSize, count - 1)
  }

  /** The fetches at `offset`, `offset` + 50, ..., `offset` + 50 * `count` all succeed. */
  ghost predicate ServedFrom(fetch: Fetch, offset: nat, count: nat)
    decreases count
  {
    fetch(offset).Ok? && (count > 0 ==> ServedFrom(fetch, offset + PageSize, count - 1))
  }

  lemma {:induction false} CollectServed(fetch: Fetch, offset: nat, rounds: nat)
    requires ServedFrom(fetch, offset, rounds)
    ensures fetch(offset).Ok?
    ensures Collect(fetch, fetch(offset).value, offset, rounds) == Ok(PagesFrom(fetch, offset, rounds))
    ensures TraceFrom(fetch, offset, rounds) == Offsets(offset + PageSize, rounds)
    decreases rounds
  {
    if rounds > 0 {
      CollectServed(fetch, offset + PageSize, rounds - 1);
    }
  }

  /**
   * When every requested page is served, the cache is the in-order
   * concatenation of the pages at offsets 0, 50, ..., 50 * (T / 50), and
   * the requested offsets are 0, 50, ..., 50 * (T / 50 + 1): T / 50 + 2
   * fetches for T >= 0, where T is the first page's total count.
   */
  lemma SweepWhenServed(fetch: Fetch)
    requires fetch(0).Ok?
    requires ServedFrom(fetch, 0, Rounds(fetch(0).value.totalCount))
    ensures Sweep(fetch) == Ok(PagesFrom(fetch, 0, Rounds(fetch(0).value.totalCount)))
    ensures Trace(fetch) == Offsets(0, Rounds(fetch(0).value.totalCount) + 1)
    ensures fetch(0).value.totalCount >= 0 ==> |Trace(fetch)| == fetch(0).value.totalCount / PageSize + 2
  {
    var n := Rounds(fetch(0).value.totalCount);
    CollectServed(fetch, 0, n);
  }

  /** A fetch at offset 0 that fails ends the sweep at once, after one request. */
  lemma FirstFetchFails(fetch: Fetch)
    requires fetch(0).Err?
    ensures Sweep(fetch) == Err(fetch(0).error) && Trace(fetch) == [0]
  {
  }

  /** The pages agree in their outcome and, where served, in their items. */
  ghost predicate SameItems(a: Result<Page, Failure>, b: Result<Page, Failure>)
  {
    (a.Err? && b == a) || (a.Ok? && b.Ok? && a.value.searchObjectList == b.value.searchObjectList)
  }

  lemma {:induction false} CollectIgnoresTotals(fetch: Fetch, fetch': Fetch, page: Page, page': Page, offset: nat, rounds: nat)
    requires forall o: nat :: SameItems(fetch(o), fetch'(o))
    requires page.searchObjectList == page'.searchObjectList
    ensures Collect(fetch, page, offset, rounds) == Collect(fetch', page', offset, rounds)
    ensures TraceFrom(fetch, offset, rounds) == TraceFrom(fetch', offset, rounds)
    decreases rounds
  {
    if rounds > 0 {
      assert SameItems(fetch(offset + PageSize), fetch'(offset + PageSize));
      if fetch(offset + PageSize).Ok? {
        CollectIgnoresTotals(fetch, fetch', fetch(offset + PageSize).value, fetch'(offset + PageSize).value,
                             offset + PageSize, rounds - 1);
      }
    }
  }

  /**
   * The loop bound is read from the first page only: two servers that give
   * the same first page and the same items everywhere else produce the same
   * cache and the same requests, whatever `totalCount` their later pages
   * report.
   */
  lemma OnlyFirstTotalCountCounts(fetch: Fetch, fetch': Fetch)
    requires fetch(0) == fetch'(0)
    requires forall o: nat :: SameItems(fetch(o), fetch'(o))
    ensures Sweep(fetch) == Sweep(fetch')
    ensures Trace(fetch) == Trace(fetch')
  {
    if fetch(0).Ok? {
      var first := fetch(0).value;
      CollectIgnoresTotals(fetch, fetch', first, first, 0, Rounds(first.totalCount));
    }
  }

  /** The size of a full page at `offset` for total count `total`: min(50, total - offset), at least 0. */
  function ExpectedSize(total: int, offset: nat): nat
  {
    if total - offset >= PageSize then PageSize
    else if total - offset <= 0 then 0
    else total - offset
  }

  lemma {:induction false} PagesFromSize(fetch: Fetch, total: int, offset: nat, count: nat)
    requires offset + PageSize * count > total
    requires forall o: nat :: |ItemsAt(fetch, o)| == ExpectedSize(total, o)
    ensures |PagesFrom(fetch, offset, count)| == if total - offset <= 0 then 0 else total - offset
    decreases count
  {
    if count > 0 {
      assert offset + PageSize + PageSize * (count - 1) == offset + PageSize * count;
      PagesFromSize(fetch, total, offset + PageSize, count - 1);
    }
  }

  /**
   * When the server returns full pages (50 items, the remainder on the
   * last page, none beyond), the cache holds exactly T executions.
   */
  lemma FullPagesCacheTotal(fetch: Fetch)
    requires fetch(0).Ok? && fetch(0).value.totalCount >= 0
    requires ServedFrom(fetch, 0, Rounds(fetch(0).value.totalCount))
    requires forall o: nat :: |ItemsAt(fetch, o)| == ExpectedSize(fetch(0).value.totalCount, o)
    ensures Sweep(fetch).Ok? && |Sweep(fetch).value| == fetch(0).value.totalCount
  {
    var total := fetch(0).value.totalCount;
    SweepWhenServed(fetch);
    PagesFromSize(fetch, total, 0, Rounds(total));
  }
}
