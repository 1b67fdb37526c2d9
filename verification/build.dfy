/**
 * Building a solution folder: the buildable entries, references included and
 * topologically sorted, are built one by one. An item that references an item
 * which already failed is not built and counts as failed itself; an item
 * whose build reports errors is failed too. A cyclic build order stops
 * everything before it starts, and a cancellation request stops the loop
 * before the next item.
 */
module BuildExecutor {
  import opened Common
  import opened SolutionItems
  import opened BuildableEntries

  /** The counts a `BuildResult` carries; compiler messages themselves are not modelled. */
  datatype BuildResult = BuildResult(errorCount: nat, warningCount: nat, buildCount: nat)

  /** The build count the `BuildResult` constructors start from, which `OnBuild` resets to 0 for its aggregate. */
  const DefaultBuildCount: nat := 1

  /** `BuildResult.Append`: the counts of both results added up. */
  function Append(a: BuildResult, b: BuildResult): BuildResult {
    BuildResult(a.errorCount + b.errorCount, a.warningCount + b.warningCount, a.buildCount + b.buildCount)
  }

  /** The aggregate `OnBuild` starts from: `new BuildResult ()` with `BuildCount = 0`. */
  const EmptyResult := BuildResult(0, 0, 0)

  /** `new BuildResult ("", 1, 1)`: what a cyclic build order yields, one error and one warning. */
  const CyclicResult := BuildResult(1, 1, DefaultBuildCount)

  /**
   * The state of the build loop: the aggregate result, the failed items
   * (`failedItems`) and the items whose `Build` was called, in order.
   */
  datatype RunState = RunState(result: BuildResult, failed: set<ItemId>, built: seq<ItemId>)

  /**
   * `item.ContainsReferences (failedItems, configuration)` and
   * `item.Build (monitor, configuration, false)` (`None` for a `null` result)
   * are external collaborators, given as functions.
   */
  type RefersTo = (ItemId, set<ItemId>) -> bool
  type Builder = ItemId -> Option<BuildResult>

  /** One iteration of the build loop on `item`. */
  function Step(s: RunState, item: ItemId, containsRefs: RefersTo, build: Builder): RunState {
    if !containsRefs(item, s.failed) then
      match build(item)
      case None => RunState(s.result, s.failed, s.built + [item])
      case Some(res) =>
        RunState(Append(s.result, res), if res.errorCount > 0 then s.failed + {item} else s.failed, s.built + [item])
    else
      RunState(s.result, s.failed + {item}, s.built)
  }

  /** The state after the loop has processed `items`, from the empty aggregate. */
  function Run(items: seq<ItemId>, containsRefs: RefersTo, build: Builder): RunState {
    if items == [] then RunState(EmptyResult, {}, [])
    else Step(Run(items[..|items| - 1], containsRefs, build), items[|items| - 1], containsRefs, build)
  }

  /** The sum of the results of the builds in `built` that returned one. */
  function Total(built: seq<ItemId>, build: Builder): BuildResult {
    if built == [] then EmptyResult
    else
      var rest := Total(built[..|built| - 1], build);
      match build(built[|built| - 1])
      case None => rest
      case Some(res) => Append(rest, res)
  }

  /**
   * The number of items processed when `cancel (k)` answers
   * `monitor.IsCancelRequested` before item `k`: the first `k` at or after
   * `from` where cancellation is requested, or `n` when there is none.
   */
  function CancelPoint(cancel: nat -> bool, n: nat, from: nat): (k: nat)
    requires from <= n
    ensures from <= k <= n
    ensures forall j :: from <= j < k ==> !cancel(j)
    ensures k < n ==> cancel(k)
    decreases n - from
  {
    if from == n then n
    else if cancel(from) then from
    else CancelPoint(cancel, n, from + 1)
  }

  // ---------------------------------------------------------------------------
  // Properties of the build loop

  lemma {:induction false} RunPrefix(items: seq<ItemId>, i: nat, containsRefs: RefersTo, build: Builder)
    requires i < |items|
    ensures Run(items[..i + 1], containsRefs, build) == Step(Run(items[..i], containsRefs, build), items[i], containsRefs, build)
  {
    assert items[..i + 1][..i] == items[..i];
  }

  /**
   * The aggregate is the sum of the results of the builds actually run:
   * a skipped item contributes nothing, and a build count starts at 0.
   */
  lemma {:induction false} ResultIsTotalOfBuilt(items: seq<ItemId>, containsRefs: RefersTo, build: Builder)
    ensures Run(items, containsRefs, build).result == Total(Run(items, containsRefs, build).built, build)
    decreases |items|
  {
    if items != [] {
      var init := items[..|items| - 1];
      var s := Run(init, containsRefs, build);
      ResultIsTotalOfBuilt(init, containsRefs, build);
      var x := items[|items| - 1];
      if !containsRefs(x, s.failed) {
        assert (s.built + [x])[..|s.built|] == s.built;
      }
    }
  }

  /** Items are only added to the failed set and the build list, never removed. */
  lemma {:induction false} RunGrows(items: seq<ItemId>, i: nat, containsRefs: RefersTo, build: Builder)
    requires i <= |items|
    ensures Run(items[..i], containsRefs, build).failed <= Run(items, containsRefs, build).failed
    ensures |Run(items[..i], containsRefs, build).built| <= |Run(items, containsRefs, build).built|
    ensures Run(items, containsRefs, build).built[..|Run(items[..i], containsRefs, build).built|]
              == Run(items[..i], containsRefs, build).built
    decreases |items| - i
  {
    if i == |items| {
      assert items[..i] == items;
    } else {
      RunGrows(items, i + 1, containsRefs, build);
      RunPrefix(items, i, containsRefs, build);
    }
  }

  /**
   * Item `x` at position `k` is built exactly when, at its turn, it
   * references none of the items that have failed so far; and it ends up
   * failed exactly when it references a failed item or its build reports
   * errors.
   */
  lemma StepOutcome(items: seq<ItemId>, k: nat, containsRefs: RefersTo, build: Builder)
    requires k < |items|
    ensures var before := Run(items[..k], containsRefs, build);
            var after := Run(items[..k + 1], containsRefs, build);
            && (after.built == before.built + [items[k]] <==> !containsRefs(items[k], before.failed))
            && (after.built == before.built <==> containsRefs(items[k], before.failed))
            && (items[k] in after.failed <==>
                  items[k] in before.failed
                  || containsRefs(items[k], before.failed)
                  || (build(items[k]).Some? && build(items[k]).value.errorCount > 0))
  {
    RunPrefix(items, k, containsRefs, build);
  }

  /**
   * The contract assumed of `ContainsReferences`: it answers whether one of
   * the items `x` references directly is in the set.
   */
  ghost predicate ChecksReferences(containsRefs: RefersTo, refs: ReferenceGraph) {
    forall x, failed :: containsRefs(x, failed) <==> exists y :: y in Referenced(refs, x) && y in failed
  }

  lemma RefersToFailed(containsRefs: RefersTo, refs: ReferenceGraph, x: ItemId, y: ItemId, failed: set<ItemId>)
    requires ChecksReferences(containsRefs, refs)
    requires y in Referenced(refs, x) && y in failed
    ensures containsRefs(x, failed)
  {
  }

  /** In an order without duplicates, an item skipped at its own turn is never built. */
  lemma {:induction false} SkippedIsNeverBuilt(items: seq<ItemId>, k: nat, containsRefs: RefersTo, build: Builder)
    requires NoDuplicates(items) && k < |items|
    requires containsRefs(items[k], Run(items[..k], containsRefs, build).failed)
    ensures items[k] !in Run(items, containsRefs, build).built
    decreases |items|
  {
    var init := items[..|items| - 1];
    var last := items[|items| - 1];
    assert NoDuplicates(init) by {
      forall i, j | 0 <= i < j < |init| ensures init[i] != init[j] {
        assert init[i] == items[i] && init[j] == items[j];
      }
    }
    if k == |items| - 1 {
      RunStaysWithinItems(init, containsRefs, build);
      assert items[..k] == init;
      assert last !in init by {
        forall i | 0 <= i < |init| ensures init[i] != last {
          assert init[i] == items[i];
        }
      }
    } else {
      assert init[k] == items[k] && init[..k] == items[..k];
      SkippedIsNeverBuilt(init, k, containsRefs, build);
      assert last != items[k];
    }
  }

  /**
   * An item that references an item failed earlier in the order is not
   * built and is failed itself; without duplicates in the order it is never
   * built at all.
   */
  lemma FailureIsInherited(order: seq<ItemId>, j: nat, m: nat, refs: ReferenceGraph,
                           containsRefs: RefersTo, build: Builder)
    requires ChecksReferences(containsRefs, refs)
    requires j < m < |order|
    requires order[j] in Run(order[..j + 1], containsRefs, build).failed
    requires order[j] in Referenced(refs, order[m])
    ensures Run(order[..m + 1], containsRefs, build).built == Run(order[..m], containsRefs, build).built
    ensures order[m] in Run(order[..m + 1], containsRefs, build).failed
    ensures order[m] in Run(order, containsRefs, build).failed
    ensures NoDuplicates(order) ==> order[m] !in Run(order, containsRefs, build).built
  {
    FailedStaysFailed(order, j, m, containsRefs, build);
    RefersToFailed(containsRefs, refs, order[m], order[j], Run(order[..m], containsRefs, build).failed);
    SkippedAtItsTurn(order, m, containsRefs, build);
  }

  /** An item failed at its turn is still failed before any later item's turn. */
  lemma FailedStaysFailed(order: seq<ItemId>, j: nat, m: nat, containsRefs: RefersTo, build: Builder)
    requires j < m <= |order|
    requires order[j] in Run(order[..j + 1], containsRefs, build).failed
    ensures order[j] in Run(order[..m], containsRefs, build).failed
  {
    RunGrows(order[..m], j + 1, containsRefs, build);
    assert order[..m][..j + 1] == order[..j + 1];
  }

  /** An item whose `ContainsReferences` check fails at its turn is skipped and stays failed. */
  lemma SkippedAtItsTurn(order: seq<ItemId>, m: nat, containsRefs: RefersTo, build: Builder)
    requires m < |order|
    requires containsRefs(order[m], Run(order[..m], containsRefs, build).failed)
    ensures Run(order[..m + 1], containsRefs, build).built == Run(order[..m], containsRefs, build).built
    ensures order[m] in Run(order[..m + 1], containsRefs, build).failed
    ensures order[m] in Run(order, containsRefs, build).failed
    ensures NoDuplicates(order) ==> order[m] !in Run(order, containsRefs, build).built
  {
    RunPrefix(order, m, containsRefs, build);
    RunGrows(order, m + 1, containsRefs, build);
    if NoDuplicates(order) {
      SkippedIsNeverBuilt(order, m, containsRefs, build);
    }
  }

  /** `order[q]` is in the failed set once the loop has processed it. */
  ghost predicate FailedAtTurn(order: seq<ItemId>, q: nat, containsRefs: RefersTo, build: Builder) {
    q < |order| && order[q] in Run(order[..q + 1], containsRefs, build).failed
  }

  /** `order[q]` was processed without being built, and is failed from then on. */
  ghost predicate SkippedAtTurn(order: seq<ItemId>, q: nat, containsRefs: RefersTo, build: Builder) {
    && q < |order|
    && Run(order[..q + 1], containsRefs, build).built == Run(order[..q], containsRefs, build).built
    && order[q] in Run(order, containsRefs, build).failed
    && (NoDuplicates(order) ==> order[q] !in Run(order, containsRefs, build).built)
  }

  /** A chain of references listed in build order: each item references the previous one, listed earlier. */
  ghost predicate ReferenceChain(order: seq<ItemId>, p: seq<nat>, refs: ReferenceGraph) {
    && (forall i :: 0 <= i < |p| ==> p[i] < |order|)
    && (forall i :: 0 <= i < |p| - 1 ==> p[i] < p[i + 1] && order[p[i]] in Referenced(refs, order[p[i + 1]]))
  }

  /** A prefix of a chain of references is one too. */
  lemma ReferenceChainPrefix(order: seq<ItemId>, p: seq<nat>, n: nat, refs: ReferenceGraph)
    requires ReferenceChain(order, p, refs) && n <= |p|
    ensures ReferenceChain(order, p[..n], refs)
  {
    var q := p[..n];
    forall i | 0 <= i < |q| ensures q[i] < |order| {
      assert q[i] == p[i];
    }
    forall i | 0 <= i < |q| - 1 ensures q[i] < q[i + 1] && order[q[i]] in Referenced(refs, order[q[i + 1]]) {
      assert q[i] == p[i] && q[i + 1] == p[i + 1];
    }
  }

  /** `FailureIsInherited`, in terms of the turn predicates. */
  lemma InheritAtTurn(order: seq<ItemId>, j: nat, m: nat, refs: ReferenceGraph, containsRefs: RefersTo, build: Builder)
    requires ChecksReferences(containsRefs, refs)
    requires j < m < |order| && order[j] in Referenced(refs, order[m])
    requires FailedAtTurn(order, j, containsRefs, build)
    ensures FailedAtTurn(order, m, containsRefs, build) && SkippedAtTurn(order, m, containsRefs, build)
  {
    FailureIsInherited(order, j, m, refs, containsRefs, build);
  }

  /**
   * A failure spreads along a chain of references listed in build order:
   * when `order[p[0]]` failed, the last item of the chain is failed at its
   * turn and, unless it is that first item, skipped.
   */
  lemma {:induction false} FailureSpreadsAlongChain(order: seq<ItemId>, p: seq<nat>, refs: ReferenceGraph,
                                                    containsRefs: RefersTo, build: Builder)
    requires ChecksReferences(containsRefs, refs)
    requires |p| > 0 && ReferenceChain(order, p, refs) && FailedAtTurn(order, p[0], containsRefs, build)
    ensures FailedAtTurn(order, p[|p| - 1], containsRefs, build)
    ensures |p| > 1 ==> SkippedAtTurn(order, p[|p| - 1], containsRefs, build)
    decreases |p|
  {
    if |p| > 1 {
      var n := |p| - 1;
      var init := p[..n];
      ReferenceChainPrefix(order, p, n, refs);
      assert init[n - 1] == p[n - 1] && init[0] == p[0];
      FailureSpreadsAlongChain(order, init, refs, containsRefs, build);
      InheritAtTurn(order, p[n - 1], p[n], refs, containsRefs, build);
    }
  }

  /**
   * The chain X <- Y <- Z: when X fails and is listed before Y, which is
   * listed before Z, neither Y nor Z is built.
   */
  lemma DependentsOfFailedAreSkipped(order: seq<ItemId>, a: nat, b: nat, c: nat, refs: ReferenceGraph,
                                     containsRefs: RefersTo, build: Builder)
    requires ChecksReferences(containsRefs, refs) && NoDuplicates(order)
    requires a < b < c < |order|
    requires order[a] in Referenced(refs, order[b]) && order[b] in Referenced(refs, order[c])
    requires order[a] in Run(order[..a + 1], containsRefs, build).failed
    ensures order[b] !in Run(order, containsRefs, build).built && order[c] !in Run(order, containsRefs, build).built
    ensures order[b] in Run(order, containsRefs, build).failed && order[c] in Run(order, containsRefs, build).failed
  {
    FailureIsInherited(order, a, b, refs, containsRefs, build);
    FailureIsInherited(order, b, c, refs, containsRefs, build);
  }

  /** Whatever failed or was built came from the processed items. */
  lemma {:induction false} RunStaysWithinItems(items: seq<ItemId>, containsRefs: RefersTo, build: Builder)
    ensures forall x :: x in Run(items, containsRefs, build).failed ==> x in items
    ensures forall x :: x in Run(items, containsRefs, build).built ==> x in items
    ensures |Run(items, containsRefs, build).built| <= |items|
    decreases |items|
  {
    if items != [] {
      var init := items[..|items| - 1];
      RunStaysWithinItems(init, containsRefs, build);
      assert items == init + [items[|items| - 1]];
    }
  }

  /** Without duplicates among the items, no item is built twice. */
  lemma {:induction false} BuiltOnce(items: seq<ItemId>, containsRefs: RefersTo, build: Builder)
    requires NoDuplicates(items)
    ensures NoDuplicates(Run(items, containsRefs, build).built)
    decreases |items|
  {
    if items != [] {
      var init := items[..|items| - 1];
      var x := items[|items| - 1];
      assert NoDuplicates(init) by {
        forall i, j | 0 <= i < j < |init| ensures init[i] != init[j] {
          assert init[i] == items[i] && init[j] == items[j];
        }
      }
      BuiltOnce(init, containsRefs, build);
      RunStaysWithinItems(init, containsRefs, build);
      assert x !in init by {
        forall k | 0 <= k < |init| ensures init[k] != x {
          assert init[k] == items[k];
        }
      }
    }
  }

  // ---------------------------------------------------------------------------
  // The build method

  /**
   * `OnBuild`. Outputs stand for what the progress monitor sees: whether an
   * error was reported, the size of the task begun (`None` when none was
   * begun) and the number of steps; `built` lists the items whose `Build` was
   * called. `cancel (k)` is `monitor.IsCancelRequested` before item `k`. The
   * list handed to the sort is `BuildableList` with references included.
   */
  method OnBuild(folder: Item, solution: Option<Solution>, configuration: string, refs: ReferenceGraph,
                 sort: seq<ItemId> -> SortOutcome, containsRefs: RefersTo, build: Builder, cancel: nat -> bool)
    returns (res: BuildResult, errorReported: bool, taskSize: Option<nat>, steps: nat, built: seq<ItemId>)
    requires folder.Folder?
    ensures CollectedEntries(BuildableList(folder, solution, configuration, refs, true), folder, solution, configuration, refs)
    ensures var entries := BuildableList(folder, solution, configuration, refs, true);
            sort(entries).CyclicBuildOrder? ==>
              res == CyclicResult && errorReported && taskSize.None? && steps == 0 && built == []
    ensures var entries := BuildableList(folder, solution, configuration, refs, true);
            sort(entries).Sorted? ==>
              var order := sort(entries).order;
              var n := CancelPoint(cancel, |order|, 0);
              var s := Run(order[..n], containsRefs, build);
              && !errorReported
              && taskSize == Some(|order|)
              && steps == n
              && res == s.result
              && built == s.built
  {
    var outcome := GetAllBuildableEntries(folder, solution, configuration, refs, sort, true, true);
    if outcome.CyclicBuildOrder? {
      return CyclicResult, true, None, 0, [];
    }
    var order := outcome.order;
    errorReported := false;
    taskSize := Some(|order|);
    var cres := EmptyResult;
    var failedItems: set<ItemId> := {};
    built := [];
    steps := 0;
    var i := 0;
    while i < |order|
      invariant 0 <= i <= |order| && steps == i
      invariant forall j :: 0 <= j < i ==> !cancel(j)
      invariant Run(order[..i], containsRefs, build) == RunState(cres, failedItems, built)
    {
      if cancel(i) {
        break;
      }
      var item := order[i];
      RunPrefix(order, i, containsRefs, build);
      if !containsRefs(item, failedItems) {
        var r := build(item);
        if r.Some? {
          cres := Append(cres, r.value);
          if r.value.errorCount > 0 {
            failedItems := failedItems + {item};
          }
        }
        built := built + [item];
      } else {
        failedItems := failedItems + {item};
      }
      steps := steps + 1;
      i := i + 1;
    }
    res := cres;
  }

  /**
   * With a sorter that returns a permutation of its input, what `OnBuild`
   * builds is among the collected entries, each at most once, and its result
   * is the sum of the results of those builds.
   */
  lemma BuiltAreEntries(entries: seq<ItemId>, sort: seq<ItemId> -> SortOutcome, n: nat,
                        containsRefs: RefersTo, build: Builder)
    requires PermutingSorter(sort) && NoDuplicates(entries)
    requires sort(entries).Sorted? && n <= |sort(entries).order|
    ensures var s := Run(sort(entries).order[..n], containsRefs, build);
            && (forall x :: x in s.built ==> x in entries)
            && NoDuplicates(s.built)
            && s.result == Total(s.built, build)
  {
    var order := sort(entries).order;
    assert multiset(order) == multiset(entries);
    NoDuplicatesOfPermutation(entries, order);
    assert NoDuplicates(order[..n]) by {
      forall i, j | 0 <= i < j < n ensures order[..n][i] != order[..n][j] {
        assert order[..n][i] == order[i] && order[..n][j] == order[j];
      }
    }
    RunStaysWithinItems(order[..n], containsRefs, build);
    forall x | x in order[..n] ensures x in entries {
      assert x in multiset(order);
    }
    BuiltOnce(order[..n], containsRefs, build);
    ResultIsTotalOfBuilt(order[..n], containsRefs, build);
  }

  /** A permutation of a list without duplicates has none either. */
  lemma NoDuplicatesOfPermutation(a: seq<ItemId>, b: seq<ItemId>)
    requires NoDuplicates(a) && multiset(a) == multiset(b)
    ensures NoDuplicates(b)
  {
    forall i, j | 0 <= i < j < |b| ensures b[i] != b[j] {
      if b[i] == b[j] {
        var x := b[i];
        assert multiset(b)[x] >= 2 by {
          assert b == b[..i] + [x] + b[i + 1..j] + [x] + b[j + 1..];
        }
        AtMostOnce(a, x);
      }
    }
  }

  /** In a list without duplicates every element occurs at most once. */
  lemma {:induction false} AtMostOnce(a: seq<ItemId>, x: ItemId)
    requires NoDuplicates(a)
    ensures multiset(a)[x] <= 1
    decreases |a|
  {
    if a != [] {
      var init := a[..|a| - 1];
      assert a == init + [a[|a| - 1]];
      assert NoDuplicates(init) by {
        forall i, j | 0 <= i < j < |init| ensures init[i] != init[j] {
          assert init[i] == a[i] && init[j] == a[j];
        }
      }
      AtMostOnce(init, x);
      if a[|a| - 1] == x {
        assert x !in init by {
          forall k | 0 <= k < |init| ensures init[k] != x {
            assert init[k] == a[k];
          }
        }
      }
    }
  }
}
