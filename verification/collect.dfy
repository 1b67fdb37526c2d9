/**
 * Collection of the buildable entries of a solution folder for one solution
 * configuration: the build-enabled entity items of the subtree, in child
 * order, optionally followed (depth-first) by every item they reference,
 * each item listed once even when references form a cycle.
 */
module BuildableEntries {
  import opened Common
  import opened SolutionItems

  /** A solution configuration, reduced to the entity items it builds (`BuildEnabledForItem`). */
  datatype SolutionConfiguration = SolutionConfiguration(buildEnabled: set<ItemId>)

  /** The parent solution of a folder, reduced to its name and its configurations by name. */
  datatype Solution = Solution(name: string, configurations: map<string, SolutionConfiguration>)

  /**
   * `item.GetReferencedItems (configuration)` for every item, under the
   * configuration being collected; an item absent from the map references
   * nothing.
   */
  type ReferenceGraph = map<ItemId, seq<ItemId>>

  function Referenced(refs: ReferenceGraph, x: ItemId): seq<ItemId> {
    if x in refs then refs[x] else []
  }

  /** Every item some item references. */
  ghost function RefTargets(refs: ReferenceGraph): set<ItemId> {
    set x, y | x in refs && y in refs[x] :: y
  }

  /** The item at position `k` of `list` is referenced by an item listed before it. */
  ghost predicate ReferencedBefore(list: seq<ItemId>, k: int, refs: ReferenceGraph)
    requires 0 <= k < |list|
  {
    exists j :: 0 <= j < k && list[k] in Referenced(refs, list[j])
  }

  ghost function Listed(list: seq<ItemId>): set<ItemId> {
    set x | x in list
  }

  /** Everything `x` references is already in `list`. */
  ghost predicate RefsListed(list: seq<ItemId>, x: ItemId, refs: ReferenceGraph) {
    forall y :: y in Referenced(refs, x) ==> y in list
  }

  /** Every element of `list` from position `from` on has all its references in `list`. */
  ghost predicate ClosedFrom(list: seq<ItemId>, from: nat, refs: ReferenceGraph) {
    forall k :: from <= k < |list| ==> RefsListed(list, list[k], refs)
  }

  // ---------------------------------------------------------------------------
  // Reference definition of the entries of a subtree

  /** The identities of the build-enabled entity items of `s`, in order. */
  function EnabledEntityIds(s: seq<Item>, conf: SolutionConfiguration): (r: seq<ItemId>)
    ensures forall x :: x in r <==> exists e :: e in s && e.Entity? && e.id == x && x in conf.buildEnabled
  {
    if s == [] then []
    else
      var init, last := s[..|s| - 1], s[|s| - 1];
      assert s == init + [last];
      EnabledEntityIds(init, conf) + (if last.Entity? && last.id in conf.buildEnabled then [last.id] else [])
  }

  lemma {:induction false} EnabledEntityIdsAppend(a: seq<Item>, b: seq<Item>, conf: SolutionConfiguration)
    ensures EnabledEntityIds(a + b, conf) == EnabledEntityIds(a, conf) + EnabledEntityIds(b, conf)
    decreases |b|
  {
    if b == [] {
      assert a + b == a;
    } else {
      assert (a + b)[..|a + b| - 1] == a + b[..|b| - 1];
      EnabledEntityIdsAppend(a, b[..|b| - 1], conf);
    }
  }

  /**
   * The build-enabled entity items below a folder, in depth-first child order:
   * the entity items of the folder's pre-order flattening that the
   * configuration enables. Folders never appear.
   */
  function BuildableEntities(items: seq<Item>, conf: SolutionConfiguration): seq<ItemId> {
    EnabledEntityIds(AllItemsIn(items, AnyItem), conf)
  }

  /** The entries one child contributes: a sub-folder's entries, an enabled entity item itself, or nothing. */
  function ChildEntries(c: Item, conf: SolutionConfiguration): seq<ItemId> {
    if c.Folder? then BuildableEntities(c.items, conf)
    else if c.Entity? && c.id in conf.buildEnabled then [c.id]
    else []
  }

  lemma ChildEntriesFlattened(c: Item, conf: SolutionConfiguration)
    ensures ChildEntries(c, conf) == EnabledEntityIds(AllItems(c, AnyItem), conf)
  {
    assert [c][..0] == [];
    if c.Folder? {
      assert AllItems(c, AnyItem) == [c] + AllItemsIn(c.items, AnyItem);
      EnabledEntityIdsAppend([c], AllItemsIn(c.items, AnyItem), conf);
    } else {
      assert AllItems(c, AnyItem) == [c];
    }
  }

  /** The entries of children `0..i` are those of `0..i-1` followed by those of child `i`. */
  lemma BuildableEntitiesSnoc(items: seq<Item>, i: nat, conf: SolutionConfiguration)
    requires i < |items|
    ensures BuildableEntities(items[..i + 1], conf) == BuildableEntities(items[..i], conf) + ChildEntries(items[i], conf)
  {
    AllItemsInSnoc(items, i, AnyItem);
    EnabledEntityIdsAppend(AllItemsIn(items[..i], AnyItem), AllItems(items[i], AnyItem), conf);
    ChildEntriesFlattened(items[i], conf);
  }

  /** The identities below a folder with unique identities are unique too. */
  lemma ChildIdsUnique(folder: Item)
    requires folder.Folder? && UniqueIds(folder)
    ensures NoDuplicates(Ids(AllItemsIn(folder.items, AnyItem)))
  {
    var all := AllItemsIn(folder.items, AnyItem);
    var whole := Ids(AllItems(folder, AnyItem));
    assert AllItems(folder, AnyItem) == [folder] + all;
    forall i, j | 0 <= i < j < |all| ensures Ids(all)[i] != Ids(all)[j] {
      assert Ids(all)[i] == whole[i + 1] && Ids(all)[j] == whole[j + 1];
    }
  }

  /** Every entry of a folder is the identity of a build-enabled entity item of its subtree. */
  lemma BuildableEntitiesAreEnabledEntities(folder: Item, conf: SolutionConfiguration, x: ItemId)
    requires folder.Folder? && x in BuildableEntities(folder.items, conf)
    ensures exists e :: InSubtree(folder, e) && e.Entity? && e.id == x && x in conf.buildEnabled
  {
    var e :| e in AllItemsIn(folder.items, AnyItem) && e.Entity? && e.id == x && x in conf.buildEnabled;
    AllItemsMembership(folder, AnyItem, e);
    assert AllItems(folder, AnyItem) == [folder] + AllItemsIn(folder.items, AnyItem);
  }

  /**
   * Without duplicate identities in the tree, the entries of a folder are
   * build-enabled entity items of its subtree, each once, so adding them one
   * by one behind a `Contains` check changes nothing.
   */
  lemma BuildableEntitiesOfWellFormedTree(folder: Item, conf: SolutionConfiguration)
    requires folder.Folder? && UniqueIds(folder)
    ensures NoDuplicates(BuildableEntities(folder.items, conf))
    ensures AppendNew([], BuildableEntities(folder.items, conf)) == BuildableEntities(folder.items, conf)
    ensures forall x :: x in BuildableEntities(folder.items, conf) ==>
              exists e :: InSubtree(folder, e) && e.Entity? && e.id == x && x in conf.buildEnabled
  {
    ChildIdsUnique(folder);
    EnabledIdsUnique(AllItemsIn(folder.items, AnyItem), conf);
    AppendNewOfFresh([], BuildableEntities(folder.items, conf));
    forall x | x in BuildableEntities(folder.items, conf)
      ensures exists e :: InSubtree(folder, e) && e.Entity? && e.id == x && x in conf.buildEnabled
    {
      BuildableEntitiesAreEnabledEntities(folder, conf, x);
    }
  }

  lemma {:induction false} EnabledIdsUnique(s: seq<Item>, conf: SolutionConfiguration)
    requires NoDuplicates(Ids(s))
    ensures NoDuplicates(EnabledEntityIds(s, conf))
    decreases |s|
  {
    if s != [] {
      var init, last := s[..|s| - 1], s[|s| - 1];
      assert NoDuplicates(Ids(init)) by {
        forall i, j | 0 <= i < j < |init| ensures Ids(init)[i] != Ids(init)[j] {
          assert Ids(s)[i] != Ids(s)[j];
        }
      }
      EnabledIdsUnique(init, conf);
      if last.Entity? && last.id in conf.buildEnabled {
        forall x | x in EnabledEntityIds(init, conf) ensures x != last.id {
          var e :| e in init && e.Entity? && e.id == x && x in conf.buildEnabled;
          var m :| 0 <= m < |init| && init[m] == e;
          assert Ids(s)[m] != Ids(s)[|s| - 1];
        }
      }
    }
  }

  lemma AppendNewAssociates(list: seq<ItemId>, a: seq<ItemId>, b: seq<ItemId>)
    ensures AppendNew(AppendNew(list, a), b) == AppendNew(list, a + b)
    decreases |b|
  {
    if b == [] {
      assert a + b == a;
    } else {
      assert (a + b)[..|a + b| - 1] == a + b[..|b| - 1];
      AppendNewAssociates(list, a, b[..|b| - 1]);
    }
  }

  /** Appending to a list keeps what it listed, and keeps its closed part closed. */
  lemma ListGrows(before: seq<ItemId>, after: seq<ItemId>, from: nat, refs: ReferenceGraph)
    requires |before| <= |after| && after[..|before|] == before
    ensures forall x :: x in before ==> x in after
    ensures from <= |before| && ClosedFrom(before, from, refs) && ClosedFrom(after, |before|, refs) ==>
              ClosedFrom(after, from, refs)
  {
    forall x | x in before ensures x in after {
      var k :| 0 <= k < |before| && before[k] == x;
      assert after[k] == x;
    }
    if from <= |before| && ClosedFrom(before, from, refs) && ClosedFrom(after, |before|, refs) {
      forall k | from <= k < |after| ensures RefsListed(after, after[k], refs) {
        if k < |before| {
          assert after[k] == before[k];
          assert RefsListed(before, before[k], refs);
        }
      }
    }
  }

  /** An item referenced by an earlier one stays so when the list grows. */
  lemma ReferencedBeforeGrows(before: seq<ItemId>, after: seq<ItemId>, k: nat, refs: ReferenceGraph)
    requires |before| <= |after| && after[..|before|] == before
    requires k < |before| && ReferencedBefore(before, k, refs)
    ensures ReferencedBefore(after, k, refs)
  {
    var j :| 0 <= j < k && before[k] in Referenced(refs, before[j]);
    assert after[j] == before[j] && after[k] == before[k];
  }

  /**
   * What adding `entities` to `list` (and, when references are included,
   * whatever they reference) produces in `result`: `list` kept as a prefix,
   * no duplicate introduced, every entity present; without references exactly
   * the `Contains`-guarded append; with references, every newly listed item
   * has its references listed; and nothing new besides entities and
   * referenced items.
   */
  ghost predicate Collected(list: seq<ItemId>, result: seq<ItemId>, entities: seq<ItemId>,
                            refs: ReferenceGraph, includeExternalReferences: bool)
  {
    && |list| <= |result| && result[..|list|] == list
    && (NoDuplicates(list) ==> NoDuplicates(result))
    && (forall x :: x in entities ==> x in result)
    && (!includeExternalReferences ==> result == AppendNew(list, entities))
    && (includeExternalReferences ==> ClosedFrom(result, |list|, refs))
    && (forall k :: |list| <= k < |result| ==> result[k] in entities || ReferencedBefore(result, k, refs))
  }

  /** Collecting nothing leaves the list as it is. */
  lemma CollectedNothing(list: seq<ItemId>, refs: ReferenceGraph, includeExternalReferences: bool)
    ensures Collected(list, list, [], refs, includeExternalReferences)
  {
    assert list[..|list|] == list;
  }

  /** Collecting `a` and then `b` is collecting `a + b`. */
  lemma CollectedTransitive(list: seq<ItemId>, mid: seq<ItemId>, result: seq<ItemId>, a: seq<ItemId>, b: seq<ItemId>,
                            refs: ReferenceGraph, includeExternalReferences: bool)
    requires Collected(list, mid, a, refs, includeExternalReferences)
    requires Collected(mid, result, b, refs, includeExternalReferences)
    ensures Collected(list, result, a + b, refs, includeExternalReferences)
  {
    ListGrows(list, mid, |list|, refs);
    ListGrows(mid, result, |list|, refs);
    assert result[..|list|] == mid[..|list|];
    if !includeExternalReferences {
      AppendNewAssociates(list, a, b);
    }
    forall k | |list| <= k < |result| ensures result[k] in a + b || ReferencedBefore(result, k, refs) {
      if k < |mid| {
        assert result[k] == mid[k];
        if ReferencedBefore(mid, k, refs) {
          ReferencedBeforeGrows(mid, result, k, refs);
        }
      }
    }
  }

  // ---------------------------------------------------------------------------
  // The list the collection builds, in discovery order

  /**
   * The list after `GetAllBuildableReferences (list, x, ...)`: unchanged when
   * `x` is already listed; otherwise `x` is appended and, with references,
   * each item `x` references is expanded in turn, in `GetReferencedItems`
   * order.
   */
  function References(list: seq<ItemId>, x: ItemId, refs: ReferenceGraph, includeExternalReferences: bool)
    : (r: seq<ItemId>)
    ensures |list| <= |r| && r[..|list|] == list
    decreases (RefTargets(refs) + {x}) - Listed(list), 0
  {
    if x in list then list
    else if !includeExternalReferences then list + [x]
    else
      assert forall y :: y in Referenced(refs, x) ==> y in RefTargets(refs);
      assert Listed(list + [x]) == Listed(list) + {x};
      var r := ExpandAll(list + [x], Referenced(refs, x), refs);
      assert r[..|list|] == (list + [x])[..|list|];
      r
  }

  /** A list extending another lists everything the other does. */
  lemma PrefixListed(list: seq<ItemId>, longer: seq<ItemId>)
    requires |list| <= |longer| && longer[..|list|] == list
    ensures Listed(list) <= Listed(longer)
  {
    forall x | x in list ensures x in longer {
      var k :| 0 <= k < |list| && list[k] == x;
      assert longer[k] == x;
    }
  }

  /** An item not yet listed is appended and, with references, its references are expanded. */
  lemma ReferencesOfNew(list: seq<ItemId>, x: ItemId, refs: ReferenceGraph, includeExternalReferences: bool)
    requires x !in list
    ensures forall y :: y in Referenced(refs, x) ==> y in RefTargets(refs)
    ensures References(list, x, refs, includeExternalReferences) ==
              if includeExternalReferences then ExpandAll(list + [x], Referenced(refs, x), refs) else list + [x]
  {
  }

  /** The list after expanding each of `targets` in turn, references included. */
  function ExpandAll(list: seq<ItemId>, targets: seq<ItemId>, refs: ReferenceGraph): (r: seq<ItemId>)
    requires forall y :: y in targets ==> y in RefTargets(refs)
    ensures |list| <= |r| && r[..|list|] == list
    decreases RefTargets(refs) - Listed(list), 1, |targets|
  {
    if targets == [] then list
    else
      var mid := References(list, targets[0], refs, true);
      PrefixListed(list, mid);
      var r := ExpandAll(mid, targets[1..], refs);
      assert r[..|list|] == mid[..|list|];
      r
  }

  /**
   * The list after the private `GetAllBuildableEntries` has walked
   * `items` under `conf`: child by child, sub-folders recursively, each
   * build-enabled entity item through `References`.
   */
  function CollectIn(list: seq<ItemId>, items: seq<Item>, conf: SolutionConfiguration, refs: ReferenceGraph,
                     includeExternalReferences: bool): seq<ItemId>
    decreases items
  {
    if items == [] then list
    else
      var mid := CollectIn(list, items[..|items| - 1], conf, refs, includeExternalReferences);
      var c := items[|items| - 1];
      if c.Folder? then CollectIn(mid, c.items, conf, refs, includeExternalReferences)
      else if c.Entity? && c.id in conf.buildEnabled then References(mid, c.id, refs, includeExternalReferences)
      else mid
  }

  /** Walking children `0..i` is walking `0..i-1` and then child `i`. */
  lemma CollectInSnoc(list: seq<ItemId>, items: seq<Item>, i: nat, conf: SolutionConfiguration, refs: ReferenceGraph,
                      includeExternalReferences: bool)
    requires i < |items|
    ensures var mid := CollectIn(list, items[..i], conf, refs, includeExternalReferences);
            var c := items[i];
            CollectIn(list, items[..i + 1], conf, refs, includeExternalReferences) ==
              if c.Folder? then CollectIn(mid, c.items, conf, refs, includeExternalReferences)
              else if c.Entity? && c.id in conf.buildEnabled then References(mid, c.id, refs, includeExternalReferences)
              else mid
  {
    assert items[..i + 1][..i] == items[..i] && items[..i + 1][i] == items[i];
  }

  /** The list the public `GetAllBuildableEntries` collects, before any sort. */
  function BuildableList(folder: Item, solution: Option<Solution>, configuration: string, refs: ReferenceGraph,
                         includeExternalReferences: bool): seq<ItemId>
    requires folder.Folder?
  {
    if solution.None? || configuration !in solution.value.configurations then []
    else CollectIn([], folder.items, solution.value.configurations[configuration], refs, includeExternalReferences)
  }

  /**
   * The order of discovery on a small folder: two build-enabled projects in
   * child order, the first referencing a third item. The reference follows
   * its referrer at once, before the next child; without references the
   * children keep their order.
   */
  lemma DiscoveryOrderExample()
    ensures var f := Folder(0, "f", [Entity(1, "a", Project, "a.csproj"), Entity(2, "b", Project, "b.csproj")]);
            var sol := Some(Solution("s", map["Debug" := SolutionConfiguration({1, 2})]));
            && BuildableList(f, sol, "Debug", map[], true) == [1, 2]
            && BuildableList(f, sol, "Debug", map[1 := [3]], true) == [1, 3, 2]
            && BuildableList(f, sol, "Debug", map[1 := [3]], false) == [1, 2]
            && BuildableList(f, sol, "Release", map[1 := [3]], true) == []
  {
    var a, b := Entity(1, "a", Project, "a.csproj"), Entity(2, "b", Project, "b.csproj");
    var items := [a, b];
    var conf := SolutionConfiguration({1, 2});
    var none: ReferenceGraph := map[];
    var refs: ReferenceGraph := map[1 := [3]];
    assert items[..1] == [a] && [a][..0] == [];
    assert 3 in RefTargets(refs) by {
      assert 1 in refs && 3 in refs[1];
    }
    assert Referenced(none, 1) == [] && Referenced(none, 2) == [];
    assert Referenced(refs, 1) == [3] && Referenced(refs, 2) == [] && Referenced(refs, 3) == [];
    assert References([], 1, none, true) == ExpandAll([1], [], none) == [1];
    assert References([1], 2, none, true) == ExpandAll([1, 2], [], none) == [1, 2];
    assert CollectIn([], [a], conf, none, true) == [1];
    assert References([1], 3, refs, true) == ExpandAll([1, 3], [], refs) == [1, 3];
    assert ExpandAll([1], [3], refs) == ExpandAll([1, 3], [], refs);
    assert References([], 1, refs, true) == [1, 3];
    assert CollectIn([], [a], conf, refs, true) == [1, 3];
    assert References([1, 3], 2, refs, true) == ExpandAll([1, 3, 2], [], refs) == [1, 3, 2];
    assert CollectIn([], [a], conf, refs, false) == [1];
  }

  /** A reference cycle ends the expansion: each item of the cycle is listed once. */
  lemma CycleListedOnce()
    ensures References([], 1, map[1 := [2], 2 := [1]], true) == [1, 2]
  {
    var refs: ReferenceGraph := map[1 := [2], 2 := [1]];
    assert Referenced(refs, 1) == [2] && Referenced(refs, 2) == [1];
    assert 1 in RefTargets(refs) by {
      assert 2 in refs && 1 in refs[2];
    }
    assert 2 in RefTargets(refs) by {
      assert 1 in refs && 2 in refs[1];
    }
    assert References([1, 2], 1, refs, true) == [1, 2];
    assert ExpandAll([1, 2], [1], refs) == ExpandAll([1, 2], [], refs) == [1, 2];
    assert References([1], 2, refs, true) == [1, 2];
    assert ExpandAll([1], [2], refs) == ExpandAll([1, 2], [], refs);
    var empty: seq<ItemId> := [];
    assert empty + [1] == [1];
    assert References(empty, 1, refs, true) == ExpandAll([1], [2], refs);
  }

  // ---------------------------------------------------------------------------
  // The collection methods

  /**
   * `GetAllBuildableReferences`: lists `item` unless it is already listed and,
   * when references are included, then does the same for everything it
   * references, depth-first. An already-listed item is neither re-added nor
   * re-expanded, which keeps the list free of duplicates and ends the
   * recursion on reference cycles.
   */
  method GetAllBuildableReferences(list: seq<ItemId>, item: ItemId, refs: ReferenceGraph, includeExternalReferences: bool)
    returns (result: seq<ItemId>)
    ensures result == References(list, item, refs, includeExternalReferences)
    ensures Collected(list, result, [item], refs, includeExternalReferences)
    ensures item in list ==> result == list
    ensures item !in list ==> result[|list|] == item
    decreases (RefTargets(refs) + {item}) - Listed(list), 0
  {
    if item in list {
      return list;
    }
    result := list + [item];
    ReferencesOfNew(list, item, refs, includeExternalReferences);
    if includeExternalReferences {
      assert Listed(list) + {item} == Listed(result);
      result := ListReferences(result, item, refs);
      CollectedWithReferences(list, item, result, refs);
    } else {
      assert [item][..0] == [];
      assert result == AppendNew(list, [item]);
    }
  }

  /** What `ListReferences` guarantees after `item` was appended is `Collected` for `item`. */
  lemma CollectedWithReferences(list: seq<ItemId>, item: ItemId, result: seq<ItemId>, refs: ReferenceGraph)
    requires item !in list
    requires |list + [item]| <= |result| && result[..|list| + 1] == list + [item]
    requires NoDuplicates(list + [item]) ==> NoDuplicates(result)
    requires ClosedFrom(result, |list| + 1, refs) && RefsListed(result, item, refs)
    requires forall k :: |list| + 1 <= k < |result| ==> ReferencedBefore(result, k, refs)
    ensures Collected(list, result, [item], refs, true)
    ensures result[|list|] == item
  {
    assert result[|list|] == (list + [item])[|list|];
    assert result[..|list|] == (list + [item])[..|list|];
    if NoDuplicates(list) {
      assert NoDuplicates(list + [item]) by {
        forall i, j | 0 <= i < j < |list| + 1 ensures (list + [item])[i] != (list + [item])[j] {
          if j == |list| {
            assert list[i] in list;
          }
        }
      }
    }
  }

  /** The loop of `GetAllBuildableReferences` over the items `item` references, `item` being the last listed. */
  method ListReferences(list: seq<ItemId>, item: ItemId, refs: ReferenceGraph) returns (result: seq<ItemId>)
    requires |list| > 0 && list[|list| - 1] == item
    ensures result == ExpandAll(list, Referenced(refs, item), refs)
    ensures |list| <= |result| && result[..|list|] == list
    ensures NoDuplicates(list) ==> NoDuplicates(result)
    ensures ClosedFrom(result, |list|, refs)
    ensures RefsListed(result, item, refs)
    ensures forall k :: |list| <= k < |result| ==> ReferencedBefore(result, k, refs)
    decreases RefTargets(refs) - Listed(list), 1
  {
    var targets := Referenced(refs, item);
    assert forall y :: y in targets ==> y in RefTargets(refs);
    result := list;
    var i := 0;
    while i < |targets|
      invariant 0 <= i <= |targets|
      invariant ExpandAll(result, targets[i..], refs) == ExpandAll(list, targets, refs)
      invariant |list| <= |result| && result[..|list|] == list
      invariant forall j :: 0 <= j < i ==> targets[j] in result
      invariant NoDuplicates(list) ==> NoDuplicates(result)
      invariant ClosedFrom(result, |list|, refs)
      invariant forall k :: |list| <= k < |result| ==> ReferencedBefore(result, k, refs)
    {
      ListGrows(list, result, |list|, refs);
      assert RefTargets(refs) - Listed(result) <= RefTargets(refs) - Listed(list);
      ghost var before := result;
      result := GetAllBuildableReferences(result, targets[i], refs, true);
      assert targets[i..][1..] == targets[i + 1..];
      ListGrows(before, result, |list|, refs);
      assert result[..|list|] == before[..|list|];
      forall k | |list| <= k < |result| ensures ReferencedBefore(result, k, refs) {
        if k < |before| {
          ReferencedBeforeGrows(before, result, k, refs);
        } else if result[k] == targets[i] {
          assert result[|list| - 1] == item;
        }
      }
      i := i + 1;
    }
  }

  /**
   * The private `GetAllBuildableEntries (list, configuration, ...)`: nothing
   * without a parent solution or with an unknown configuration; otherwise,
   * child by child, recurse into sub-folders and hand every build-enabled
   * entity item to `GetAllBuildableReferences`.
   */
  method CollectBuildable(list: seq<ItemId>, folder: Item, solution: Option<Solution>, configuration: string,
                          refs: ReferenceGraph, includeExternalReferences: bool)
    returns (result: seq<ItemId>)
    requires folder.Folder?
    ensures solution.None? || configuration !in solution.value.configurations ==> result == list
    ensures solution.Some? && configuration in solution.value.configurations ==>
      result == CollectIn(list, folder.items, solution.value.configurations[configuration], refs, includeExternalReferences)
    ensures solution.Some? && configuration in solution.value.configurations ==>
      Collected(list, result, BuildableEntities(folder.items, solution.value.configurations[configuration]),
                refs, includeExternalReferences)
    decreases folder, 1
  {
    if solution.None? {
      return list;
    }
    if configuration !in solution.value.configurations {
      return list;
    }
    var conf := solution.value.configurations[configuration];
    var items := folder.items;
    result := list;
    var i := 0;
    assert BuildableEntities(items[..0], conf) == [] by {
      assert items[..0] == [];
    }
    CollectedNothing(list, refs, includeExternalReferences);
    while i < |items|
      invariant 0 <= i <= |items|
      invariant result == CollectIn(list, items[..i], conf, refs, includeExternalReferences)
      invariant Collected(list, result, BuildableEntities(items[..i], conf), refs, includeExternalReferences)
    {
      CollectInSnoc(list, items, i, conf, refs, includeExternalReferences);
      BuildableEntitiesSnoc(items, i, conf);
      ghost var before := result;
      result := CollectChild(result, items[i], solution, configuration, refs, includeExternalReferences);
      CollectedTransitive(list, before, result, BuildableEntities(items[..i], conf), ChildEntries(items[i], conf),
                          refs, includeExternalReferences);
      i := i + 1;
    }
    assert items[..i] == items;
  }

  /** One pass of the loop over the children: a sub-folder, an enabled entity item, or nothing. */
  method CollectChild(list: seq<ItemId>, c: Item, solution: Option<Solution>, configuration: string,
                      refs: ReferenceGraph, includeExternalReferences: bool)
    returns (result: seq<ItemId>)
    requires solution.Some? && configuration in solution.value.configurations
    ensures var conf := solution.value.configurations[configuration];
            result == if c.Folder? then CollectIn(list, c.items, conf, refs, includeExternalReferences)
                      else if c.Entity? && c.id in conf.buildEnabled then References(list, c.id, refs, includeExternalReferences)
                      else list
    ensures Collected(list, result, ChildEntries(c, solution.value.configurations[configuration]),
                      refs, includeExternalReferences)
    decreases c, 2
  {
    var conf := solution.value.configurations[configuration];
    if c.Folder? {
      result := CollectBuildable(list, c, solution, configuration, refs, includeExternalReferences);
    } else if c.Entity? && c.id in conf.buildEnabled {
      result := GetAllBuildableReferences(list, c.id, refs, includeExternalReferences);
    } else {
      result := list;
      CollectedNothing(list, refs, includeExternalReferences);
    }
  }

  // ---------------------------------------------------------------------------
  // The public entry point

  /** The outcome of `SolutionItem.TopologicalSort`: an order, or a `CyclicBuildOrderException`. */
  datatype SortOutcome = Sorted(order: seq<ItemId>) | CyclicBuildOrder

  /**
   * The contract assumed of the topological sort (its code is not part of
   * this model): an order it returns is a permutation of its input.
   */
  ghost predicate PermutingSorter(sort: seq<ItemId> -> SortOutcome) {
    forall l: seq<ItemId> :: sort(l).Sorted? ==> multiset(sort(l).order) == multiset(l)
  }

  /**
   * What the collection with references included guarantees about the list it
   * starts from empty: no duplicates, every build-enabled entity item of the
   * subtree, every reference of a listed item, and nothing else than those
   * two kinds of item; empty when there is no solution or no such
   * configuration.
   */
  ghost predicate CollectedEntries(entries: seq<ItemId>, folder: Item, solution: Option<Solution>,
                                   configuration: string, refs: ReferenceGraph)
    requires folder.Folder?
  {
    && NoDuplicates(entries)
    && (solution.None? || configuration !in solution.value.configurations ==> entries == [])
    && (solution.Some? && configuration in solution.value.configurations ==>
          var entities := BuildableEntities(folder.items, solution.value.configurations[configuration]);
          && (forall x :: x in entities ==> x in entries)
          && ClosedFrom(entries, 0, refs)
          && (forall k :: 0 <= k < |entries| ==> entries[k] in entities || ReferencedBefore(entries, k, refs)))
  }

  /**
   * Entries form the least list closed under references: any set that holds
   * the build-enabled entity items and everything its members reference
   * holds every entry.
   */
  lemma CollectedEntriesAreLeast(entries: seq<ItemId>, folder: Item, solution: Option<Solution>,
                                 configuration: string, refs: ReferenceGraph, closure: set<ItemId>)
    requires folder.Folder? && CollectedEntries(entries, folder, solution, configuration, refs)
    requires solution.Some? && configuration in solution.value.configurations
    requires forall x :: x in BuildableEntities(folder.items, solution.value.configurations[configuration]) ==> x in closure
    requires forall x, y :: x in closure && y in Referenced(refs, x) ==> y in closure
    ensures forall x :: x in entries ==> x in closure
  {
    var entities := BuildableEntities(folder.items, solution.value.configurations[configuration]);
    PrefixWithin(entries, entities, refs, closure, |entries|);
  }

  lemma {:induction false} PrefixWithin(entries: seq<ItemId>, entities: seq<ItemId>, refs: ReferenceGraph,
                                        closure: set<ItemId>, n: nat)
    requires n <= |entries|
    requires forall k :: 0 <= k < |entries| ==> entries[k] in entities || ReferencedBefore(entries, k, refs)
    requires forall x :: x in entities ==> x in closure
    requires forall x, y :: x in closure && y in Referenced(refs, x) ==> y in closure
    ensures forall x :: x in entries[..n] ==> x in closure
    decreases n
  {
    if n > 0 {
      PrefixWithin(entries, entities, refs, closure, n - 1);
      assert entries[..n] == entries[..n - 1] + [entries[n - 1]];
      if entries[n - 1] !in entities {
        var j :| 0 <= j < n - 1 && entries[n - 1] in Referenced(refs, entries[j]);
        assert entries[j] in entries[..n - 1];
      }
    }
  }

  /**
   * The public `GetAllBuildableEntries (configuration, topologicalSort,
   * includeExternalReferences)`: collect from an empty list, then either
   * return the list as it is or hand it to the topological sort. The list is
   * `BuildableList`; with references it holds every build-enabled entity item
   * and their reference closure, each once, and without references it is the
   * entity items in child order.
   */
  method GetAllBuildableEntries(folder: Item, solution: Option<Solution>, configuration: string, refs: ReferenceGraph,
                                sort: seq<ItemId> -> SortOutcome, topologicalSort: bool, includeExternalReferences: bool)
    returns (r: SortOutcome)
    requires folder.Folder?
    ensures var entries := BuildableList(folder, solution, configuration, refs, includeExternalReferences);
            r == if topologicalSort then sort(entries) else Sorted(entries)
    ensures includeExternalReferences ==>
              CollectedEntries(BuildableList(folder, solution, configuration, refs, true), folder, solution, configuration, refs)
    ensures !includeExternalReferences ==>
              BuildableList(folder, solution, configuration, refs, false) ==
                if solution.None? || configuration !in solution.value.configurations then []
                else AppendNew([], BuildableEntities(folder.items, solution.value.configurations[configuration]))
  {
    var list := CollectBuildable([], folder, solution, configuration, refs, includeExternalReferences);
    if topologicalSort {
      r := sort(list);
    } else {
      r := Sorted(list);
    }
  }

}
