/**
 * The item tree of a solution folder and the read-only walks over it:
 * collecting all items of a kind (pre-order), the first-match searches for a
 * project by name and an entity item by file name, and the two folds a
 * folder answers for its children (needs-building and last build time).
 */
module SolutionItems {
  import opened Common

  /** Identity of a solution item (C# reference identity). */
  type ItemId = nat

  /** The concrete class of an entity item: a plain SolutionEntityItem, a Project, a DotNetProject. */
  datatype EntityKind = GenericEntity | Project | DotNetProject

  /**
   * A solution item. A folder owns an ordered list of children; an entity item
   * (a project or another item stored in its own file) has a file name; any
   * other SolutionItem is neither.
   */
  datatype Item =
    | Folder(id: ItemId, name: string, items: seq<Item>)
    | Entity(id: ItemId, name: string, kind: EntityKind, fileName: string)
    | OtherItem(id: ItemId, name: string)

  /** The type argument `T` of `GetAllItems<T>`. */
  datatype ItemType = AnyItem | FolderType | EntityType | ProjectType | DotNetProjectType

  /** C#'s `item is T`, following the class hierarchy (DotNetProject <: Project <: SolutionEntityItem). */
  predicate IsOfType(it: Item, t: ItemType) {
    match t
    case AnyItem => true
    case FolderType => it.Folder?
    case EntityType => it.Entity?
    case ProjectType => it.Entity? && it.kind != GenericEntity
    case DotNetProjectType => it.Entity? && it.kind == DotNetProject
  }

  // ---------------------------------------------------------------------------
  // Pre-order flattening

  /** The items of type `t` in the subtree of `it`, the item itself first, then each child's subtree in order. */
  function AllItems(it: Item, t: ItemType): seq<Item>
    decreases it, 1
  {
    (if IsOfType(it, t) then [it] else [])
    + (if it.Folder? then AllItemsIn(it.items, t) else [])
  }

  /** The items of type `t` in the subtrees of `items`, in order. */
  function AllItemsIn(items: seq<Item>, t: ItemType): seq<Item>
    decreases items, 0
  {
    if items == [] then []
    else AllItemsIn(items[..|items| - 1], t) + AllItems(items[|items| - 1], t)
  }

  /** The flattening of a concatenation is the concatenation of the flattenings. */
  lemma {:induction false} AllItemsInAppend(a: seq<Item>, b: seq<Item>, t: ItemType)
    ensures AllItemsIn(a + b, t) == AllItemsIn(a, t) + AllItemsIn(b, t)
    decreases |b|
  {
    if b == [] {
      assert a + b == a;
    } else {
      var init := b[..|b| - 1];
      assert (a + b)[..|a + b| - 1] == a + init;
      assert (a + b)[|a + b| - 1] == b[|b| - 1];
      AllItemsInAppend(a, init, t);
    }
  }

  /** One more child adds its subtree at the end. */
  lemma AllItemsInSnoc(items: seq<Item>, i: nat, t: ItemType)
    requires i < |items|
    ensures AllItemsIn(items[..i + 1], t) == AllItemsIn(items[..i], t) + AllItems(items[i], t)
  {
    assert items[..i + 1][..i] == items[..i];
  }

  /** `x` is `it` or lies somewhere below it. */
  predicate InSubtree(it: Item, x: Item)
    decreases it
  {
    it == x || (it.Folder? && exists c :: c in it.items && InSubtree(c, x))
  }

  /** The flattening lists exactly the items of the subtree that have the requested type. */
  lemma {:induction false} AllItemsMembership(it: Item, t: ItemType, x: Item)
    ensures x in AllItems(it, t) <==> InSubtree(it, x) && IsOfType(x, t)
    decreases it, 1
  {
    if it.Folder? {
      AllItemsInMembership(it.items, t, x);
    }
  }

  lemma {:induction false} AllItemsInMembership(items: seq<Item>, t: ItemType, x: Item)
    ensures x in AllItemsIn(items, t) <==> (exists c :: c in items && InSubtree(c, x)) && IsOfType(x, t)
    decreases items, 0
  {
    if items != [] {
      var init, last := items[..|items| - 1], items[|items| - 1];
      assert items == init + [last];
      AllItemsInMembership(init, t, x);
      AllItemsMembership(last, t, x);
    }
  }

  /** One child's subtree appended after its elder siblings' completes the flattening up to that child. */
  lemma GetAllItemsStep(head: seq<Item>, children: seq<Item>, i: nat, t: ItemType, prev: seq<Item>, next: seq<Item>)
    requires i < |children|
    requires prev == head + AllItemsIn(children[..i], t)
    requires next == prev + AllItems(children[i], t)
    ensures next == head + AllItemsIn(children[..i + 1], t)
  {
    AllItemsInSnoc(children, i, t);
  }

  /** `GetAllItems<T>`: appends the items of type `t` under `item`, pre-order, to `list`. */
  method GetAllItems(list: seq<Item>, item: Item, t: ItemType) returns (result: seq<Item>)
    ensures result == list + AllItems(item, t)
    decreases item
  {
    result := list;
    if IsOfType(item, t) {
      result := result + [item];
    }
    ghost var head := result;
    if item.Folder? {
      var children := item.items;
      var i := 0;
      while i < |children|
        invariant 0 <= i <= |children|
        invariant result == head + AllItemsIn(children[..i], t)
      {
        ghost var prev := result;
        result := GetAllItems(result, children[i], t);
        GetAllItemsStep(head, children, i, t, prev, result);
        i := i + 1;
      }
      assert children[..i] == children;
      assert result == head + AllItemsIn(item.items, t);
    } else {
      assert AllItems(item, t) == if IsOfType(item, t) then [item] else [];
    }
  }

  // ---------------------------------------------------------------------------
  // Tree well-formedness

  function Ids(s: seq<Item>): (r: seq<ItemId>)
    ensures |r| == |s| && forall k :: 0 <= k < |s| ==> r[k] == s[k].id
  {
    seq(|s|, k requires 0 <= k < |s| => s[k].id)
  }

  /** No two items of the tree share an identity: containment is a tree and every item sits in one folder. */
  predicate UniqueIds(root: Item) {
    NoDuplicates(Ids(AllItems(root, AnyItem)))
  }

  /** The items of `s` that have type `t`, in order. */
  function OfType(s: seq<Item>, t: ItemType): (r: seq<Item>)
    ensures forall x :: x in r <==> x in s && IsOfType(x, t)
  {
    if s == [] then []
    else
      assert s == s[..|s| - 1] + [s[|s| - 1]];
      OfType(s[..|s| - 1], t) + (if IsOfType(s[|s| - 1], t) then [s[|s| - 1]] else [])
  }

  lemma {:induction false} OfTypeAppend(a: seq<Item>, b: seq<Item>, t: ItemType)
    ensures OfType(a + b, t) == OfType(a, t) + OfType(b, t)
    decreases |b|
  {
    if b == [] {
      assert a + b == a;
    } else {
      var init, last := b[..|b| - 1], b[|b| - 1];
      assert (a + b)[..|a + b| - 1] == a + init;
      assert (a + b)[|a + b| - 1] == last;
      OfTypeAppend(a, init, t);
      var tail := if IsOfType(last, t) then [last] else [];
      assert OfType(a + b, t) == OfType(a + init, t) + tail;
      assert OfType(b, t) == OfType(init, t) + tail;
    }
  }

  lemma OfTypeSingleton(it: Item, t: ItemType)
    ensures OfType([it], t) == if IsOfType(it, t) then [it] else []
  {
    assert [it][..0] == [];
  }

  /** Flattening with a type filter is flattening everything, then filtering. */
  lemma {:induction false} AllItemsIsFiltered(it: Item, t: ItemType)
    ensures AllItems(it, t) == OfType(AllItems(it, AnyItem), t)
    decreases it, 1
  {
    OfTypeSingleton(it, t);
    if it.Folder? {
      AllItemsInIsFiltered(it.items, t);
      OfTypeAppend([it], AllItemsIn(it.items, AnyItem), t);
    } else {
      assert AllItems(it, AnyItem) == [it];
    }
  }

  lemma {:induction false} AllItemsInIsFiltered(items: seq<Item>, t: ItemType)
    ensures AllItemsIn(items, t) == OfType(AllItemsIn(items, AnyItem), t)
    decreases items, 0
  {
    if items != [] {
      var init, last := items[..|items| - 1], items[|items| - 1];
      AllItemsInIsFiltered(init, t);
      AllItemsIsFiltered(last, t);
      OfTypeAppend(AllItemsIn(init, AnyItem), AllItems(last, AnyItem), t);
    }
  }

  /** Dropping the last item keeps identities distinct, and the last identity is not among the others. */
  lemma UniqueIdsInit(s: seq<Item>)
    requires s != [] && NoDuplicates(Ids(s))
    ensures NoDuplicates(Ids(s[..|s| - 1]))
    ensures forall x :: x in s[..|s| - 1] ==> x.id != s[|s| - 1].id
  {
    var init, last := s[..|s| - 1], s[|s| - 1];
    var ids, all := Ids(init), Ids(s);
    assert all == ids + [last.id];
    NoDuplicatesSnoc(ids, last.id);
    forall x | x in init ensures x.id != last.id {
      var m :| 0 <= m < |init| && init[m] == x;
      assert ids[m] == x.id;
    }
  }

  lemma {:induction false} OfTypeKeepsUniqueIds(s: seq<Item>, t: ItemType)
    requires NoDuplicates(Ids(s))
    ensures NoDuplicates(Ids(OfType(s, t)))
    decreases |s|
  {
    if s != [] {
      var init, last := s[..|s| - 1], s[|s| - 1];
      UniqueIdsInit(s);
      OfTypeKeepsUniqueIds(init, t);
      var r := OfType(init, t);
      if IsOfType(last, t) {
        assert OfType(s, t) == r + [last];
        var ids := Ids(r);
        assert Ids(r + [last]) == ids + [last.id];
        forall k | 0 <= k < |r| ensures ids[k] != last.id {
          assert r[k] in init;
        }
        NoDuplicatesAppendFresh(ids, last.id);
      } else {
        assert OfType(s, t) == r;
      }
    }
  }

  /** In a well-formed tree, a flattening of any type lists each identity at most once. */
  lemma UniqueIdsOfType(root: Item, t: ItemType)
    requires UniqueIds(root)
    ensures NoDuplicates(Ids(AllItems(root, t)))
  {
    AllItemsIsFiltered(root, t);
    OfTypeKeepsUniqueIds(AllItems(root, AnyItem), t);
  }

  // ---------------------------------------------------------------------------
  // First-match searches

  /** What `FindProjectByName` and `FindSolutionItem` look for (file names already normalised). */
  datatype Query = ProjectNamed(name: string) | EntityWithFile(fileName: string)

  predicate Matches(q: Query, it: Item) {
    match q
    case ProjectNamed(n) => it.Entity? && it.kind != GenericEntity && it.name == n
    case EntityWithFile(f) => it.Entity? && it.fileName != "" && it.fileName == f
  }

  /** The first element of `s` matching `q`, if any. */
  function FirstMatch(s: seq<Item>, q: Query): (r: Option<Item>)
    ensures r.None? <==> forall k :: 0 <= k < |s| ==> !Matches(q, s[k])
    ensures r.Some? ==> exists k :: 0 <= k < |s| && s[k] == r.value && Matches(q, s[k])
                                    && forall j :: 0 <= j < k ==> !Matches(q, s[j])
  {
    if s == [] then None
    else if Matches(q, s[0]) then Some(s[0])
    else
      var r := FirstMatch(s[1..], q);
      assert forall k :: 1 <= k < |s| ==> s[k] == s[1..][k - 1];
      r
  }

  lemma {:induction false} FirstMatchAppend(a: seq<Item>, b: seq<Item>, q: Query)
    ensures FirstMatch(a + b, q) == if FirstMatch(a, q).Some? then FirstMatch(a, q) else FirstMatch(b, q)
  {
    if a != [] {
      assert (a + b)[1..] == a[1..] + b;
      FirstMatchAppend(a[1..], b, q);
    } else {
      assert a + b == b;
    }
  }

  /**
   * The depth-first search shared by `FindProjectByName` and
   * `FindSolutionItem`: children in order, descending into sub-folders, the
   * first match wins. It finds exactly the first matching item of the
   * folder's pre-order flattening (the folder itself excluded).
   */
  method FindFirst(folder: Item, q: Query) returns (r: Option<Item>)
    requires folder.Folder?
    ensures r == FirstMatch(AllItemsIn(folder.items, AnyItem), q)
    decreases folder
  {
    var items := folder.items;
    var i := 0;
    while i < |items|
      invariant 0 <= i <= |items|
      invariant FirstMatch(AllItemsIn(items[..i], AnyItem), q).None?
    {
      var it := items[i];
      AllItemsInSnoc(items, i, AnyItem);
      AllItemsInAppend(items[..i + 1], items[i + 1..], AnyItem);
      assert items[..i + 1] + items[i + 1..] == items;
      FirstMatchAppend(AllItemsIn(items[..i], AnyItem), AllItems(it, AnyItem), q);
      FirstMatchAppend(AllItemsIn(items[..i + 1], AnyItem), AllItemsIn(items[i + 1..], AnyItem), q);
      if it.Folder? {
        FirstMatchAppend([it], AllItemsIn(it.items, AnyItem), q);
        r := FindFirst(it, q);
        if r.Some? {
          return;
        }
      } else if Matches(q, it) {
        return Some(it);
      }
      i := i + 1;
    }
    assert items[..i] == items;
    r := None;
  }

  /** `FindProjectByName`: the first project, depth-first, whose name is `name`. */
  method FindProjectByName(folder: Item, name: string) returns (r: Option<Item>)
    requires folder.Folder?
    ensures r.Some? ==> r.value.Entity? && r.value.kind != GenericEntity && r.value.name == name
    ensures r.Some? ==> InSubtree(folder, r.value) && r.value != folder
    ensures r.None? <==> forall p :: p in AllItemsIn(folder.items, ProjectType) ==> p.name != name
    ensures r == FirstMatch(AllItemsIn(folder.items, AnyItem), ProjectNamed(name))
  {
    r := FindFirst(folder, ProjectNamed(name));
    FindResultFacts(folder, ProjectNamed(name), r);
    forall p ensures p in AllItemsIn(folder.items, ProjectType) <==> p in AllItemsIn(folder.items, AnyItem) && IsOfType(p, ProjectType) {
      AllItemsInMembership(folder.items, ProjectType, p);
      AllItemsInMembership(folder.items, AnyItem, p);
    }
  }

  /** `FindSolutionItem`: the first entity item, depth-first, stored in the file `fileName`. */
  method FindSolutionItem(folder: Item, fileName: string) returns (r: Option<Item>)
    requires folder.Folder?
    ensures r.Some? ==> r.value.Entity? && r.value.fileName == fileName && fileName != ""
    ensures r.Some? ==> InSubtree(folder, r.value) && r.value != folder
    ensures r.None? <==> forall e :: e in AllItemsIn(folder.items, EntityType) ==> !Matches(EntityWithFile(fileName), e)
    ensures r == FirstMatch(AllItemsIn(folder.items, AnyItem), EntityWithFile(fileName))
  {
    r := FindFirst(folder, EntityWithFile(fileName));
    FindResultFacts(folder, EntityWithFile(fileName), r);
    forall e ensures e in AllItemsIn(folder.items, EntityType) <==> e in AllItemsIn(folder.items, AnyItem) && IsOfType(e, EntityType) {
      AllItemsInMembership(folder.items, EntityType, e);
      AllItemsInMembership(folder.items, AnyItem, e);
    }
  }

  /** A search result lies strictly below the folder. */
  lemma FindResultFacts(folder: Item, q: Query, r: Option<Item>)
    requires folder.Folder?
    requires r == FirstMatch(AllItemsIn(folder.items, AnyItem), q)
    ensures r.Some? ==> Matches(q, r.value) && InSubtree(folder, r.value) && r.value != folder
  {
    if r.Some? {
      var s := AllItemsIn(folder.items, AnyItem);
      assert r.value in s;
      AllItemsInMembership(folder.items, AnyItem, r.value);
      var c :| c in folder.items && InSubtree(c, r.value);
      SubtreeIsSmaller(c, r.value);
    }
  }

  /** Every item of a subtree is no larger than its top. */
  lemma {:induction false} SubtreeIsSmaller(it: Item, x: Item)
    requires InSubtree(it, x)
    ensures x == it || x < it
    decreases it
  {
    if it != x {
      var c :| c in it.items && InSubtree(c, x);
      SubtreeIsSmaller(c, x);
    }
  }

  // ---------------------------------------------------------------------------
  // Folds over children

  /** `DateTime`, as its tick count; `MaxDateTime` is `DateTime.MaxValue`. */
  const MaxDateTime: int := 3155378975999999999
  type DateTime = t: int | 0 <= t <= MaxDateTime

  /**
   * Whether an item needs building: a folder asks its children, any other
   * item answers for itself (`leafNeeds`, an external collaborator).
   */
  predicate NeedsBuilding(it: Item, leafNeeds: ItemId -> bool)
    decreases it
  {
    if it.Folder? then exists c :: c in it.items && NeedsBuilding(c, leafNeeds)
    else leafNeeds(it.id)
  }

  /** `item.NeedsBuilding (configuration)`, dispatching on the item's class. */
  method ItemNeedsBuilding(it: Item, leafNeeds: ItemId -> bool) returns (b: bool)
    ensures b == NeedsBuilding(it, leafNeeds)
    decreases it, 1
  {
    if it.Folder? {
      b := OnGetNeedsBuilding(it, leafNeeds);
    } else {
      b := leafNeeds(it.id);
    }
  }

  /** `OnGetNeedsBuilding`: true exactly when some child needs building; stops at the first. */
  method OnGetNeedsBuilding(folder: Item, leafNeeds: ItemId -> bool) returns (b: bool)
    requires folder.Folder?
    ensures b <==> exists k :: 0 <= k < |folder.items| && NeedsBuilding(folder.items[k], leafNeeds)
    decreases folder, 0
  {
    var i := 0;
    while i < |folder.items|
      invariant 0 <= i <= |folder.items|
      invariant forall k :: 0 <= k < i ==> !NeedsBuilding(folder.items[k], leafNeeds)
    {
      b := ItemNeedsBuilding(folder.items[i], leafNeeds);
      if b {
        return;
      }
      i := i + 1;
    }
    b := false;
  }

  /** A folder needs building exactly when some non-folder item anywhere in its subtree does. */
  lemma {:induction false} NeedsBuildingSomeLeaf(it: Item, leafNeeds: ItemId -> bool)
    ensures NeedsBuilding(it, leafNeeds) <==> exists x :: x in AllItems(it, AnyItem) && !x.Folder? && leafNeeds(x.id)
    decreases it, 1
  {
    if it.Folder? {
      NeedsBuildingSomeLeafIn(it.items, leafNeeds);
      assert AllItems(it, AnyItem) == [it] + AllItemsIn(it.items, AnyItem);
    } else {
      assert AllItems(it, AnyItem) == [it];
    }
  }

  lemma {:induction false} NeedsBuildingSomeLeafIn(items: seq<Item>, leafNeeds: ItemId -> bool)
    ensures (exists c :: c in items && NeedsBuilding(c, leafNeeds))
            <==> exists x :: x in AllItemsIn(items, AnyItem) && !x.Folder? && leafNeeds(x.id)
    decreases items, 0
  {
    if items != [] {
      var init, last := items[..|items| - 1], items[|items| - 1];
      NeedsBuildingSomeLeafIn(init, leafNeeds);
      NeedsBuildingSomeLeaf(last, leafNeeds);
      assert items == init + [last];
      assert AllItemsIn(items, AnyItem) == AllItemsIn(init, AnyItem) + AllItems(last, AnyItem);
      if exists c :: c in items && NeedsBuilding(c, leafNeeds) {
        var c :| c in items && NeedsBuilding(c, leafNeeds);
        if c != last {
          assert c in init;
        }
      }
    }
  }

  /** The earliest of the children's times, `MaxDateTime` when there are none. */
  function MinTime(times: seq<DateTime>): (r: DateTime)
    ensures forall k :: 0 <= k < |times| ==> r <= times[k]
    ensures times == [] ==> r == MaxDateTime
    ensures times != [] ==> exists k :: 0 <= k < |times| && r == times[k]
  {
    if times == [] then MaxDateTime
    else
      var m := MinTime(times[..|times| - 1]);
      var t := times[|times| - 1];
      assert forall k :: 0 <= k < |times| - 1 ==> times[k] == times[..|times| - 1][k];
      if t < m then t else m
  }

  /** Taking one more time into account lowers the minimum exactly when that time is earlier. */
  lemma MinTimeSnoc(times: seq<DateTime>, i: nat)
    requires i < |times|
    ensures MinTime(times[..i + 1]) == if times[i] < MinTime(times[..i]) then times[i] else MinTime(times[..i])
  {
    assert times[..i + 1][..i] == times[..i];
  }

  /** The last build time of an item: the minimum over a folder's children, the item's own time otherwise. */
  function LastBuildTime(it: Item, leafTime: ItemId -> DateTime): DateTime
    decreases it, 1
  {
    if it.Folder? then MinTime(ChildTimes(it.items, leafTime)) else leafTime(it.id)
  }

  function ChildTimes(items: seq<Item>, leafTime: ItemId -> DateTime): (r: seq<DateTime>)
    ensures |r| == |items| && forall k :: 0 <= k < |items| ==> r[k] == LastBuildTime(items[k], leafTime)
    decreases items, 0
  {
    if items == [] then []
    else
      var r := ChildTimes(items[..|items| - 1], leafTime) + [LastBuildTime(items[|items| - 1], leafTime)];
      assert forall k :: 0 <= k < |items| - 1 ==> items[k] == items[..|items| - 1][k];
      r
  }

  /** `t` is the last build time of some non-folder item of `it`'s subtree (`it` itself included). */
  ghost predicate IsLeafTime(it: Item, leafTime: ItemId -> DateTime, t: DateTime) {
    exists x :: x in AllItems(it, AnyItem) && !x.Folder? && t == leafTime(x.id)
  }

  /**
   * The last build time of an item is the earliest time of the non-folder
   * items of its subtree, folders nested at any depth being looked through;
   * `DateTime.MaxValue` when there is none.
   */
  lemma {:induction false} LastBuildTimeOverLeaves(it: Item, leafTime: ItemId -> DateTime)
    ensures forall x :: x in AllItems(it, AnyItem) && !x.Folder? ==> LastBuildTime(it, leafTime) <= leafTime(x.id)
    ensures LastBuildTime(it, leafTime) == MaxDateTime || IsLeafTime(it, leafTime, LastBuildTime(it, leafTime))
    decreases it, 1
  {
    if it.Folder? {
      LastBuildTimeOverLeavesIn(it.items, leafTime);
      assert AllItems(it, AnyItem) == [it] + AllItemsIn(it.items, AnyItem);
    } else {
      assert AllItems(it, AnyItem) == [it];
    }
  }

  lemma {:induction false} LastBuildTimeOverLeavesIn(items: seq<Item>, leafTime: ItemId -> DateTime)
    ensures var m := MinTime(ChildTimes(items, leafTime));
            && (forall x :: x in AllItemsIn(items, AnyItem) && !x.Folder? ==> m <= leafTime(x.id))
            && (m == MaxDateTime || exists x :: x in AllItemsIn(items, AnyItem) && !x.Folder? && m == leafTime(x.id))
    decreases items, 0
  {
    if items != [] {
      var init, last := items[..|items| - 1], items[|items| - 1];
      LastBuildTimeOverLeavesIn(init, leafTime);
      LastBuildTimeOverLeaves(last, leafTime);
      var times := ChildTimes(items, leafTime);
      assert times == ChildTimes(init, leafTime) + [LastBuildTime(last, leafTime)];
      assert times[..|times| - 1] == ChildTimes(init, leafTime);
      assert AllItemsIn(items, AnyItem) == AllItemsIn(init, AnyItem) + AllItems(last, AnyItem);
    }
  }

  /** `item.GetLastBuildTime (configuration)`, dispatching on the item's class. */
  method ItemLastBuildTime(it: Item, leafTime: ItemId -> DateTime) returns (t: DateTime)
    ensures t == LastBuildTime(it, leafTime)
    decreases it, 1
  {
    if it.Folder? {
      t := OnGetLastBuildTime(it, leafTime);
    } else {
      t := leafTime(it.id);
    }
  }

  /**
   * `OnGetLastBuildTime`: the time at which every item in the folder was last
   * built, i.e. the minimum over the children, and `DateTime.MaxValue` for an
   * empty folder.
   */
  method OnGetLastBuildTime(folder: Item, leafTime: ItemId -> DateTime) returns (tim: DateTime)
    requires folder.Folder?
    ensures tim == LastBuildTime(folder, leafTime)
    ensures forall k :: 0 <= k < |folder.items| ==> tim <= LastBuildTime(folder.items[k], leafTime)
    ensures folder.items == [] ==> tim == MaxDateTime
    ensures folder.items != [] ==> exists k :: 0 <= k < |folder.items| && tim == LastBuildTime(folder.items[k], leafTime)
    decreases folder, 0
  {
    ghost var times := ChildTimes(folder.items, leafTime);
    tim := MaxDateTime;
    var i := 0;
    while i < |folder.items|
      invariant 0 <= i <= |folder.items|
      invariant tim == MinTime(times[..i])
    {
      var t := ItemLastBuildTime(folder.items[i], leafTime);
      MinTimeSnoc(times, i);
      if t < tim {
        tim := t;
      }
      i := i + 1;
    }
    assert times[..i] == times;
  }
}
