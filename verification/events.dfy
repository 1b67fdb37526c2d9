/**
 * How a solution folder listens to its children and passes their
 * notifications on. When a child is added the folder subscribes its handlers
 * to the child's events, depending on the child's class, and unsubscribes
 * them when the child is removed. Each handler raises the matching event on
 * the folder. The top folder of a solution also forwards every event to the
 * solution, and item additions and removals climb the parent chain.
 */
module EventFabric {
  import opened Common
  import opened SolutionItems

  /** The events involved, on items, folders and the solution. */
  datatype EventName =
    | FileAddedToProject | FileRemovedFromProject | FileChangedInProject
    | FilePropertyChangedInProject | FileRenamedInProject
    | ReferenceAddedToProject | ReferenceRemovedFromProject
    | Saved | Modified
    | ItemModified | ItemSaved
    | ItemAdded | ItemRemoved | DescendantItemAdded | DescendantItemRemoved
    | SolutionItemAdded | SolutionItemRemoved | EntryModified | EntrySaved

  /** The class of a child item, as the wiring dispatches on it (`is Project`, `is DotNetProject`, ...). */
  datatype ItemClass = ProjectClass | DotNetProjectClass | FolderClass | EntityClass | OtherClass

  function ClassOf(it: Item): ItemClass {
    match it
    case Folder(_, _, _) => FolderClass
    case Entity(_, _, kind, _) =>
      (match kind
       case GenericEntity => EntityClass
       case Project => ProjectClass
       case DotNetProject => DotNetProjectClass)
    case OtherItem(_, _) => OtherClass
  }

  /** The five file events every project and folder carries. */
  predicate IsFileEvent(e: EventName) {
    e.FileRemovedFromProject? || e.FileAddedToProject? || e.FileChangedInProject?
    || e.FilePropertyChangedInProject? || e.FileRenamedInProject?
  }

  /** The two reference events of .NET projects and folders. */
  predicate IsReferenceEvent(e: EventName) {
    e.ReferenceRemovedFromProject? || e.ReferenceAddedToProject?
  }

  /**
   * Whether the folder subscribes to event `e` of a child of class `c`:
   * file events on projects and folders, reference events on .NET projects
   * and folders, `Saved` on entity items that are not projects, and
   * `Modified` on every item.
   */
  predicate Wires(c: ItemClass, e: EventName) {
    || e == Modified
    || (IsFileEvent(e) && (c == ProjectClass || c == DotNetProjectClass || c == FolderClass))
    || (IsReferenceEvent(e) && (c == DotNetProjectClass || c == FolderClass))
    || (e == Saved && c == EntityClass)
  }

  /** One of the folder's handlers attached to one event of one child. */
  datatype Subscription = Subscription(source: ItemId, event: EventName)

  function One(id: ItemId, e: EventName): multiset<Subscription> {
    multiset{Subscription(id, e)}
  }

  /** The five file-event handlers on child `id`, summed in the order they are attached. */
  function FileWiring(id: ItemId): multiset<Subscription> {
    multiset{} + One(id, FileRemovedFromProject) + One(id, FileAddedToProject)
    + One(id, FileChangedInProject) + One(id, FilePropertyChangedInProject) + One(id, FileRenamedInProject)
  }

  /** The handlers attached to a child of class `c`, summed in the order `ConnectChildEntryEvents` attaches them. */
  function WiringFor(id: ItemId, c: ItemClass): multiset<Subscription> {
    var files := FileWiring(id);
    var byClass :=
      if c == ProjectClass || c == DotNetProjectClass then
        if c == DotNetProjectClass then files + One(id, ReferenceRemovedFromProject) + One(id, ReferenceAddedToProject)
        else files
      else if c == FolderClass then files + One(id, ReferenceRemovedFromProject) + One(id, ReferenceAddedToProject)
      else if c == EntityClass then multiset{} + One(id, Saved)
      else multiset{};
    byClass + One(id, Modified)
  }

  /** The subscriptions `ConnectChildEntryEvents (item)` adds. */
  function Wiring(item: Item): multiset<Subscription> {
    WiringFor(item.id, ClassOf(item))
  }

  lemma FileWiringCount(id: ItemId, s: Subscription)
    ensures FileWiring(id)[s] == if s.source == id && IsFileEvent(s.event) then 1 else 0
  {
  }

  lemma ProjectWiringCount(id: ItemId, s: Subscription)
    ensures WiringFor(id, ProjectClass)[s] == if s.source == id && Wires(ProjectClass, s.event) then 1 else 0
  {
    FileWiringCount(id, s);
  }

  lemma FullWiringCount(id: ItemId, c: ItemClass, s: Subscription)
    requires c == DotNetProjectClass || c == FolderClass
    ensures WiringFor(id, c)[s] == if s.source == id && Wires(c, s.event) then 1 else 0
  {
    FileWiringCount(id, s);
  }

  /**
   * Connecting a child of class `c` attaches exactly one handler to each
   * event the class carries and nothing else: the handlers attached one by
   * one in the source's order agree with the per-class table `Wires`.
   */
  lemma WiringForCount(id: ItemId, c: ItemClass, s: Subscription)
    ensures WiringFor(id, c)[s] == if s.source == id && Wires(c, s.event) then 1 else 0
  {
    match c
    case ProjectClass => ProjectWiringCount(id, s);
    case DotNetProjectClass => FullWiringCount(id, c, s);
    case FolderClass => FullWiringCount(id, c, s);
    case EntityClass =>
    case OtherClass =>
  }

  lemma WiringCount(item: Item, s: Subscription)
    ensures Wiring(item)[s] == if s.source == item.id && Wires(ClassOf(item), s.event) then 1 else 0
  {
    WiringForCount(item.id, ClassOf(item), s);
  }

  /**
   * Every child gets the folder's `Modified` handler; only entity items that
   * are not projects get its `Saved` handler.
   */
  lemma ModifiedAlwaysSavedOnlyOnEntities(item: Item)
    ensures Subscription(item.id, Modified) in Wiring(item)
    ensures Subscription(item.id, Saved) in Wiring(item) <==> ClassOf(item) == EntityClass
  {
    WiringCount(item, Subscription(item.id, Modified));
    WiringCount(item, Subscription(item.id, Saved));
  }

  /** Adding handlers one at a time adds them all. */
  lemma AttachStep(m: multiset<Subscription>, added: multiset<Subscription>, x: Subscription)
    ensures (m + added) + multiset{x} == m + (added + multiset{x})
  {
  }

  /** Removing handlers one at a time, each `-=` taking away at most one occurrence, removes them all. */
  lemma DetachStep(m: multiset<Subscription>, removed: multiset<Subscription>, x: Subscription)
    ensures (m - removed) - multiset{x} == m - (removed + multiset{x})
  {
    assert forall y :: ((m - removed) - multiset{x})[y] == (m - (removed + multiset{x}))[y];
  }

  /** The subscriptions of a folder whose children `items` were each connected once. */
  function WiringOf(items: seq<Item>): multiset<Subscription> {
    if items == [] then multiset{} else WiringOf(items[..|items| - 1]) + Wiring(items[|items| - 1])
  }

  /**
   * With children of distinct identities, no handler is attached twice to
   * the same event, and only children are subscribed to.
   */
  lemma {:induction false} WiringOfDistinct(items: seq<Item>)
    requires NoDuplicates(Ids(items))
    ensures forall s :: WiringOf(items)[s] <= 1
    ensures forall s :: s in WiringOf(items) ==> s.source in Ids(items)
    decreases |items|
  {
    if items != [] {
      var init := items[..|items| - 1];
      var last := items[|items| - 1];
      assert Ids(items) == Ids(init) + [last.id];
      assert NoDuplicates(Ids(init)) by {
        forall i, j | 0 <= i < j < |init| ensures Ids(init)[i] != Ids(init)[j] {
          assert Ids(init)[i] == Ids(items)[i] && Ids(init)[j] == Ids(items)[j];
        }
      }
      WiringOfDistinct(init);
      assert last.id !in Ids(init) by {
        forall k | 0 <= k < |init| ensures Ids(init)[k] != last.id {
          assert Ids(init)[k] == Ids(items)[k];
        }
      }
      forall s ensures WiringOf(items)[s] <= 1 && (s in WiringOf(items) ==> s.source in Ids(items)) {
        WiringCount(last, s);
        assert WiringOf(items)[s] == WiringOf(init)[s] + Wiring(last)[s];
        if s.source == last.id {
          assert WiringOf(init)[s] == 0;
        }
      }
    }
  }

  // ---------------------------------------------------------------------------
  // Relays

  /** Where a notification is raised: on a folder or on the parent solution. */
  datatype Target = AtFolder(folder: ItemId) | AtSolution

  datatype Notification = Notification(target: Target, event: EventName)

  /**
   * The parent chain of a folder: the folder itself first, then its parent
   * folder, and so on up to the top folder. `hasSolution` says whether the
   * top folder has a parent solution.
   */
  type Chain = s: seq<ItemId> | |s| > 0 witness [0]

  /**
   * `NotifyItemAddedToFolder` / `NotifyItemRemovedFromFolder`: the
   * descendant event on every folder of the chain, innermost first, then the
   * solution's item event when the top folder has a solution.
   */
  function NotifyItemChangedInFolder(added: bool, chain: Chain, hasSolution: bool): seq<Notification>
    decreases |chain|
  {
    [Notification(AtFolder(chain[0]), if added then DescendantItemAdded else DescendantItemRemoved)]
    + if |chain| > 1 then NotifyItemChangedInFolder(added, chain[1..], hasSolution)
      else if hasSolution then [Notification(AtSolution, if added then SolutionItemAdded else SolutionItemRemoved)]
      else []
  }

  /**
   * `OnItemAdded` / `OnItemRemoved`: the folder's own event, then the
   * descendant event on every folder of the chain, innermost first, and
   * last, once, the solution's event when there is a solution.
   */
  function OnItemChanged(added: bool, chain: Chain, hasSolution: bool): (r: seq<Notification>)
    ensures |r| == |chain| + 1 + (if hasSolution then 1 else 0)
    ensures r[0] == Notification(AtFolder(chain[0]), if added then ItemAdded else ItemRemoved)
    ensures forall k :: 0 <= k < |chain| ==>
              r[k + 1] == Notification(AtFolder(chain[k]), if added then DescendantItemAdded else DescendantItemRemoved)
    ensures hasSolution ==>
              r[|r| - 1] == Notification(AtSolution, if added then SolutionItemAdded else SolutionItemRemoved)
    ensures forall k :: 0 <= k < |r| ==> (r[k].target == AtSolution <==> hasSolution && k == |r| - 1)
  {
    ItemChangeReachesEveryAncestor(added, chain, hasSolution);
    [Notification(AtFolder(chain[0]), if added then ItemAdded else ItemRemoved)]
    + NotifyItemChangedInFolder(added, chain, hasSolution)
  }

  /** The event a folder's handler raises on the folder for a child event: `Saved` and `Modified` are renamed. */
  function HandlerRaises(e: EventName): EventName {
    if e == Saved then ItemSaved else if e == Modified then ItemModified else e
  }

  /** The solution method the top folder calls for one of its own events, if any. */
  function SolutionRelay(e: EventName): Option<EventName> {
    if IsFileEvent(e) || IsReferenceEvent(e) then Some(e)
    else if e == ItemModified then Some(EntryModified)
    else if e == ItemSaved then Some(EntrySaved)
    else None
  }

  /**
   * The `On...` method of the folder `chain[0]` for one of its file,
   * reference, modified or saved events: the solution first when the folder
   * is the top one, then the folder's own event. The parent folder hears the
   * event only when it wired that event on its folder children, and then
   * raises what its handler raises.
   */
  function RelayFolderEvent(e: EventName, chain: Chain, hasSolution: bool): seq<Notification>
    requires SolutionRelay(e).Some?
    decreases |chain|
  {
    (if |chain| == 1 && hasSolution then [Notification(AtSolution, SolutionRelay(e).value)] else [])
    + [Notification(AtFolder(chain[0]), e)]
    + if |chain| > 1 && Wires(FolderClass, e) then RelayFolderEvent(HandlerRaises(e), chain[1..], hasSolution)
      else []
  }

  /**
   * An item added or removed anywhere below a folder is announced on every
   * folder of the chain, innermost first, and then once to the solution when
   * there is one.
   */
  lemma {:induction false} ItemChangeReachesEveryAncestor(added: bool, chain: Chain, hasSolution: bool)
    ensures var r := NotifyItemChangedInFolder(added, chain, hasSolution);
            && |r| == |chain| + (if hasSolution then 1 else 0)
            && (forall k :: 0 <= k < |chain| ==>
                  r[k] == Notification(AtFolder(chain[k]), if added then DescendantItemAdded else DescendantItemRemoved))
            && (hasSolution ==>
                  r[|chain|] == Notification(AtSolution, if added then SolutionItemAdded else SolutionItemRemoved))
    decreases |chain|
  {
    if |chain| > 1 {
      var tail: Chain := chain[1..];
      ItemChangeReachesEveryAncestor(added, tail, hasSolution);
    }
  }

  /**
   * A file or reference event raised on a folder is raised once on every
   * folder of the chain, innermost first, and once on the solution when
   * there is one, just before the top folder's own event.
   */
  lemma {:induction false} ProjectEventReachesEveryAncestor(e: EventName, chain: Chain, hasSolution: bool)
    requires IsFileEvent(e) || IsReferenceEvent(e)
    ensures var r := RelayFolderEvent(e, chain, hasSolution);
            && |r| == |chain| + (if hasSolution then 1 else 0)
            && (forall k :: 0 <= k < |chain| - 1 ==> r[k] == Notification(AtFolder(chain[k]), e))
            && r[|r| - 1] == Notification(AtFolder(chain[|chain| - 1]), e)
            && (hasSolution ==> r[|chain| - 1] == Notification(AtSolution, e))
    decreases |chain|
  {
    if |chain| > 1 {
      var tail: Chain := chain[1..];
      ProjectEventReachesEveryAncestor(e, tail, hasSolution);
      assert HandlerRaises(e) == e && Wires(FolderClass, e);
      var rest := RelayFolderEvent(e, tail, hasSolution);
      var r := RelayFolderEvent(e, chain, hasSolution);
      assert r == [Notification(AtFolder(chain[0]), e)] + rest;
      forall k | 1 <= k < |chain| - 1 ensures r[k] == Notification(AtFolder(chain[k]), e) {
        assert r[k] == rest[k - 1] && tail[k - 1] == chain[k];
      }
    }
  }

  /**
   * An event that folders do not wire on their folder children stops at the
   * folder that raises it: no parent folder hears it, and the solution hears
   * it only when that folder is the top one.
   */
  lemma RelayStopsWhereNotWired(e: EventName, chain: Chain, hasSolution: bool)
    requires SolutionRelay(e).Some? && !Wires(FolderClass, e)
    ensures var r := RelayFolderEvent(e, chain, hasSolution);
            && r[|r| - 1] == Notification(AtFolder(chain[0]), e)
            && (forall k :: 0 <= k < |r| ==> r[k].target == AtFolder(chain[0]) || r[k].target == AtSolution)
            && (|chain| > 1 ==> |r| == 1)
  {
  }

  /**
   * `ItemModified` and `ItemSaved` do not climb: a parent subscribes to a
   * child folder's `Modified` event, not to its `ItemModified` or
   * `ItemSaved`. Only the folder itself raises them, and the solution hears
   * them only when that folder is the top one.
   */
  lemma ItemEventsStayOnFolder(e: EventName, chain: Chain, hasSolution: bool)
    requires e == ItemModified || e == ItemSaved
    ensures RelayFolderEvent(e, chain, hasSolution) ==
              (if |chain| == 1 && hasSolution then [Notification(AtSolution, SolutionRelay(e).value)] else [])
              + [Notification(AtFolder(chain[0]), e)]
  {
    assert !Wires(FolderClass, e);
    RelayStopsWhereNotWired(e, chain, hasSolution);
  }


  /**
   * What follows a child raising event `e` while the folder `chain[0]`
   * holds `subscriptions`: nothing unless a handler is attached, otherwise
   * the folder raises what its handler raises.
   */
  function ChildEventRelay(subscriptions: multiset<Subscription>, child: ItemId, e: EventName,
                           chain: Chain, hasSolution: bool): seq<Notification>
  {
    if Subscription(child, e) in subscriptions && SolutionRelay(HandlerRaises(e)).Some? then
      RelayFolderEvent(HandlerRaises(e), chain, hasSolution)
    else []
  }

  /**
   * Once connected, a child's event reaches the folder exactly when the
   * child's class carries it; once disconnected again (with no other
   * subscription left for that child) nothing does.
   */
  lemma ConnectedChildIsHeard(subscriptions: multiset<Subscription>, child: Item, e: EventName,
                              chain: Chain, hasSolution: bool)
    requires forall s :: s in subscriptions ==> s.source != child.id
    ensures ChildEventRelay(subscriptions + Wiring(child), child.id, e, chain, hasSolution) != []
            <==> Wires(ClassOf(child), e)
    ensures ChildEventRelay((subscriptions + Wiring(child)) - Wiring(child), child.id, e, chain, hasSolution) == []
  {
    var s := Subscription(child.id, e);
    WiringCount(child, s);
    assert ((subscriptions + Wiring(child)) - Wiring(child))[s] == 0;
    if Wires(ClassOf(child), e) {
      assert SolutionRelay(HandlerRaises(e)).Some?;
      ProjectEventOrItemEventIsNonEmpty(HandlerRaises(e), chain, hasSolution);
    }
  }

  lemma ProjectEventOrItemEventIsNonEmpty(e: EventName, chain: Chain, hasSolution: bool)
    requires SolutionRelay(e).Some?
    ensures RelayFolderEvent(e, chain, hasSolution) != []
  {
  }

  // ---------------------------------------------------------------------------
  // The folder's subscriptions, changed in place

  /** The handlers a folder has attached to its children's events. */
  class FolderWiring {
    var subscriptions: multiset<Subscription>

    constructor ()
      ensures subscriptions == multiset{}
    {
      subscriptions := multiset{};
    }

    /**
     * `event += handler`: the folder's handler on event `e` of child `id`.
     * `attached` is what the current connect has attached so far.
     */
    method Attach(id: ItemId, e: EventName, ghost base: multiset<Subscription>, ghost attached: multiset<Subscription>)
      returns (ghost attached': multiset<Subscription>)
      modifies this
      requires subscriptions == base + attached
      ensures attached' == attached + One(id, e)
      ensures subscriptions == base + attached'
    {
      subscriptions := subscriptions + multiset{Subscription(id, e)};
      AttachStep(base, attached, Subscription(id, e));
      attached' := attached + One(id, e);
    }

    /**
     * `event -= handler`: removes one occurrence, nothing when there is none.
     * `detached` is what the current disconnect has detached so far.
     */
    method Detach(id: ItemId, e: EventName, ghost base: multiset<Subscription>, ghost detached: multiset<Subscription>)
      returns (ghost detached': multiset<Subscription>)
      modifies this
      requires subscriptions == base - detached
      ensures detached' == detached + One(id, e)
      ensures subscriptions == base - detached'
    {
      subscriptions := subscriptions - multiset{Subscription(id, e)};
      DetachStep(base, detached, Subscription(id, e));
      detached' := detached + One(id, e);
    }

    /** `ConnectChildEntryEvents`: attaches one handler per event the child's class carries. */
    method ConnectChildEntryEvents(item: Item)
      modifies this
      ensures subscriptions == old(subscriptions) + Wiring(item)
    {
      var id := item.id;
      var c := ClassOf(item);
      ghost var base := subscriptions;
      ghost var attached := multiset{};
      assert subscriptions == base + attached;
      if c == ProjectClass || c == DotNetProjectClass {
        attached := Attach(id, FileRemovedFromProject, base, attached);
        attached := Attach(id, FileAddedToProject, base, attached);
        attached := Attach(id, FileChangedInProject, base, attached);
        attached := Attach(id, FilePropertyChangedInProject, base, attached);
        attached := Attach(id, FileRenamedInProject, base, attached);
        if c == DotNetProjectClass {
          attached := Attach(id, ReferenceRemovedFromProject, base, attached);
          attached := Attach(id, ReferenceAddedToProject, base, attached);
        }
      } else if c == FolderClass {
        attached := Attach(id, FileRemovedFromProject, base, attached);
        attached := Attach(id, FileAddedToProject, base, attached);
        attached := Attach(id, FileChangedInProject, base, attached);
        attached := Attach(id, FilePropertyChangedInProject, base, attached);
        attached := Attach(id, FileRenamedInProject, base, attached);
        attached := Attach(id, ReferenceRemovedFromProject, base, attached);
        attached := Attach(id, ReferenceAddedToProject, base, attached);
      } else if c == EntityClass {
        attached := Attach(id, Saved, base, attached);
      }
      attached := Attach(id, Modified, base, attached);
    }

    /**
     * `DisconnectChildEntryEvents`: detaches the same handlers; detaching a
     * handler that is not attached changes nothing, as with C# delegates.
     */
    method DisconnectChildEntryEvents(entry: Item)
      modifies this
      ensures subscriptions == old(subscriptions) - Wiring(entry)
    {
      var id := entry.id;
      var c := ClassOf(entry);
      ghost var base := subscriptions;
      ghost var detached := multiset{};
      assert subscriptions == base - detached;
      if c == ProjectClass || c == DotNetProjectClass {
        detached := Detach(id, FileRemovedFromProject, base, detached);
        detached := Detach(id, FileAddedToProject, base, detached);
        detached := Detach(id, FileChangedInProject, base, detached);
        detached := Detach(id, FilePropertyChangedInProject, base, detached);
        detached := Detach(id, FileRenamedInProject, base, detached);
        if c == DotNetProjectClass {
          detached := Detach(id, ReferenceRemovedFromProject, base, detached);
          detached := Detach(id, ReferenceAddedToProject, base, detached);
        }
      } else if c == FolderClass {
        detached := Detach(id, FileRemovedFromProject, base, detached);
        detached := Detach(id, FileAddedToProject, base, detached);
        detached := Detach(id, FileChangedInProject, base, detached);
        detached := Detach(id, FilePropertyChangedInProject, base, detached);
        detached := Detach(id, FileRenamedInProject, base, detached);
        detached := Detach(id, ReferenceRemovedFromProject, base, detached);
        detached := Detach(id, ReferenceAddedToProject, base, detached);
      } else if c == EntityClass {
        detached := Detach(id, Saved, base, detached);
      }
      detached := Detach(id, Modified, base, detached);
    }

    /** `NotifyItemAdded`: connect the new child, then raise `ItemAdded` and let it climb. */
    method NotifyItemAdded(item: Item, chain: Chain, hasSolution: bool) returns (raised: seq<Notification>)
      modifies this
      ensures subscriptions == old(subscriptions) + Wiring(item)
      ensures raised == OnItemChanged(true, chain, hasSolution)
    {
      ConnectChildEntryEvents(item);
      raised := OnItemChanged(true, chain, hasSolution);
    }

    /** `NotifyItemRemoved`: disconnect the child, then raise `ItemRemoved` and let it climb. */
    method NotifyItemRemoved(item: Item, chain: Chain, hasSolution: bool) returns (raised: seq<Notification>)
      modifies this
      ensures subscriptions == old(subscriptions) - Wiring(item)
      ensures raised == OnItemChanged(false, chain, hasSolution)
    {
      DisconnectChildEntryEvents(item);
      raised := OnItemChanged(false, chain, hasSolution);
    }
  }
}
