# SolutionFolder build orchestration, in Dafny

This project models the core of MonoDevelop's `SolutionFolder`. A solution
folder is a node of a solution's item tree. It holds projects, other entity
items and sub-folders. The model covers:

- the tree walks: collect all items of a type, find a project by name, find
  an entity item by file name, ask whether something needs building, and ask
  when the folder was last built;
- the common path root of two directories;
- the collection of the buildable entries for a solution configuration, with
  references followed depth-first and every item listed once;
- the build loop: skip items that reference failed items (assuming
  `ContainsReferences` checks the item's direct references, the skip then
  spreads along chains of references), aggregate results, stop on a cyclic
  order or on cancellation;
- the event fabric: the handlers a folder attaches to a child (by the child's
  class), their removal, and how item, file and reference notifications climb
  the parent chain to the solution; modified and saved notifications are
  raised on the folder and reach the solution only from the top folder;
- renaming or removing files in every project of the subtree.

Files:

- `common.dfy`: `Option` (a C# `null`), `NoDuplicates`, and `AppendNew`, the
  `if (!list.Contains (x)) list.Add (x)` pattern.
- `items.dfy`: the item tree datatype, the pre-order flattening `AllItems`,
  `GetAllItems`, the two searches, `OnGetNeedsBuilding`, `OnGetLastBuildTime`.
- `paths.dfy`: `GetCommonPathRoot (path1, path2)`.
- `collect.dfy`: `GetAllBuildableEntries` and `GetAllBuildableReferences`,
  specified by the list in discovery order (`References`, `CollectIn`).
- `build.dfy`: `OnBuild`, specified by a fold `Run` over the build order.
- `events.dfy`: the class `FolderWiring` holding the folder's subscriptions as
  a multiset (`+=` adds one occurrence, `-=` removes one if present), and the
  relay functions that list the notifications raised.
- `rename.dfy`: the class `ProjectFileNames` holding each project's file
  names, updated in place by the rename and remove loops.

Item identities are natural numbers. Several things are parameters of the
operations, written as functions, because their code lies outside this
model:

- `item.Build`, `item.ContainsReferences`, `item.GetReferencedItems` and the
  topological sort;
- the progress monitor's cancellation flag;
- the leaf `NeedsBuilding` and `GetLastBuildTime` answers;
- `Directory.Exists`.

## Model

| member | source | states |
|---|---|---|
| Common.AppendNew | main/src/core/MonoDevelop.Projects/MonoDevelop.Projects/SolutionFolder.cs:472-474 | adding elements behind a `Contains` check keeps the old list as a prefix and yields exactly the old elements plus the added ones |
| Common.AppendNewKeepsNoDuplicates | main/src/core/MonoDevelop.Projects/MonoDevelop.Projects/SolutionFolder.cs:472-474 | a list built behind a `Contains` check never holds an element twice |
| SolutionItems.GetAllItems | main/src/core/MonoDevelop.Projects/MonoDevelop.Projects/SolutionFolder.cs:427-437 | appends to the list the items of the requested type in the subtree, in pre-order (the item first, then each child's subtree in order) |
| SolutionItems.AllItemsMembership | main/src/core/MonoDevelop.Projects/MonoDevelop.Projects/SolutionFolder.cs:427-437 | an item is collected exactly when it lies in the subtree and has the requested type (`is T` following the class hierarchy) |
| SolutionItems.AllItemsIsFiltered | main/src/core/MonoDevelop.Projects/MonoDevelop.Projects/SolutionFolder.cs:427-437 | collecting items of one type equals collecting all items and then keeping those of that type, in the same order |
| SolutionItems.UniqueIdsOfType | main/src/core/MonoDevelop.Projects/MonoDevelop.Projects/SolutionFolder.cs:427-437 | in a tree where no item appears twice, the collected items of any type are distinct |
| SolutionItems.FirstMatch | main/src/core/MonoDevelop.Projects/MonoDevelop.Projects/SolutionFolder.cs:492-524 | the result is absent exactly when nothing matches; otherwise it matches and no earlier element matches |
| SolutionItems.FindFirst | main/src/core/MonoDevelop.Projects/MonoDevelop.Projects/SolutionFolder.cs:492-524 | the depth-first search with early return finds the first matching item of the folder's pre-order flattening |
| SolutionItems.FindProjectByName | main/src/core/MonoDevelop.Projects/MonoDevelop.Projects/SolutionFolder.cs:510-524 | the result is a project named `name` strictly below the folder, the first one depth-first; `null` exactly when no project below has that name |
| SolutionItems.FindSolutionItem | main/src/core/MonoDevelop.Projects/MonoDevelop.Projects/SolutionFolder.cs:492-508 | the result is an entity item strictly below the folder whose non-empty file name is `fileName`, the first one depth-first; `null` exactly when there is none |
| SolutionItems.ItemNeedsBuilding | main/src/core/MonoDevelop.Projects/MonoDevelop.Projects/SolutionFolder.cs:209 | a child answers with its own `NeedsBuilding` when it is not a folder and with the folder's recursive answer when it is |
| SolutionItems.OnGetNeedsBuilding | main/src/core/MonoDevelop.Projects/MonoDevelop.Projects/SolutionFolder.cs:206-211 | true exactly when some child needs building |
| SolutionItems.NeedsBuildingSomeLeaf | main/src/core/MonoDevelop.Projects/MonoDevelop.Projects/SolutionFolder.cs:206-211 | a folder needs building exactly when some non-folder item anywhere in its subtree does |
| SolutionItems.MinTime | main/src/core/MonoDevelop.Projects/MonoDevelop.Projects/SolutionFolder.cs:587-598 | the minimum is no later than every time, is one of them, and is `DateTime.MaxValue` for none |
| SolutionItems.ItemLastBuildTime | main/src/core/MonoDevelop.Projects/MonoDevelop.Projects/SolutionFolder.cs:593 | a child answers with its own last build time when it is not a folder and with the folder's recursive minimum when it is |
| SolutionItems.OnGetLastBuildTime | main/src/core/MonoDevelop.Projects/MonoDevelop.Projects/SolutionFolder.cs:587-598 | the result is no later than any child's time and equals one of them; `DateTime.MaxValue` for an empty folder |
| SolutionItems.LastBuildTimeOverLeaves | main/src/core/MonoDevelop.Projects/MonoDevelop.Projects/SolutionFolder.cs:587-598 | through nested folders, the time is no later than that of any non-folder item of the subtree and is one of those times, or `DateTime.MaxValue` |
| PathRoots.GetCommonPathRoot | main/src/core/MonoDevelop.Projects/MonoDevelop.Projects/SolutionFolder.cs:167-189 | equal paths are their own root; otherwise the result is the common prefix ending at the last directory boundary both paths share, and `null` when that boundary is at position 0 or there is none |
| BuildableEntries.EnabledEntityIds | main/src/core/MonoDevelop.Projects/MonoDevelop.Projects/SolutionFolder.cs:465-466 | an id is listed exactly when it is an entity item of the sequence that the configuration builds |
| BuildableEntries.BuildableEntitiesOfWellFormedTree | main/src/core/MonoDevelop.Projects/MonoDevelop.Projects/SolutionFolder.cs:454-468 | in a well-formed tree the buildable entries are distinct build-enabled entity items of the subtree, so the `Contains` checks change nothing |
| BuildableEntries.CollectedTransitive | main/src/core/MonoDevelop.Projects/MonoDevelop.Projects/SolutionFolder.cs:462-467 | the guarantees of `Collected` compose: collecting `a` and then `b` meets them for `a + b` (the prefix kept, no duplicate introduced, every entity present, closure under references) |
| BuildableEntries.GetAllBuildableReferences | main/src/core/MonoDevelop.Projects/MonoDevelop.Projects/SolutionFolder.cs:470-479 | the result is `References`: an item already listed changes nothing; otherwise the item is appended at once (`result[|list|] == item`) and, with references, each item it references is expanded in turn, depth-first in `GetReferencedItems` order (`ExpandAll`); every new entry is the item or referenced by an entry before it, no duplicate is introduced, and the new part is closed under references; it terminates on reference cycles |
| BuildableEntries.ListReferences | main/src/core/MonoDevelop.Projects/MonoDevelop.Projects/SolutionFolder.cs:475-478 | the result is `ExpandAll` of the item's references in `GetReferencedItems` order; the list only grows, every reference of the item is listed, and each new entry is referenced by an earlier one |
| BuildableEntries.CollectBuildable | main/src/core/MonoDevelop.Projects/MonoDevelop.Projects/SolutionFolder.cs:454-468 | without a parent solution or with an unknown configuration the list is unchanged; otherwise the result is `CollectIn`, the walk over the children in order (sub-folders recursively, each build-enabled entity item through `References`), which is exactly the `Contains`-guarded append of the entity items without references and a reference-closed, duplicate-free extension with them |
| BuildableEntries.CollectChild | main/src/core/MonoDevelop.Projects/MonoDevelop.Projects/SolutionFolder.cs:462-466 | one pass of the loop: a sub-folder is walked recursively, a build-enabled entity item goes through `References`, any other child changes nothing |
| BuildableEntries.CollectedEntriesAreLeast | main/src/core/MonoDevelop.Projects/MonoDevelop.Projects/SolutionFolder.cs:439-479 | the entries lie inside every set that holds the buildable items and is closed under references: nothing else is collected |
| BuildableEntries.DiscoveryOrderExample | main/src/core/MonoDevelop.Projects/MonoDevelop.Projects/SolutionFolder.cs:462-478 | two enabled projects are listed in child order, and a reference follows its referrer at once, before the next child; an unknown configuration lists nothing |
| BuildableEntries.CycleListedOnce | main/src/core/MonoDevelop.Projects/MonoDevelop.Projects/SolutionFolder.cs:472-478 | a cycle of references lists each of its items once and ends |
| BuildableEntries.GetAllBuildableEntries | main/src/core/MonoDevelop.Projects/MonoDevelop.Projects/SolutionFolder.cs:439-447 | the outcome is `BuildableList` (the list collected from empty, in discovery order) as it is, or the sort's outcome for it; with references that list is duplicate-free, holds every build-enabled entity item and is closed under references; without, it is the entity items in child order |
| BuildExecutor.CancelPoint | main/src/core/MonoDevelop.Projects/MonoDevelop.Projects/SolutionFolder.cs:566-568 | the loop stops at the first position where cancellation is requested, or runs to the end |
| BuildExecutor.StepOutcome | main/src/core/MonoDevelop.Projects/MonoDevelop.Projects/SolutionFolder.cs:570-578 | about `Step`, one pass of the loop body, and `Run`, the loop as a fold over the order: an item is built exactly when `ContainsReferences` reports no failed item; it becomes failed exactly when it does, or when its build reports errors |
| BuildExecutor.SkippedIsNeverBuilt | main/src/core/MonoDevelop.Projects/MonoDevelop.Projects/SolutionFolder.cs:566-578 | in an order without duplicates, an item skipped at its turn is never built |
| BuildExecutor.FailureIsInherited | main/src/core/MonoDevelop.Projects/MonoDevelop.Projects/SolutionFolder.cs:566-578 | with `ContainsReferences` answering whether one of the item's direct references is in the set (`ChecksReferences`), an item that references an item failed earlier in the order is not built and is failed itself |
| BuildExecutor.FailureSpreadsAlongChain | main/src/core/MonoDevelop.Projects/MonoDevelop.Projects/SolutionFolder.cs:566-578 | under the same contract, a failure spreads along any chain of references listed in build order: the last item of the chain is skipped and failed |
| BuildExecutor.DependentsOfFailedAreSkipped | main/src/core/MonoDevelop.Projects/MonoDevelop.Projects/SolutionFolder.cs:566-578 | when X fails and Y, referencing X, and Z, referencing Y, follow it in the order, neither Y nor Z is built and both are failed |
| BuildExecutor.ResultIsTotalOfBuilt | main/src/core/MonoDevelop.Projects/MonoDevelop.Projects/SolutionFolder.cs:562-580 | the aggregate result is the sum of the non-null results of the builds actually run, starting from a zero build count |
| BuildExecutor.RunGrows | main/src/core/MonoDevelop.Projects/MonoDevelop.Projects/SolutionFolder.cs:564-578 | failed items are never forgotten and the list of builds only grows |
| BuildExecutor.RunStaysWithinItems | main/src/core/MonoDevelop.Projects/MonoDevelop.Projects/SolutionFolder.cs:566-580 | only processed items are built or marked failed |
| BuildExecutor.BuiltOnce | main/src/core/MonoDevelop.Projects/MonoDevelop.Projects/SolutionFolder.cs:566-580 | a duplicate-free order builds no item twice |
| BuildExecutor.OnBuild | main/src/core/MonoDevelop.Projects/MonoDevelop.Projects/SolutionFolder.cs:548-585 | the sort is handed `BuildableList` with references, the list collected in discovery order; a cyclic order reports an error and returns the cyclic result (`new BuildResult ("", 1, 1)`) without building; otherwise a task of the order's length is begun, the items up to the first cancellation are processed one step each, and the result and builds are those of the fold |
| BuildExecutor.BuiltAreEntries | main/src/core/MonoDevelop.Projects/MonoDevelop.Projects/SolutionFolder.cs:548-585 | with a sort that permutes its input, every built item is a collected entry, none is built twice, and the result is the sum of those builds |
| BuildExecutor.NoDuplicatesOfPermutation | main/src/core/MonoDevelop.Projects/MonoDevelop.Projects/SolutionFolder.cs:553 | a sorted order of distinct entries holds no entry twice |
| EventFabric.WiringForCount | main/src/core/MonoDevelop.Projects/MonoDevelop.Projects/SolutionFolder.cs:269-299 | connecting a child attaches exactly one handler to each event its class carries and none to any other event or child |
| EventFabric.WiringCount | main/src/core/MonoDevelop.Projects/MonoDevelop.Projects/SolutionFolder.cs:269-299 | the same, stated for a child item through its class |
| EventFabric.ModifiedAlwaysSavedOnlyOnEntities | main/src/core/MonoDevelop.Projects/MonoDevelop.Projects/SolutionFolder.cs:295-298 | every child gets the `Modified` handler; only entity items that are neither projects nor folders get the `Saved` handler |
| EventFabric.WiringOfDistinct | main/src/core/MonoDevelop.Projects/MonoDevelop.Projects/SolutionFolder.cs:261-299 | children with distinct identities, each connected once, never have a handler attached twice, and only children are subscribed to |
| EventFabric.FolderWiring.Attach | main/src/core/MonoDevelop.Projects/MonoDevelop.Projects/SolutionFolder.cs:275 | one `+=` adds exactly one subscription of the folder's handler to that event of that child |
| EventFabric.FolderWiring.Detach | main/src/core/MonoDevelop.Projects/MonoDevelop.Projects/SolutionFolder.cs:356 | one `-=` removes one subscription of the folder's handler from that event of that child, or nothing when there is none |
| EventFabric.FolderWiring.ConnectChildEntryEvents | main/src/core/MonoDevelop.Projects/MonoDevelop.Projects/SolutionFolder.cs:269-299 | the subscriptions grow by exactly the child's wiring, attached one `+=` at a time |
| EventFabric.FolderWiring.DisconnectChildEntryEvents | main/src/core/MonoDevelop.Projects/MonoDevelop.Projects/SolutionFolder.cs:350-378 | the subscriptions lose exactly the child's wiring; a `-=` of a missing handler changes nothing |
| EventFabric.FolderWiring.NotifyItemAdded | main/src/core/MonoDevelop.Projects/MonoDevelop.Projects/SolutionFolder.cs:261-267 | the child is connected, then `ItemAdded` is raised on the folder and the addition climbs the chain |
| EventFabric.FolderWiring.NotifyItemRemoved | main/src/core/MonoDevelop.Projects/MonoDevelop.Projects/SolutionFolder.cs:343-348 | the child is disconnected, then `ItemRemoved` is raised on the folder and the removal climbs the chain |
| EventFabric.ConnectedChildIsHeard | main/src/core/MonoDevelop.Projects/MonoDevelop.Projects/SolutionFolder.cs:660-703 | after connecting, a child's event produces notifications exactly when its class carries that event; after disconnecting, none |
| EventFabric.OnItemChanged | main/src/core/MonoDevelop.Projects/MonoDevelop.Projects/SolutionFolder.cs:705-739 | the folder's own `ItemAdded` or `ItemRemoved` comes first, then (through `NotifyItemChangedInFolder`, lines 705-723) the descendant event on every folder of the chain, innermost first, and last, exactly once, the solution's event when there is a solution |
| EventFabric.ItemChangeReachesEveryAncestor | main/src/core/MonoDevelop.Projects/MonoDevelop.Projects/SolutionFolder.cs:705-723 | an addition or removal raises the descendant event on every folder of the chain, innermost first, then the solution's item event once when there is a solution |
| EventFabric.ProjectEventReachesEveryAncestor | main/src/core/MonoDevelop.Projects/MonoDevelop.Projects/SolutionFolder.cs:741-803 | about `RelayFolderEvent`, the `On...` methods, and `HandlerRaises`, the folder's handlers at lines 660-703: a file or reference event is raised on every folder of the chain, innermost first, and on the solution once, just before the top folder's own event |
| EventFabric.ItemEventsStayOnFolder | main/src/core/MonoDevelop.Projects/MonoDevelop.Projects/SolutionFolder.cs:804-818 | `ItemModified` and `ItemSaved` are raised on the folder only, reaching the solution only from the top folder |
| EventFabric.RelayStopsWhereNotWired | main/src/core/MonoDevelop.Projects/MonoDevelop.Projects/SolutionFolder.cs:741-818 | any event that folders do not wire on their folder children is raised on the folder and, from the top folder, on the solution, and on no parent folder |
| FileRenames.DirectoryRenameKeepsRelativePath | main/src/core/MonoDevelop.Projects/MonoDevelop.Projects/SolutionFolder.cs:654-655 | a name under the old directory ends up under the new one with the same remainder |
| FileRenames.DirectoryRenameMatchesByPrefix | main/src/core/MonoDevelop.Projects/MonoDevelop.Projects/SolutionFolder.cs:654-655 | the directory test is a bare prefix test, so a sibling directory sharing the prefix is renamed too |
| FileRenames.FileRenameRoundTrip | main/src/core/MonoDevelop.Projects/MonoDevelop.Projects/SolutionFolder.cs:640-648 | renaming back restores every name when the new name was not already taken |
| FileRenames.DirectoryRenameRoundTrip | main/src/core/MonoDevelop.Projects/MonoDevelop.Projects/SolutionFolder.cs:650-658 | renaming a directory back restores every name when no name already lay under the new directory name |
| FileRenames.FileRenameIdempotent | main/src/core/MonoDevelop.Projects/MonoDevelop.Projects/SolutionFolder.cs:640-648 | renaming a file twice is renaming it once |
| FileRenames.DirectoryRenameNotIdempotent | main/src/core/MonoDevelop.Projects/MonoDevelop.Projects/SolutionFolder.cs:650-658 | renaming a directory into a name under itself renames again on a second pass |
| FileRenames.WithoutRemovesExactly | main/src/core/MonoDevelop.Projects/MonoDevelop.Projects/SolutionFolder.cs:617-628 | removal leaves no file of that name and keeps every other name as often as before |
| FileRenames.ProjectFileNames.RenameInProject | main/src/core/MonoDevelop.Projects/MonoDevelop.Projects/SolutionFolder.cs:642-646 | one project's file names are each replaced by their renamed form, in place; other projects are untouched |
| FileRenames.ProjectFileNames.RemoveFromProject | main/src/core/MonoDevelop.Projects/MonoDevelop.Projects/SolutionFolder.cs:620-626 | one project's files named `fileName` are removed, the others kept in order; other projects are untouched |
| FileRenames.ProjectFileNames.EditProject | main/src/core/MonoDevelop.Projects/MonoDevelop.Projects/SolutionFolder.cs:619-656 | one project's list gets the rename or the removal applied; a project without a list is left as is, and no other entry changes |
| FileRenames.ProjectFileNames.EditEach | main/src/core/MonoDevelop.Projects/MonoDevelop.Projects/SolutionFolder.cs:619-656 | every project of the list, taken in order, gets the edit applied once; no other entry changes |
| FileRenames.ProjectFileNames.EditAllProjects | main/src/core/MonoDevelop.Projects/MonoDevelop.Projects/SolutionFolder.cs:640-648 | every project of the subtree is edited once; all other entries are unchanged |
| FileRenames.ProjectFileNames.RenameFileInAllProjects | main/src/core/MonoDevelop.Projects/MonoDevelop.Projects/SolutionFolder.cs:640-648 | in every project below the folder, each file named `oldName` is renamed to `newName` |
| FileRenames.ProjectFileNames.RenameDirectoryInAllProjects | main/src/core/MonoDevelop.Projects/MonoDevelop.Projects/SolutionFolder.cs:650-658 | in every project below the folder, each file name starting with `oldName` gets `newName` in place of that prefix |
| FileRenames.ProjectFileNames.RenameFileInProjects | main/src/core/MonoDevelop.Projects/MonoDevelop.Projects/SolutionFolder.cs:630-638 | a directory rename when the target is an existing directory, a file rename otherwise |
| FileRenames.ProjectFileNames.RemoveFileFromAllProjects | main/src/core/MonoDevelop.Projects/MonoDevelop.Projects/SolutionFolder.cs:617-628 | in every project below the folder, the files named `fileName` are removed |

## Left out

- `OnClean`, `OnExecute`, `Dispose`, `ReloadItem`, `AddItem` and item loading and saving: outside the build, search and event core modelled here.
- `GetDefaultBaseDirectory`, the folder-level `GetCommonPathRoot ()` and the item handler: they depend on file-system paths of the items.
- `Path.GetFullPath`: paths and file names are taken as already normalised, so `GetCommonPathRoot` and `FindSolutionItem` compare them as plain strings.
- `string.StartsWith` in `RenameDirectoryInAllProjects` is culture-sensitive in .NET. The model compares characters ordinally.
- `RemoveFileFromProjects` and `RemoveAllInDirectory`: the directory case uses `ProjectFileCollection.GetFilesInPath`, which is not part of this model. `RemoveFileFromAllProjects` is modelled.
- RemoveFromProject: the two passes of the source (collect `toDelete`, then remove each) are modelled as one filtering pass with the same result.
- Project files are reduced to their names. Renaming a `ProjectFile` in place is modelled as replacing the name at its position in the project's list.
- NotifyItemAdded, NotifyItemRemoved: the `Modified` event raised by `NotifyModified ("Items")` is not among the notifications, because that event belongs to `SolutionItem`, which is not part of this model.
- The `null` checks before raising an event: raising to no subscriber is modelled as raising it, so notifications are listed whether or not anyone listens.
- `BuildResult` is reduced to its error, warning and build counts. The constructor's default build count (`DefaultBuildCount = 1`) is an assumption; `SolutionItem`'s `BuildResult` is not part of this model.
- OnBuild: `new BuildResult ("", 1, 1)` is read as one error, one warning and the default build count (`CyclicResult`). The argument order of that constructor is assumed, since `BuildResult` is not part of this model, and the cyclic run reports one build although no item is built.
- OnBuild: `ContainsReferences` is only a parameter. The skip of dependents of failed items holds under the assumed contract `ChecksReferences` (the item's direct references meet the set), which the failure-propagation lemmas take as a hypothesis; `OnBuild` itself promises the fold `Run` for any `ContainsReferences`.
- `Path.DirectorySeparatorChar` is fixed to `'/'` (`DirectorySeparator`), as on a Unix host; on Windows the common path root would split at `'\'`.
- The topological sort, `ContainsReferences`, `GetReferencedItems`, `Build`, the leaf `NeedsBuilding` and `GetLastBuildTime`: external code, given as function parameters. The sort is assumed to permute its input (`PermutingSorter`) where a lemma needs it.
- The progress monitor is reduced to outputs: error reported, task size, number of steps. `EndTask` in the `finally` block always runs and is not shown. Exceptions thrown by `Build` are not modelled.
- RenameFileInAllProjects, RenameDirectoryInAllProjects, RemoveFileFromAllProjects: require that no item occurs twice in the tree (a tree, not a graph). With a project listed twice, the source would rename twice.
- Concurrency and the events' argument objects (sender, event args) are not modelled.
