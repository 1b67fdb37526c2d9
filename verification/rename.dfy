/**
 * Renaming a file or a directory in every project below a solution folder:
 * each project's file names are updated in place, a file renaming touching
 * names equal to the old name, a directory renaming touching every name that
 * starts with the old directory and keeping the rest of the name.
 */
module FileRenames {
  import opened Common
  import opened SolutionItems

  /** `s.StartsWith (prefix)`, compared character by character. */
  predicate StartsWith(s: string, prefix: string) {
    |prefix| <= |s| && s[..|prefix|] == prefix
  }

  /** The two renamings. */
  datatype RenameKind = FileRename | DirectoryRename

  /** The new name of one project file. */
  function Renamed(kind: RenameKind, name: string, oldName: string, newName: string): string {
    match kind
    case FileRename => if name == oldName then newName else name
    case DirectoryRename => if StartsWith(name, oldName) then newName + name[|oldName|..] else name
  }

  /** The names of one project's files after the renaming. */
  function RenameAll(kind: RenameKind, names: seq<string>, oldName: string, newName: string): (r: seq<string>)
    ensures |r| == |names|
    ensures forall i :: 0 <= i < |names| ==> r[i] == Renamed(kind, names[i], oldName, newName)
  {
    if names == [] then []
    else RenameAll(kind, names[..|names| - 1], oldName, newName) + [Renamed(kind, names[|names| - 1], oldName, newName)]
  }

  /** The names left once every file named `fileName` is removed, in their order. */
  function Without(names: seq<string>, fileName: string): seq<string> {
    if names == [] then []
    else if names[|names| - 1] == fileName then Without(names[..|names| - 1], fileName)
    else Without(names[..|names| - 1], fileName) + [names[|names| - 1]]
  }

  /** What happens to the project files: one of the two renamings, or a removal. */
  datatype FileEdit =
    | Rename(kind: RenameKind, oldName: string, newName: string)
    | Removal(fileName: string)

  /** One project's file names after the edit. */
  function Edited(edit: FileEdit, names: seq<string>): seq<string> {
    match edit
    case Rename(kind, oldName, newName) => RenameAll(kind, names, oldName, newName)
    case Removal(fileName) => Without(names, fileName)
  }

  /** The file names per project after editing the projects `projects`; other entries are kept. */
  function EditProjects(files: map<ItemId, seq<string>>, projects: seq<ItemId>, edit: FileEdit): (r: map<ItemId, seq<string>>)
    ensures r.Keys == files.Keys
  {
    map p | p in files :: if p in projects then Edited(edit, files[p]) else files[p]
  }

  // ---------------------------------------------------------------------------
  // Properties of the renamings

  /** A renamed directory's entries keep their path below it, under the new name. */
  lemma DirectoryRenameKeepsRelativePath(name: string, oldName: string, newName: string)
    requires StartsWith(name, oldName)
    ensures var r := Renamed(DirectoryRename, name, oldName, newName);
            StartsWith(r, newName) && r[|newName|..] == name[|oldName|..]
  {
    var r := Renamed(DirectoryRename, name, oldName, newName);
    assert r[..|newName|] == newName;
  }

  /**
   * Renaming back undoes a renaming of a single name, provided the new name
   * was not taken (a name already equal to it would be renamed back too).
   */
  lemma FileRenameRoundTrip(names: seq<string>, oldName: string, newName: string)
    requires newName !in names
    ensures RenameAll(FileRename, RenameAll(FileRename, names, oldName, newName), newName, oldName) == names
  {
    var once := RenameAll(FileRename, names, oldName, newName);
    var back := RenameAll(FileRename, once, newName, oldName);
    forall i | 0 <= i < |names| ensures back[i] == names[i] {
      assert names[i] != newName;
    }
  }

  /**
   * Renaming a directory back undoes the renaming, provided no name already
   * lay under the new directory name.
   */
  lemma DirectoryRenameRoundTrip(names: seq<string>, oldName: string, newName: string)
    requires forall i :: 0 <= i < |names| ==> !StartsWith(names[i], newName)
    ensures RenameAll(DirectoryRename, RenameAll(DirectoryRename, names, oldName, newName), newName, oldName) == names
  {
    var once := RenameAll(DirectoryRename, names, oldName, newName);
    var back := RenameAll(DirectoryRename, once, newName, oldName);
    forall i | 0 <= i < |names| ensures back[i] == names[i] {
      if StartsWith(names[i], oldName) {
        DirectoryRenameKeepsRelativePath(names[i], oldName, newName);
        assert names[i] == oldName + names[i][|oldName|..];
      }
    }
  }

  /**
   * The directory test is a plain prefix test, with no separator required
   * after the old name: renaming `/p/src` to `/p/lib` also renames a file of
   * the sibling directory `/p/src2`.
   */
  lemma DirectoryRenameMatchesByPrefix()
    ensures Renamed(DirectoryRename, "/p/src2/a.cs", "/p/src", "/p/lib") == "/p/lib2/a.cs"
  {
    assert "/p/src2/a.cs"[..|"/p/src"|] == "/p/src";
    assert "/p/src2/a.cs"[|"/p/src"|..] == "2/a.cs";
  }

  /** Renaming a file twice is renaming it once. */
  lemma FileRenameIdempotent(names: seq<string>, oldName: string, newName: string)
    ensures RenameAll(FileRename, RenameAll(FileRename, names, oldName, newName), oldName, newName)
            == RenameAll(FileRename, names, oldName, newName)
  {
    var once := RenameAll(FileRename, names, oldName, newName);
    var twice := RenameAll(FileRename, once, oldName, newName);
    forall i | 0 <= i < |names| ensures twice[i] == once[i] {
    }
  }

  /**
   * Renaming a directory `d` to `d2` where `d2` itself lies under `d`
   * (e.g. `src` to `src2`) is not idempotent: a second pass renames the
   * entries again.
   */
  lemma DirectoryRenameNotIdempotent()
    ensures var names := ["src/a.cs"];
            var once := RenameAll(DirectoryRename, names, "src", "src2");
            RenameAll(DirectoryRename, once, "src", "src2") != once
  {
    var once := RenameAll(DirectoryRename, ["src/a.cs"], "src", "src2");
    assert once[0] == "src2/a.cs";
    var twice := RenameAll(DirectoryRename, once, "src", "src2");
    assert twice[0] == "src22/a.cs";
  }

  /**
   * Removal deletes exactly the files named `fileName`: none is left, and
   * every other name keeps its number of occurrences.
   */
  lemma {:induction false} WithoutRemovesExactly(names: seq<string>, fileName: string)
    ensures fileName !in Without(names, fileName)
    ensures forall n :: n != fileName ==> multiset(Without(names, fileName))[n] == multiset(names)[n]
    ensures |Without(names, fileName)| + multiset(names)[fileName] == |names|
  {
    if names != [] {
      var init, last := names[..|names| - 1], names[|names| - 1];
      WithoutRemovesExactly(init, fileName);
      assert names == init + [last];
      assert multiset(names) == multiset(init) + multiset{last};
      var rest := Without(init, fileName);
      if last != fileName {
        assert multiset(rest + [last]) == multiset(rest) + multiset{last};
      }
    }
  }

  /** Editing one more project, not edited before, updates that project's entry alone. */
  lemma EditProjectsSnoc(files: map<ItemId, seq<string>>, done: seq<ItemId>, p: ItemId, edit: FileEdit)
    requires p !in done
    ensures var before := EditProjects(files, done, edit);
            EditProjects(files, done + [p], edit)
            == if p in before then before[p := Edited(edit, before[p])] else before
  {
    var after := EditProjects(files, done + [p], edit);
    var before := EditProjects(files, done, edit);
    forall q | q in files ensures q in done + [p] <==> q in done || q == p {
    }
    if p in files {
      assert after == before[p := Edited(edit, files[p])];
    } else {
      assert after == before;
    }
  }

  // ---------------------------------------------------------------------------
  // The methods

  /** The file names of every project, by project identity (`Project.Files`, reduced to their names). */
  class ProjectFileNames {
    var files: map<ItemId, seq<string>>

    constructor (files: map<ItemId, seq<string>>)
      ensures this.files == files
    {
      this.files := files;
    }

    /** The inner loop over one project's files: every file name is replaced by its renamed form, in place. */
    method RenameInProject(p: ItemId, kind: RenameKind, oldName: string, newName: string)
      modifies this
      ensures files == if p in old(files) then old(files)[p := RenameAll(kind, old(files)[p], oldName, newName)]
                       else old(files)
    {
      if p !in files {
        return;
      }
      ghost var before := files[p];
      var i := 0;
      while i < |files[p]|
        invariant p in files && files.Keys == old(files).Keys
        invariant forall q :: q in files && q != p ==> files[q] == old(files)[q]
        invariant |files[p]| == |before| && 0 <= i <= |before|
        invariant forall k :: 0 <= k < i ==> files[p][k] == Renamed(kind, before[k], oldName, newName)
        invariant forall k :: i <= k < |before| ==> files[p][k] == before[k]
      {
        var name := files[p][i];
        var renamed := false;
        match kind {
          case FileRename =>
            renamed := name == oldName;
          case DirectoryRename =>
            renamed := |oldName| <= |name| && name[..|oldName|] == oldName;
        }
        if renamed {
          var newFileName := if kind == FileRename then newName else newName + name[|oldName|..];
          files := files[p := files[p][i := newFileName]];
        }
        i := i + 1;
      }
      assert files[p] == RenameAll(kind, before, oldName, newName);
      assert files == old(files)[p := RenameAll(kind, before, oldName, newName)];
    }

    /**
     * The inner loop of `RemoveFileFromAllProjects` over one project's files:
     * the files named `fileName` are collected and then removed.
     */
    method RemoveFromProject(p: ItemId, fileName: string)
      modifies this
      ensures files == if p in old(files) then old(files)[p := Without(old(files)[p], fileName)] else old(files)
    {
      if p !in files {
        return;
      }
      var names := files[p];
      var kept: seq<string> := [];
      var i := 0;
      while i < |names|
        invariant 0 <= i <= |names|
        invariant kept == Without(names[..i], fileName)
      {
        assert names[..i + 1][..i] == names[..i];
        if names[i] != fileName {
          kept := kept + [names[i]];
        }
        i := i + 1;
      }
      assert names[..i] == names;
      files := files[p := kept];
    }

    /** One project's files after the edit. */
    method EditProject(p: ItemId, edit: FileEdit)
      modifies this
      ensures files == if p in old(files) then old(files)[p := Edited(edit, old(files)[p])] else old(files)
    {
      match edit {
        case Rename(kind, oldName, newName) => RenameInProject(p, kind, oldName, newName);
        case Removal(fileName) => RemoveFromProject(p, fileName);
      }
    }

    /** The outer loop: each project of `projects`, in order, has its files edited. */
    method EditEach(projects: seq<Item>, edit: FileEdit)
      requires NoDuplicates(Ids(projects))
      modifies this
      ensures files == EditProjects(old(files), Ids(projects), edit)
    {
      ghost var done: seq<ItemId> := [];
      var i := 0;
      while i < |projects|
        invariant 0 <= i <= |projects| && |done| == i
        invariant forall k :: 0 <= k < i ==> done[k] == projects[k].id
        invariant files == EditProjects(old(files), done, edit)
      {
        var p := projects[i].id;
        assert p !in done by {
          forall k | 0 <= k < i ensures done[k] != p {
            assert Ids(projects)[k] == done[k] && Ids(projects)[i] == p;
          }
        }
        EditProject(p, edit);
        EditProjectsSnoc(old(files), done, p, edit);
        done := done + [p];
        i := i + 1;
      }
      assert done == Ids(projects);
    }

    /** The loop over the projects of the folder's subtree (`GetAllProjects`), in pre-order. */
    method EditAllProjects(folder: Item, edit: FileEdit)
      requires UniqueIds(folder)
      modifies this
      ensures files == EditProjects(old(files), Ids(AllItems(folder, ProjectType)), edit)
    {
      var projects := GetAllItems([], folder, ProjectType);
      assert projects == AllItems(folder, ProjectType);
      UniqueIdsOfType(folder, ProjectType);
      EditEach(projects, edit);
    }

    /** `RenameFileInAllProjects`: every project file named `oldName` is renamed to `newName`. */
    method RenameFileInAllProjects(folder: Item, oldName: string, newName: string)
      requires UniqueIds(folder)
      modifies this
      ensures files == EditProjects(old(files), Ids(AllItems(folder, ProjectType)), Rename(FileRename, oldName, newName))
    {
      EditAllProjects(folder, Rename(FileRename, oldName, newName));
    }

    /**
     * `RenameDirectoryInAllProjects`: every project file whose name starts
     * with `oldName` gets `newName` in place of that prefix.
     */
    method RenameDirectoryInAllProjects(folder: Item, oldName: string, newName: string)
      requires UniqueIds(folder)
      modifies this
      ensures files == EditProjects(old(files), Ids(AllItems(folder, ProjectType)), Rename(DirectoryRename, oldName, newName))
    {
      EditAllProjects(folder, Rename(DirectoryRename, oldName, newName));
    }

    /**
     * `RenameFileInProjects`: a directory renaming when the target is an
     * existing directory (`targetIsDirectory`, the file-system query), a file
     * renaming otherwise.
     */
    method RenameFileInProjects(folder: Item, sourceFile: string, targetFile: string, targetIsDirectory: bool)
      requires UniqueIds(folder)
      modifies this
      ensures var kind := if targetIsDirectory then DirectoryRename else FileRename;
              files == EditProjects(old(files), Ids(AllItems(folder, ProjectType)), Rename(kind, sourceFile, targetFile))
    {
      if targetIsDirectory {
        RenameDirectoryInAllProjects(folder, sourceFile, targetFile);
      } else {
        RenameFileInAllProjects(folder, sourceFile, targetFile);
      }
    }

    /** `RemoveFileFromAllProjects`: every project file named `fileName` is removed. */
    method RemoveFileFromAllProjects(folder: Item, fileName: string)
      requires UniqueIds(folder)
      modifies this
      ensures files == EditProjects(old(files), Ids(AllItems(folder, ProjectType)), Removal(fileName))
    {
      EditAllProjects(folder, Removal(fileName));
    }
  }
}
