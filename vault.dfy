/**
 * The host's vault as the plugin sees it: a map from paths to folders and
 * files, the mutations the plugin performs on it, and a ghost log of the
 * mutations in the order they happened.
 *
 * Each host call is a method of `Vault` tied to a pure function on `Store`,
 * so that the conversion pipelines can be specified by functions. A host call
 * that throws is a method returning `ok == false` with nothing changed.
 */
module Host {
  import opened Wrappers
  import opened Text

  datatype Entry = Folder | TextFile(text: string) | BinaryFile(payload: string)

  /**
   * The key the host files a path under: a folder created as "a/b/" is
   * found again as "a/b". (An assumption about the host's path normalisation.)
   */
  function Key(path: string): (k: string)
    ensures |k| <= |path|
  {
    if |path| > 0 && path[|path| - 1] == '/' then path[..|path| - 1] else path
  }

  /** A mutation the plugin performed, as recorded in the ghost log. */
  datatype Op =
    | MadeFolder(path: string)
    | Created(path: string, text: string)
    | Modified(path: string, text: string)
    | CreatedBinary(path: string, payload: string)
    | ModifiedBinary(path: string, payload: string)
    | Renamed(from: string, to: string)
    | Trashed(path: string)
    | FrontMatterAdded(path: string, frontmatter: string)

  type Entries = map<string, Entry>

  /** The vault's contents and the log of mutations so far. */
  datatype Store = Store(entries: Entries, log: seq<Op>) {
    /** `getAbstractFileByPath(path) instanceof TFile`. */
    predicate IsFile(path: string) {
      Key(path) in entries && !entries[Key(path)].Folder?
    }

    /** `getAbstractFileByPath(path) instanceof TFolder`. */
    predicate IsFolder(path: string) {
      Key(path) in entries && entries[Key(path)].Folder?
    }

    /** `getAbstractFileByPath(path) !== null`. */
    predicate Exists(path: string) {
      Key(path) in entries
    }
  }

  /** `vault.createFolder(path)`: throws when something is already there. */
  function CreateFolderIn(st: Store, path: string): (r: (Store, bool))
    ensures r.1 <==> !st.Exists(path)
    ensures r.1 ==> r.0.IsFolder(path)
    ensures !r.1 ==> r.0 == st
  {
    if st.Exists(path) then (st, false)
    else (Store(st.entries[Key(path) := Folder], st.log + [MadeFolder(Key(path))]), true)
  }

  /** `vault.create(path, text)`: throws when something is already there. */
  function CreateIn(st: Store, path: string, text: string): (r: (Store, bool))
    ensures r.1 <==> !st.Exists(path)
    ensures r.1 ==> r.0.entries == st.entries[Key(path) := TextFile(text)]
    ensures !r.1 ==> r.0 == st
  {
    if st.Exists(path) then (st, false)
    else (Store(st.entries[Key(path) := TextFile(text)], st.log + [Created(Key(path), text)]), true)
  }

  /** `vault.modify(file, text)` on a file the caller looked up. */
  function ModifyIn(st: Store, path: string, text: string): (r: (Store, bool))
    ensures r.1 <==> st.IsFile(path)
    ensures r.1 ==> r.0.entries == st.entries[Key(path) := TextFile(text)]
    ensures !r.1 ==> r.0 == st
  {
    if !st.IsFile(path) then (st, false)
    else (Store(st.entries[Key(path) := TextFile(text)], st.log + [Modified(Key(path), text)]), true)
  }

  /** `vault.createBinary(path, data)`: throws when something is already there. */
  function CreateBinaryIn(st: Store, path: string, payload: string): (r: (Store, bool))
    ensures r.1 <==> !st.Exists(path)
    ensures r.1 ==> r.0.entries == st.entries[Key(path) := BinaryFile(payload)]
    ensures !r.1 ==> r.0 == st
  {
    if st.Exists(path) then (st, false)
    else (Store(st.entries[Key(path) := BinaryFile(payload)], st.log + [CreatedBinary(Key(path), payload)]), true)
  }

  /** `vault.modifyBinary(file, data)` on a file the caller looked up. */
  function ModifyBinaryIn(st: Store, path: string, payload: string): (r: (Store, bool))
    ensures r.1 <==> st.IsFile(path)
    ensures r.1 ==> r.0.entries == st.entries[Key(path) := BinaryFile(payload)]
    ensures !r.1 ==> r.0 == st
  {
    if !st.IsFile(path) then (st, false)
    else (Store(st.entries[Key(path) := BinaryFile(payload)], st.log + [ModifiedBinary(Key(path), payload)]), true)
  }

  /**
   * `vault.rename(file, to)`: throws when the file is gone or the target is
   * taken. A rename onto the file's own path counts as a taken target; the
   * host's own behaviour there is an assumption of this model.
   */
  function RenameIn(st: Store, from: string, to: string): (r: (Store, bool))
    ensures r.1 <==> st.IsFile(from) && !st.Exists(to)
    ensures r.1 ==> r.0.entries == (st.entries - {Key(from)})[Key(to) := st.entries[Key(from)]]
    ensures !r.1 ==> r.0 == st
  {
    if !st.IsFile(from) || st.Exists(to) then (st, false)
    else
      var e := st.entries[Key(from)];
      (Store((st.entries - {Key(from)})[Key(to) := e], st.log + [Renamed(Key(from), Key(to))]), true)
  }

  /** `fileManager.trashFile(file)`: throws when the file is gone. */
  function TrashIn(st: Store, path: string): (r: (Store, bool))
    ensures r.1 <==> st.IsFile(path)
    ensures r.1 ==> r.0.entries == st.entries - {Key(path)}
    ensures !r.1 ==> r.0 == st
  {
    if !st.IsFile(path) then (st, false)
    else (Store(st.entries - {Key(path)}, st.log + [Trashed(Key(path))]), true)
  }

  /**
   * `fileManager.processFrontMatter(file, fm => frontmatter + fm)`: the host's
   * rewrite of the file is not modelled; the call is logged, and `hostOk`
   * says whether the host's promise resolved.
   */
  function AddFrontMatterIn(st: Store, path: string, frontmatter: string, hostOk: bool): (r: (Store, bool))
    ensures r.1 <==> hostOk && st.IsFile(path)
    ensures r.0.entries == st.entries
  {
    if !hostOk || !st.IsFile(path) then (st, false)
    else (Store(st.entries, st.log + [FrontMatterAdded(Key(path), frontmatter)]), true)
  }

  /** The vault object the plugin holds (`app.vault` with `app.fileManager`). */
  class Vault {
    var entries: Entries
    ghost var log: seq<Op>

    ghost function State(): Store
      reads this
    {
      Store(entries, log)
    }

    /** `getAbstractFileByPath(path) instanceof TFile`. */
    predicate IsFile(path: string)
      reads this
      ensures IsFile(path) <==> State().IsFile(path)
    {
      Key(path) in entries && !entries[Key(path)].Folder?
    }

    /** `getAbstractFileByPath(path) instanceof TFolder`. */
    predicate IsFolder(path: string)
      reads this
      ensures IsFolder(path) <==> State().IsFolder(path)
    {
      Key(path) in entries && entries[Key(path)].Folder?
    }

    constructor(init: Entries)
      ensures State() == Store(init, [])
    {
      entries := init;
      log := [];
    }

    /** `app.vault.getFiles()`: the paths of all files. */
    function FilePaths(): (paths: set<string>)
      reads this
      ensures forall p :: p in paths <==> p in entries && !entries[p].Folder?
    {
      set p | p in entries && !entries[p].Folder?
    }

    method CreateFolder(path: string) returns (ok: bool)
      modifies this
      ensures (State(), ok) == CreateFolderIn(old(State()), path)
    {
      if Key(path) in entries {
        ok := false;
      } else {
        entries := entries[Key(path) := Folder];
        log := log + [MadeFolder(Key(path))];
        ok := true;
      }
    }

    method Create(path: string, text: string) returns (ok: bool)
      modifies this
      ensures (State(), ok) == CreateIn(old(State()), path, text)
    {
      if Key(path) in entries {
        ok := false;
      } else {
        entries := entries[Key(path) := TextFile(text)];
        log := log + [Created(Key(path), text)];
        ok := true;
      }
    }

    method Modify(path: string, text: string) returns (ok: bool)
      modifies this
      ensures (State(), ok) == ModifyIn(old(State()), path, text)
    {
      if Key(path) !in entries || entries[Key(path)].Folder? {
        ok := false;
      } else {
        entries := entries[Key(path) := TextFile(text)];
        log := log + [Modified(Key(path), text)];
        ok := true;
      }
    }

    method CreateBinary(path: string, payload: string) returns (ok: bool)
      modifies this
      ensures (State(), ok) == CreateBinaryIn(old(State()), path, payload)
    {
      if Key(path) in entries {
        ok := false;
      } else {
        entries := entries[Key(path) := BinaryFile(payload)];
        log := log + [CreatedBinary(Key(path), payload)];
        ok := true;
      }
    }

    method ModifyBinary(path: string, payload: string) returns (ok: bool)
      modifies this
      ensures (State(), ok) == ModifyBinaryIn(old(State()), path, payload)
    {
      if Key(path) !in entries || entries[Key(path)].Folder? {
        ok := false;
      } else {
        entries := entries[Key(path) := BinaryFile(payload)];
        log := log + [ModifiedBinary(Key(path), payload)];
        ok := true;
      }
    }

    method Rename(from: string, to: string) returns (ok: bool)
      modifies this
      ensures (State(), ok) == RenameIn(old(State()), from, to)
    {
      if Key(from) !in entries || entries[Key(from)].Folder? || Key(to) in entries {
        ok := false;
      } else {
        var e := entries[Key(from)];
        entries := (entries - {Key(from)})[Key(to) := e];
        log := log + [Renamed(Key(from), Key(to))];
        ok := true;
      }
    }

    method Trash(path: string) returns (ok: bool)
      modifies this
      ensures (State(), ok) == TrashIn(old(State()), path)
    {
      if Key(path) !in entries || entries[Key(path)].Folder? {
        ok := false;
      } else {
        entries := entries - {Key(path)};
        log := log + [Trashed(Key(path))];
        ok := true;
      }
    }

    method AddFrontMatter(path: string, frontmatter: string, hostOk: bool) returns (ok: bool)
      modifies this
      ensures (State(), ok) == AddFrontMatterIn(old(State()), path, frontmatter, hostOk)
    {
      if !hostOk || Key(path) !in entries || entries[Key(path)].Folder? {
        ok := false;
      } else {
        log := log + [FrontMatterAdded(Key(path), frontmatter)];
        ok := true;
      }
    }
  }
}
