/**
 * The order in which an inventory archive is written: the control file first, then either
 * the target folder's tree (the folder's own directory entry, its subfolders depth first,
 * then its items) or the single target item, every node named by its escaped name, a
 * separator and its id so that equally named siblings stay apart.
 */
module InventoryArchive {
  import opened Wrappers
  import opened Uuids
  import opened InventoryPaths

  /** The archive path of the control file. */
  const ControlFilePath: string := "archive.xml"

  /** The archive directory holding the inventory tree. */
  const InventoryPath: string := "inventory/"

  /** What separates a node's escaped name from its id. */
  const NodeSeparator: string := "__"

  /** An inventory item, with the creator recorded for user profiles. */
  datatype Item = Item(name: string, id: Uuid, creator: Uuid)

  /** An inventory folder and the contents the inventory service reports for it. */
  datatype Folder = Folder(name: string, id: Uuid, subfolders: seq<Folder>, items: seq<Item>)

  /** One archive entry: the control file, a directory, or an item's serialisation. */
  datatype Entry = Control | Dir(path: string) | Record(path: string, item: Item)

  /** What the request archives. */
  datatype Target = FolderTarget(folder: Folder, contentsOnly: bool) | ItemTarget(item: Item)

  /** The result of a request: the archive's entries in order, or the path that was not found. */
  datatype Outcome = Saved(target: Target, entries: seq<Entry>) | Aborted(path: string)

  /** The archive path of an entry. */
  function EntryPath(e: Entry): string
  {
    match e
    case Control => ControlFilePath
    case Dir(path) => path
    case Record(path, _) => path
  }

  /** The number of nodes in a folder's tree, the folder itself included. */
  function Size(f: Folder): nat
  {
    1 + SizeAll(f.subfolders) + |f.items|
  }

  /** The number of nodes in a list of folder trees. */
  function SizeAll(fs: seq<Folder>): nat
  {
    if |fs| == 0 then 0 else Size(fs[0]) + SizeAll(fs[1..])
  }

  /** A folder's archive directory name: escaped name, separator, id and a delimiter. */
  function FolderName(escape: string -> string, name: string, id: Uuid): (n: string)
    ensures |n| == |escape(name)| + 39 && n[|n| - 1] == Delimiter
  {
    escape(name) + NodeSeparator + Text(id) + [Delimiter]
  }

  /** An item's archive file name: escaped name, separator, id and the ".xml" extension. */
  function ItemName(escape: string -> string, name: string, id: Uuid): (n: string)
    ensures |n| == |escape(name)| + 42 && n[|n| - 4..] == ".xml"
  {
    escape(name) + NodeSeparator + Text(id) + ".xml"
  }

  /** The entry for an item saved under `path`: a ".xml" record of the item strictly below `path`. */
  function SaveItem(escape: string -> string, item: Item, path: string): (e: Entry)
    ensures e.Record? && e.item == item
    ensures path < e.path
    ensures |e.path| >= 4 && e.path[|e.path| - 4..] == ".xml"
  {
    Record(path + ItemName(escape, item.name, item.id), item)
  }

  /** The entries for items saved, in order, under `path`. */
  function SaveItems(escape: string -> string, items: seq<Item>, path: string): (es: seq<Entry>)
    ensures |es| == |items|
    ensures forall i :: 0 <= i < |items| ==> es[i] == SaveItem(escape, items[i], path)
  {
    if |items| == 0 then [] else [SaveItem(escape, items[0], path)] + SaveItems(escape, items[1..], path)
  }

  /**
   * The entries for a folder saved under `path`: when the folder itself is saved, its
   * directory first (so that empty folders are kept) and its contents below it; then each
   * subfolder's tree in order, then the folder's items.
   */
  function SaveFolder(escape: string -> string, f: Folder, path: string, itself: bool): (es: seq<Entry>)
    ensures |es| == if itself then Size(f) else Size(f) - 1
    decreases Size(f), 0
  {
    var here := if itself then path + FolderName(escape, f.name, f.id) else path;
    (if itself then [Dir(here)] else []) + SaveFolders(escape, f.subfolders, here) + SaveItems(escape, f.items, here)
  }

  /** The trees of a list of folders, each saved with its own directory, in order. */
  function SaveFolders(escape: string -> string, fs: seq<Folder>, path: string): (es: seq<Entry>)
    ensures |es| == SizeAll(fs)
    decreases SizeAll(fs), 1
  {
    if |fs| == 0 then []
    else SaveFolder(escape, fs[0], path, true) + SaveFolders(escape, fs[1..], path)
  }

  /**
   * Write an archive for the inventory path `invPath`. The normalised path names the root
   * folder when empty, otherwise the first folder the folder lookup finds, otherwise the
   * item the item lookup finds; if neither exists the request is aborted with that path.
   * `escape` is how node names are escaped for archive paths; the lookups search the
   * user's inventory from the root folder.
   */
  function Execute(escape: string -> string, root: Folder, invPath: string,
                   findFolder: string -> seq<Folder>, findItem: string -> Option<Item>): (r: Outcome)
    ensures var t := Normalise(invPath);
      && (r.Aborted? <==> t.path != "" && |findFolder(t.path)| == 0 && findItem(t.path).None?)
      && (r.Aborted? ==> r.path == t.path)
      && (r.Saved? ==> |r.entries| >= 1 && r.entries[0] == Control)
      && (r.Saved? && r.target.FolderTarget? ==>
            && r.target.contentsOnly == t.contentsOnly
            && (t.path != "" ==> |findFolder(t.path)| > 0 && r.target.folder == findFolder(t.path)[0]))
      && (r.Saved? && r.target.ItemTarget? ==>
            t.path != "" && |findFolder(t.path)| == 0 && findItem(t.path) == Some(r.target.item))
      && (t.path == "" ==> r == Saved(FolderTarget(root, t.contentsOnly), [Control] + SaveFolder(escape, root, InventoryPath, !t.contentsOnly)))
  {
    var t := Normalise(invPath);
    var folder :=
      if t.path == "" then Some(root)
      else
        var candidates := findFolder(t.path);
        if |candidates| > 0 then Some(candidates[0]) else None;
    if folder.Some? then
      Saved(FolderTarget(folder.value, t.contentsOnly), [Control] + SaveFolder(escape, folder.value, InventoryPath, !t.contentsOnly))
    else
      match findItem(t.path)
      case None => Aborted(t.path)
      case Some(item) => Saved(ItemTarget(item), [Control, SaveItem(escape, item, InventoryPath)])
  }

  /**
   * The entries lie strictly below `path`: none is the control file, and each entry's path
   * extends `path`.
   */
  predicate Below(es: seq<Entry>, path: string)
  {
    forall i :: 0 <= i < |es| ==> !es[i].Control? && path < EntryPath(es[i])
  }

  /** Directory entries end in the delimiter and item entries in ".xml". */
  predicate Shaped(es: seq<Entry>)
  {
    forall i :: 0 <= i < |es| ==>
      (es[i].Dir? ==> |es[i].path| > 0 && es[i].path[|es[i].path| - 1] == Delimiter)
      && (es[i].Record? ==> |es[i].path| >= 4 && es[i].path[|es[i].path| - 4..] == ".xml")
  }

  /** Entries below a path, concatenated, stay below it. */
  lemma BelowAppend(a: seq<Entry>, b: seq<Entry>, path: string)
    requires Below(a, path) && Below(b, path) && Shaped(a) && Shaped(b)
    ensures Below(a + b, path) && Shaped(a + b)
  {
    assert forall i :: 0 <= i < |a + b| ==> (a + b)[i] == if i < |a| then a[i] else b[i - |a|];
  }

  /** Entries below a path are below each of its prefixes. */
  lemma BelowWeaken(es: seq<Entry>, path: string, deeper: string)
    requires Below(es, deeper) && path <= deeper
    ensures Below(es, path)
  {
    forall i | 0 <= i < |es| ensures path < EntryPath(es[i]) {
      assert EntryPath(es[i])[..|path|] == deeper[..|path|];
    }
  }

  /** Saved items lie below the path they are saved under and are named "....xml". */
  lemma {:induction false} ItemsBelow(escape: string -> string, items: seq<Item>, path: string)
    ensures var es := SaveItems(escape, items, path); Below(es, path) && Shaped(es)
  {
    var es := SaveItems(escape, items, path);
    forall i | 0 <= i < |es| ensures !es[i].Control? && path < EntryPath(es[i])
    {
      assert es[i].path == path + ItemName(escape, items[i].name, items[i].id);
    }
  }

  /**
   * Every entry of a folder's walk lies below the path it is saved under. When the folder
   * itself is saved, its directory comes first and everything after it lies below that
   * directory.
   */
  lemma {:induction false} WalkBelow(escape: string -> string, f: Folder, path: string, itself: bool)
    ensures var es := SaveFolder(escape, f, path, itself); Below(es, path) && Shaped(es)
    ensures itself ==>
      var es := SaveFolder(escape, f, path, itself);
      var here := path + FolderName(escape, f.name, f.id);
      es[0] == Dir(here) && Below(es[1..], here)
    decreases Size(f), 1
  {
    if itself {
      var here := path + FolderName(escape, f.name, f.id);
      var contents := SaveFolder(escape, f, here, false);
      HeadThenContents(escape, f, path);
      ContentsBelow(escape, f, here);
      BelowWeaken(contents, path, here);
      BelowAppend([Dir(here)], contents, path);
      assert ([Dir(here)] + contents)[1..] == contents;
    } else {
      ContentsBelow(escape, f, path);
    }
  }

  /** The contents of a folder, saved under `path`, lie below `path`. */
  lemma {:induction false} ContentsBelow(escape: string -> string, f: Folder, path: string)
    ensures var es := SaveFolder(escape, f, path, false); Below(es, path) && Shaped(es)
    decreases Size(f), 0
  {
    var subs := SaveFolders(escape, f.subfolders, path);
    var items := SaveItems(escape, f.items, path);
    WalksBelow(escape, f.subfolders, path);
    ItemsBelow(escape, f.items, path);
    BelowAppend(subs, items, path);
    assert SaveFolder(escape, f, path, false) == [] + subs + items;
    assert [] + subs == subs;
  }

  /** Concatenation regrouped, with the head dropped from the right-hand grouping. */
  lemma Regroup(a: seq<Entry>, b: seq<Entry>, c: seq<Entry>)
    ensures a + b + c == a + (b + c) && (a + (b + c))[|a|..] == b + c
  {
  }

  /** Every entry of a list of folder walks lies below the path they are saved under. */
  lemma {:induction false} WalksBelow(escape: string -> string, fs: seq<Folder>, path: string)
    ensures var es := SaveFolders(escape, fs, path); Below(es, path) && Shaped(es)
    decreases SizeAll(fs), 2
  {
    if |fs| > 0 {
      WalkBelow(escape, fs[0], path, true);
      WalksBelow(escape, fs[1..], path);
      BelowAppend(SaveFolder(escape, fs[0], path, true), SaveFolders(escape, fs[1..], path), path);
    }
  }

  /**
   * A saved archive starts with the control file and has it nowhere else; every other
   * entry lies inside the inventory directory.
   */
  lemma ControlFileFirst(escape: string -> string, root: Folder, invPath: string,
                         findFolder: string -> seq<Folder>, findItem: string -> Option<Item>)
    ensures var r := Execute(escape, root, invPath, findFolder, findItem);
      r.Saved? ==> r.entries[0] == Control && Below(r.entries[1..], InventoryPath) && Shaped(r.entries[1..])
  {
    var r := Execute(escape, root, invPath, findFolder, findItem);
    if r.Saved? {
      match r.target
      case FolderTarget(f, only) =>
        WalkBelow(escape, f, InventoryPath, !only);
        assert r.entries[1..] == SaveFolder(escape, f, InventoryPath, !only);
      case ItemTarget(item) =>
        ItemsBelow(escape, [item], InventoryPath);
        assert r.entries[1..] == SaveItems(escape, [item], InventoryPath);
    }
  }

  /** An entry moved under the directory `p`. */
  function Shift(p: string, e: Entry): (r: Entry)
    ensures EntryPath(r) == if e.Control? then ControlFilePath else p + EntryPath(e)
  {
    match e
    case Control => Control
    case Dir(path) => Dir(p + path)
    case Record(path, item) => Record(p + path, item)
  }

  /** Entries moved under the directory `p`, in order. */
  function Prefixed(p: string, es: seq<Entry>): (r: seq<Entry>)
    ensures |r| == |es| && forall i :: 0 <= i < |es| ==> r[i] == Shift(p, es[i])
  {
    seq(|es|, i requires 0 <= i < |es| => Shift(p, es[i]))
  }

  /** Moving entries commutes with concatenation. */
  lemma PrefixedAppend(p: string, a: seq<Entry>, b: seq<Entry>)
    ensures Prefixed(p, a + b) == Prefixed(p, a) + Prefixed(p, b)
  {
  }

  /** `PrefixItem` for a list of items. */
  lemma {:induction false} PrefixItems(escape: string -> string, items: seq<Item>, p: string, q: string)
    ensures SaveItems(escape, items, p + q) == Prefixed(p, SaveItems(escape, items, q))
  {
    var moved := SaveItems(escape, items, p + q);
    var shifted := Prefixed(p, SaveItems(escape, items, q));
    forall i | 0 <= i < |items| ensures moved[i] == shifted[i] {
      PrefixItem(escape, items[i], p, q);
    }
  }

  /** Saving an item under `p + q` is saving it under `q` and moving it under `p`. */
  lemma PrefixItem(escape: string -> string, item: Item, p: string, q: string)
    ensures SaveItem(escape, item, p + q) == Shift(p, SaveItem(escape, item, q))
  {
    var n := ItemName(escape, item.name, item.id);
    assert p + q + n == p + (q + n);
  }

  /**
   * A walk does not depend on where it is saved: saving under `p + q` is saving under `q`
   * and moving every entry under `p`.
   */
  lemma {:induction false} PrefixWalk(escape: string -> string, f: Folder, p: string, q: string, itself: bool)
    ensures SaveFolder(escape, f, p + q, itself) == Prefixed(p, SaveFolder(escape, f, q, itself))
    decreases Size(f), 1
  {
    if itself {
      var name := FolderName(escape, f.name, f.id);
      HeadThenContents(escape, f, q);
      HeadThenContents(escape, f, p + q);
      PrefixContents(escape, f, p, q + name);
      assert p + q + name == p + (q + name);
      PrefixedAppend(p, [Dir(q + name)], SaveFolder(escape, f, q + name, false));
    } else {
      PrefixContents(escape, f, p, q);
    }
  }

  /** `PrefixWalk` for the contents of a folder. */
  lemma {:induction false} PrefixContents(escape: string -> string, f: Folder, p: string, q: string)
    ensures SaveFolder(escape, f, p + q, false) == Prefixed(p, SaveFolder(escape, f, q, false))
    decreases Size(f), 0
  {
    var subs := SaveFolders(escape, f.subfolders, q);
    var items := SaveItems(escape, f.items, q);
    PrefixWalks(escape, f.subfolders, p, q);
    PrefixItems(escape, f.items, p, q);
    PrefixedAppend(p, subs, items);
    assert SaveFolder(escape, f, q, false) == [] + subs + items;
    assert SaveFolder(escape, f, p + q, false) == [] + SaveFolders(escape, f.subfolders, p + q) + SaveItems(escape, f.items, p + q);
    assert [] + subs == subs;
    assert [] + SaveFolders(escape, f.subfolders, p + q) == SaveFolders(escape, f.subfolders, p + q);
  }

  /** `PrefixWalk` for a list of folders. */
  lemma {:induction false} PrefixWalks(escape: string -> string, fs: seq<Folder>, p: string, q: string)
    ensures SaveFolders(escape, fs, p + q) == Prefixed(p, SaveFolders(escape, fs, q))
    decreases SizeAll(fs), 2
  {
    if |fs| > 0 {
      PrefixWalk(escape, fs[0], p, q, true);
      PrefixWalks(escape, fs[1..], p, q);
      PrefixedAppend(p, SaveFolder(escape, fs[0], q, true), SaveFolders(escape, fs[1..], q));
    }
  }

  /**
   * Saving a folder itself and saving only its contents write the same relative walk: with
   * the folder, it sits inside the folder's own directory, which comes first; without, it
   * sits directly in the inventory directory.
   */
  lemma ContentsOnlyRebases(escape: string -> string, f: Folder)
    ensures var walk := SaveFolder(escape, f, "", false);
      var dir := InventoryPath + FolderName(escape, f.name, f.id);
      && SaveFolder(escape, f, InventoryPath, true) == [Dir(dir)] + Prefixed(dir, walk)
      && SaveFolder(escape, f, InventoryPath, false) == Prefixed(InventoryPath, walk)
  {
    var dir := InventoryPath + FolderName(escape, f.name, f.id);
    HeadThenContents(escape, f, InventoryPath);
    WalkAnywhere(escape, f, dir);
    WalkAnywhere(escape, f, InventoryPath);
  }

  /** Saving a folder itself is its directory followed by its contents saved inside that directory. */
  lemma HeadThenContents(escape: string -> string, f: Folder, path: string)
    ensures var dir := path + FolderName(escape, f.name, f.id);
      SaveFolder(escape, f, path, true) == [Dir(dir)] + SaveFolder(escape, f, dir, false)
  {
    var dir := path + FolderName(escape, f.name, f.id);
    var subs := SaveFolders(escape, f.subfolders, dir);
    var items := SaveItems(escape, f.items, dir);
    assert SaveFolder(escape, f, path, true) == [Dir(dir)] + subs + items;
    assert SaveFolder(escape, f, dir, false) == [] + subs + items;
    assert [] + subs == subs;
    Regroup([Dir(dir)], subs, items);
  }

  /** The contents of a folder saved under `p` are its relative walk moved under `p`. */
  lemma WalkAnywhere(escape: string -> string, f: Folder, p: string)
    ensures SaveFolder(escape, f, p, false) == Prefixed(p, SaveFolder(escape, f, "", false))
  {
    PrefixWalk(escape, f, p, "", false);
    assert p + "" == p;
  }

  /**
   * The control file followed by a folder's walk: headed by the folder's own directory,
   * with everything else inside it, when the folder itself is saved; the relative walk
   * placed directly in the inventory directory, one entry shorter, when only its contents
   * are.
   */
  lemma ArchiveOfFolder(escape: string -> string, f: Folder, contentsOnly: bool)
    ensures var es := [Control] + SaveFolder(escape, f, InventoryPath, !contentsOnly);
      var dir := InventoryPath + FolderName(escape, f.name, f.id);
      && (!contentsOnly ==> |es| == Size(f) + 1 && es[1] == Dir(dir) && Below(es[2..], dir))
      && (contentsOnly ==> |es| == Size(f) && es[1..] == Prefixed(InventoryPath, SaveFolder(escape, f, "", false)))
  {
    var walk := SaveFolder(escape, f, InventoryPath, !contentsOnly);
    var es := [Control] + walk;
    assert es[1..] == walk;
    if !contentsOnly {
      WalkBelow(escape, f, InventoryPath, true);
      assert es[2..] == walk[1..];
    } else {
      ContentsOnlyRebases(escape, f);
    }
  }

  /** A folder target is archived as `ArchiveOfFolder` describes. */
  lemma FolderTargetLayout(escape: string -> string, root: Folder, invPath: string,
                           findFolder: string -> seq<Folder>, findItem: string -> Option<Item>)
    ensures var r := Execute(escape, root, invPath, findFolder, findItem);
      r.Saved? && r.target.FolderTarget? ==>
        r.entries == [Control] + SaveFolder(escape, r.target.folder, InventoryPath, !r.target.contentsOnly)
  {
  }

  /** A path that names no folder but an item archives just that item after the control file. */
  lemma ItemTargetLayout(escape: string -> string, root: Folder, invPath: string,
                         findFolder: string -> seq<Folder>, findItem: string -> Option<Item>)
    ensures var r := Execute(escape, root, invPath, findFolder, findItem);
      var t := Normalise(invPath);
      t.path != "" && |findFolder(t.path)| == 0 && findItem(t.path).Some? ==>
        var item := findItem(t.path).value;
        r == Saved(ItemTarget(item), [Control, Record(InventoryPath + ItemName(escape, item.name, item.id), item)])
  {
  }

  /** The items an archive's entries record, in order. */
  function Records(es: seq<Entry>): seq<Item>
  {
    if |es| == 0 then [] else (if es[0].Record? then [es[0].item] else []) + Records(es[1..])
  }

  /** The items of a folder's tree, each subfolder's before the folder's own. */
  function TreeItems(f: Folder): seq<Item>
    decreases Size(f), 0
  {
    ForestItems(f.subfolders) + f.items
  }

  /** The items of a list of folder trees, in order. */
  function ForestItems(fs: seq<Folder>): seq<Item>
    decreases SizeAll(fs), 1
  {
    if |fs| == 0 then [] else TreeItems(fs[0]) + ForestItems(fs[1..])
  }

  /** The records of a concatenation are the records of each part, in order. */
  lemma {:induction false} RecordsAppend(a: seq<Entry>, b: seq<Entry>)
    ensures Records(a + b) == Records(a) + Records(b)
  {
    if |a| == 0 {
      assert a + b == b;
    } else {
      assert (a + b)[0] == a[0];
      assert (a + b)[1..] == a[1..] + b;
      RecordsAppend(a[1..], b);
    }
  }

  /** Saved items record exactly those items, in order. */
  lemma {:induction false} RecordsOfItems(escape: string -> string, items: seq<Item>, path: string)
    ensures Records(SaveItems(escape, items, path)) == items
  {
    if |items| > 0 {
      var es := SaveItems(escape, items, path);
      assert es[1..] == SaveItems(escape, items[1..], path);
      RecordsOfItems(escape, items[1..], path);
    }
  }

  /** A folder's walk records each item of its tree exactly once, in tree order. */
  lemma {:induction false} WalkRecordsTree(escape: string -> string, f: Folder, path: string, itself: bool)
    ensures Records(SaveFolder(escape, f, path, itself)) == TreeItems(f)
    decreases Size(f), 0
  {
    var here := if itself then path + FolderName(escape, f.name, f.id) else path;
    var subs := SaveFolders(escape, f.subfolders, here);
    var items := SaveItems(escape, f.items, here);
    WalksRecordForest(escape, f.subfolders, here);
    RecordsOfItems(escape, f.items, here);
    RecordsAppend(subs, items);
    var es := SaveFolder(escape, f, path, itself);
    if itself {
      assert es == [Dir(here)] + subs + items;
      RecordsAppend([Dir(here)] + subs, items);
      RecordsSkipDir(here, subs);
    } else {
      assert es == [] + subs + items;
      assert [] + subs == subs;
    }
  }

  /** A directory entry records no item. */
  lemma RecordsSkipDir(d: string, rest: seq<Entry>)
    ensures Records([Dir(d)] + rest) == Records(rest)
  {
    assert ([Dir(d)] + rest)[1..] == rest;
  }

  /** `WalkRecordsTree` for a list of folders. */
  lemma {:induction false} WalksRecordForest(escape: string -> string, fs: seq<Folder>, path: string)
    ensures Records(SaveFolders(escape, fs, path)) == ForestItems(fs)
    decreases SizeAll(fs), 1
  {
    if |fs| > 0 {
      WalkRecordsTree(escape, fs[0], path, true);
      WalksRecordForest(escape, fs[1..], path);
      RecordsAppend(SaveFolder(escape, fs[0], path, true), SaveFolders(escape, fs[1..], path));
    }
  }

  /**
   * A folder archive records exactly the items of the folder's tree, in tree order, and so
   * the creators it notes are exactly the creators of those items.
   */
  lemma FolderArchiveRecordsTree(escape: string -> string, root: Folder, invPath: string,
                                 findFolder: string -> seq<Folder>, findItem: string -> Option<Item>)
    ensures var r := Execute(escape, root, invPath, findFolder, findItem);
      r.Saved? && r.target.FolderTarget? ==>
        && Records(r.entries) == TreeItems(r.target.folder)
        && (set i | 0 <= i < |Records(r.entries)| :: Records(r.entries)[i].creator)
           == (set i | 0 <= i < |TreeItems(r.target.folder)| :: TreeItems(r.target.folder)[i].creator)
  {
    var r := Execute(escape, root, invPath, findFolder, findItem);
    if r.Saved? && r.target.FolderTarget? {
      FolderTargetLayout(escape, root, invPath, findFolder, findItem);
      ArchiveRecords(escape, r.target.folder, !r.target.contentsOnly);
    }
  }

  /** The control file records nothing, so an archive of a folder records its tree's items. */
  lemma ArchiveRecords(escape: string -> string, f: Folder, itself: bool)
    ensures Records([Control] + SaveFolder(escape, f, InventoryPath, itself)) == TreeItems(f)
  {
    var walk := SaveFolder(escape, f, InventoryPath, itself);
    WalkRecordsTree(escape, f, InventoryPath, itself);
    RecordsAppend([Control], walk);
    assert Records([Control]) == [] by { assert [Control][1..] == []; }
  }

  /**
   * Node names identify nodes: equal folder names, or equal item names, have equal ids and
   * equal escaped names; and a folder's name is never an item's name.
   */
  lemma NamesIdentifyNodes(escape: string -> string, a: string, u: Uuid, b: string, v: Uuid)
    ensures FolderName(escape, a, u) == FolderName(escape, b, v) ==> u == v && escape(a) == escape(b)
    ensures ItemName(escape, a, u) == ItemName(escape, b, v) ==> u == v && escape(a) == escape(b)
    ensures FolderName(escape, a, u) != ItemName(escape, b, v)
  {
    var fa, fb := FolderName(escape, a, u), FolderName(escape, b, v);
    if fa == fb {
      assert Text(u) == fa[|fa| - 37..|fa| - 1] == fb[|fb| - 37..|fb| - 1] == Text(v);
      if u != v { TextInjective(u, v); }
      assert escape(a) == fa[..|fa| - 39] == fb[..|fb| - 39] == escape(b);
    }
    var ia, ib := ItemName(escape, a, u), ItemName(escape, b, v);
    if ia == ib {
      assert Text(u) == ia[|ia| - 40..|ia| - 4] == ib[|ib| - 40..|ib| - 4] == Text(v);
      if u != v { TextInjective(u, v); }
      assert escape(a) == ia[..|ia| - 42] == ib[..|ib| - 42] == escape(b);
    }
    assert fa[|fa| - 1] == Delimiter != 'l' == ib[|ib| - 1];
  }

  /**
   * Two items saved under the same directory land on the same archive path exactly when
   * they have the same id and the same escaped name.
   */
  lemma SavedItemPaths(escape: string -> string, a: Item, b: Item, path: string)
    ensures SaveItem(escape, a, path).path == SaveItem(escape, b, path).path
      <==> a.id == b.id && escape(a.name) == escape(b.name)
  {
    var na, nb := ItemName(escape, a.name, a.id), ItemName(escape, b.name, b.id);
    if path + na == path + nb {
      assert na == (path + na)[|path|..] == (path + nb)[|path|..] == nb;
      NamesIdentifyNodes(escape, a.name, a.id, b.name, b.id);
    }
  }
}
