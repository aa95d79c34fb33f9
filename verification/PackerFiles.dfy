/** The directory expansion of the update packer (`packer.cpp`): a restarted scan over a list of paths. */
module PackerFiles {

  /** A path as the packer sees it: a file, or a directory with what lies in it. */
  datatype Node =
    | File(name: string, hidden: bool, link: bool, readable: bool)
    | Dir(name: string, hidden: bool, link: bool, entries: seq<Node>)

  /** The filter of `entryInfoList`: no symbolic links, and no hidden entries since none are asked for. */
  predicate Listed(node: Node) { !node.hidden && !node.link }

  function EntryInfoList(entries: seq<Node>): seq<Node> {
    if entries == [] then []
    else (if Listed(entries[0]) then [entries[0]] else []) + EntryInfoList(entries[1..])
  }

  // ----- What the initial paths stand for -----

  /** Every file under a path: itself, or the files under the listed entries at any depth. */
  function FilesUnder(node: Node): seq<Node>
    decreases node, 0
  {
    match node
    case File(_, _, _, _) => [node]
    case Dir(_, _, _, entries) => FilesUnderListed(entries)
  }

  function FilesUnderListed(entries: seq<Node>): seq<Node>
    decreases entries, 1
  {
    if entries == [] then []
    else (if Listed(entries[0]) then FilesUnder(entries[0]) else []) + FilesUnderListed(entries[1..])
  }

  function FilesUnderAll(paths: seq<Node>): seq<Node> {
    if paths == [] then [] else FilesUnder(paths[0]) + FilesUnderAll(paths[1..])
  }

  function WithoutHidden(files: seq<Node>): seq<Node> {
    if files == [] then [] else (if files[0].hidden then [] else [files[0]]) + WithoutHidden(files[1..])
  }

  /** The files to pack, with multiplicity. */
  function Packed(paths: seq<Node>): multiset<Node> { multiset(WithoutHidden(FilesUnderAll(paths))) }

  ghost predicate AllReadable(files: seq<Node>) {
    forall f | f in files :: f.File? && f.readable
  }

  // ----- Termination: every pass of the scan that changes the list removes a node -----

  function NodeCount(node: Node): (n: nat)
    ensures n > 0
    decreases node, 0
  {
    match node
    case File(_, _, _, _) => 1
    case Dir(_, _, _, entries) => 1 + CountAll(entries)
  }

  function CountAll(nodes: seq<Node>): nat
    decreases nodes, 1
  {
    if nodes == [] then 0 else NodeCount(nodes[0]) + CountAll(nodes[1..])
  }

  lemma CountConcat(a: seq<Node>, b: seq<Node>)
    ensures CountAll(a + b) == CountAll(a) + CountAll(b)
  {
    if a == [] {
      assert a + b == b;
    } else {
      assert (a + b)[1..] == a[1..] + b;
      CountConcat(a[1..], b);
    }
  }

  lemma CountListed(entries: seq<Node>)
    ensures CountAll(EntryInfoList(entries)) <= CountAll(entries)
  {
    if entries != [] {
      CountListed(entries[1..]);
      CountConcat(if Listed(entries[0]) then [entries[0]] else [], EntryInfoList(entries[1..]));
    }
  }

  /** The file is reached from the node through entries that are neither links nor hidden. */
  predicate Reaches(node: Node, file: Node)
    decreases node
  {
    match node
    case File(_, _, _, _) => node == file
    case Dir(_, _, _, entries) =>
      exists i :: 0 <= i < |entries| && !entries[i].link && !entries[i].hidden && Reaches(entries[i], file)
  }

  /** The files under a node are those that are reached from it. */
  lemma {:induction false} FilesAreReached(node: Node, file: Node)
    ensures file in FilesUnder(node) <==> Reaches(node, file)
    decreases node, 0
  {
    if node.Dir? {
      ListedAreReached(node.entries, file);
    }
  }

  lemma {:induction false} ListedAreReached(entries: seq<Node>, file: Node)
    ensures file in FilesUnderListed(entries)
       <==> exists i :: 0 <= i < |entries| && !entries[i].link && !entries[i].hidden && Reaches(entries[i], file)
    decreases entries, 1
  {
    if entries != [] {
      FilesAreReached(entries[0], file);
      ListedAreReached(entries[1..], file);
      if i :| 0 <= i < |entries| && !entries[i].link && !entries[i].hidden && Reaches(entries[i], file) {
        assert i > 0 ==> entries[1..][i - 1] == entries[i];
      }
      if file in FilesUnderListed(entries[1..]) {
        var i :| 0 <= i < |entries[1..]| && !entries[1..][i].link && !entries[1..][i].hidden
                 && Reaches(entries[1..][i], file);
        assert entries[i + 1] == entries[1..][i];
      }
    }
  }

  // ----- Listing, splitting and erasing keep the files -----

  lemma FilesConcat(a: seq<Node>, b: seq<Node>)
    ensures FilesUnderAll(a + b) == FilesUnderAll(a) + FilesUnderAll(b)
  {
    if a == [] {
      assert a + b == b;
    } else {
      assert (a + b)[1..] == a[1..] + b;
      FilesConcat(a[1..], b);
    }
  }

  lemma FilesListed(entries: seq<Node>)
    ensures FilesUnderAll(EntryInfoList(entries)) == FilesUnderListed(entries)
  {
    if entries != [] {
      FilesListed(entries[1..]);
      FilesConcat(if Listed(entries[0]) then [entries[0]] else [], EntryInfoList(entries[1..]));
    }
  }

  lemma WithoutHiddenConcat(a: seq<Node>, b: seq<Node>)
    ensures WithoutHidden(a + b) == WithoutHidden(a) + WithoutHidden(b)
  {
    if a == [] {
      assert a + b == b;
    } else {
      assert (a + b)[1..] == a[1..] + b;
      WithoutHiddenConcat(a[1..], b);
    }
  }

  lemma Singletons(node: Node)
    ensures FilesUnderAll([node]) == FilesUnder(node) && CountAll([node]) == NodeCount(node)
  {
    hide FilesUnder, NodeCount;
  }

  /** The list splits around position `i`, for the files ... */
  lemma FilesSplitAt(files: seq<Node>, i: nat)
    requires i < |files|
    ensures FilesUnderAll(files) == FilesUnderAll(files[..i]) + FilesUnder(files[i]) + FilesUnderAll(files[i + 1..])
  {
    hide FilesUnderAll, FilesUnder;
    Singletons(files[i]);
    assert files == (files[..i] + [files[i]]) + files[i + 1..];
    FilesConcat(files[..i] + [files[i]], files[i + 1..]);
    FilesConcat(files[..i], [files[i]]);
  }

  /** ... as for the node count. */
  lemma CountSplitAt(files: seq<Node>, i: nat)
    requires i < |files|
    ensures CountAll(files) == CountAll(files[..i]) + NodeCount(files[i]) + CountAll(files[i + 1..])
  {
    hide CountAll, NodeCount;
    Singletons(files[i]);
    assert files == (files[..i] + [files[i]]) + files[i + 1..];
    CountConcat(files[..i] + [files[i]], files[i + 1..]);
    CountConcat(files[..i], [files[i]]);
  }

  /** Replacing a directory by its listing, at the end of the list, keeps every file under it. */
  lemma Expanded(files: seq<Node>, i: nat)
    requires i < |files| && files[i].Dir?
    ensures var next := files[..i] + files[i + 1..] + EntryInfoList(files[i].entries);
            && Packed(next) == Packed(files)
            && multiset(FilesUnderAll(next)) == multiset(FilesUnderAll(files))
            && CountAll(next) < CountAll(files)
  {
    var before, after, listing := files[..i], files[i + 1..], EntryInfoList(files[i].entries);
    FilesSplitAt(files, i);
    FilesListed(files[i].entries);
    CountSplitAt(files, i);
    CountListed(files[i].entries);
    hide FilesUnderAll, CountAll, WithoutHidden, EntryInfoList;
    FilesConcat(before + after, listing);
    FilesConcat(before, after);
    var x, y, z := FilesUnderAll(before), FilesUnderAll(after), FilesUnderAll(listing);
    WithoutHiddenConcat(x + z, y);
    WithoutHiddenConcat(x, z);
    WithoutHiddenConcat(x + y, z);
    WithoutHiddenConcat(x, y);
    CountConcat(before + after, listing);
    CountConcat(before, after);
  }

  lemma HiddenIsNotPacked(file: Node)
    ensures file.hidden ==> WithoutHidden([file]) == []
  {}

  /** Erasing a hidden file changes nothing that is packed. */
  lemma Erased(files: seq<Node>, i: nat)
    requires i < |files| && files[i].File? && files[i].hidden
    ensures var next := files[..i] + files[i + 1..];
            && Packed(next) == Packed(files)
            && multiset(FilesUnderAll(files)) == multiset(FilesUnderAll(next)) + multiset{files[i]}
            && CountAll(next) < CountAll(files)
  {
    hide FilesUnderAll, CountAll, WithoutHidden;
    var before, after := files[..i], files[i + 1..];
    var f := [files[i]];
    HiddenIsNotPacked(files[i]);
    FilesSplitAt(files, i);
    CountSplitAt(files, i);
    FilesConcat(before, after);
    var x, y := FilesUnderAll(before), FilesUnderAll(after);
    WithoutHiddenConcat(x + f, y);
    WithoutHiddenConcat(x, f);
    WithoutHiddenConcat(x, y);
    CountConcat(before, after);
  }

  lemma SameFilesSameReadability(a: seq<Node>, b: seq<Node>)
    requires multiset(a) == multiset(b)
    ensures AllReadable(a) <==> AllReadable(b)
  {
    assert forall f :: f in a <==> f in multiset(a);
    assert forall f :: f in b <==> f in multiset(b);
  }

  lemma OneMoreFile(all: seq<Node>, rest: seq<Node>, file: Node)
    requires multiset(all) == multiset(rest) + multiset{file} && file.File? && file.readable
    ensures AllReadable(all) <==> AllReadable(rest)
  {
    assert forall f :: f in all <==> f in multiset(all);
    assert forall f :: f in rest <==> f in multiset(rest);
  }

  /** An unreadable file in the list is an unreadable file under the paths. */
  lemma UnreadableAt(files: seq<Node>, i: nat)
    requires i < |files| && files[i].File? && !files[i].readable
    ensures !AllReadable(FilesUnderAll(files))
  {
    FilesSplitAt(files, i);
    var x, y := FilesUnderAll(files[..i]), FilesUnderAll(files[i + 1..]);
    assert (x + [files[i]] + y)[|x|] == files[i];
  }

  /** A list of visible files stands for itself. */
  lemma PlainFiles(files: seq<Node>)
    requires forall f | f in files :: f.File? && f.readable && !f.hidden
    ensures FilesUnderAll(files) == files && WithoutHidden(files) == files
  {
    if files != [] {
      PlainFiles(files[1..]);
    }
  }

  /** One scan, up to the first directory or hidden file, which it replaces or erases, or the first unreadable one. */
  method Scan(files: seq<Node>) returns (ok: bool, hasDirs: bool, left: seq<Node>)
    ensures !ok ==> !AllReadable(FilesUnderAll(files))
    ensures ok && hasDirs ==>
              && Packed(left) == Packed(files) && CountAll(left) < CountAll(files)
              && (AllReadable(FilesUnderAll(left)) <==> AllReadable(FilesUnderAll(files)))
    ensures ok && !hasDirs ==> left == files && forall f | f in files :: f.File? && f.readable && !f.hidden
  {
    hide Packed, AllReadable, FilesUnderAll, CountAll, EntryInfoList;
    var i := 0;
    while i < |files|
      invariant 0 <= i <= |files|
      invariant forall j | 0 <= j < i :: files[j].File? && files[j].readable && !files[j].hidden
    {
      var info := files[i];
      if info.Dir? {
        Expanded(files, i);
        left := files[..i] + files[i + 1..];
        left := left + EntryInfoList(info.entries);
        SameFilesSameReadability(FilesUnderAll(left), FilesUnderAll(files));
        return true, true, left;
      } else if !info.readable {
        UnreadableAt(files, i);
        return false, false, files;
      } else if info.hidden {
        Erased(files, i);
        left := files[..i] + files[i + 1..];
        OneMoreFile(FilesUnderAll(files), FilesUnderAll(left), info);
        return true, true, left;
      }
      i := i + 1;
    }
    return true, false, files;
  }

  /**
   * The expansion loop: the scan restarts after every directory it replaces and every hidden file it
   * erases, and gives up at an unreadable file.
   */
  method ExpandPaths(paths: seq<Node>) returns (ok: bool, files: seq<Node>)
    ensures ok <==> AllReadable(FilesUnderAll(paths))
    ensures ok ==> multiset(files) == Packed(paths)
    ensures ok ==> forall f | f in files :: f.File? && !f.hidden
  {
    hide FilesUnderAll, CountAll, WithoutHidden;
    files := paths;
    var hasDirs := true;
    while hasDirs
      invariant Packed(files) == Packed(paths)
      invariant AllReadable(FilesUnderAll(files)) <==> AllReadable(FilesUnderAll(paths))
      invariant !hasDirs ==> forall f | f in files :: f.File? && f.readable && !f.hidden
      decreases CountAll(files), hasDirs
    {
      ok, hasDirs, files := Scan(files);
      if !ok {
        return;
      }
    }
    PlainFiles(files);
    ok := true;
  }
}
