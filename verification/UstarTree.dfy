/** The archive of a source tree: which nodes it holds, under which paths, and what a reader finds. */
module UstarTree {
  import opened Prelude
  import opened Slashes
  import opened UstarFields
  import opened UstarHeader
  import opened UstarWriter
  import opened UstarParser
  import opened UstarRoundTrip

  type Name = seq<byte>

  /** Following `names` down from `node` leads to `found`. */
  ghost predicate Leads(node: Node, names: seq<Name>, found: Node) {
    if names == [] then found == node
    else node.DirectoryNode? && exists child <- node.children :: child.name == names[0] && Leads(child.node, names[1..], found)
  }

  /** An item of the archive is this node. */
  predicate Shows(item: Item, node: Node) {
    match node
    case FileNode(content) => item.kind == FileItem && item.content == content
    case DirectoryNode(_) => item.kind == DirectoryItem && item.content == []
    case SymlinkNode => item.kind == SymlinkItem && item.content == []
    case SpecialNode => item.kind == SpecialItem && item.content == []
  }

  /** The item is a node below `node`, under the path that its names make below `path`. */
  ghost predicate ShownBelow(node: Node, path: seq<byte>, item: Item) {
    exists names: seq<Name>, found: Node ::
      Leads(node, names, found) && Shows(item, found) && item.path == Joined([path] + names, SLASH)
  }

  /** The item is some node of the included trees. */
  ghost predicate Shown(includes: seq<Child>, item: Item) {
    exists top <- includes :: ShownBelow(top.node, top.name, item)
  }

  // --- every node, under its path ----------------------------------------------

  lemma SlashedDown(path: seq<byte>, name: Name, names: seq<Name>)
    ensures Joined([path] + ([name] + names), SLASH) == Joined([path + [SLASH] + name] + names, SLASH)
    ensures Joined([path], SLASH) == path
  {
    var below, deep := [path] + ([name] + names), [path + [SLASH] + name] + names;
    assert below[1..] == [name] + names;
    assert deep[1..] == names == ([name] + names)[1..];
  }

  /** Every item of a flattened tree is a node of it. */
  lemma {:induction false} FlattenShows(node: Node, path: seq<byte>, item: Item)
    requires item in Flatten(node, path)
    ensures ShownBelow(node, path, item)
    decreases node
  {
    if node.DirectoryNode? && item in FlattenAll(node.children, path) {
      var child := FlattenAllShows(node.children, path, item);
      var names: seq<Name>, found: Node :|
        Leads(child.node, names, found) && Shows(item, found) && item.path == Joined([path + [SLASH] + child.name] + names, SLASH);
      SlashedDown(path, child.name, names);
      assert ([child.name] + names)[1..] == names;
      assert Leads(node, [child.name] + names, found);
    } else {
      assert [path] + [] == [path];
      assert Leads(node, [], node) && item.path == Joined([path] + [], SLASH);
    }
  }

  lemma {:induction false} FlattenAllShows(children: seq<Child>, path: seq<byte>, item: Item) returns (child: Child)
    requires item in FlattenAll(children, path)
    ensures child in children && ShownBelow(child.node, path + [SLASH] + child.name, item)
    decreases children
  {
    child := children[0];
    if item in Flatten(child.node, path + [SLASH] + child.name) {
      FlattenShows(child.node, path + [SLASH] + child.name, item);
    } else {
      child := FlattenAllShows(children[1..], path, item);
    }
  }

  /** Every node of a tree is in its flattening. */
  lemma {:induction false} ShowsFlatten(node: Node, path: seq<byte>, names: seq<Name>, found: Node, item: Item)
    requires Leads(node, names, found) && Shows(item, found) && item.path == Joined([path] + names, SLASH)
    ensures item in Flatten(node, path)
    decreases |names|
  {
    if names == [] {
      assert [path] + names == [path];
    } else {
      var child :| child in node.children && child.name == names[0] && Leads(child.node, names[1..], found);
      SlashedDown(path, names[0], names[1..]);
      assert [names[0]] + names[1..] == names;
      ShowsFlatten(child.node, path + [SLASH] + child.name, names[1..], found, item);
      ChildFlattened(node.children, path, child, item);
    }
  }

  lemma {:induction false} ChildFlattened(children: seq<Child>, path: seq<byte>, child: Child, item: Item)
    requires child in children && item in Flatten(child.node, path + [SLASH] + child.name)
    ensures item in FlattenAll(children, path)
  {
    if child != children[0] {
      ChildFlattened(children[1..], path, child, item);
    }
  }

  /**
   The items of an archive are exactly the nodes that the names of a path lead to from
   an include: a file with its bytes, a directory, or what is neither.
   */
  lemma {:induction false} ItemsAreNodes(includes: seq<Child>, item: Item)
    ensures item in FlattenIncludes(includes) <==> Shown(includes, item)
  {
    if includes != [] {
      var first := includes[0];
      ItemsAreNodes(includes[1..], item);
      if item in Flatten(first.node, first.name) {
        FlattenShows(first.node, first.name, item);
      }
      if ShownBelow(first.node, first.name, item) {
        var names: seq<Name>, found: Node :|
          Leads(first.node, names, found) && Shows(item, found) && item.path == Joined([first.name] + names, SLASH);
        ShowsFlatten(first.node, first.name, names, found, item);
      }
      assert forall top :: top in includes <==> top == first || top in includes[1..];
    }
  }

  // --- parents first -----------------------------------------------------------

  /** Item `j` is directly inside the directory of an earlier item. */
  ghost predicate Inside(items: seq<Item>, j: nat)
    requires j < |items|
  {
    exists i: nat, name: Name ::
      i < j && items[i].kind == DirectoryItem && items[j].path == items[i].path + [SLASH] + name
  }

  lemma InsideStays(before: seq<Item>, items: seq<Item>, after: seq<Item>, j: nat)
    requires j < |items| && Inside(items, j)
    ensures Inside(before + items + after, |before| + j)
  {
    var i: nat, name: Name :| i < j && items[i].kind == DirectoryItem && items[j].path == items[i].path + [SLASH] + name;
    var all := before + items + after;
    assert all[|before| + i] == items[i] && all[|before| + j] == items[j];
  }

  /** The root of a tree comes first, and every other node after its parent. */
  lemma {:induction false} ParentsFirst(node: Node, path: seq<byte>, j: nat)
    requires j < |Flatten(node, path)|
    ensures Flatten(node, path)[0].path == path
    ensures j > 0 ==> Inside(Flatten(node, path), j)
    decreases node, 1
  {
    if j > 0 {
      var root := Flatten(node, path)[0];
      var rest := FlattenAll(node.children, path);
      assert Flatten(node, path) == [root] + rest;
      ParentsFirstAll(node.children, path, j - 1);
      if Inside(rest, j - 1) {
        InsideStays([root], rest, [], j - 1);
        assert [root] + rest + [] == [root] + rest;
      } else {
        var name: Name :| rest[j - 1].path == path + [SLASH] + name;
        assert ([root] + rest)[0].path == path;
      }
    }
  }

  lemma {:induction false} ParentsFirstAll(children: seq<Child>, path: seq<byte>, j: nat)
    requires j < |FlattenAll(children, path)|
    ensures Inside(FlattenAll(children, path), j)
         || exists name: Name :: FlattenAll(children, path)[j].path == path + [SLASH] + name
    decreases children, 0
  {
    var child := children[0];
    var first := Flatten(child.node, path + [SLASH] + child.name);
    var rest := FlattenAll(children[1..], path);
    if j < |first| {
      ParentsFirst(child.node, path + [SLASH] + child.name, j);
      if j > 0 {
        InsideStays([], first, rest, j);
        assert [] + first + rest == first + rest;
      }
    } else {
      ParentsFirstAll(children[1..], path, j - |first|);
      if Inside(rest, j - |first|) {
        InsideStays(first, rest, [], j - |first|);
        assert first + rest + [] == first + rest;
      }
    }
  }

  /** Every item is an include itself or comes after the directory that it is in. */
  lemma {:induction false} ItemsFollowParents(includes: seq<Child>, j: nat)
    requires j < |FlattenIncludes(includes)|
    ensures Inside(FlattenIncludes(includes), j)
         || exists top <- includes :: FlattenIncludes(includes)[j].path == top.name
  {
    var top := includes[0];
    var first, rest := Flatten(top.node, top.name), FlattenIncludes(includes[1..]);
    if j < |first| {
      ParentsFirst(top.node, top.name, j);
      if j > 0 {
        InsideStays([], first, rest, j);
        assert [] + first + rest == first + rest;
      }
    } else {
      ItemsFollowParents(includes[1..], j - |first|);
      if Inside(rest, j - |first|) {
        InsideStays(first, rest, [], j - |first|);
        assert first + rest + [] == first + rest;
      }
    }
  }

  // --- each node once ------------------------------------------------------------

  /** The names in a directory are different and without slashes, as a file system keeps them. */
  predicate Named(node: Node) {
    node.DirectoryNode? ==>
      && (forall i, j :: 0 <= i < j < |node.children| ==> node.children[i].name != node.children[j].name)
      && forall child <- node.children :: SLASH !in child.name && Named(child.node)
  }

  /** `path` is `base`, or below it. */
  predicate AtOrBelow(path: seq<byte>, base: seq<byte>) {
    path == base || base + [SLASH] <= path
  }

  /** No include is another one, or inside one. */
  predicate Apart(includes: seq<Child>) {
    && (forall top <- includes :: Named(top.node))
    && forall i, j :: 0 <= i < |includes| && 0 <= j < |includes| && i != j ==>
         !AtOrBelow(includes[i].name, includes[j].name)
  }

  predicate Distinct(items: seq<Item>) {
    forall i, j :: 0 <= i < j < |items| ==> items[i].path != items[j].path
  }

  lemma {:induction false} FlattenBelow(node: Node, path: seq<byte>, item: Item)
    requires item in Flatten(node, path)
    ensures AtOrBelow(item.path, path)
    decreases node
  {
    if node.DirectoryNode? && item in FlattenAll(node.children, path) {
      var child := FlattenAllBelow(node.children, path, item);
    }
  }

  lemma {:induction false} FlattenAllBelow(children: seq<Child>, path: seq<byte>, item: Item) returns (child: Child)
    requires item in FlattenAll(children, path)
    ensures child in children && AtOrBelow(item.path, path + [SLASH] + child.name)
    ensures path + [SLASH] <= item.path
    decreases children
  {
    child := children[0];
    if item in Flatten(child.node, path + [SLASH] + child.name) {
      FlattenBelow(child.node, path + [SLASH] + child.name, item);
    } else {
      child := FlattenAllBelow(children[1..], path, item);
    }
  }

  lemma NameStops(path: seq<byte>, base: seq<byte>, a: Name, b: Name)
    requires AtOrBelow(path, base + [SLASH] + a) && |a| < |b|
    requires |base| + 1 + |b| <= |path| && path[|base| + 1..|base| + 1 + |b|] == b
    ensures SLASH in b
  {
    var n := |base| + 1;
    var top := base + [SLASH] + a;
    assert path[..n + |a| + 1] == top + [SLASH];
    assert path[n + |a|] == SLASH;
    assert b[|a|] == path[n + |a|];
  }

  /** Two paths below one directory, under different names. */
  lemma BelowApart(path: seq<byte>, base: seq<byte>, a: Name, b: Name)
    requires SLASH !in a && SLASH !in b
    requires AtOrBelow(path, base + [SLASH] + a) && AtOrBelow(path, base + [SLASH] + b)
    ensures a == b
  {
    var n := |base| + 1;
    assert path[n..n + |a|] == a;
    assert path[n..n + |b|] == b;
    if |a| < |b| {
      NameStops(path, base, a, b);
    } else if |b| < |a| {
      NameStops(path, base, b, a);
    }
  }

  lemma DistinctConcat(a: seq<Item>, b: seq<Item>)
    requires Distinct(a) && Distinct(b)
    requires forall x <- a, y <- b :: x.path != y.path
    ensures Distinct(a + b)
  {
  }

  lemma {:induction false} FlattenDistinct(node: Node, path: seq<byte>)
    requires Named(node)
    ensures Distinct(Flatten(node, path))
    decreases node
  {
    if node.DirectoryNode? {
      var root := Item(path, DirectoryItem, []);
      var rest := FlattenAll(node.children, path);
      FlattenAllDistinct(node.children, path);
      forall item | item in rest ensures item.path != path {
        var child := FlattenAllBelow(node.children, path, item);
      }
      DistinctConcat([root], rest);
    }
  }

  lemma {:induction false} FlattenAllDistinct(children: seq<Child>, path: seq<byte>)
    requires forall i, j :: 0 <= i < j < |children| ==> children[i].name != children[j].name
    requires forall child <- children :: SLASH !in child.name && Named(child.node)
    ensures Distinct(FlattenAll(children, path))
    decreases children
  {
    if children != [] {
      var child := children[0];
      FlattenDistinct(child.node, path + [SLASH] + child.name);
      FlattenAllDistinct(children[1..], path);
      forall x, y | x in Flatten(child.node, path + [SLASH] + child.name) && y in FlattenAll(children[1..], path)
        ensures x.path != y.path
      {
        FlattenBelow(child.node, path + [SLASH] + child.name, x);
        var other := FlattenAllBelow(children[1..], path, y);
        if x.path == y.path {
          BelowApart(x.path, path, child.name, other.name);
        }
      }
      DistinctConcat(Flatten(child.node, path + [SLASH] + child.name), FlattenAll(children[1..], path));
    }
  }

  lemma {:induction false} IncludesBelow(includes: seq<Child>, item: Item) returns (top: Child)
    requires item in FlattenIncludes(includes)
    ensures top in includes && AtOrBelow(item.path, top.name)
  {
    top := includes[0];
    if item in Flatten(top.node, top.name) {
      FlattenBelow(top.node, top.name, item);
    } else {
      top := IncludesBelow(includes[1..], item);
    }
  }

  /** A path below two names puts one of them below the other. */
  lemma BelowBoth(path: seq<byte>, a: seq<byte>, b: seq<byte>)
    requires AtOrBelow(path, a) && AtOrBelow(path, b)
    ensures AtOrBelow(a, b) || AtOrBelow(b, a)
  {
    if |a| < |b| {
      assert path[..|b|] == b;
      assert path[..|a| + 1] == a + [SLASH];
      assert b[..|a| + 1] == a + [SLASH];
    } else if |b| < |a| {
      assert path[..|a|] == a;
      assert path[..|b| + 1] == b + [SLASH];
      assert a[..|b| + 1] == b + [SLASH];
    } else {
      assert path[..|a|] == a && path[..|b|] == b;
    }
  }

  /** With includes apart from each other, no two items have the same path. */
  lemma {:induction false} ItemsDistinct(includes: seq<Child>)
    requires Apart(includes)
    ensures Distinct(FlattenIncludes(includes))
  {
    if includes != [] {
      var first := includes[0];
      FlattenDistinct(first.node, first.name);
      ItemsDistinct(includes[1..]);
      forall x, y | x in Flatten(first.node, first.name) && y in FlattenIncludes(includes[1..])
        ensures x.path != y.path
      {
        FlattenBelow(first.node, first.name, x);
        var other := IncludesBelow(includes[1..], y);
        var j :| 1 <= j < |includes| && includes[j] == other;
        if x.path == y.path {
          BelowBoth(x.path, first.name, other.name);
        }
      }
      DistinctConcat(Flatten(first.node, first.name), FlattenIncludes(includes[1..]));
    }
  }

  // --- what the writer accepts -----------------------------------------------------

  /** An item that the archive format and the policy allow: a directory or a file with a safe path that splits. */
  predicate Allowed(item: Item) {
    && SafePath(item.path)
    && (item.kind == FileItem || item.kind == DirectoryItem)
    && (|item.path| <= 100
        || exists i :: 0 < i < |item.path| && item.path[i] == 47 && i <= 155 && |item.path| - i - 1 <= 100)
    && SizeOf(item) < 8 * 1024 * 1024 * 1024
  }

  function Content(items: seq<Item>): nat {
    if items == [] then 0 else SizeOf(items[0]) + Content(items[1..])
  }

  /** The length of the items in the archive: a header and whole blocks of data each. */
  function Stored(items: seq<Item>): nat {
    if items == [] then 0 else 512 + Blocks(SizeOf(items[0])) + Stored(items[1..])
  }

  /**
   One item, or at most 100,000 and one for each 512 bytes of the disk policy; no more
   data than the policy allows, and no more than the limit of the expanded file.
   */
  predicate FitTogether(items: seq<Item>, diskBytes: nat) {
    && 1 <= diskBytes <= 1125899906842624
    && (|items| <= 1 || (|items| <= 100000 && |items| * 512 <= diskBytes))
    && Content(items) <= diskBytes
    && Stored(items) <= diskBytes + MaxEntries(diskBytes) * 512
  }

  lemma AllowedHeader(item: Item)
    requires item.kind == FileItem || item.kind == DirectoryItem
    requires SafePath(item.path)
    ensures Header(item.path, item.kind == DirectoryItem, SizeOf(item)).Ok? <==> Allowed(item)
  {
    NameIsLossless(item.path);
    if exists i :: 0 < i < |item.path| && item.path[i] == 47 && i <= 155 && |item.path| - i - 1 <= 100 {
      var i :| 0 < i < |item.path| && item.path[i] == 47 && i <= 155 && |item.path| - i - 1 <= 100;
      assert SplitsAt(item.path, i);
    }
    if i: nat :| SplitsAt(item.path, i) {
      assert 0 < i < |item.path| && item.path[i] == 47 && i <= 155 && |item.path| - i - 1 <= 100;
    }
    EightGigabytes(SizeOf(item));
  }

  lemma EightGigabytes(size: nat)
    ensures Octal(size, 12).Ok? <==> size < 8 * 1024 * 1024 * 1024
  {
    var short: seq<byte> := [];
    SizeFieldLimit(short, size);
  }

  lemma AppendOne(item: Item, w: Written, diskBytes: nat)
    requires w.bytes <= diskBytes
    ensures Append(item, w, diskBytes).Ok? <==>
              Allowed(item) && w.entries + 1 <= MaxEntries(diskBytes) && w.bytes + SizeOf(item) <= diskBytes
    ensures Append(item, w, diskBytes).Ok? ==>
              var next := Append(item, w, diskBytes).value;
              && next.entries == w.entries + 1 && next.bytes == w.bytes + SizeOf(item) <= diskBytes
              && |next.out| == |w.out| + 512 + Blocks(SizeOf(item))
  {
    hide SafePath, Header, MaxEntries, Allowed;
    if item.kind == FileItem || item.kind == DirectoryItem {
      if SafePath(item.path) {
        AllowedHeader(item);
      } else {
        NotAllowed(item);
      }
      AllowedSize(item);
    } else {
      NotAllowed(item);
    }
    BlocksAligned(SizeOf(item));
  }

  lemma NotAllowed(item: Item)
    requires !SafePath(item.path) || (item.kind != FileItem && item.kind != DirectoryItem)
    ensures !Allowed(item)
  {
  }

  lemma AllowedSize(item: Item)
    ensures Allowed(item) ==> SizeOf(item) <= MAX_ENTRY_BYTES
  {
  }

  lemma {:induction false} AppendExactly(items: seq<Item>, w: Written, diskBytes: nat)
    requires w.bytes <= diskBytes && w.entries <= MaxEntries(diskBytes)
    ensures AppendAll(items, w, diskBytes).Ok? <==>
              && (forall item <- items :: Allowed(item))
              && w.entries + |items| <= MaxEntries(diskBytes)
              && w.bytes + Content(items) <= diskBytes
    ensures AppendAll(items, w, diskBytes).Ok? ==>
              |AppendAll(items, w, diskBytes).value.out| == |w.out| + Stored(items)
  {
    hide Append, Allowed, MaxEntries, Blocks;
    if items != [] {
      AppendOne(items[0], w, diskBytes);
      assert forall item :: item in items <==> item == items[0] || item in items[1..];
      if Append(items[0], w, diskBytes).Ok? {
        AppendExactly(items[1..], Append(items[0], w, diskBytes).value, diskBytes);
      }
    }
  }

  /**
   An archive is made of the items exactly if each is allowed and together they fit.
   */
  lemma ArchiveExactly(items: seq<Item>, diskBytes: nat)
    ensures Archive(items, diskBytes).Ok? <==> (forall item <- items :: Allowed(item)) && FitTogether(items, diskBytes)
    ensures Archive(items, diskBytes).Ok? ==> |Archive(items, diskBytes).value| == Stored(items) + 1024
  {
    hide Allowed, Append;
    AppendExactly(items, Written([], 0, 0), diskBytes);
  }

  // --- a backup, read back -----------------------------------------------------------

  /** Entry `j` is directly inside the directory of an earlier entry. */
  ghost predicate Under(entries: seq<Entry>, j: nat)
    requires j < |entries|
  {
    exists i: nat, name: Name ::
      i < j && entries[i].kind == Directory && entries[j].path == entries[i].path + [SLASH] + name
  }

  /** Some entry is this node. */
  ghost predicate Among(entries: seq<Entry>, item: Item, file: seq<byte>) {
    exists e <- entries :: Describes(e, item, file)
  }

  /** The entry is some node of the included trees. */
  ghost predicate OfNode(includes: seq<Child>, e: Entry, file: seq<byte>) {
    exists item: Item :: Shown(includes, item) && Describes(e, item, file)
  }

  /** The entries are the nodes of the included trees, each node once and after its parent. */
  ghost predicate Faithful(includes: seq<Child>, file: seq<byte>, entries: seq<Entry>) {
    && (forall item: Item :: Shown(includes, item) ==> Among(entries, item, file))
    && (forall e <- entries :: OfNode(includes, e, file))
    && (forall j :: 0 <= j < |entries| ==> Under(entries, j) || exists top <- includes :: entries[j].path == top.name)
    && (Apart(includes) ==> forall i, j :: 0 <= i < j < |entries| ==> entries[i].path != entries[j].path)
  }

  /**
   Reading an archive of included trees gives back their nodes, and nothing else: an
   entry for every node that the names of its path lead to, a file with exactly its
   bytes or a directory, after the directory that it is in, and once if the includes
   are apart.  There is an archive exactly if every node is allowed and all fit.
   */
  method BackUpAndRead(includes: seq<Child>, diskBytes: nat)
    returns (created: Result<seq<byte>, TarError>, entries: seq<Entry>)
    ensures var items := FlattenIncludes(includes);
            created.Ok? <==> (forall item: Item :: Shown(includes, item) ==> Allowed(item)) && FitTogether(items, diskBytes)
    ensures created.Ok? ==> Faithful(includes, created.value, entries) && |entries| == |FlattenIncludes(includes)|
  {
    hide Archive, Parsed, FlattenIncludes, Allowed, FitTogether, Faithful, Describes;
    created := Create(includes, diskBytes);
    ghost var items := FlattenIncludes(includes);
    ArchiveExactly(items, diskBytes);
    forall item: Item
      ensures item in items <==> Shown(includes, item)
    {
      ItemsAreNodes(includes, item);
    }
    entries := [];
    if created.Ok? {
      RoundTrip(items, diskBytes);
      var read := ParseTar(created.value, diskBytes);
      entries := read.value;
      ReadNodes(includes, entries, created.value);
    }
  }

  lemma ReadNodes(includes: seq<Child>, entries: seq<Entry>, file: seq<byte>)
    requires DescribesAll(entries, FlattenIncludes(includes), file)
    ensures Faithful(includes, file, entries)
  {
    hide Shown, FlattenIncludes, Apart, AtOrBelow, Named;
    var items := FlattenIncludes(includes);
    forall item: Item
      ensures item in items <==> Shown(includes, item)
    {
      ItemsAreNodes(includes, item);
    }
    forall item: Item | Shown(includes, item)
      ensures Among(entries, item, file)
    {
      var i :| 0 <= i < |items| && items[i] == item;
      assert Describes(entries[i], item, file);
    }
    forall e | e in entries
      ensures OfNode(includes, e, file)
    {
      var i :| 0 <= i < |entries| && entries[i] == e;
      assert items[i] in items && Describes(e, items[i], file);
    }
    forall j | 0 <= j < |entries|
      ensures Under(entries, j) || exists top <- includes :: entries[j].path == top.name
    {
      ItemsFollowParents(includes, j);
      if Inside(items, j) {
        var i: nat, name: Name :| i < j && items[i].kind == DirectoryItem && items[j].path == items[i].path + [SLASH] + name;
        assert Describes(entries[i], items[i], file) && Describes(entries[j], items[j], file);
      }
    }
    if Apart(includes) {
      ItemsDistinct(includes);
    }
  }
}
