/** The backup writer: a depth-first walk that appends headers, data and padding under a budget. */
module UstarWriter {
  import opened Prelude
  import opened UstarFields
  import opened UstarHeader

  /** A source tree; children are in the order the walk visits them. */
  datatype Node = FileNode(content: seq<byte>) | DirectoryNode(children: seq<Child>) | SymlinkNode | SpecialNode
  datatype Child = Child(name: seq<byte>, node: Node)

  datatype ItemKind = FileItem | DirectoryItem | SymlinkItem | SpecialItem
  datatype Item = Item(path: seq<byte>, kind: ItemKind, content: seq<byte>)

  /** The nodes of a tree with their archive paths, parents first. */
  function Flatten(node: Node, path: seq<byte>): seq<Item>
    decreases node
  {
    match node
    case FileNode(content) => [Item(path, FileItem, content)]
    case DirectoryNode(children) => [Item(path, DirectoryItem, [])] + FlattenAll(children, path)
    case SymlinkNode => [Item(path, SymlinkItem, [])]
    case SpecialNode => [Item(path, SpecialItem, [])]
  }

  function FlattenAll(children: seq<Child>, path: seq<byte>): seq<Item>
    decreases children
  {
    if children == [] then []
    else Flatten(children[0].node, path + [SLASH] + children[0].name) + FlattenAll(children[1..], path)
  }

  function FlattenIncludes(includes: seq<Child>): seq<Item> {
    if includes == [] then []
    else Flatten(includes[0].node, includes[0].name) + FlattenIncludes(includes[1..])
  }

  /** What the walk has produced and spent. */
  datatype Written = Written(out: seq<byte>, entries: nat, bytes: nat)

  function MaxEntries(diskBytes: nat): (n: nat)
    ensures 1 <= n <= 100000
  {
    Max(1, Min(100000, diskBytes / BLOCK))
  }

  function ExpandedLimit(diskBytes: nat): nat {
    diskBytes + MaxEntries(diskBytes) * BLOCK + BLOCK * 2
  }

  function Padding(size: nat): nat {
    (BLOCK - size % BLOCK) % BLOCK
  }

  function Append(item: Item, w: Written, diskBytes: nat): Result<Written, TarError> {
    var entries := w.entries + 1;
    if !SafePath(item.path) then Err(UnsafePath)
    else if entries > MaxEntries(diskBytes) then Err(TooManyEntries)
    else match item.kind
      case SymlinkItem => Err(ForbiddenType)
      case SpecialItem => Err(ForbiddenType)
      case DirectoryItem =>
        var header :- Header(item.path, true, 0);
        Ok(Written(w.out + header, entries, w.bytes))
      case FileItem =>
        var size := |item.content|;
        if size > Min(MAX_ENTRY_BYTES, diskBytes) then Err(EntryTooLarge)
        else if w.bytes + size > diskBytes then Err(TooManyBytes)
        else
          var header :- Header(item.path, false, size);
          Ok(Written(w.out + header + item.content + Zeros(Padding(size)), entries, w.bytes + size))
  }

  function AppendAll(items: seq<Item>, w: Written, diskBytes: nat): Result<Written, TarError> {
    if items == [] then Ok(w)
    else
      var next :- Append(items[0], w, diskBytes);
      AppendAll(items[1..], next, diskBytes)
  }

  lemma {:induction false} AppendConcat(a: seq<Item>, b: seq<Item>, w: Written, diskBytes: nat)
    ensures AppendAll(a + b, w, diskBytes)
         == var first := AppendAll(a, w, diskBytes);
            if first.Err? then first else AppendAll(b, first.value, diskBytes)
  {
    if a == [] {
      assert a + b == b;
    } else {
      assert (a + b)[1..] == a[1..] + b;
      var next := Append(a[0], w, diskBytes);
      if next.Ok? {
        AppendConcat(a[1..], b, next.value, diskBytes);
      }
    }
  }

  class TarWriter {
    const diskBytes: nat
    var out: seq<byte>
    var entries: nat
    var bytes: nat

    constructor (diskBytes: nat)
      ensures this.diskBytes == diskBytes
      ensures State() == Written([], 0, 0)
    {
      this.diskBytes := diskBytes;
      out, entries, bytes := [], 0, 0;
    }

    function State(): Written
      reads this
    {
      Written(out, entries, bytes)
    }

    /** Copy a file through a one-megabyte buffer; a read may return less than asked. */
    method CopyData(content: seq<byte>)
      modifies this`out
      ensures out == old(out) + content
    {
      var position := 0;
      while position < |content|
        invariant 0 <= position <= |content|
        invariant out == old(out) + content[..position]
      {
        var asked := Min(1024 * 1024, |content| - position);
        var bytesRead :| 1 <= bytesRead <= asked;
        out := out + content[position..position + bytesRead];
        assert content[..position] + content[position..position + bytesRead] == content[..position + bytesRead];
        position := position + bytesRead;
      }
      assert content[..|content|] == content;
    }

    method AppendTree(node: Node, path: seq<byte>) returns (o: Outcome<TarError>)
      modifies this
      ensures var walk := AppendAll(Flatten(node, path), old(State()), diskBytes);
              if walk.Ok? then o.Pass? && State() == walk.value else o == Fail(walk.error)
      decreases node
    {
      hide Header, SafePath, MaxEntries, Padding;
      ghost var before := State();
      if !SafePath(path) {
        return Fail(UnsafePath);
      }
      entries := entries + 1;
      if entries > MaxEntries(diskBytes) {
        return Fail(TooManyEntries);
      }
      match node
      case SymlinkNode =>
        o := Fail(ForbiddenType);
      case DirectoryNode(children) =>
        AppendConcat([Item(path, DirectoryItem, [])], FlattenAll(children, path), before, diskBytes);
        var header := TarHeader(path, true, 0);
        if header.Err? {
          return Fail(header.error);
        }
        out := out + header.value;
        o := AppendChildren(children, path);
      case SpecialNode =>
        o := Fail(ForbiddenType);
      case FileNode(content) =>
        var size := |content|;
        if size > Min(MAX_ENTRY_BYTES, diskBytes) {
          return Fail(EntryTooLarge);
        }
        bytes := bytes + size;
        if bytes > diskBytes {
          return Fail(TooManyBytes);
        }
        var header := TarHeader(path, false, size);
        if header.Err? {
          return Fail(header.error);
        }
        out := out + header.value;
        CopyData(content);
        out := out + Zeros(Padding(size));
        o := Pass;
    }

    /** Walk the children of a directory in order. */
    method AppendChildren(children: seq<Child>, path: seq<byte>) returns (o: Outcome<TarError>)
      modifies this
      ensures var walk := AppendAll(FlattenAll(children, path), old(State()), diskBytes);
              if walk.Ok? then o.Pass? && State() == walk.value else o == Fail(walk.error)
      decreases children
    {
      hide Append, Flatten, SafePath;
      for i := 0 to |children|
        invariant AppendAll(FlattenAll(children, path), old(State()), diskBytes)
               == AppendAll(FlattenAll(children[i..], path), State(), diskBytes)
      {
        var child := children[i];
        assert children[i..][1..] == children[i + 1..];
        AppendConcat(Flatten(child.node, path + [SLASH] + child.name), FlattenAll(children[i + 1..], path),
                     State(), diskBytes);
        o := AppendTree(child.node, path + [SLASH] + child.name);
        if o.Fail? {
          return;
        }
      }
      o := Pass;
    }
  }

  /** The tar file a backup produces, or the reason there is none. */
  function Archive(items: seq<Item>, diskBytes: nat): Result<seq<byte>, TarError> {
    if !(1 <= diskBytes <= 1125899906842624) then Err(InvalidPolicy)
    else
      var walk :- AppendAll(items, Written([], 0, 0), diskBytes);
      var file := walk.out + Zeros(BLOCK * 2);
      if |file| > ExpandedLimit(diskBytes) then Err(TooManyBytes) else Ok(file)
  }

  method Create(includes: seq<Child>, diskBytes: nat) returns (r: Result<seq<byte>, TarError>)
    ensures r == Archive(FlattenIncludes(includes), diskBytes)
  {
    if !(1 <= diskBytes <= 1125899906842624) {
      return Err(InvalidPolicy);
    }
    var tar := new TarWriter(diskBytes);
    for i := 0 to |includes|
      invariant fresh(tar) && tar.diskBytes == diskBytes
      invariant AppendAll(FlattenIncludes(includes), Written([], 0, 0), diskBytes)
             == AppendAll(FlattenIncludes(includes[i..]), tar.State(), diskBytes)
    {
      assert includes[i..][1..] == includes[i + 1..];
      AppendConcat(Flatten(includes[i].node, includes[i].name), FlattenIncludes(includes[i + 1..]),
                   tar.State(), diskBytes);
      var o := tar.AppendTree(includes[i].node, includes[i].name);
      if o.Fail? {
        return Err(o.error);
      }
    }
    var file := tar.out + Zeros(BLOCK * 2);
    if |file| > ExpandedLimit(diskBytes) {
      return Err(TooManyBytes);
    }
    r := Ok(file);
  }
}
