/**
 * The `getTreeViewChildren` request: builds workspace, directory and file entries of the
 * older entry shape from a directory listing, the open buffers and the JavaScript parser.
 * The file system is a tree value and the parser a given function, so the build is a
 * structural recursion over the listing.
 */
module TreeView {
  import opened Wrappers
  import opened Lsp
  import opened Documents
  import L = LegacyEntries

  /**
   * What the file system holds at a path. File contents of `None`, or a directory that is
   * not `listable`, mean the read rejects. Anything that is neither a file nor a directory
   * is `FsOther`.
   */
  datatype FsNode =
    | FsFile(name: string, contents: Option<string>)
    | FsDir(name: string, listable: bool, listing: seq<FsNode>)
    | FsOther(name: string)

  /** One regex the parser found in a document. */
  datatype ParsedRegex = ParsedRegex(pattern: string, flags: string, range: Range)

  /** The collaborators of a build: open buffers, the extension table and the parser. */
  datatype Env = Env(
    open: map<Uri, TextDocument>,
    languages: map<string, string>,
    parse: TextDocument -> seq<ParsedRegex>)

  datatype BuildError = ReadDirFailed(uri: Uri) | ReadFileFailed(uri: Uri)

  /**
   * The uri of a listing item: the directory's path, a separator, and the item's name.
   * Unlike `path.join` it does not normalise, so a directory ending in `/` gives `//`.
   */
  function Join(dir: Uri, name: string): (u: Uri)
    ensures dir + "/" <= u && |u| == |dir| + 1 + |name|
  {
    dir + "/" + name
  }

  /** The regex entries of a file: one per parser match, in parser order. */
  function RegexEntries(uri: Uri, ms: seq<ParsedRegex>): (rs: seq<L.RegexEntry>)
    ensures |rs| == |ms|
    ensures forall i :: 0 <= i < |ms| ==>
      rs[i].location == Location(uri, ms[i].range)
      && rs[i].info == L.RegexInfo(ms[i].pattern, ms[i].flags)
  {
    seq(|ms|, i requires 0 <= i < |ms| => L.RegexEntry(Location(uri, ms[i].range), L.RegexInfo(ms[i].pattern, ms[i].flags)))
  }

  /** `buildTreeFromFile`: the document (buffer or disk) parsed into a file entry. */
  function BuildFile(uri: Uri, contents: Option<string>, env: Env): (r: Result<L.Entry, BuildError>)
    ensures r.Ok? <==> uri in env.open || contents.Some?
    ensures r.Ok? ==> r.value.FileEntry? && r.value.uri == uri
  {
    match Get(uri, env.open, contents, env.languages)
    case Err(_) => Err(ReadFileFailed(uri))
    case Ok(doc) => Ok(L.FileEntry(uri, RegexEntries(uri, env.parse(doc))))
  }

  /** `buildTreeFromDirectory`: a directory entry whose children are built from the listing. */
  function BuildDirectory(uri: Uri, listable: bool, listing: seq<FsNode>, env: Env): (r: Result<L.Entry, BuildError>)
    decreases listing, 2
    ensures r.Ok? ==> listable && r.value.DirectoryEntry? && r.value.uri == uri
  {
    if !listable then Err(ReadDirFailed(uri))
    else
      match BuildChildren(uri, listing, env)
      case Err(e) => Err(e)
      case Ok(children) => Ok(L.DirectoryEntry(uri, children))
  }

  /**
   * The children of a directory: every file and directory item built, in listing order,
   * other items dropped. The first failure in listing order fails the whole list.
   */
  function BuildChildren(dir: Uri, items: seq<FsNode>, env: Env): (r: Result<seq<L.Entry>, BuildError>)
    decreases items, 1
    ensures r.Ok? ==> |r.value| <= |items|
  {
    if items == [] then Ok([])
    else
      match BuildItem(dir, items[0], env)
      case Err(e) => Err(e)
      case Ok(head) =>
        match BuildChildren(dir, items[1..], env)
        case Err(e) => Err(e)
        case Ok(tail) => Ok((if head.Some? then [head.value] else []) + tail)
  }

  /** One listing item: a file entry, a directory entry, or nothing. */
  function BuildItem(dir: Uri, item: FsNode, env: Env): (r: Result<Option<L.Entry>, BuildError>)
    decreases item, 0
    ensures r == Ok(None) <==> item.FsOther?
    ensures r.Ok? && r.value.Some? ==> !r.value.value.RegexNode? && r.value.value.uri == Join(dir, item.name)
  {
    match item
    case FsFile(name, contents) =>
      (match BuildFile(Join(dir, name), contents, env)
       case Err(e) => Err(e)
       case Ok(f) => Ok(Some(f)))
    case FsDir(name, listable, listing) =>
      (match BuildDirectory(Join(dir, name), listable, listing, env)
       case Err(e) => Err(e)
       case Ok(d) => Ok(Some(d)))
    case FsOther(_) => Ok(None)
  }

  /** `buildTreeFromWorkspace`: the directory build, retyped as a workspace. */
  function BuildWorkspace(uri: Uri, listable: bool, listing: seq<FsNode>, env: Env): (r: Result<L.Entry, BuildError>)
    ensures r.Ok? <==> BuildDirectory(uri, listable, listing, env).Ok?
    ensures r.Ok? ==> r.value.WorkspaceEntry? && r.value.uri == uri
  {
    match BuildDirectory(uri, listable, listing, env)
    case Err(e) => Err(e)
    case Ok(d) => Ok(L.WorkspaceEntry(d.uri, d.children))
  }

  /** Whether `readdir` succeeds at a path: only a listable directory can be listed. */
  predicate ListableAt(node: FsNode)
  {
    node.FsDir? && node.listable
  }

  /** The listing `readdir` sees at a path. */
  function ListingAt(node: FsNode): seq<FsNode>
  {
    if node.FsDir? then node.listing else []
  }

  /** The contents `readFile` sees at a path: only a file can be read. */
  function ContentsAt(node: FsNode): Option<string>
  {
    if node.FsFile? then node.contents else None
  }

  /** The `getTreeViewChildren` request for `uri`, whose file-system object is `node`. */
  function GetTreeViewChildren(uri: Uri, t: L.EntryType, node: FsNode, env: Env): (r: Result<seq<L.Entry>, BuildError>)
    ensures r.Ok? ==> |r.value| <= 1
    ensures r.Ok? && |r.value| == 1 ==> !r.value[0].RegexNode? && r.value[0].uri == uri
  {
    match t
    case Workspace =>
      (match BuildWorkspace(uri, ListableAt(node), ListingAt(node), env)
       case Err(e) => Err(e)
       case Ok(w) => Ok([w]))
    case Directory =>
      (match BuildDirectory(uri, ListableAt(node), ListingAt(node), env)
       case Err(e) => Err(e)
       case Ok(d) => Ok([d]))
    case File =>
      (match BuildFile(uri, ContentsAt(node), env)
       case Err(e) => Err(e)
       case Ok(f) => Ok([f]))
    case _ => Ok([])
  }

  // ---------------------------------------------------------------------------
  // Properties of the build

  /** The items of a listing that yield a child: files and directories. */
  function Kept(items: seq<FsNode>): (ks: seq<FsNode>)
    ensures |ks| <= |items|
    ensures forall i :: 0 <= i < |ks| ==> !ks[i].FsOther?
  {
    if items == [] then []
    else (if items[0].FsOther? then [] else [items[0]]) + Kept(items[1..])
  }

  /** A file builds to a file entry with one regex entry per parser match, in order, located in the file. */
  lemma BuildFileShape(uri: Uri, contents: Option<string>, env: Env)
    requires uri in env.open || contents.Some?
    ensures var r := BuildFile(uri, contents, env);
      && r.Ok? && r.value.FileEntry? && r.value.uri == uri
      && var doc := Get(uri, env.open, contents, env.languages).value;
         var ms := env.parse(doc);
         && |r.value.regexes| == |ms|
         && forall i :: 0 <= i < |ms| ==>
              && r.value.regexes[i].location.uri == uri
              && r.value.regexes[i].location.range == ms[i].range
              && r.value.regexes[i].info.pattern == ms[i].pattern
              && r.value.regexes[i].info.flags == ms[i].flags
  {
  }

  /** A file that is neither open nor readable fails its build. */
  lemma BuildFileFails(uri: Uri, env: Env)
    requires uri !in env.open
    ensures BuildFile(uri, None, env) == Err(ReadFileFailed(uri))
  {
  }

  /**
   * A successful build of a listing has one child per file or directory item, in listing
   * order: the i-th child is built from the i-th kept item, has its joined uri, and is a
   * file entry exactly when the item is a file. Nothing is pruned, so a file with no
   * regex still yields its file entry.
   */
  lemma {:induction false} BuildChildrenFollowsListing(dir: Uri, items: seq<FsNode>, env: Env)
    requires BuildChildren(dir, items, env).Ok?
    ensures var cs := BuildChildren(dir, items, env).value;
      var ks := Kept(items);
      && |cs| == |ks|
      && forall i :: 0 <= i < |cs| ==>
           && (cs[i].FileEntry? <==> ks[i].FsFile?)
           && (cs[i].DirectoryEntry? <==> ks[i].FsDir?)
           && cs[i].uri == Join(dir, ks[i].name)
           && BuildItem(dir, ks[i], env) == Ok(Some(cs[i]))
    decreases items
  {
    if items != [] {
      BuildChildrenFollowsListing(dir, items[1..], env);
      var head := BuildItem(dir, items[0], env).value;
      var tail := BuildChildren(dir, items[1..], env).value;
      assert BuildChildren(dir, items, env).value == (if head.Some? then [head.value] else []) + tail;
      assert Kept(items) == (if items[0].FsOther? then [] else [items[0]]) + Kept(items[1..]);
      assert head.Some? <==> !items[0].FsOther?;
      if head.Some? {
        assert BuildItem(dir, items[0], env) == Ok(Some(head.value));
        assert head.value.FileEntry? <==> items[0].FsFile?;
        assert head.value.DirectoryEntry? <==> items[0].FsDir?;
        assert head.value.uri == Join(dir, items[0].name);
      }
    }
  }

  /** A failure anywhere in the listing fails the whole directory: there is no per-child recovery. */
  lemma {:induction false} ChildFailureFailsDirectory(dir: Uri, items: seq<FsNode>, env: Env, k: nat)
    requires k < |items| && BuildItem(dir, items[k], env).Err?
    ensures BuildChildren(dir, items, env).Err?
    decreases items
  {
    if k > 0 && BuildItem(dir, items[0], env).Ok? {
      ChildFailureFailsDirectory(dir, items[1..], env, k - 1);
    }
  }

  /** Conversely, a listing whose every item builds builds as a whole. */
  lemma {:induction false} AllItemsBuildThenDirectoryBuilds(dir: Uri, items: seq<FsNode>, env: Env)
    requires forall k :: 0 <= k < |items| ==> BuildItem(dir, items[k], env).Ok?
    ensures BuildChildren(dir, items, env).Ok?
    decreases items
  {
    if items != [] {
      AllItemsBuildThenDirectoryBuilds(dir, items[1..], env);
    }
  }

  /** Every entry a build produces has the shape the entry union allows. */
  lemma {:induction false} BuildIsWellFormed(dir: Uri, items: seq<FsNode>, env: Env)
    requires BuildChildren(dir, items, env).Ok?
    ensures var cs := BuildChildren(dir, items, env).value;
      forall i :: 0 <= i < |cs| ==> (cs[i].DirectoryEntry? || cs[i].FileEntry?) && L.WellFormed(cs[i])
    decreases items, 1
  {
    if items != [] {
      BuildItemIsWellFormed(dir, items[0], env);
      BuildIsWellFormed(dir, items[1..], env);
    }
  }

  lemma {:induction false} BuildItemIsWellFormed(dir: Uri, item: FsNode, env: Env)
    requires BuildItem(dir, item, env).Ok?
    ensures var c := BuildItem(dir, item, env).value;
      c.Some? ==> (c.value.DirectoryEntry? || c.value.FileEntry?) && L.WellFormed(c.value)
    decreases item, 0
  {
    if item.FsDir? && item.listable {
      BuildIsWellFormed(Join(dir, item.name), item.listing, env);
    }
  }

  /** A workspace build is the directory build of the same uri with only the type changed. */
  lemma WorkspaceIsRetypedDirectory(uri: Uri, listable: bool, listing: seq<FsNode>, env: Env)
    ensures var w := BuildWorkspace(uri, listable, listing, env);
      var d := BuildDirectory(uri, listable, listing, env);
      && w.Ok? == d.Ok?
      && (d.Ok? ==> w.value == L.WorkspaceEntry(uri, d.value.children))
      && (d.Err? ==> w.error == d.error)
  {
  }

  /**
   * A request for a workspace, directory or file answers a one-element list holding an
   * entry of that type; any other type answers the empty list.
   */
  lemma GetTreeViewChildrenShape(uri: Uri, t: L.EntryType, node: FsNode, env: Env)
    ensures var r := GetTreeViewChildren(uri, t, node, env);
      && (t in {L.Workspace, L.Directory, L.File} && r.Ok? ==> |r.value| == 1 && L.TypeOf(r.value[0]) == t && r.value[0].uri == uri)
      && (t !in {L.Workspace, L.Directory, L.File} ==> r == Ok([]))
  {
  }
}
