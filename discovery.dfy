/** The discovery protocol's entry tree: workspace, directory, file and regex entries. */
module Discovery {
  import opened Wrappers
  import opened Lsp
  import RegexMatches

  /** The `EntryType` tag. */
  datatype EntryType = Unknown | Workspace | Directory | File | Regex

  /** The numbers the enum assigns: Unknown=0, Workspace=1, Directory=2, File=3, Regex=4. */
  function EntryTypeCode(t: EntryType): (n: nat)
    ensures n <= 4
    ensures n == 0 <==> t == Unknown
  {
    match t
    case Unknown => 0
    case Workspace => 1
    case Directory => 2
    case File => 3
    case Regex => 4
  }

  /** Distinct tags have distinct numbers. */
  lemma EntryTypeCodeInjective(s: EntryType, t: EntryType)
    requires EntryTypeCode(s) == EntryTypeCode(t)
    ensures s == t
  {
  }

  /** A leaf: where a regex was found and how it was written. It has no children. */
  datatype RegexEntry = RegexEntry(location: Location, regexMatch: RegexMatches.RegexMatch)

  /** A scanned file; its children are regex entries only. */
  datatype FileEntry = FileEntry(uri: Uri, parentUri: Option<Uri>, children: seq<RegexEntry>)

  /**
   * The `Entry` union. A workspace entry has no `parentUri` field at all; the
   * restriction of workspace and directory children to directories and files is
   * `WellFormed` below.
   */
  datatype Entry =
    | WorkspaceEntry(uri: Uri, children: seq<Entry>)
    | DirectoryEntry(uri: Uri, parentUri: Option<Uri>, children: seq<Entry>)
    | FileNode(file: FileEntry)
    | RegexNode(regex: RegexEntry)

  /** The `type` field of an entry. */
  function TypeOf(e: Entry): (t: EntryType)
    ensures t != Unknown
  {
    match e
    case WorkspaceEntry(_, _) => Workspace
    case DirectoryEntry(_, _, _) => Directory
    case FileNode(_) => File
    case RegexNode(_) => Regex
  }

  /** The `parentUri` field; a workspace entry never has one. */
  function ParentUri(e: Entry): (p: Option<Uri>)
    ensures e.WorkspaceEntry? ==> p.None?
  {
    match e
    case WorkspaceEntry(_, _) => None
    case DirectoryEntry(_, parent, _) => parent
    case FileNode(f) => f.parentUri
    case RegexNode(_) => None
  }

  /** Directory and file entries are the only children a workspace or directory may hold. */
  predicate IsContainerChild(e: Entry)
  {
    e.DirectoryEntry? || e.FileNode?
  }

  /** The entry, and every entry below it, has the shape the union type allows. */
  predicate WellFormed(e: Entry)
  {
    match e
    case WorkspaceEntry(_, children) =>
      forall i :: 0 <= i < |children| ==> IsContainerChild(children[i]) && WellFormed(children[i])
    case DirectoryEntry(_, _, children) =>
      forall i :: 0 <= i < |children| ==> IsContainerChild(children[i]) && WellFormed(children[i])
    case FileNode(_) => true
    case RegexNode(_) => true
  }

  /** The request parameters of `discovery`: a uri and an optional type hint. */
  datatype DiscoveryParams = DiscoveryParams(uri: Uri, hint: Option<EntryType>)

  /** A discovery result is null, or an entry whose type is the requested one. */
  predicate IsDiscoveryResult(hint: EntryType, r: Option<Entry>)
  {
    r.Some? ==> TypeOf(r.value) == hint
  }

  /** A file entry wrapped as an entry is a valid result of a request with the File hint. */
  lemma FileResultMatchesFileHint(f: Option<FileEntry>)
    ensures IsDiscoveryResult(File, if f.Some? then Some(FileNode(f.value)) else None)
  {
  }
}
