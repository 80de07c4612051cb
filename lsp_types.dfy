/**
 * The older entry shape that the tree-view request builds: regex entries carry an
 * `info` record of pattern and flags, and no entry has a `parentUri`.
 */
module LegacyEntries {
  import opened Lsp

  /** The older `EntryType` tag (its first member is spelled `Uknown` in the source). */
  datatype EntryType = Unknown | Workspace | Directory | File | Regex

  /** Unknown=0, Workspace=1, Directory=2, File=3, Regex=4. */
  function EntryTypeCode(t: EntryType): (n: nat)
    ensures n <= 4
    ensures n == 0 <==> t == Unknown
  {
    match t
    case Unknown => 0
    case Workspace => 1
    case Directory => 2
    case File => 3
    case Regex => 4
  }

  /** Distinct tags have distinct numbers. */
  lemma EntryTypeCodeInjective(s: EntryType, t: EntryType)
    requires EntryTypeCode(s) == EntryTypeCode(t)
    ensures s == t
  {
  }

  datatype RegexInfo = RegexInfo(pattern: string, flags: string)

  datatype RegexEntry = RegexEntry(location: Location, info: RegexInfo)

  /** Files hold regex entries only; workspaces and directories hold entries (see `WellFormed`). */
  datatype Entry =
    | WorkspaceEntry(uri: Uri, children: seq<Entry>)
    | DirectoryEntry(uri: Uri, children: seq<Entry>)
    | FileEntry(uri: Uri, regexes: seq<RegexEntry>)
    | RegexNode(regex: RegexEntry)

  function TypeOf(e: Entry): (t: EntryType)
    ensures t != Unknown
  {
    match e
    case WorkspaceEntry(_, _) => Workspace
    case DirectoryEntry(_, _) => Directory
    case FileEntry(_, _) => File
    case RegexNode(_) => Regex
  }

  /** Workspace and directory children are directory or file entries, all the way down. */
  predicate WellFormed(e: Entry)
  {
    match e
    case WorkspaceEntry(_, children) =>
      forall i :: 0 <= i < |children| ==> (children[i].DirectoryEntry? || children[i].FileEntry?) && WellFormed(children[i])
    case DirectoryEntry(_, children) =>
      forall i :: 0 <= i < |children| ==> (children[i].DirectoryEntry? || children[i].FileEntry?) && WellFormed(children[i])
    case FileEntry(_, _) => true
    case RegexNode(_) => true
  }
}
