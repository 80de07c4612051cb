/**
 * Where the text of a document comes from: the editor's open buffer when there is one,
 * otherwise the file on disk, read afresh on every request.
 */
module Documents {
  import opened Wrappers
  import opened Lsp

  datatype TextDocument = TextDocument(uri: Uri, languageId: string, version: int, text: string)

  /** Reading the file from disk failed. */
  datatype ReadError = ReadError(path: string)

  /** The index of the last `c` in `s`, or -1. */
  function LastIndexOf(s: string, c: char): (k: int)
    ensures -1 <= k < |s|
    ensures k >= 0 ==> s[k] == c && forall j :: k < j < |s| ==> s[j] != c
    ensures k == -1 ==> forall j :: 0 <= j < |s| ==> s[j] != c
  {
    if s == [] then -1
    else if s[|s| - 1] == c then |s| - 1
    else LastIndexOf(s[..|s| - 1], c)
  }

  /** The last path segment. */
  function Basename(path: string): (b: string)
    ensures forall j :: 0 <= j < |b| ==> b[j] != '/'
  {
    var k := LastIndexOf(path, '/');
    path[k + 1..]
  }

  /**
   * The extension of the last path segment, from its last dot: empty when the segment has
   * no dot, when its only dot leads it, or when the segment is `..`.
   */
  function Extname(path: string): (ext: string)
    ensures ext == [] || ext[0] == '.'
    ensures forall j :: 0 <= j < |ext| ==> ext[j] != '/'
    ensures forall j :: 1 <= j < |ext| ==> ext[j] != '.'
  {
    var base := Basename(path);
    var k := LastIndexOf(base, '.');
    if k <= 0 || base == ".." then [] else base[k..]
  }

  /** The language id of a file: the table's entry for its extension, `plaintext` when that is missing or empty. */
  function LanguageIdFor(path: string, languages: map<string, string>): (id: string)
    ensures id != []
    ensures var ext := Extname(path); ext in languages && languages[ext] != [] ==> id == languages[ext]
    ensures var ext := Extname(path); !(ext in languages && languages[ext] != []) ==> id == "plaintext"
  {
    var ext := Extname(path);
    if ext in languages && languages[ext] != [] then languages[ext] else "plaintext"
  }

  /**
   * `DocumentsService.get`: the open document for `uri`, or one created from the disk
   * contents (`None` when the read fails) under `uri`, with version 0 and the language id
   * of the file's extension.
   */
  function Get(uri: Uri, open: map<Uri, TextDocument>, disk: Option<string>, languages: map<string, string>)
    : (r: Result<TextDocument, ReadError>)
    ensures uri in open ==> r == Ok(open[uri])
    ensures uri !in open && disk.None? ==> r.Err?
    ensures uri !in open && disk.Some? ==>
      r.Ok? && r.value.uri == uri && r.value.version == 0 && r.value.text == disk.value
        && r.value.languageId == LanguageIdFor(uri, languages)
  {
    if uri in open then Ok(open[uri])
    else if disk.None? then Err(ReadError(uri))
    else Ok(TextDocument(uri, LanguageIdFor(uri, languages), 0, disk.value))
  }

  /** An open buffer is returned whatever the disk holds: the disk is not consulted. */
  lemma OpenBufferIgnoresDisk(uri: Uri, open: map<Uri, TextDocument>, d1: Option<string>, d2: Option<string>, languages: map<string, string>)
    requires uri in open
    ensures Get(uri, open, d1, languages) == Get(uri, open, d2, languages)
  {
  }

  /** Nothing read from disk is kept: a closed file's document always reflects the current disk contents. */
  lemma ClosedFileReflectsDisk(uri: Uri, open: map<Uri, TextDocument>, d1: string, d2: string, languages: map<string, string>)
    requires uri !in open && d1 != d2
    ensures Get(uri, open, Some(d1), languages) != Get(uri, open, Some(d2), languages)
  {
  }

  /** The extension of `dir/stem.ext` is `.ext` when neither `stem` nor `ext` holds a separator and `ext` holds no dot. */
  lemma ExtnameIsFromLastDot(dir: string, stem: string, ext: string)
    requires stem != [] && ext != []
    requires forall j :: 0 <= j < |stem| ==> stem[j] != '/'
    requires forall j :: 0 <= j < |ext| ==> ext[j] != '/' && ext[j] != '.'
    ensures Extname(dir + "/" + stem + "." + ext) == "." + ext
  {
    var path := dir + "/" + stem + "." + ext;
    var base := stem + "." + ext;
    assert path[|dir|] == '/';
    assert forall j :: |dir| < j < |path| ==> path[j] == base[j - |dir| - 1];
    assert LastIndexOf(path, '/') == |dir|;
    assert Basename(path) == base;
    assert base[|stem|] == '.';
    assert forall j :: |stem| < j < |base| ==> base[j] == ext[j - |stem| - 1];
    assert LastIndexOf(base, '.') == |stem|;
    assert base[|stem|..] == "." + ext;
  }

  /** A leading dot marks a hidden file, not an extension: `dir/.name` has none. */
  lemma HiddenFileHasNoExtension(dir: string, name: string)
    requires forall j :: 0 <= j < |name| ==> name[j] != '/' && name[j] != '.'
    ensures Extname(dir + "/." + name) == []
  {
    var path := dir + "/." + name;
    var base := "." + name;
    assert path[|dir|] == '/';
    assert forall j :: |dir| < j < |path| ==> path[j] == base[j - |dir| - 1];
    assert LastIndexOf(path, '/') == |dir|;
    assert Basename(path) == base;
    assert forall j :: 0 < j < |base| ==> base[j] == name[j - 1];
    assert base[0] == '.' && forall j :: 0 < j < |base| ==> base[j] != '.';
    assert LastIndexOf(base, '.') == 0;
  }
}
