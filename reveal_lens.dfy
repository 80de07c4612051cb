/** The code lens above each discovered regex that reveals it in the Regex Explorer tree. */
module RevealLens {
  import opened Wrappers
  import opened Lsp
  import opened Discovery

  const RevealCommand: string := "regex-radar.tree-data-provider.reveal"

  const RevealTitle: string := "Regex Explorer"

  const RevealTooltip: string := "Reveal in the Regex Explorer"

  /**
   * `onCodeLens` for document `uri`: asks discovery for the file entry of `uri` (hint File),
   * answers nothing when there is none, else one resolved lens per regex entry, in order,
   * over the entry's range, whose command carries the entry.
   */
  function OnCodeLens(uri: Uri, discover: DiscoveryParams -> Option<FileEntry>): (lenses: seq<CodeLens<RegexEntry>>)
    ensures var discovered := discover(DiscoveryParams(uri, Some(File)));
      && (discovered.None? ==> lenses == [])
      && (discovered.Some? ==> |lenses| == |discovered.value.children|)
      && (discovered.Some? ==> forall i :: 0 <= i < |lenses| ==>
            var e := discovered.value.children[i];
            && lenses[i].isResolved
            && lenses[i].range == e.location.range
            && lenses[i].command == Some(Command(RevealTitle, RevealCommand, RevealTooltip, [e])))
  {
    match discover(DiscoveryParams(uri, Some(File)))
    case None => []
    case Some(f) =>
      seq(|f.children|, i requires 0 <= i < |f.children| =>
        CodeLens(f.children[i].location.range, Some(Command(RevealTitle, RevealCommand, RevealTooltip, [f.children[i]])), true))
  }

  /** Only the file entry of the lens's own document matters: discovery answers for other requests are never consulted. */
  lemma OnlyTheDocumentsFileIsDiscovered(uri: Uri, d1: DiscoveryParams -> Option<FileEntry>, d2: DiscoveryParams -> Option<FileEntry>)
    requires d1(DiscoveryParams(uri, Some(File))) == d2(DiscoveryParams(uri, Some(File)))
    ensures OnCodeLens(uri, d1) == OnCodeLens(uri, d2)
  {
  }
}
