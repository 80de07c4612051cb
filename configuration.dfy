/**
 * The configuration store: one record of client facts (filled in from `initialize`) and
 * server settings (section `regex-radar`, fetched from the client and updated on change),
 * read through `get` once the first fetch has settled.
 */
module Configuration {
  import opened Wrappers
  import opened Lsp
  import opened Json

  /** The configuration section, and the prefix of every server setting key. */
  const Section: string := "regex-radar"

  /** The keys of the record: the six client keys, and `regex-radar.<name>` for each server setting. */
  datatype Key =
    | CapabilitiesKey
    | InfoKey
    | LocaleKey
    | ProcessIdKey
    | TraceKey
    | FoldersKey
    | ServerKey(name: string)

  /** How a key is spelled. */
  function KeyName(k: Key): (s: string)
    ensures k.ServerKey? ==> s == Section + "." + k.name
  {
    match k
    case CapabilitiesKey => "client.capabilities"
    case InfoKey => "client.info"
    case LocaleKey => "client.locale"
    case ProcessIdKey => "client.process.id"
    case TraceKey => "client.trace"
    case FoldersKey => "client.workspace.folders"
    case ServerKey(name) => Section + "." + name
  }

  const DiscoveryKey: Key := ServerKey("discovery")
  const DiagnosticsKey: Key := ServerKey("diagnostics")

  datatype WorkspaceFolder = WorkspaceFolder(uri: Uri, name: string)

  /** A stored setting: the client capabilities, the workspace folders, or any other value. */
  datatype Setting = Capabilities(caps: ClientCapabilities) | Folders(folders: seq<WorkspaceFolder>) | Data(value: Value)

  datatype ClientInfo = ClientInfo(name: string, version: Option<string>)

  /** The `initialize` request parameters the store reads; an absent field is `None`. */
  datatype InitializeParams = InitializeParams(
    capabilities: ClientCapabilities,
    clientInfo: Option<ClientInfo>,
    locale: Option<string>,
    processId: Option<int>,
    trace: Option<string>,
    workspaceFolders: Option<seq<WorkspaceFolder>>)

  /** Every client key has a value. */
  predicate HasClientKeys(c: map<Key, Setting>)
  {
    CapabilitiesKey in c && InfoKey in c && LocaleKey in c && ProcessIdKey in c && TraceKey in c && FoldersKey in c
  }

  /** The record before `initialize`. */
  function Defaults(): (d: map<Key, Setting>)
    ensures HasClientKeys(d) && DiscoveryKey in d && DiagnosticsKey in d
    ensures d[CapabilitiesKey] == Capabilities(NoCapabilities)
    ensures d[InfoKey] == Data(Null) && d[LocaleKey] == Data(Null) && d[ProcessIdKey] == Data(Null)
    ensures d[TraceKey] == Data(Str("off")) && d[FoldersKey] == Folders([])
    ensures d[DiscoveryKey] == Data(Obj(map["enabled" := Bool(true)]))
    ensures d[DiagnosticsKey] == Data(Obj(map["languages" := Arr([Str("javascript"), Str("typescript")])]))
    ensures d.Keys == {CapabilitiesKey, InfoKey, LocaleKey, ProcessIdKey, TraceKey, FoldersKey, DiscoveryKey, DiagnosticsKey}
  {
    map[
      CapabilitiesKey := Capabilities(NoCapabilities),
      InfoKey := Data(Null),
      LocaleKey := Data(Null),
      ProcessIdKey := Data(Null),
      TraceKey := Data(Str("off")),
      FoldersKey := Folders([]),
      DiscoveryKey := Data(Obj(map["enabled" := Bool(true)])),
      DiagnosticsKey := Data(Obj(map["languages" := Arr([Str("javascript"), Str("typescript")])]))]
  }

  function InfoValue(info: ClientInfo): Value
  {
    Obj(map["name" := Str(info.name)] + (if info.version.Some? then map["version" := Str(info.version.value)] else map[]))
  }

  /** The record after `initialize`: capabilities always, every other field only when truthy. */
  function Initialized(c: map<Key, Setting>, p: InitializeParams): (r: map<Key, Setting>)
    requires HasClientKeys(c)
    ensures r.Keys == c.Keys
    ensures r[CapabilitiesKey] == Capabilities(p.capabilities)
    ensures r[InfoKey] == if p.clientInfo.Some? then Data(InfoValue(p.clientInfo.value)) else c[InfoKey]
    ensures r[LocaleKey] == if p.locale.Some? && p.locale.value != "" then Data(Str(p.locale.value)) else c[LocaleKey]
    ensures r[ProcessIdKey] == if p.processId.Some? && p.processId.value != 0 then Data(Num(p.processId.value)) else c[ProcessIdKey]
    ensures r[TraceKey] == if p.trace.Some? && p.trace.value != "" then Data(Str(p.trace.value)) else c[TraceKey]
    ensures r[FoldersKey] == if p.workspaceFolders.Some? then Folders(p.workspaceFolders.value) else c[FoldersKey]
    ensures forall k :: k in c && k.ServerKey? ==> r[k] == c[k]
  {
    WithFolders(WithTrace(WithProcessId(WithLocale(WithInfo(c[CapabilitiesKey := Capabilities(p.capabilities)], p), p), p), p), p)
  }

  function WithInfo(c: map<Key, Setting>, p: InitializeParams): map<Key, Setting>
  {
    if p.clientInfo.Some? then c[InfoKey := Data(InfoValue(p.clientInfo.value))] else c
  }

  function WithLocale(c: map<Key, Setting>, p: InitializeParams): map<Key, Setting>
  {
    if p.locale.Some? && p.locale.value != "" then c[LocaleKey := Data(Str(p.locale.value))] else c
  }

  function WithProcessId(c: map<Key, Setting>, p: InitializeParams): map<Key, Setting>
  {
    if p.processId.Some? && p.processId.value != 0 then c[ProcessIdKey := Data(Num(p.processId.value))] else c
  }

  function WithTrace(c: map<Key, Setting>, p: InitializeParams): map<Key, Setting>
  {
    if p.trace.Some? && p.trace.value != "" then c[TraceKey := Data(Str(p.trace.value))] else c
  }

  function WithFolders(c: map<Key, Setting>, p: InitializeParams): map<Key, Setting>
  {
    if p.workspaceFolders.Some? then c[FoldersKey := Folders(p.workspaceFolders.value)] else c
  }

  /** The server capabilities `onInitialize` answers: workspace folders supported, with change notifications. */
  function InitializeCapabilities(): (caps: map<string, Value>)
    ensures caps.Keys == {"workspace"}
    ensures caps["workspace"] == Obj(map["workspaceFolders" := Obj(map["supported" := Bool(true), "changeNotifications" := Bool(true)])])
  {
    map["workspace" := Obj(map["workspaceFolders" := Obj(map["supported" := Bool(true), "changeNotifications" := Bool(true)])])]
  }

  /** Writing the entries of a settings object in order, each under its server key. */
  function WriteAll(c: map<Key, Setting>, entries: seq<(string, Value)>): (w: map<Key, Setting>)
    ensures c.Keys <= w.Keys
  {
    if entries == [] then c
    else WriteAll(c, entries[..|entries| - 1])[ServerKey(entries[|entries| - 1].0) := Data(entries[|entries| - 1].1)]
  }

  /** Whether a folder is among the removed ones; the name test compares a removed folder's name with itself. */
  predicate IsRemoved(f: WorkspaceFolder, removed: seq<WorkspaceFolder>)
  {
    exists r :: r in removed && r.uri == f.uri && r.name == r.name
  }

  /** The folders that survive a removal, in their order. */
  function Surviving(folders: seq<WorkspaceFolder>, removed: seq<WorkspaceFolder>): (s: seq<WorkspaceFolder>)
    ensures |s| <= |folders|
    ensures forall f :: f in s <==> f in folders && !IsRemoved(f, removed)
  {
    if folders == [] then []
    else
      var last := folders[|folders| - 1];
      Surviving(folders[..|folders| - 1], removed) + (if IsRemoved(last, removed) then [] else [last])
  }

  /** A `onDidChangeConfiguration` handler, by identity. */
  datatype ChangeHandler = ChangeHandler(id: nat)

  datatype Subscription =
    | ConfigurationChangeListener
    | ConfigurationChangeRegistration(section: string)
    | WorkspaceFoldersListener

  /** The answer of `get`: still waiting for the first fetch, or the stored setting (`None` for an unknown key). */
  datatype Answer = Waiting | Answer(setting: Option<Setting>)

  predicate IsClientKey(k: Key)
  {
    !k.ServerKey?
  }

  class ConfigurationStore {
    var configuration: map<Key, Setting>
    /** Whether the initial fetch has settled (`fetching` is resolved). */
    var settled: bool
    /** Whether the settings have been requested from the client. */
    var fetchRequested: bool
    var onDidChangeConfigurationHandlers: seq<ChangeHandler>
    var disposables: seq<Subscription>

    /** The client keys always hold the capabilities and the folders. */
    ghost predicate Valid()
      reads this
    {
      && HasClientKeys(configuration)
      && configuration[CapabilitiesKey].Capabilities?
      && configuration[FoldersKey].Folders?
    }

    constructor()
      ensures Valid()
      ensures configuration == Defaults() && !settled && !fetchRequested
      ensures onDidChangeConfigurationHandlers == [] && disposables == []
    {
      configuration := Defaults();
      settled := false;
      fetchRequested := false;
      onDidChangeConfigurationHandlers := [];
      disposables := [];
    }

    method OnInitialize(p: InitializeParams) returns (caps: map<string, Value>)
      requires Valid()
      modifies this
      ensures Valid()
      ensures configuration == Initialized(old(configuration), p)
      ensures caps == InitializeCapabilities()
      ensures settled == old(settled) && fetchRequested == old(fetchRequested)
      ensures onDidChangeConfigurationHandlers == old(onDidChangeConfigurationHandlers) && disposables == old(disposables)
    {
      var c := configuration[CapabilitiesKey := Capabilities(p.capabilities)];
      if p.clientInfo.Some? {
        c := c[InfoKey := Data(InfoValue(p.clientInfo.value))];
      }
      if p.locale.Some? && p.locale.value != "" {
        c := c[LocaleKey := Data(Str(p.locale.value))];
      }
      if p.processId.Some? && p.processId.value != 0 {
        c := c[ProcessIdKey := Data(Num(p.processId.value))];
      }
      if p.trace.Some? && p.trace.value != "" {
        c := c[TraceKey := Data(Str(p.trace.value))];
      }
      if p.workspaceFolders.Some? {
        c := c[FoldersKey := Folders(p.workspaceFolders.value)];
      }
      configuration := c;
      caps := InitializeCapabilities();
    }

    /**
     * `onInitialized`, reading the stored client capabilities: request the settings,
     * listen and register for configuration changes, listen for folder changes.
     */
    method OnInitialized(provided: seq<ChangeHandler>)
      requires Valid()
      modifies this
      ensures Valid()
      ensures configuration == old(configuration) && settled == old(settled)
      ensures var caps := configuration[CapabilitiesKey].caps;
        && fetchRequested == (old(fetchRequested) || caps.workspaceConfiguration)
        && onDidChangeConfigurationHandlers ==
          (if caps.didChangeConfigurationDynamicRegistration then provided else old(onDidChangeConfigurationHandlers))
        && disposables == old(disposables)
          + (if caps.didChangeConfigurationDynamicRegistration
             then [ConfigurationChangeListener, ConfigurationChangeRegistration(Section)] else [])
          + (if caps.workspaceFolders then [WorkspaceFoldersListener] else [])
    {
      var caps := configuration[CapabilitiesKey].caps;
      if caps.workspaceConfiguration {
        fetchRequested := true;
      }
      if caps.didChangeConfigurationDynamicRegistration {
        onDidChangeConfigurationHandlers := provided;
        disposables := disposables + [ConfigurationChangeListener, ConfigurationChangeRegistration(Section)];
      }
      if caps.workspaceFolders {
        disposables := disposables + [WorkspaceFoldersListener];
      }
    }

    /** Writes each entry of a settings object under its server key, in order. */
    method WriteSettings(entries: seq<(string, Value)>)
      requires Valid()
      modifies this
      ensures Valid()
      ensures configuration == WriteAll(old(configuration), entries)
      ensures settled == old(settled) && fetchRequested == old(fetchRequested)
      ensures onDidChangeConfigurationHandlers == old(onDidChangeConfigurationHandlers) && disposables == old(disposables)
    {
      var i := 0;
      while i < |entries|
        invariant 0 <= i <= |entries|
        invariant configuration == WriteAll(old(configuration), entries[..i])
        invariant settled == old(settled) && fetchRequested == old(fetchRequested)
        invariant onDidChangeConfigurationHandlers == old(onDidChangeConfigurationHandlers) && disposables == old(disposables)
      {
        assert entries[..i + 1][..i] == entries[..i];
        configuration := configuration[ServerKey(entries[i].0) := Data(entries[i].1)];
        i := i + 1;
      }
      assert entries[..i] == entries;
      WriteAllKeepsClientKeys(old(configuration), entries);
    }

    /** The requested settings arrived: they are written and `get` stops waiting. */
    method CompleteFetch(entries: seq<(string, Value)>)
      requires Valid() && fetchRequested
      modifies this
      ensures Valid()
      ensures configuration == WriteAll(old(configuration), entries) && settled
      ensures fetchRequested == old(fetchRequested)
      ensures onDidChangeConfigurationHandlers == old(onDidChangeConfigurationHandlers) && disposables == old(disposables)
    {
      WriteSettings(entries);
      settled := true;
    }

    /**
     * `onDidChangeConfiguration`: the entries of the `regex-radar` section are written,
     * then the registered handlers are called in order with the record. `forEach` stops at
     * the first handler that throws (`throws`), and the returned promise rejects. A missing
     * section throws before anything changes.
     */
    method OnDidChangeConfiguration(section: Option<seq<(string, Value)>>, throws: ChangeHandler -> bool)
      returns (calls: seq<(ChangeHandler, map<Key, Setting>)>, rejected: bool)
      requires Valid()
      modifies this
      ensures Valid()
      ensures section.None? ==> configuration == old(configuration) && calls == [] && rejected
      ensures section.Some? ==> configuration == WriteAll(old(configuration), section.value)
      ensures section.Some? ==> rejected == exists j :: 0 <= j < |onDidChangeConfigurationHandlers| && throws(onDidChangeConfigurationHandlers[j])
      ensures |calls| <= |onDidChangeConfigurationHandlers|
      ensures forall i :: 0 <= i < |calls| ==> calls[i] == (onDidChangeConfigurationHandlers[i], configuration)
      ensures section.Some? && !rejected ==> |calls| == |onDidChangeConfigurationHandlers|
      ensures section.Some? && rejected ==> |calls| > 0 && throws(calls[|calls| - 1].0)
      ensures forall i :: 0 <= i < |calls| - 1 ==> !throws(calls[i].0)
      ensures settled == old(settled) && onDidChangeConfigurationHandlers == old(onDidChangeConfigurationHandlers)
      ensures fetchRequested == old(fetchRequested) && disposables == old(disposables)
    {
      if section.None? {
        return [], true;
      }
      WriteSettings(section.value);
      calls := [];
      rejected := false;
      var i := 0;
      while i < |onDidChangeConfigurationHandlers| && !rejected
        invariant 0 <= i <= |onDidChangeConfigurationHandlers|
        invariant |calls| == i
        invariant forall j :: 0 <= j < i ==> calls[j] == (onDidChangeConfigurationHandlers[j], configuration)
        invariant rejected ==> i > 0 && throws(onDidChangeConfigurationHandlers[i - 1])
        invariant forall j :: 0 <= j < (if rejected then i - 1 else i) ==> !throws(onDidChangeConfigurationHandlers[j])
      {
        calls := calls + [(onDidChangeConfigurationHandlers[i], configuration)];
        if throws(onDidChangeConfigurationHandlers[i]) {
          rejected := true;
        }
        i := i + 1;
      }
    }

    /** `onDidChangeWorkspaceFolders`: keep the folders no removed folder matches by uri, then append the added ones. */
    method OnDidChangeWorkspaceFolders(added: seq<WorkspaceFolder>, removed: seq<WorkspaceFolder>)
      requires Valid()
      modifies this
      ensures Valid()
      ensures configuration == old(configuration)[FoldersKey := Folders(Surviving(old(configuration)[FoldersKey].folders, removed) + added)]
      ensures settled == old(settled) && fetchRequested == old(fetchRequested)
      ensures onDidChangeConfigurationHandlers == old(onDidChangeConfigurationHandlers) && disposables == old(disposables)
    {
      var current := configuration[FoldersKey].folders;
      var updated := [];
      var i := 0;
      while i < |current|
        invariant 0 <= i <= |current|
        invariant updated == Surviving(current[..i], removed)
      {
        assert current[..i + 1][..i] == current[..i];
        if !IsRemoved(current[i], removed) {
          updated := updated + [current[i]];
        }
        i := i + 1;
      }
      assert current[..i] == current;
      updated := updated + added;
      configuration := configuration[FoldersKey := Folders(updated)];
    }

    /** `get`: waits until the first fetch has settled, then answers the stored setting. */
    method Get(key: Key) returns (a: Answer)
      ensures !settled ==> a == Waiting
      ensures settled && key in configuration ==> a == Answer(Some(configuration[key]))
      ensures settled && key !in configuration ==> a == Answer(None)
    {
      if !settled {
        return Waiting;
      }
      a := Answer(if key in configuration then Some(configuration[key]) else None);
    }
  }

  // ---------------------------------------------------------------------------
  // Properties of the store

  /** Writing server settings never touches a client key. */
  lemma {:induction false} WriteAllKeepsClientKeys(c: map<Key, Setting>, entries: seq<(string, Value)>)
    ensures forall k :: IsClientKey(k) && k in c ==> k in WriteAll(c, entries) && WriteAll(c, entries)[k] == c[k]
  {
    if entries != [] {
      WriteAllKeepsClientKeys(c, entries[..|entries| - 1]);
    }
  }

  /** A written setting is stored under its server key, unless a later entry writes the same key. */
  lemma {:induction false} WriteAllStores(c: map<Key, Setting>, entries: seq<(string, Value)>, i: nat)
    requires i < |entries|
    requires forall j :: i < j < |entries| ==> entries[j].0 != entries[i].0
    ensures ServerKey(entries[i].0) in WriteAll(c, entries)
    ensures WriteAll(c, entries)[ServerKey(entries[i].0)] == Data(entries[i].1)
  {
    var n := |entries| - 1;
    if i < n {
      WriteAllStores(c, entries[..n], i);
    }
  }

  /** A key that is no entry's server key keeps its value. */
  lemma {:induction false} WriteAllLeavesOtherKeys(c: map<Key, Setting>, entries: seq<(string, Value)>, k: Key)
    requires forall j :: 0 <= j < |entries| ==> ServerKey(entries[j].0) != k
    ensures k in WriteAll(c, entries) <==> k in c
    ensures k in c ==> WriteAll(c, entries)[k] == c[k]
  {
    if entries != [] {
      WriteAllLeavesOtherKeys(c, entries[..|entries| - 1], k);
    }
  }

  /** Removal is by uri alone: a folder with a removed folder's uri goes, whatever its name. */
  lemma FolderRemovalIgnoresName(folders: seq<WorkspaceFolder>, removed: WorkspaceFolder, f: WorkspaceFolder)
    requires f in folders && f.uri == removed.uri && f.name != removed.name
    ensures f !in Surviving(folders, [removed])
  {
    assert removed in [removed];
  }

  /** With nothing removed every folder survives, in its order. */
  lemma {:induction false} NothingRemoved(folders: seq<WorkspaceFolder>)
    ensures Surviving(folders, []) == folders
  {
    if folders != [] {
      NothingRemoved(folders[..|folders| - 1]);
      assert folders == folders[..|folders| - 1] + [folders[|folders| - 1]];
    }
  }

  /** A process id of 0 is falsy, so it leaves the stored process id as it was. */
  lemma ZeroProcessIdIgnored(c: map<Key, Setting>, p: InitializeParams)
    requires HasClientKeys(c) && p.processId == Some(0)
    ensures Initialized(c, p)[ProcessIdKey] == c[ProcessIdKey]
  {
  }

  /** Without the client's workspace-configuration capability no fetch is requested, so `get` keeps waiting. */
  method NoConfigurationSupportKeepsWaiting(p: InitializeParams, key: Key) returns (a: Answer)
    requires !p.capabilities.workspaceConfiguration
    ensures a == Waiting
  {
    var store := new ConfigurationStore();
    var _ := store.OnInitialize(p);
    store.OnInitialized([]);
    a := store.Get(key);
  }

  /** Removal keeps the folders' order: the survivors of a concatenation are the concatenated survivors. */
  lemma {:induction false} SurvivingAppend(a: seq<WorkspaceFolder>, b: seq<WorkspaceFolder>, removed: seq<WorkspaceFolder>)
    ensures Surviving(a + b, removed) == Surviving(a, removed) + Surviving(b, removed)
    decreases |b|
  {
    if b == [] {
      assert a + b == a;
    } else {
      var last := b[|b| - 1];
      var tail := if IsRemoved(last, removed) then [] else [last];
      assert (a + b)[..|a + b| - 1] == a + b[..|b| - 1];
      assert (a + b)[|a + b| - 1] == last;
      calc {
        Surviving(a + b, removed);
        Surviving(a + b[..|b| - 1], removed) + tail;
        { SurvivingAppend(a, b[..|b| - 1], removed); }
        (Surviving(a, removed) + Surviving(b[..|b| - 1], removed)) + tail;
        Surviving(a, removed) + (Surviving(b[..|b| - 1], removed) + tail);
        Surviving(a, removed) + Surviving(b, removed);
      }
    }
  }

  /** One folder survives exactly when no removed folder has its uri. */
  lemma SurvivingSingle(f: WorkspaceFolder, removed: seq<WorkspaceFolder>)
    ensures Surviving([f], removed) == (if IsRemoved(f, removed) then [] else [f])
  {
    assert [f][..0] == [];
  }
}
