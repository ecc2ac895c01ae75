/** The files of one agent's instance directory as values, and what the supervisor's file operations
    are meant to make of them. */
module InstanceFiles {
  import opened Wrappers
  import opened Instance
  import EnvFile
  import M = Management
  import T = Text

  /** The entry names the supervisor knows, and all others. */
  datatype Name =
    | InstanceJson | HermesEnv | DashboardEnv | RuntimeEnv | ControlToken | HermesData
    | SoulMd | ConfigYaml | Memories | Temporary | Other(text: string)

  /** A parsed `instance.json`, or any other content. */
  datatype Content = Text(text: string) | Record(metadata: Metadata)

  datatype Node = Dir(children: map<Name, Node>) | File(content: Content) | Link(target: string) | Special

  type Directory = map<Name, Node>

  function At(dir: Directory, n: Name): Option<Node> {
    if n in dir then Some(dir[n]) else None
  }

  /** Puts a node under a name, or removes the name. */
  function With(dir: Directory, n: Name, node: Option<Node>): Directory {
    if node.Some? then dir[n := node.value] else dir - {n}
  }

  function Data(dir: Directory): Directory {
    if HermesData in dir && dir[HermesData].Dir? then dir[HermesData].children else map[]
  }

  predicate HasData(dir: Directory) {
    HermesData in dir && dir[HermesData].Dir?
  }

  function MetadataOf(dir: Directory): Option<Metadata> {
    match At(dir, InstanceJson)
    case Some(File(Record(metadata))) => Some(metadata)
    case _ => None
  }

  function TextAt(dir: Directory, n: Name): Option<string> {
    match At(dir, n)
    case Some(File(Text(text))) => Some(text)
    case _ => None
  }

  // ---------------------------------------------------------------- the five configuration files

  predicate InData(n: Name) {
    n.SoulMd? || n.ConfigYaml? || n.Temporary?
  }

  /** A file of the instance: SOUL.md and config.yaml lie in hermes-data. */
  function ActiveAt(dir: Directory, n: Name): Option<Node> {
    At(if InData(n) then Data(dir) else dir, n)
  }

  /** SOUL.md and config.yaml lie in hermes-data, and the other files beside it. */
  lemma LiesWhere(dir: Directory)
    ensures ActiveAt(dir, SoulMd) == At(Data(dir), SoulMd) && ActiveAt(dir, ConfigYaml) == At(Data(dir), ConfigYaml)
    ensures forall n | n in {HermesEnv, DashboardEnv, RuntimeEnv, ControlToken, InstanceJson} ::
              ActiveAt(dir, n) == At(dir, n)
  {
  }

  predicate CanPut(dir: Directory, n: Name) {
    InData(n) ==> HasData(dir)
  }

  function PutActive(dir: Directory, n: Name, node: Option<Node>): Directory
    requires CanPut(dir, n)
  {
    if InData(n) then dir[HermesData := Dir(With(Data(dir), n, node))] else With(dir, n, node)
  }

  /** The files of a configuration, in the order they are copied. */
  const FIVE: seq<Name> := [HermesEnv, DashboardEnv, RuntimeEnv, SoulMd, ControlToken]

  predicate InFive(n: Name) {
    n.HermesEnv? || n.DashboardEnv? || n.RuntimeEnv? || n.SoulMd? || n.ControlToken?
  }

  datatype FiveNodes = FiveNodes(hermesEnv: Option<Node>, dashboardEnv: Option<Node>, runtimeEnv: Option<Node>,
                       soul: Option<Node>, controlToken: Option<Node>)

  function FiveOf(dir: Directory): FiveNodes {
    FiveNodes(ActiveAt(dir, HermesEnv), ActiveAt(dir, DashboardEnv), ActiveAt(dir, RuntimeEnv),
         ActiveAt(dir, SoulMd), ActiveAt(dir, ControlToken))
  }

  /** The same five in a staging or history directory, where all lie side by side. */
  function FlatFiveOf(dir: Directory): FiveNodes {
    FiveNodes(At(dir, HermesEnv), At(dir, DashboardEnv), At(dir, RuntimeEnv), At(dir, SoulMd), At(dir, ControlToken))
  }

  function FiveFiles(five: M.Five): FiveNodes {
    FiveNodes(Some(File(Text(five.hermesEnv))), Some(File(Text(five.dashboardEnv))), Some(File(Text(five.runtimeEnv))),
         Some(File(Text(five.soul))), Some(File(Text(five.controlToken))))
  }

  lemma RecordKeepsFive(before: Directory, after: Directory)
    requires OnlyActive(before, after, InstanceJson)
    ensures FiveOf(after) == FiveOf(before)
  {
  }

  function EntryOf(five: FiveNodes, n: Name): Option<Node>
    requires InFive(n)
  {
    match n
    case HermesEnv => five.hermesEnv
    case DashboardEnv => five.dashboardEnv
    case RuntimeEnv => five.runtimeEnv
    case SoulMd => five.soul
    case _ => five.controlToken
  }

  /** The five with one of them replaced or removed. */
  function WithEntry(five: FiveNodes, n: Name, node: Option<Node>): FiveNodes
    requires InFive(n)
  {
    match n
    case HermesEnv => five.(hermesEnv := node)
    case DashboardEnv => five.(dashboardEnv := node)
    case RuntimeEnv => five.(runtimeEnv := node)
    case SoulMd => five.(soul := node)
    case _ => five.(controlToken := node)
  }

  lemma EntryIs(dir: Directory, n: Name)
    requires InFive(n)
    ensures EntryOf(FiveOf(dir), n) == ActiveAt(dir, n) && EntryOf(FlatFiveOf(dir), n) == At(dir, n)
  {
  }

  lemma FlatAfter(dir: Directory, n: Name, node: Node)
    requires InFive(n)
    ensures FlatFiveOf(dir[n := node]) == WithEntry(FlatFiveOf(dir), n, Some(node))
  {
  }

  lemma FiveAfter(before: Directory, after: Directory, n: Name)
    requires InFive(n) && OnlyActive(before, after, n)
    ensures FiveOf(after) == WithEntry(FiveOf(before), n, ActiveAt(after, n))
  {
    if n != HermesEnv { KeptActive(before, after, n, HermesEnv); }
    if n != DashboardEnv { KeptActive(before, after, n, DashboardEnv); }
    if n != RuntimeEnv { KeptActive(before, after, n, RuntimeEnv); }
    if n != SoulMd { KeptActive(before, after, n, SoulMd); }
    if n != ControlToken { KeptActive(before, after, n, ControlToken); }
  }

  lemma KeptActive(before: Directory, after: Directory, n: Name, m: Name)
    requires OnlyActive(before, after, n) && m != n && m != HermesData && m != Temporary
    ensures ActiveAt(after, m) == ActiveAt(before, m)
  {
  }

  predicate AllFiles(five: FiveNodes) {
    && five.hermesEnv.Some? && five.hermesEnv.value.File? && five.dashboardEnv.Some? && five.dashboardEnv.value.File?
    && five.runtimeEnv.Some? && five.runtimeEnv.value.File? && five.soul.Some? && five.soul.value.File?
    && five.controlToken.Some? && five.controlToken.value.File?
  }

  lemma PutActiveAt(dir: Directory, n: Name, node: Option<Node>)
    requires CanPut(dir, n) && n != HermesData
    ensures ActiveAt(PutActive(dir, n, node), n) == node
    ensures OnlyActive(dir, PutActive(dir, n, node), n)
  {
  }

  /** Nothing but the file `n`, and temporaries in hermes-data, may differ. */
  ghost predicate OnlyActive(before: Directory, after: Directory, n: Name) {
    && (HasData(before) <==> HasData(after))
    && (forall m | m != HermesData && (InData(n) || m != n) :: At(after, m) == At(before, m))
    && (forall m | m != Temporary && (!InData(n) || m != n) :: At(Data(after), m) == At(Data(before), m))
    && (!InData(n) ==> At(after, HermesData) == At(before, HermesData))
  }

  // ---------------------------------------------------------------- what steps leave alone

  predicate Same(before: Directory, after: Directory, n: Name) {
    At(after, n) == At(before, n)
  }

  /** Nothing but the five files and the record may differ, and hermes-data and its `memories` may come. */
  ghost predicate OnlyConfiguration(before: Directory, after: Directory) {
    && (HasData(before) ==> HasData(after))
    && (forall n {:trigger Same(before, after, n)} | n != HermesData && n != InstanceJson && !InFive(n) ::
        Same(before, after, n))
    && (forall n {:trigger Same(Data(before), Data(after), n)} | n != SoulMd && n != Temporary && n != Memories ::
          Same(Data(before), Data(after), n))
    && (Memories in Data(before) ==> Same(Data(before), Data(after), Memories))
  }

  /** Everything is kept, but hermes-data and its `memories` may come. */
  ghost predicate OnlyMemories(before: Directory, after: Directory) {
    && (HasData(before) ==> HasData(after))
    && (forall m | m != HermesData :: At(after, m) == At(before, m))
    && (forall m | m != Memories || Memories in Data(before) :: At(Data(after), m) == At(Data(before), m))
  }

  /** Everything but the dashboard and runtime files is kept. */
  ghost predicate OnlyEnv(before: Directory, after: Directory) {
    forall m | m != DashboardEnv && m != RuntimeEnv :: At(after, m) == At(before, m)
  }

  /** Nothing but the dashboard and runtime files may differ, and hermes-data and its `memories` may come. */
  ghost predicate OnlyStarted(before: Directory, after: Directory) {
    && (HasData(before) ==> HasData(after))
    && (forall n {:trigger Same(before, after, n)} | n != HermesData && n != DashboardEnv && n != RuntimeEnv ::
        Same(before, after, n))
    && (forall n {:trigger Same(Data(before), Data(after), n)} | n != Memories || Memories in Data(before) ::
          Same(Data(before), Data(after), n))
  }

  lemma OnlyStartedIn(before: Directory, after: Directory)
    requires OnlyStarted(before, after)
    ensures OnlyConfiguration(before, after) && OnlySaved(before, after)
  {
  }

  lemma OnlyConfigurationThrough(before: Directory, between: Directory, after: Directory)
    requires OnlyConfiguration(before, between) && OnlyConfiguration(between, after)
    ensures OnlyConfiguration(before, after)
  {
    forall n {:trigger Same(before, after, n)} | n != HermesData && n != InstanceJson && !InFive(n)
      ensures Same(before, after, n)
    {
      assert Same(before, between, n) && Same(between, after, n);
    }
    forall n {:trigger Same(Data(before), Data(after), n)} | n != SoulMd && n != Temporary && n != Memories
      ensures Same(Data(before), Data(after), n)
    {
      assert Same(Data(before), Data(between), n) && Same(Data(between), Data(after), n);
    }
  }

  lemma OnlyFiveIn(start: Directory, before: Directory, after: Directory, n: Name)
    requires OnlyConfiguration(start, before) && OnlyActive(before, after, n) && InFive(n)
    ensures OnlyConfiguration(start, after)
  {
    OneFileIn(before, after, n);
    OnlyConfigurationThrough(start, before, after);
  }

  lemma OneFileIn(before: Directory, after: Directory, n: Name)
    requires OnlyActive(before, after, n) && InFive(n)
    ensures OnlyConfiguration(before, after)
  {
  }

  lemma OnlyRecordIn(before: Directory, after: Directory)
    requires OnlyActive(before, after, InstanceJson)
    ensures OnlyConfiguration(before, after)
  {
  }

  lemma MemoriesKeepFive(before: Directory, after: Directory)
    requires OnlyMemories(before, after)
    ensures FiveOf(after) == FiveOf(before)
  {
  }

  lemma EnvThenMemories(before: Directory, between: Directory, after: Directory)
    requires OnlyEnv(before, between) && OnlyMemories(between, after)
    ensures OnlyStarted(before, after) && At(after, InstanceJson) == At(before, InstanceJson)
  {
    assert HasData(between) == HasData(before) && Data(between) == Data(before) by {
      assert At(between, HermesData) == At(before, HermesData);
    }
  }

  /** The directory of a staged revision after the writing of its six files. */
  function StagedDirectory(directory: Directory, five: M.Five, revision: string): Directory {
    directory[HermesEnv := File(Text(five.hermesEnv))][DashboardEnv := File(Text(five.dashboardEnv))]
             [RuntimeEnv := File(Text(five.runtimeEnv))][SoulMd := File(Text(five.soul))]
             [ControlToken := File(Text(five.controlToken))][Other("stage.json") := File(Text(revision))]
  }

  lemma StagedHolds(directory: Directory, five: M.Five, revision: string)
    ensures FlatFiveOf(StagedDirectory(directory, five, revision)) == FiveFiles(five)
  {
  }

  // ---------------------------------------------------------------- runs of configuration commands

  datatype ConfigStep = Stage(command: M.ConfigCommand) | Apply(command: M.ConfigCommand)

  /** The revision an instance names and the contents of its five files. */
  datatype Configured = Configured(revision: Option<string>, five: FiveNodes)

  /** What successful applies make of it: each puts its own revision and its own five files. */
  function Replay(start: Configured, steps: seq<ConfigStep>, succeeded: seq<bool>, names: Names, platformUrl: string,
                  digests: M.Digests): Configured
    requires |steps| == |succeeded|
  {
    if steps == [] then start
    else
      var k := |steps| - 1;
      var before := Replay(start, steps[..k], succeeded[..k], names, platformUrl, digests);
      var files := M.ConfigurationFiles(steps[k].command, names, platformUrl, digests);
      if succeeded[k] && steps[k].Apply? && files.Ok? then Configured(steps[k].command.revisionId,
          FiveFiles(files.value))
      else before
  }

  // ---------------------------------------------------------------- backup and restore

  /** What a backup saves of an instance and a restore puts back. */
  datatype Saved = Saved(data: Option<Node>, hermesEnv: Option<Node>, dashboardEnv: Option<Node>,
      runtimeEnv: Option<Node>)

  function SavedOf(dir: Directory): Saved {
    Saved(At(dir, HermesData), At(dir, HermesEnv), At(dir, DashboardEnv), At(dir, RuntimeEnv))
  }

  function Place(dir: Directory, saved: Saved): Directory {
    With(With(With(With(dir, HermesData, saved.data), HermesEnv, saved.hermesEnv), DashboardEnv, saved.dashboardEnv),
         RuntimeEnv, saved.runtimeEnv)
  }

  /** Nothing but the saved entries may differ. */
  ghost predicate OnlySaved(before: Directory, after: Directory) {
    forall n {:trigger Same(before, after, n)} | n !in {HermesData, HermesEnv, DashboardEnv, RuntimeEnv} ::
        Same(before, after, n)
  }

  lemma OnlySavedThrough(before: Directory, between: Directory, after: Directory)
    requires OnlySaved(before, between) && OnlySaved(between, after)
    ensures OnlySaved(before, after) && At(after, InstanceJson) == At(before, InstanceJson)
  {
    forall n {:trigger Same(before, after, n)} | n !in {HermesData, HermesEnv, DashboardEnv, RuntimeEnv}
      ensures Same(before, after, n)
    {
      assert Same(before, between, n) && Same(between, after, n);
    }
    assert Same(before, after, InstanceJson);
  }

  lemma OnlyActiveIn(before: Directory, after: Directory, n: Name)
    requires OnlyActive(before, after, n) && n in {HermesEnv, DashboardEnv, RuntimeEnv}
    ensures OnlySaved(before, after)
  {
  }

  lemma WithIn(before: Directory, n: Name, node: Option<Node>)
    requires n in {HermesData, HermesEnv, DashboardEnv, RuntimeEnv}
    ensures OnlySaved(before, With(before, n, node))
  {
  }

  lemma PlaceSaved(dir: Directory, saved: Saved)
    ensures SavedOf(Place(dir, saved)) == saved
    ensures OnlySaved(dir, Place(dir, saved)) && At(Place(dir, saved), InstanceJson) == At(dir, InstanceJson)
  {
  }

  predicate SafeNode(node: Node) {
    match node
    case Dir(children) => forall n | n in children :: SafeNode(children[n])
    case File(_) => true
    case _ => false
  }

  /** The node that a path of names leads to, links not followed. */
  function NodeAt(node: Node, path: seq<Name>): Option<Node>
    decreases |path|
  {
    if path == [] then Some(node)
    else if node.Dir? && path[0] in node.children then NodeAt(node.children[path[0]], path[1..])
    else None
  }

  predicate PlainAt(node: Node, path: seq<Name>) {
    NodeAt(node, path).Some? ==> NodeAt(node, path).value.Dir? || NodeAt(node, path).value.File?
  }

  /** No path leads to a link or a special file. */
  ghost predicate PlainTree(node: Node) {
    forall path :: PlainAt(node, path)
  }

  /** The recursive check accepts just the trees of directories and files. */
  lemma {:induction false} SafeExactly(node: Node)
    ensures SafeNode(node) <==> PlainTree(node)
    decreases node
  {
    if SafeNode(node) {
      forall path ensures PlainAt(node, path) {
        SafePath(node, path);
      }
    } else if node.Dir? {
      var n :| n in node.children && !SafeNode(node.children[n]);
      SafeExactly(node.children[n]);
      var path :| !PlainAt(node.children[n], path);
      assert ([n] + path)[1..] == path;
      assert !PlainAt(node, [n] + path);
    } else {
      assert !PlainAt(node, []);
    }
  }

  lemma {:induction false} SafePath(node: Node, path: seq<Name>)
    requires SafeNode(node)
    ensures PlainAt(node, path)
    decreases |path|
  {
    if path != [] && node.Dir? && path[0] in node.children {
      SafePath(node.children[path[0]], path[1..]);
    }
  }

  /** Entries that an archive may have. */
  ghost predicate PlainEntries(archive: Directory) {
    forall n | n in archive :: PlainTree(archive[n])
  }

  lemma SafeEntries(archive: Directory)
    ensures (forall n | n in archive :: SafeNode(archive[n])) <==> PlainEntries(archive)
  {
    forall n | n in archive ensures SafeNode(archive[n]) <==> PlainTree(archive[n]) {
      SafeExactly(archive[n]);
    }
  }

  const ARCHIVED := {HermesData, InstanceJson, HermesEnv, DashboardEnv, RuntimeEnv}

  /** The archive of an instance: the five entries tar is asked for, all of which must exist. */
  function BackupSet(dir: Directory): Option<Directory> {
    if ARCHIVED <= dir.Keys then Some(map n | n in ARCHIVED :: dir[n]) else None
  }

  lemma BackupSetSaves(dir: Directory)
    requires BackupSet(dir).Some?
    ensures SavedOf(BackupSet(dir).value) == SavedOf(dir)
    ensures At(BackupSet(dir).value, InstanceJson) == At(dir, InstanceJson)
  {
  }

  // ---------------------------------------------------------------- copying hermes-data

  function NameText(n: Name): string {
    match n
    case InstanceJson => "instance.json"
    case HermesEnv => "hermes.env"
    case DashboardEnv => "dashboard.env"
    case RuntimeEnv => "runtime.env"
    case ControlToken => "agent-control.token"
    case HermesData => "hermes-data"
    case SoulMd => "SOUL.md"
    case ConfigYaml => "config.yaml"
    case Memories => "memories"
    case Temporary => "temporary"
    case Other(text) => text
  }

  predicate Absolute(target: string) {
    target != "" && target[0] == '/'
  }

  /** `path.resolve` of a relative target in a directory. */
  function Resolve(dir: seq<string>, target: string): string {
    "/" + T.Join(Walk(dir, T.Split(target, "/")), "/")
  }

  function Walk(at: seq<string>, segments: seq<string>): seq<string>
    decreases |segments|
  {
    if segments == [] then at else Walk(Go(at, segments[0]), segments[1..])
  }

  function Go(at: seq<string>, segment: string): seq<string> {
    if segment == "" || segment == "." then at
    else if segment == ".." then (if at == [] then [] else T.Init(at))
    else at + [segment]
  }

  predicate PlainName(segment: string) {
    segment != "" && segment != "." && segment != ".."
  }

  /** Each segment is taken from where the ones before it lead: a name goes down, two dots go up, and an
      empty segment or a dot stays. */
  lemma {:induction false} WalkNext(at: seq<string>, segments: seq<string>, last: string)
    ensures var before := Walk(at, segments);
      Walk(at, segments + [last]) ==
        if PlainName(last) then before + [last]
        else if last == ".." && before != [] then before[..|before| - 1]
        else before
    decreases |segments|
  {
    if segments == [] {
      assert [last][1..] == [];
    } else {
      assert (segments + [last])[0] == segments[0] && (segments + [last])[1..] == segments[1..] + [last];
      WalkNext(Go(at, segments[0]), segments[1..], last);
    }
  }

  /** Where a link of hermes-data leads, its copy leads too, by an absolute path without dots. */
  lemma CopiedLink(dir: seq<string>, target: string, name: string)
    ensures Absolute(target) ==> Copied(Link(target), dir, name) == Link(target)
    ensures !Absolute(target) ==>
            Copied(Link(target), dir, name) == Link("/" + T.Join(Walk(dir, T.Split(target, "/")), "/"))
  {
  }

  /** `fs.cpSync` with `recursive` alone, of an entry of a directory: links are copied as links, but a
      relative target is resolved where the link lies. */
  function Copied(node: Node, dir: seq<string>, name: string): Node {
    match node
    case Link(target) => Link(if Absolute(target) then target else Resolve(dir, target))
    case Dir(children) => Dir(map n | n in children :: Copied(children[n], dir + [name], NameText(n)))
    case _ => node
  }

  predicate AbsoluteLinks(node: Node) {
    match node
    case Link(target) => Absolute(target)
    case Dir(children) => forall n | n in children :: AbsoluteLinks(children[n])
    case _ => true
  }

  /** A copy has no relative link, and is the original exactly if that has none. */
  lemma {:induction false} CopiedExactly(node: Node, dir: seq<string>, name: string)
    ensures AbsoluteLinks(Copied(node, dir, name))
    ensures Copied(node, dir, name) == node <==> AbsoluteLinks(node)
    decreases node
  {
    if node.Dir? {
      forall n | n in node.children
        ensures AbsoluteLinks(Copied(node.children[n], dir + [name], NameText(n)))
        ensures Copied(node.children[n], dir + [name], NameText(n)) == node.children[n] <==>
                AbsoluteLinks(node.children[n])
      {
        CopiedExactly(node.children[n], dir + [name], NameText(n));
      }
      SameChildren(node.children, Copied(node, dir, name).children);
    }
  }

  lemma SameChildren(children: map<Name, Node>, copies: map<Name, Node>)
    requires copies.Keys == children.Keys
    requires forall n | n in children :: (copies[n] == children[n] <==> AbsoluteLinks(children[n]))
    ensures copies == children <==> AbsoluteLinks(Dir(children))
  {
  }

  /** What the history holds of the saved entries; `home` is the path of the instance directory. */
  function CopiedSaved(saved: Saved, home: seq<string>): Saved {
    saved.(data := if saved.data.Some? then Some(Copied(saved.data.value, home, NameText(HermesData))) else None)
  }

  predicate LinksAbsolute(data: Option<Node>) {
    data.Some? ==> AbsoluteLinks(data.value)
  }

  lemma CopiedSavedExactly(saved: Saved, home: seq<string>)
    ensures LinksAbsolute(CopiedSaved(saved, home).data)
    ensures CopiedSaved(saved, home) == saved <==> LinksAbsolute(saved.data)
  {
    if saved.data.Some? { CopiedExactly(saved.data.value, home, NameText(HermesData)); }
  }

  /** Sockets and pipes are not copied. */
  predicate NoSpecial(node: Node) {
    match node
    case Special => false
    case Dir(children) => forall n | n in children :: NoSpecial(children[n])
    case _ => true
  }

  /** No path leads to one. */
  lemma {:induction false} NoSpecialExactly(node: Node)
    ensures NoSpecial(node) <==> forall path :: !SpecialAt(node, path)
    decreases node
  {
    if NoSpecial(node) {
      forall path ensures !SpecialAt(node, path) {
        NoSpecialPath(node, path);
      }
    } else if node.Dir? {
      var n :| n in node.children && !NoSpecial(node.children[n]);
      NoSpecialExactly(node.children[n]);
      var path :| SpecialAt(node.children[n], path);
      assert ([n] + path)[1..] == path;
      assert SpecialAt(node, [n] + path);
    } else {
      assert SpecialAt(node, []);
    }
  }

  predicate SpecialAt(node: Node, path: seq<Name>) {
    NodeAt(node, path) == Some(Special)
  }

  lemma {:induction false} NoSpecialPath(node: Node, path: seq<Name>)
    requires NoSpecial(node)
    ensures !SpecialAt(node, path)
    decreases |path|
  {
    if path != [] && node.Dir? && path[0] in node.children {
      NoSpecialPath(node.children[path[0]], path[1..]);
    }
  }

  predicate IsFileOrNone(node: Option<Node>) {
    node.Some? ==> node.value.File?
  }

  predicate EnvsAreFiles(saved: Saved) {
    IsFileOrNone(saved.hermesEnv) && IsFileOrNone(saved.dashboardEnv) && IsFileOrNone(saved.runtimeEnv)
  }

  /** An unpacked archive that a restore accepts. */
  predicate Acceptable(archive: Directory, agentId: string) {
    && archive.Keys == ARCHIVED
    && (forall n | n in archive :: SafeNode(archive[n]))
    && MetadataOf(archive).Some? && MetadataOf(archive).value.agentId == agentId
  }
}
