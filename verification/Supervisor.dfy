/** The supervisor of one agent: its file transactions over an instance directory and a Docker that may
    fail at any call. Every file write or copy on a forward path may fail too, and then leaves its
    target in an arbitrary state, the record in one of the states of `RecordWrite`; only the copies and
    removals of a restore's and an owner file's rollback are assumed to succeed. */
module Supervisor {
  import opened Wrappers
  import opened Instance
  import opened InstanceFiles
  import opened Rollback
  import EnvFile
  import Envelope
  import M = Management
  import P = PortAllocator
  import T = Text

  datatype Failure =
    | ApprovalRequired | InvalidInput | NotFound | InvalidConfig | Failed | PortExhausted
    | SetupFailed | BackupFailed(error: Envelope.Error) | UnsafeBackup | InvalidBackup | IdentityMismatch
    | NoBackupKey

  datatype Role = Hermes | Dashboard | Runtime

  datatype Status = Created | Running | Paused | Restarting | Removing | Exited | Dead

  /** What an operator sees of a container: it runs, is paused, or is stopped. */
  datatype Lifecycle = Runs | Pauses | Stopped

  function LifecycleOf(status: Status): Lifecycle {
    match status
    case Paused => Pauses
    case Created => Stopped
    case Exited => Stopped
    case Dead => Stopped
    case _ => Runs
  }

  datatype OwnerChange = Skills(disabled: seq<string>) | Identity(soul: string) | Malformed(skills: bool)

  datatype OwnerCommand = OwnerCommand(agentId: string, revisionId: Option<string>, change: Option<OwnerChange>,
      idempotencyKey: string)

  /** Where an atomic write fails: before its rename, which may leave the temporary, or in the final chmod. */
  datatype AtomicFault = AllGood | BeforeRename(leftover: Option<Node>) | ChmodFails

  /** Whether the inspection of the Hermes container answers, and no Docker command after it fails, whether
      saving works, and how the writes of the owner's file and of the record end. */
  datatype OwnerFaults = OwnerFaults(
    inspects: bool, docker: bool, saving: bool, write: AtomicFault, record: RecordWrite)

  datatype RestoreCommand = RestoreCommand(agentId: string, backupId: string, restoreId: string, approved: bool)

  /** Where the preparation of a restore fails: emptying its staging directory, or writing the plaintext
      archive; and what that leaves. */
  datatype SetupFault = Ready | EmptyingFails(left: Option<Directory>) | WritingFails(wreck: Option<Envelope.Bytes>)

  /** `works` says that of the steps between the preparation and the start none fails by itself. */
  datatype RestoreFaults = RestoreFaults(setup: SetupFault, works: bool, start: StartFaults, restart: StartFaults)

  /** Files of the backup root. */
  datatype VaultFile = Backup(id: string) | Plain(id: string)

  /** Archive and crypto libraries, and the YAML library's merge of a skill list into a document. */
  datatype Libraries = Libraries(
    crypto: Envelope.Crypto, tar: Directory -> Envelope.Bytes, untar: Envelope.Bytes -> Option<Directory>,
    mergeSkills: (string, seq<string>) -> Option<string>)
  {
    ghost predicate Valid() {
      crypto.Valid() && forall d :: tar(d) != [] && untar(tar(d)) == Some(d)
    }
  }

  predicate ValidRevision(revisionId: Option<string>) {
    revisionId.Some? && Envelope.Identifier(revisionId.value)
  }

  /** The record that an applied revision is written with. */
  function Revised(metadata: Metadata, revisionId: Option<string>, idempotencyKey: string): Metadata {
    metadata.(configRevisionId := revisionId, idempotencyKey := idempotencyKey)
  }

  /** The record after a failure: as it was, or as its own failed write leaves it. */
  predicate RecordFailed(before: Option<Metadata>, after: Option<Metadata>, revised: Metadata, write: RecordWrite) {
    after == before || (!write.Recorded? && after == RecordAfter(before, revised, write))
  }

  /** The archive a backup file holds for an agent. */
  function ArchiveIn(libraries: Libraries, vault: map<VaultFile, Envelope.Bytes>, backupId: string, agentId: string)
    : Option<Directory>
  {
    if Backup(backupId) !in vault then None
    else
      var plain := Envelope.ReadBackup(libraries.crypto, vault[Backup(backupId)], backupId, agentId);
      if plain.Err? then None else libraries.untar(plain.value)
  }

  predicate StagedAs(directory: Directory, files: Result<M.Five, EnvFile.Error>) {
    files.Ok? && FlatFiveOf(directory) == FiveFiles(files.value)
  }

  const NONE_SAVED := FiveNodes(None, None, None, None, None)

  /** The five files a history holds under a key. */
  function HistoryAt(history: map<string, Directory>, key: string): FiveNodes {
    if key in history then FlatFiveOf(history[key]) else NONE_SAVED
  }

  /** Where config.apply and config.apply-user save what they replace. */
  function HistoryKey(metadata: Metadata, revision: string): string {
    if metadata.configRevisionId.Some? then metadata.configRevisionId.value else "before-" + revision
  }

  /** The Hermes container is there, in the lifecycle state it had. */
  predicate BackAs(containers: map<Role, Status>, previous: Status) {
    Hermes in containers && LifecycleOf(containers[Hermes]) == LifecycleOf(previous)
  }

  function StatusIn(containers: map<Role, Status>, role: Role): Option<Status> {
    if role in containers then Some(containers[role]) else None
  }

  /** The lifecycle state that a restart after an inspection puts the Hermes container into. */
  function LifecycleAfter(before: Option<Status>, inspects: bool): Lifecycle {
    if inspects && before.Some? then LifecycleOf(before.value) else Runs
  }

  /** The state is kept however the inspection answers exactly if the container ran. */
  lemma LifecycleKept(before: Status)
    ensures (forall inspects: bool :: LifecycleAfter(Some(before), inspects) == LifecycleOf(before)) <==>
            LifecycleOf(before) == Runs
  {
    assert LifecycleAfter(Some(before), false) == Runs;
  }

  predicate AllRunning(containers: map<Role, Status>) {
    forall role: Role :: role in containers && containers[role] == Running
  }

  lemma LifecycleClasses()
    ensures LifecycleOf(Paused) == Pauses && forall s | s in {Running, Restarting, Removing} :: LifecycleOf(s) == Runs
    ensures forall s | s in {Created, Exited, Dead} :: LifecycleOf(s) == Stopped
  {
  }

  /** `replaceAll("\r", "\n")`. */
  function LineFeeds(s: string): string {
    if s == "" then "" else [if s[0] == '\r' then '\n' else s[0]] + LineFeeds(s[1..])
  }

  /** Replacing CR LF and then every CR by LF is one pass over the line breaks. */
  lemma {:induction false} BreaksInOnePass(s: string)
    ensures LineFeeds(T.Normalise(s)) == T.Unbroken(s)
    decreases |s|
  {
    if |s| >= 2 && s[0] == '\r' && s[1] == '\n' {
      BreaksInOnePass(s[2..]);
      LineFeedsCons('\n', T.Normalise(s[2..]));
    } else if |s| >= 2 {
      BreaksInOnePass(s[1..]);
      LineFeedsCons(s[0], T.Normalise(s[1..]));
    } else if |s| == 1 {
      assert s == [s[0]] && s[1..] == "" && [s[0]] + "" == [s[0]];
      LineFeedsCons(s[0], "");
    }
  }

  lemma LineFeedsCons(c: char, rest: string)
    ensures LineFeeds([c] + rest) == [if c == '\r' then '\n' else c] + LineFeeds(rest)
  {
    assert ([c] + rest)[1..] == rest;
  }

  /** Sealing an archive and reading it back. */
  lemma SealedReadsBack(libraries: Libraries, vault: map<VaultFile, Envelope.Bytes>, backupId: string, agentId: string,
                        iv: string, createdAt: string, archive: Directory)
    requires libraries.Valid() && Envelope.Identifier(backupId) && Envelope.Identifier(agentId)
    requires |iv| == 16 && Envelope.Unescaped(iv) && |createdAt| <= 27 && Envelope.Unescaped(createdAt)
    requires Backup(backupId) in vault
    requires var h := Envelope.HeaderFor(libraries.crypto, backupId, agentId, iv, createdAt, libraries.tar(archive));
      && Envelope.Ascii(Envelope.HeaderJson(h)) && |Envelope.HeaderJson(h)| < 0x1_0000_0000
      && vault[Backup(backupId)] == Envelope.Frame(h, libraries.crypto.encrypt(iv, libraries.tar(archive)))
    ensures ArchiveIn(libraries, vault, backupId, agentId) == Some(archive)
  {
    Envelope.BackupRoundTrip(libraries.crypto, backupId, agentId, iv, createdAt, libraries.tar(archive));
  }

  class AgentSupervisor {
    const agentId: string
    const names: Names
    const platformUrl: string
    const digests: M.Digests
    const libraries: Libraries
    const hasBackupKey: bool
    // The path of the instance directory
    const home: seq<string>

    // The instance directory, with its directories of directories kept apart
    var active: Directory
    var stagedConfig: map<string, Directory>
    var configHistory: map<string, Directory>
    var restoreStaging: map<string, Directory>
    var restoreHistory: map<string, Directory>
    // The backup root, and what Docker holds of this agent
    var vault: map<VaultFile, Envelope.Bytes>
    var containers: map<Role, Status>
    var network: bool

    /** A readable record names this agent and its containers. */
    ghost predicate Valid()
      reads this
    {
      && digests.Valid() && EnvFile.OneLine(names.dashboard) && Envelope.Identifier(agentId)
      && (MetadataOf(active).Some? ==> RecordOk(MetadataOf(active).value))
    }

    predicate RecordOk(metadata: Metadata) {
      metadata.names == names && metadata.agentId == agentId
    }

    // -------------------------------------------------------------- files

    /** Writes a top-level file; a failed write leaves what the outcome says. */
    method WriteFile(n: Name, content: Content, outcome: WriteOutcome) returns (ok: bool)
      requires !InData(n) && n != HermesData
      modifies this`active
      ensures active == With(old(active), n, Wrote(Some(File(content)), outcome)) && (ok <==> outcome.Written?)
    {
      active := With(active, n, Wrote(Some(File(content)), outcome));
      ok := outcome.Written?;
    }

    /** Writes the record, with the outcome given. */
    method WriteMetadata(metadata: Metadata, write: RecordWrite) returns (ok: bool)
      modifies this`active
      ensures OnlyActive(old(active), active, InstanceJson)
      ensures MetadataOf(active) == RecordAfter(MetadataOf(old(active)), metadata, write) && (ok <==> write.Recorded?)
      ensures write.Unwritten? ==> active == old(active)
    {
      var garbage: string := *;
      PutActiveAt(active, InstanceJson, Some(File(Record(metadata))));
      PutActiveAt(active, InstanceJson, Some(File(Text(garbage))));
      if write.TornWrite? {
        active := PutActive(active, InstanceJson, Some(File(Text(garbage))));
      } else if !write.Unwritten? {
        active := PutActive(active, InstanceJson, Some(File(Record(metadata))));
      }
      ok := write.Recorded?;
    }

    /** Copies a file over an active one; a failed copy leaves what the outcome says. */
    method CopyFileSecure(source: Option<Node>, n: Name, outcome: WriteOutcome) returns (ok: bool)
      requires InFive(n) || n.ConfigYaml?
      modifies this`active
      ensures OnlyActive(old(active), active, n)
      ensures ok <==> source.Some? && source.value.File? && CanPut(old(active), n) && outcome.Written?
      ensures Copyable(source) && CanPut(old(active), n) ==> active == PutActive(old(active), n, Wrote(source, outcome))
      ensures Copyable(source) && CanPut(old(active), n) ==> ActiveAt(active, n) == Wrote(source, outcome)
      ensures !Copyable(source) || !CanPut(old(active), n) ==> active == old(active)
    {
      if !Copyable(source) || !CanPut(active, n) { return false; }
      PutActiveAt(active, n, Wrote(source, outcome));
      active := PutActive(active, n, Wrote(source, outcome));
      ok := outcome.Written?;
    }

    // -------------------------------------------------------------- Docker

    /** A successful inspection proves existence; a failed one proves nothing. Here and below `works` says
        that no Docker command fails. */
    method Exists(role: Role, works: bool) returns (exists_: bool)
      ensures exists_ ==> role in containers
      ensures works && role in containers ==> exists_
    {
      var answered: bool := *;
      exists_ := (works || answered) && role in containers;
    }

    method ContainerStatus(role: Role, answered: bool) returns (status: Option<Status>)
      ensures status == if answered && role in containers then Some(containers[role]) else None
    {
      status := if answered && role in containers then Some(containers[role]) else None;
    }

    /** A Docker command on one container: on success it ends as asked, on failure in any state. */
    method Docker(role: Role, result: Option<Status>, works: bool) returns (ok: bool)
      modifies this`containers
      ensures works ==> ok
      ensures forall other | other != role :: other in containers <==> other in old(containers)
      ensures forall other | other != role && other in containers :: containers[other] == old(containers)[other]
      ensures ok ==> if result.Some? then role in containers && containers[role] == result.value
              else role !in containers
    {
      ok := *;
      if works { ok := true; }
      var otherwise: Option<Status> := *;
      var after := if ok then result else otherwise;
      containers := if after.Some? then containers[role := after.value] else containers - {role};
    }

    /** `docker run` refuses a name that is taken. */
    method ReplaceContainer(role: Role, works: bool) returns (ok: bool)
      modifies this`containers
      ensures works ==> ok
      ensures ok ==> role in containers && containers[role] == Running
      ensures forall other | other != role :: other in containers <==> other in old(containers)
      ensures forall other | other != role && other in containers :: containers[other] == old(containers)[other]
    {
      var exists_ := Exists(role, works);
      if exists_ {
        var removed := Docker(role, None, works);
        if !removed { return false; }
      }
      if role in containers { return false; }
      ok := Docker(role, Some(Running), works);
    }

    /** The status a container is put into that had this one before. */
    function RestartedAs(previous: Option<Status>): Status {
      match previous
      case Some(Paused) => Paused
      case Some(Created) => Exited
      case Some(Exited) => Exited
      case Some(Dead) => Exited
      case _ => Running
    }

    lemma RestartedClass(previous: Option<Status>)
      ensures LifecycleOf(RestartedAs(previous)) == LifecycleAfter(previous, true)
    {
    }

    method RestoreHermesLifecycle(previous: Option<Status>, works: bool) returns (ok: bool)
      requires Hermes in containers && containers[Hermes] == Running
      modifies this`containers
      ensures works ==> ok
      ensures ok ==> Hermes in containers && containers[Hermes] == RestartedAs(previous)
      ensures previous.None? ==> ok && containers == old(containers)
    {
      if previous == Some(Paused) {
        ok := Docker(Hermes, Some(Paused), works);
      } else if previous in {Some(Created), Some(Exited), Some(Dead)} {
        ok := Docker(Hermes, Some(Exited), works);
      } else {
        ok := true;
      }
    }

    // -------------------------------------------------------------- starting the containers

    /** Writes the runtime file if its text is to change. */
    method CompleteRuntimeEnv(text: string, managed: Printed, outcome: WriteOutcome) returns (ok: bool)
      modifies this`active
      ensures CompleteRuntime(EnvsOf(old(active)), text, managed, outcome) ==
              if ok then Ok(EnvsOf(active)) else Err(EnvsOf(active))
      ensures OnlyEnv(old(active), active)
    {
      if managed.Err? { return false; }
      if managed.value == text { return true; }
      ok := WriteFile(RuntimeEnv, Text(managed.value), outcome);
    }

    /** The text the runtime file is to have; it stays the same where no entry changes. */
    method Managed(text: string, metadata: Metadata) returns (managed: Printed)
      requires digests.Valid() && EnvFile.OneLine(metadata.names.dashboard)
      ensures managed == M.ManageRuntime(text, metadata, digests)
    {
      var values := EnvFile.ReadEnvironmentFile(Some(text));
      var completed := M.Complete(values, metadata, digests);
      if completed.Err? { return Err(completed.error); }
      var updated := M.PutCompleted(values, completed.value);
      managed := if values == updated then Ok(text) else EnvFile.PrintEnv(updated);
    }

    method CreateDashboardEnv(text: string, metadata: Metadata, outcome: WriteOutcome) returns (ok: bool)
      modifies this`active
      requires DashboardEnv !in active
      ensures CreateDashboard(EnvsOf(old(active)), M.MissingDashboard(text, metadata, digests), outcome) ==
              if ok then Ok(EnvsOf(active)) else Err(EnvsOf(active))
      ensures OnlyEnv(old(active), active)
    {
      var dashboard := M.MissingDashboard(text, metadata, digests);
      if dashboard.Err? { return false; }
      ok := WriteFile(DashboardEnv, Text(dashboard.value), outcome);
    }

    /** Completes the environment files: the two files come out as the outcomes of the writes say, and
        nothing else is touched. */
    method EnsureManagementConfiguration(metadata: Metadata, writes: EnvWrites) returns (ok: bool)
      requires digests.Valid() && EnvFile.OneLine(metadata.names.dashboard)
      modifies this`active
      ensures Complete(EnvsOf(old(active)), metadata, digests, writes) ==
              if ok then Ok(EnvsOf(active)) else Err(EnvsOf(active))
      ensures OnlyEnv(old(active), active)
    {
      var text := TextAt(active, RuntimeEnv);
      if text.None? { return false; }
      var managed := Managed(text.value, metadata);
      ok := CompleteRuntimeEnv(text.value, managed, writes.runtime);
      if !ok || DashboardEnv in active { return; }
      ok := CreateDashboardEnv(text.value, metadata, writes.dashboard);
    }

    /** Makes hermes-data and its `memories`, as far as `steps` of its steps go through. */
    method PrepareHermesDataDirectory(steps: nat) returns (ok: bool)
      modifies this`active
      ensures Prepare(At(old(active), HermesData), steps) ==
              if ok then Ok(At(active, HermesData)) else Err(At(active, HermesData))
      ensures OnlyMemories(old(active), active)
    {
      if steps == 0 || (HermesData in active && !active[HermesData].Dir?) { return false; }
      if HermesData !in active {
        active := active[HermesData := Dir(map[])];
      }
      assert Dir(Data(active)) == active[HermesData];
      if steps == 1 { return false; }
      if Memories !in Data(active) {
        if steps == 2 { return false; }
        active := active[HermesData := Dir(Data(active)[Memories := Dir(map[])])];
      }
      ok := steps >= 4 && Data(active)[Memories].Dir?;
    }

    /** Completes the environment files and prepares hermes-data. */
    method PrepareFiles(metadata: Metadata, faults: StartFaults) returns (ok: bool)
      requires digests.Valid() && EnvFile.OneLine(metadata.names.dashboard)
      modifies this`active
      ensures Start(SavedOf(old(active)), metadata, digests, faults) ==
              if ok then Ok(SavedOf(active)) else Err(SavedOf(active))
      ensures FiveOf(active) == CompleteFive(FiveOf(old(active)), metadata, digests, faults.envs)
      ensures At(active, InstanceJson) == At(old(active), InstanceJson) && OnlyStarted(old(active), active)
    {
      var completed := EnsureManagementConfiguration(metadata, faults.envs);
      ok := completed;
      ghost var between := active;
      if completed { ok := PrepareHermesDataDirectory(faults.prepareSteps); }
      StartInSteps(old(active), between, active, metadata, digests, faults, completed, ok);
    }

    /** The files come out as the file steps say, which for settled files with a prepared hermes-data
        means as they were; success means that all of them went through, and three running containers. */
    method RunContainers(metadata: Metadata, faults: StartFaults) returns (ok: bool)
      requires digests.Valid() && EnvFile.OneLine(metadata.names.dashboard)
      modifies this`active, this`containers, this`network
      ensures SavedOf(active) == Left(Start(SavedOf(old(active)), metadata, digests, faults))
      ensures ok ==> Start(SavedOf(old(active)), metadata, digests, faults).Ok? && AllRunning(containers) && network
      ensures Start(SavedOf(old(active)), metadata, digests, faults).Ok? && faults.docker ==> ok
      ensures StartKeeps(SavedOf(old(active)), metadata, digests) ==> SavedOf(active) == SavedOf(old(active))
      ensures FiveOf(active) == CompleteFive(FiveOf(old(active)), metadata, digests, faults.envs)
      ensures At(active, InstanceJson) == At(old(active), InstanceJson) && OnlyStarted(old(active), active)
    {
      if StartKeeps(SavedOf(active), metadata, digests) { StartKept(SavedOf(active), metadata, digests, faults); }
      ok := PrepareFiles(metadata, faults);
      if ok { ok := StartContainers(faults.docker); }
    }

    /** Each container is replaced by a new one, on the network. */
    method StartContainers(works: bool) returns (ok: bool)
      modifies this`containers, this`network
      ensures works ==> ok
      ensures ok ==> AllRunning(containers) && network
    {
      var networkExists: bool, created: bool := *, *;
      if !((works || networkExists) && network) {
        if !works && !created { return false; }
        network := true;
      }
      ok := ReplaceContainer(Hermes, works);
      if !ok { return; }
      ok := ReplaceContainer(Dashboard, works);
      if !ok { return; }
      ok := ReplaceContainer(Runtime, works);
    }

    // -------------------------------------------------------------- config.stage and config.apply

    /** Stages a revision: exactly a printable one, and the files staged hold what the command says. */
    method StageConfiguration(command: M.ConfigCommand, works: bool) returns (r: Result<(), Failure>)
      requires Valid() && command.agentId == agentId
      modifies this`stagedConfig
      ensures r.Ok? <==> MetadataOf(active).Some? && ValidRevision(command.revisionId) &&
                         M.Printable(command, names, platformUrl) && works
      ensures r.Ok? ==>
              command.revisionId.value in stagedConfig &&
              Holds(FlatFiveOf(stagedConfig[command.revisionId.value]), command)
    {
      FilesHold(command);
      r := StageFiles(command, works);
    }

    /** Writes the six files of a staged revision; a failure may leave anything in its directory. */
    method StageFiles(command: M.ConfigCommand, works: bool) returns (r: Result<(), Failure>)
      requires Valid() && command.agentId == agentId
      modifies this`stagedConfig
      ensures r.Ok? <==> MetadataOf(active).Some? && ValidRevision(command.revisionId) && FilesOf(command).Ok? && works
      ensures r.Ok? ==>
              command.revisionId.value in stagedConfig &&
              StagedAs(stagedConfig[command.revisionId.value], FilesOf(command))
    {
      var metadata := MetadataOf(active);
      if metadata.None? { return Err(NotFound); }
      if !ValidRevision(command.revisionId) { return Err(InvalidInput); }
      var revision := command.revisionId.value;
      var files := M.ConfigurationFiles(command, metadata.value.names, platformUrl, digests);
      if files.Err? || !works {
        var wreck: Directory := *;
        stagedConfig := stagedConfig[revision := wreck];
        return Err(if files.Err? then InvalidConfig else Failed);
      }
      var directory := if revision in stagedConfig then stagedConfig[revision] else map[];
      StagedHolds(directory, files.value, revision);
      stagedConfig := stagedConfig[revision := StagedDirectory(directory, files.value, revision)];
      r := Ok(());
    }

    /** What a configuration command asks for. */
    function FilesOf(command: M.ConfigCommand): Result<M.Five, EnvFile.Error> {
      M.ConfigurationFiles(command, names, platformUrl, digests)
    }

    /** Five text files that hold, key by key, what the command says. */
    ghost predicate Holds(nodes: FiveNodes, command: M.ConfigCommand) {
      exists five: M.Five :: nodes == FiveFiles(five) && M.HoldCommand(five, command, names, platformUrl, digests)
    }

    lemma FilesHold(command: M.ConfigCommand)
      requires digests.Valid()
      ensures FilesOf(command).Ok? <==> M.Printable(command, names, platformUrl)
      ensures FilesOf(command).Ok? ==> Holds(FiveFiles(FilesOf(command).value), command)
    {
      M.PrintableExactly(command, names, platformUrl, digests);
      if FilesOf(command).Ok? { M.FilesHoldCommand(command, names, platformUrl, digests); }
    }

    /** Copies the active files that exist into a history directory, over what is there. */
    method SaveActive(key: string, works: bool) returns (ok: bool)
      modifies this`configHistory
      ensures ok <==> works && CanSave(FiveOf(active))
      ensures ok ==>
              key in configHistory && FlatFiveOf(configHistory[key]) ==
              SavedOver(HistoryAt(old(configHistory), key), FiveOf(active))
    {
      var history := if key in configHistory then configHistory[key] else map[];
      SaveAll(FlatFiveOf(history), FiveOf(active));
      for i := 0 to |FIVE|
        invariant SaveFrom(HistoryAt(configHistory, key), FiveOf(active), 0) ==
                  SaveFrom(FlatFiveOf(history), FiveOf(active), i)
        invariant configHistory == old(configHistory)
      {
        FiveNames(i);
        EntryIs(active, FIVE[i]);
        SaveOne(FlatFiveOf(history), FiveOf(active), i, FIVE[i]);
        var source := ActiveAt(active, FIVE[i]);
        if source.Some? {
          if !works || !Copyable(source) {
            var wreck: Directory := *;
            configHistory := configHistory[key := wreck];
            return false;
          }
          FlatAfter(history, FIVE[i], source.value);
          history := history[FIVE[i] := source.value];
        }
      }
      configHistory := configHistory[key := history];
      ok := works;
    }

    predicate SameMemories(before: Directory, after: Directory) {
      && At(Data(after), Memories) == At(Data(before), Memories)
      && (HermesData in before <==> HermesData in after) && (HasData(before) <==> HasData(after))
    }

    /** Copies of all five files. */
    method InstallFiles(source: Directory, fault: CopyFault) returns (ok: bool)
      modifies this`active
      ensures CopyAll(FiveOf(old(active)), HasData(old(active)), FlatFiveOf(source), fault) ==
              if ok then Ok(FiveOf(active)) else Err(FiveOf(active))
      ensures At(active, InstanceJson) == At(old(active), InstanceJson) && (HasData(active) <==> HasData(old(active)))
      ensures OnlyConfiguration(old(active), active) && SameMemories(old(active), active)
    {
      ghost var flat, hasData := FlatFiveOf(source), HasData(active);
      for i := 0 to |FIVE|
        invariant At(active, InstanceJson) == At(old(active), InstanceJson) && (HasData(active) <==> hasData)
        invariant OnlyConfiguration(old(active), active) && SameMemories(old(active), active)
        invariant CopyAll(FiveOf(old(active)), hasData, flat, fault) ==
                  CopyFrom(FiveOf(active), hasData, flat, i, fault)
      {
        ghost var before := active;
        FiveNames(i);
        var n := FIVE[i];
        EntryIs(source, n);
        CopyOne(FiveOf(active), hasData, flat, i, n, fault);
        ok := CopyFileSecure(At(source, n), n, if fault.FailsAt? && fault.at == i then Torn(fault.wreck) else Written);
        OnlyFiveIn(old(active), before, active, n);
        FiveAfter(before, active, n);
        if !ok { return; }
      }
      ok := true;
    }

    /** Starts the containers and then writes the record. */
    method StartAndRecord(metadata: Metadata, revised: Metadata, faults: StartFaults, write: RecordWrite)
        returns (ok: bool)
      requires Valid() && RecordOk(metadata) && RecordOk(revised)
      modifies this`active, this`containers, this`network
      ensures Valid() && (HasData(old(active)) ==> HasData(active))
      ensures FiveOf(active) == CompleteFive(FiveOf(old(active)), metadata, digests, faults.envs)
      ensures if ok then MetadataOf(active) == Some(revised) && write.Recorded?
              else RecordFailed(MetadataOf(old(active)), MetadataOf(active), revised, write)
      ensures ok ==> Starts(EnvsOf(old(active)), old(active), metadata, digests, faults)
      ensures (write.Recorded? && faults.docker &&
               Starts(EnvsOf(old(active)), old(active), metadata, digests, faults)) ==> ok
      ensures (ok ==> AllRunning(containers) && network) && OnlyConfiguration(old(active), active)
    {
      ok := RunContainers(metadata, faults);
      OnlyStartedIn(old(active), active);
      if !ok { return; }
      ghost var before := active;
      ok := WriteRecord(revised, write);
      OnlyConfigurationThrough(old(active), before, active);
    }

    method WriteRecord(revised: Metadata, write: RecordWrite) returns (ok: bool)
      modifies this`active
      ensures FiveOf(active) == FiveOf(old(active)) && (HasData(active) <==> HasData(old(active)))
      ensures OnlyConfiguration(old(active), active)
      ensures MetadataOf(active) == RecordAfter(MetadataOf(old(active)), revised, write) && (ok <==> write.Recorded?)
    {
      ok := WriteMetadata(revised, write);
      RecordKeepsFive(old(active), active);
      OnlyRecordIn(old(active), active);
    }

    /** The `try` of config.apply goes through, if no Docker command fails. */
    predicate Installs(before: Directory, source: FiveNodes, metadata: Metadata, faults: ApplyFaults) {
      && CopyAll(FiveOf(before), HasData(before), source, faults.copy).Ok? && faults.record.Recorded?
      && Starts(Envs(source.runtimeEnv, source.dashboardEnv), before, metadata, digests, faults.start)
    }

    /** The body of the `try` of config.apply. */
    method InstallConfiguration(source: Directory, metadata: Metadata, revised: Metadata, faults: ApplyFaults)
        returns (ok: bool)
      requires Valid() && MetadataOf(active) == Some(metadata) && RecordOk(revised)
      modifies this`active, this`containers, this`network
      ensures Valid() && (HasData(old(active)) <==> HasData(active))
      ensures FiveOf(active) == TryFive(FiveOf(old(active)), HasData(old(active)), FlatFiveOf(source), metadata,
              digests, faults)
      ensures ok ==> Installs(old(active), FlatFiveOf(source), metadata, faults)
      ensures Installs(old(active), FlatFiveOf(source), metadata, faults) && faults.start.docker ==> ok
      ensures ok ==> MetadataOf(active) == Some(revised) && faults.record.Recorded? && AllRunning(containers) && network
      ensures !ok ==> RecordFailed(Some(metadata), MetadataOf(active), revised, faults.record)
      ensures OnlyConfiguration(old(active), active)
    {
      CopyNeedsData(FiveOf(active), FlatFiveOf(source), faults.copy);
      ok := InstallFiles(source, faults.copy);
      if !ok { return; }
      CopiedIsSource(FiveOf(old(active)), HasData(old(active)), FlatFiveOf(source), faults.copy);
      PrepareAlike(old(active), active, faults.start.prepareSteps);
      assert EnvsOf(active) == Envs(FiveOf(active).runtimeEnv, FiveOf(active).dashboardEnv);
      ghost var before := active;
      ok := StartAndRecord(metadata, revised, faults.start, faults.record);
      OnlyConfigurationThrough(old(active), before, active);
    }

    /** The `catch` of config.apply: if the history holds all five files they are copied back and the
        containers started on them again, whatever comes of that; if not, nothing is touched. */
    method RollBackConfiguration(key: string, metadata: Metadata, rollback: CopyFault, restart: StartFaults)
      requires Valid() && RecordOk(metadata)
      modifies this`active, this`containers, this`network
      ensures Valid() && MetadataOf(active) == MetadataOf(old(active)) && OnlyConfiguration(old(active), active)
      ensures FiveOf(active) == CatchFive(FiveOf(old(active)), HasData(old(active)), HistoryAt(configHistory, key),
                                          metadata, digests, rollback, restart)
      ensures var kept := HistoryAt(configHistory, key);
        (kept.hermesEnv.None? || kept.dashboardEnv.None? || kept.runtimeEnv.None? || kept.soul.None? ||
         kept.controlToken.None?) ==> active == old(active) && containers == old(containers)
    {
      if key !in configHistory { return; }
      var source := configHistory[key];
      if AllSome(FlatFiveOf(source)) {
        var copied := InstallFiles(source, rollback);
        if copied {
          ghost var before := active;
          var _ := RunContainers(metadata, restart);
          OnlyStartedIn(before, active);
          OnlyConfigurationThrough(old(active), before, active);
        }
      }
    }

    /** The `try` of config.apply with its `catch`. */
    method InstallOrRollBack(source: Directory, key: string, metadata: Metadata, revised: Metadata,
        faults: ApplyFaults) returns (ok: bool)
      requires Valid() && MetadataOf(active) == Some(metadata) && RecordOk(revised)
      modifies this`active, this`containers, this`network
      ensures Valid() && OnlyConfiguration(old(active), active)
      ensures var tried := TryFive(FiveOf(old(active)), HasData(old(active)), FlatFiveOf(source), metadata, digests,
              faults);
        FiveOf(active) ==
          if ok then tried
          else CatchFive(tried, HasData(old(active)), HistoryAt(configHistory, key), metadata, digests,
                         faults.rollback, faults.restart)
      ensures ok ==> Installs(old(active), FlatFiveOf(source), metadata, faults)
      ensures Installs(old(active), FlatFiveOf(source), metadata, faults) && faults.start.docker ==> ok
      ensures ok ==> MetadataOf(active) == Some(revised) && faults.record.Recorded? && AllRunning(containers) && network
      ensures !ok ==> RecordFailed(Some(metadata), MetadataOf(active), revised, faults.record)
    {
      ok := InstallConfiguration(source, metadata, revised, faults);
      if !ok {
        ghost var before := active;
        RollBackConfiguration(key, metadata, faults.rollback, faults.restart);
        OnlyConfigurationThrough(old(active), before, active);
      }
    }

    /** The command gets as far as the `try`: all of its checks, its staging and its saving go through. */
    predicate Reaches(before: Directory, command: M.ConfigCommand, faults: ApplyFaults) {
      && command.approved && MetadataOf(before).Some? && ValidRevision(command.revisionId) && FilesOf(command).Ok?
      && faults.staging && faults.saving && CanSave(FiveOf(before))
    }

    /** The copies of the staged files go through too. */
    predicate CopiesAll(before: Directory, command: M.ConfigCommand, faults: ApplyFaults)
      requires FilesOf(command).Ok?
    {
      CopyAll(FiveOf(before), HasData(before), FiveFiles(FilesOf(command).value), faults.copy).Ok?
    }

    /** No line terminator that the printer lets pass is in the secrets of the runtime file. */
    predicate ReadableSecrets(command: M.ConfigCommand) {
      command.config.Some? && var secrets := command.config.value.secrets;
      && secrets.hermesApiServerKey.Some? && EnvFile.OneLine(secrets.hermesApiServerKey.value)
      && secrets.runtimeSharedSecret.Some? && EnvFile.OneLine(secrets.runtimeSharedSecret.value)
    }

    /** Everything after the saving goes through, if no Docker command fails. */
    predicate GoesThrough(before: Directory, command: M.ConfigCommand, faults: ApplyFaults)
      requires FilesOf(command).Ok?
    {
      && CopiesAll(before, command, faults) && ReadableSecrets(command) && faults.record.Recorded?
      && Prepare(At(before, HermesData), faults.start.prepareSteps).Ok?
    }

    /** The containers can be started on the command's files exactly if its secrets are readable and
        hermes-data can be prepared. */
    lemma StartsExactly(command: M.ConfigCommand, dir: Directory, metadata: Metadata, faults: StartFaults)
      requires digests.Valid() && EnvFile.OneLine(names.dashboard) && metadata.names == names && FilesOf(command).Ok?
      ensures var staged := FiveFiles(FilesOf(command).value);
        Starts(Envs(staged.runtimeEnv, staged.dashboardEnv), dir, metadata, digests, faults) <==>
        ReadableSecrets(command) && Prepare(At(dir, HermesData), faults.prepareSteps).Ok?
    {
      var five := FilesOf(command).value;
      M.WrittenIsManaged(command, names, platformUrl, digests, five, metadata);
      M.SecretsOf(command, digests);
      StartsOnText(five.runtimeEnv, five.dashboardEnv, dir, metadata, digests, faults);
    }

    /** The five files after a failure, for each failure point. */
    function FailedFive(before: Directory, history: map<string, Directory>, command: M.ConfigCommand,
        faults: ApplyFaults): FiveNodes {
      if Reaches(before, command, faults) then
        var metadata := MetadataOf(before).value;
        AfterFailure(FiveOf(before), HasData(before), FiveFiles(FilesOf(command).value),
                     HistoryAt(history, HistoryKey(metadata, command.revisionId.value)), metadata, digests, faults)
      else FiveOf(before)
    }

    /** config.apply is a transaction: it succeeds with the five files and the revision of the command, or
        fails with the five files that the failure point determines; the record is then as it was, or as
        its own failed write leaves it. */
    method ApplyConfiguration(command: M.ConfigCommand, faults: ApplyFaults) returns (r: Result<(), Failure>)
      requires Valid() && command.agentId == agentId
      modifies this`active, this`stagedConfig, this`configHistory, this`containers, this`network
      ensures Valid() && OnlyConfiguration(old(active), active)
      ensures r.Ok? ==> Reaches(old(active), command, faults) && GoesThrough(old(active), command, faults)
      ensures (Reaches(old(active), command, faults) && GoesThrough(old(active), command, faults) &&
               faults.start.docker) ==> r.Ok?
      ensures r.Ok? ==>
              Applied(old(active), active, command) && faults.record.Recorded? && AllRunning(containers) && network
      ensures r.Ok? ==> Holds(FiveOf(active), command)
      ensures r.Err? ==> FiveOf(active) == FailedFive(old(active), old(configHistory), command, faults)
      ensures Reaches(old(active), command, faults) ==>
              var current := MetadataOf(old(active)).value.configRevisionId;
              var key := if current.Some? then current.value else "before-" + command.revisionId.value;
              SavedUnder(old(configHistory), key, FiveOf(old(active)))
      ensures r.Err? ==> RecordLeft(old(active), active, command, faults.record)
    {
      if !command.approved { return Err(ApprovalRequired); }
      var record := MetadataOf(active);
      if record.None? { return Err(NotFound); }
      var metadata := record.value;
      if !ValidRevision(command.revisionId) { return Err(InvalidInput); }
      var revision := command.revisionId.value;
      var staged := StageFiles(command, faults.staging);
      if staged.Err? { return Err(staged.error); }
      var installed := ApplyStaged(stagedConfig[revision], command, metadata, faults);
      r := if installed then Ok(()) else Err(Failed);
    }

    /** From the staged files on. */
    method ApplyStaged(source: Directory, command: M.ConfigCommand, metadata: Metadata, faults: ApplyFaults)
        returns (ok: bool)
      requires Valid() && MetadataOf(active) == Some(metadata) && ValidRevision(command.revisionId)
      requires StagedAs(source, FilesOf(command))
      modifies this`active, this`configHistory, this`containers, this`network
      ensures Valid() && OnlyConfiguration(old(active), active)
      ensures faults.saving && CanSave(FiveOf(old(active))) ==>
              SavedUnder(old(configHistory), HistoryKey(metadata, command.revisionId.value), FiveOf(old(active)))
      ensures ok ==> faults.saving && CanSave(FiveOf(old(active))) && GoesThrough(old(active), command, faults)
      ensures (faults.saving && CanSave(FiveOf(old(active))) && GoesThrough(old(active), command, faults) &&
               faults.start.docker) ==> ok
      ensures ok ==>
              Applied(old(active), active, command) && faults.record.Recorded? && AllRunning(containers) && network
      ensures ok ==> Holds(FiveOf(active), command)
      ensures var key := HistoryKey(metadata, command.revisionId.value);
        !ok ==> FiveOf(active) ==
                if faults.saving && CanSave(FiveOf(old(active)))
                then AfterFailure(FiveOf(old(active)), HasData(old(active)), FiveFiles(FilesOf(command).value),
                                  HistoryAt(old(configHistory), key), metadata, digests, faults)
                else FiveOf(old(active))
      ensures !ok ==> RecordFailed(Some(metadata), MetadataOf(active),
                                   Revised(metadata, command.revisionId, command.idempotencyKey), faults.record)
    {
      var key := HistoryKey(metadata, command.revisionId.value);
      var revised := Revised(metadata, command.revisionId, command.idempotencyKey);
      InstalledIsCommanded(command, FiveOf(active), HasData(active), metadata, faults);
      StartsExactly(command, active, metadata, faults.start);
      ok := SaveAndInstall(source, key, metadata, revised, faults);
      if ok { AppliedHolds(old(active), active, command); }
    }

    predicate RecordLeft(before: Directory, after: Directory, command: M.ConfigCommand, write: RecordWrite) {
      MetadataOf(after) == MetadataOf(before) ||
      (MetadataOf(before).Some? &&
       RecordFailed(MetadataOf(before), MetadataOf(after), Revised(MetadataOf(before).value, command.revisionId,
           command.idempotencyKey), write))
    }

    /** The history holds these files under the key, over what it held before. */
    predicate SavedUnder(before: map<string, Directory>, key: string, five: FiveNodes)
      reads this`configHistory
    {
      key in configHistory && FlatFiveOf(configHistory[key]) == SavedOver(HistoryAt(before, key), five)
    }

    /** From the saving of the active files on. */
    method SaveAndInstall(source: Directory, key: string, metadata: Metadata, revised: Metadata, faults: ApplyFaults)
        returns (ok: bool)
      requires Valid() && MetadataOf(active) == Some(metadata) && RecordOk(revised)
      modifies this`active, this`configHistory, this`containers, this`network
      ensures Valid() && OnlyConfiguration(old(active), active)
      ensures faults.saving && CanSave(FiveOf(old(active))) ==>
              SavedUnder(old(configHistory), key, FiveOf(old(active)))
      ensures ok ==> faults.saving && CanSave(FiveOf(old(active)))
      ensures ok ==> Installs(old(active), FlatFiveOf(source), metadata, faults)
      ensures (faults.saving && CanSave(FiveOf(old(active))) && faults.start.docker &&
               Installs(old(active), FlatFiveOf(source), metadata, faults)) ==> ok
      ensures ok ==> FiveOf(active) == TryFive(FiveOf(old(active)), HasData(old(active)), FlatFiveOf(source), metadata,
              digests, faults)
      ensures ok ==> MetadataOf(active) == Some(revised) && faults.record.Recorded? && AllRunning(containers) && network
      ensures !ok ==> RecordFailed(Some(metadata), MetadataOf(active), revised, faults.record)
      ensures !ok && !(faults.saving && CanSave(FiveOf(old(active)))) ==> FiveOf(active) == FiveOf(old(active))
      ensures !ok && faults.saving && CanSave(FiveOf(old(active))) ==>
              FiveOf(active) == AfterFailure(FiveOf(old(active)), HasData(old(active)), FlatFiveOf(source),
                                             HistoryAt(old(configHistory), key), metadata, digests, faults)
    {
      ok := SaveActive(key, faults.saving);
      if !ok { return; }
      ok := InstallOrRollBack(source, key, metadata, revised, faults);
    }

    /** Copied and started, the five files are those of the command. */
    lemma InstalledIsCommanded(command: M.ConfigCommand, five: FiveNodes, hasData: bool, metadata: Metadata,
        faults: ApplyFaults)
      requires digests.Valid() && EnvFile.OneLine(names.dashboard) && metadata.names == names && FilesOf(command).Ok?
      ensures var staged := FiveFiles(FilesOf(command).value);
        CopyAll(five, hasData, staged, faults.copy).Ok? ==>
            TryFive(five, hasData, staged, metadata, digests, faults) == staged
    {
      var staged := FiveFiles(FilesOf(command).value);
      if CopyAll(five, hasData, staged, faults.copy).Ok? {
        CopiedIsSource(five, hasData, staged, faults.copy);
        ConfigurationSettled(command, names, platformUrl, digests, FilesOf(command).value, metadata);
        CompleteKeeps(Envs(staged.runtimeEnv, staged.dashboardEnv), metadata, digests, faults.start.envs);
      }
    }

    /** On an instance with hermes-data whose files can be saved, a command that comes as far as its `try`
        leaves the five files as they were at every failure point exactly if the instance is provisioned. */
    lemma ApplyUndoneExactly(before: Directory, history: map<string, Directory>, command: M.ConfigCommand)
      requires Reaches(before, command, FailedCopy(NoFault)) && HasData(before)
      ensures (forall faults: ApplyFaults | faults.rollback.NoFault? ::
              FailedFive(before, history, command, faults) == FiveOf(before)) <==>
              Provisioned(before, digests)
    {
      var metadata := MetadataOf(before).value;
      var five, staged := FiveOf(before), FiveFiles(FilesOf(command).value);
      var stale := HistoryAt(history, HistoryKey(metadata, command.revisionId.value));
      if Provisioned(before, digests) {
        forall faults: ApplyFaults | faults.rollback.NoFault?
          ensures FailedFive(before, history, command, faults) == five
        {
          UndoneAlways(five, true, staged, stale, metadata, digests, faults);
        }
      } else {
        var faults := NotUndone(five, true, staged, stale, metadata, digests);
        assert Reaches(before, command, faults);
      }
    }

    /** From a provisioned instance, or without a record, no failure changes the five files. */
    lemma FailureUndone(before: Directory, history: map<string, Directory>, command: M.ConfigCommand,
        faults: ApplyFaults)
      requires faults.rollback.NoFault? && (Provisioned(before, digests) || MetadataOf(before).None?)
      ensures FailedFive(before, history, command, faults) == FiveOf(before)
    {
      if Reaches(before, command, faults) {
        var metadata := MetadataOf(before).value;
        UndoneAlways(FiveOf(before), true, FiveFiles(FilesOf(command).value),
                     HistoryAt(history, HistoryKey(metadata, command.revisionId.value)), metadata, digests, faults);
      }
    }

    predicate Applied(before: Directory, after: Directory, command: M.ConfigCommand) {
      && MetadataOf(before).Some? && ValidRevision(command.revisionId)
      && FilesOf(command).Ok? && FiveOf(after) == FiveFiles(FilesOf(command).value)
      && MetadataOf(after) == Some(MetadataOf(before).value.(configRevisionId := command.revisionId,
                                                             idempotencyKey := command.idempotencyKey))
    }

    lemma AppliedHolds(before: Directory, after: Directory, command: M.ConfigCommand)
      requires digests.Valid() && Applied(before, after, command)
      ensures Holds(FiveOf(after), command)
    {
      FilesHold(command);
    }

    /** A provisioned instance stays provisioned for as long as its record is readable. */
    lemma StaysProvisioned(before: Directory, after: Directory, command: M.ConfigCommand, write: RecordWrite)
      requires digests.Valid() && EnvFile.OneLine(names.dashboard) && Provisioned(before, digests)
      requires RecordOk(MetadataOf(before).value)
      requires Applied(before, after, command) || (FiveOf(after) == FiveOf(before) &&
               RecordLeft(before, after, command, write))
      requires MetadataOf(after).Some?
      ensures Provisioned(after, digests)
    {
      if !Applied(before, after, command) {
        AlikeSettled(FiveOf(before), MetadataOf(before).value, MetadataOf(after).value, digests);
      }
      if Applied(before, after, command) {
        ConfigurationSettled(command, names, platformUrl, digests, FilesOf(command).value, MetadataOf(after).value);
      }
    }

    /** hermes-data is there as before, with the same `memories` and config.yaml. */
    predicate OtherData(before: Directory, after: Directory) {
      SameMemories(before, after) && At(Data(after), ConfigYaml) == At(Data(before), ConfigYaml)
    }

    /** There is a list of skills, and it can be merged into the configuration. */
    predicate CanMerge(dir: Directory, disabled: Option<seq<string>>) {
      && disabled.Some? && SkillDocument(dir).Some?
      && libraries.mergeSkills(SkillDocument(dir).value, disabled.value).Some?
    }

    predicate SkillsMerged(before: Directory, after: Directory, disabled: Option<seq<string>>) {
      disabled.Some? && OwnerWritten(before, after, Skills(disabled.value))
    }

    /** Writes one of the five files. */
    method WriteEntry(n: Name, text: string, works: bool) returns (ok: bool)
      requires InFive(n)
      modifies this`active
      ensures works && HasData(old(active)) ==> ok
      ensures At(active, InstanceJson) == At(old(active), InstanceJson) && OtherData(old(active), active)
      ensures ok ==> FiveOf(active) == WithEntry(FiveOf(old(active)), n, Some(File(Text(text))))
    {
      var outcome: WriteOutcome := *;
      ok := CopyFileSecure(Some(File(Text(text))), n, if works then Written else outcome);
      FiveAfter(old(active), active, n);
    }

    /** The files of a provisioning, in order; the skill list is merged into config.yaml on the way. */
    method WriteProvisioned(five: M.Five, disabled: Option<seq<string>>, works: bool) returns (ok: bool)
      modifies this`active
      ensures At(active, InstanceJson) == At(old(active), InstanceJson) && SameMemories(old(active), active)
      ensures ok ==> FiveOf(active) == FiveFiles(five) && SkillsMerged(old(active), active, disabled)
      ensures works && HasData(old(active)) && CanMerge(old(active), disabled) ==> ok
    {
      ok := WriteEnvs(five, works);
      if !ok { return; }
      ok := WriteEntry(SoulMd, five.soul, works);
      if !ok { return; }
      ok := MergeSkills(disabled, works);
      if !ok { return; }
      ok := WriteEntry(ControlToken, five.controlToken, works);
    }

    method WriteEnvs(five: M.Five, works: bool) returns (ok: bool)
      modifies this`active
      ensures At(active, InstanceJson) == At(old(active), InstanceJson) && OtherData(old(active), active)
      ensures ok ==> FiveOf(active) == FiveOf(old(active)).(hermesEnv := Some(File(Text(five.hermesEnv))),
                       dashboardEnv := Some(File(Text(five.dashboardEnv))),
                       runtimeEnv := Some(File(Text(five.runtimeEnv))))
      ensures works && HasData(old(active)) ==> ok
    {
      ok := WriteEntry(HermesEnv, five.hermesEnv, works);
      if !ok { return; }
      ok := WriteEntry(DashboardEnv, five.dashboardEnv, works);
      if !ok { return; }
      ok := WriteEntry(RuntimeEnv, five.runtimeEnv, works);
    }

    method MergeSkills(disabled: Option<seq<string>>, works: bool) returns (ok: bool)
      modifies this`active
      ensures At(active, InstanceJson) == At(old(active), InstanceJson) && SameMemories(old(active), active)
      ensures FiveOf(active) == FiveOf(old(active))
      ensures ok ==> SkillsMerged(old(active), active, disabled)
      ensures works && HasData(old(active)) && CanMerge(old(active), disabled) ==> ok
    {
      if disabled.None? { return false; }
      var text := OwnerText(Skills(disabled.value), ActiveAt(active, ConfigYaml));
      if text.None? { return false; }
      var fault: AtomicFault := *;
      ok := AtomicWriteSecure(ConfigYaml, text.value, if works then AllGood else fault);
    }

    /** The allocator's view of the instance directories has this instance's record. */
    ghost predicate Linked(root: P.InstanceRoot)
      reads this, root
    {
      var key := root.range.instanceKey(agentId);
      (if key in root.instances then root.instances[key] else None) == MetadataOf(active)
    }

    /** The command's placement and configuration are there, which is checked first. */
    predicate BundleComplete(command: M.ConfigCommand) {
      command.config.Some? && command.placement.agentId == Some(command.agentId)
    }

    /** A provisioning that succeeds leaves the command's five files, the command's record with the
        allocated port, and nothing to complete: the state that runs of configuration commands start from.
        A repeated one that finds everything in place changes none of that, and is given the recorded port.
        However the write of the record ends, the allocator sees what it leaves. `disabled` is the command's
        skill list, or None where it is malformed. */
    method Provision(command: M.ConfigCommand, disabled: Option<seq<string>>, prepareSteps: nat, write: RecordWrite,
        works: bool, root: P.InstanceRoot)
      returns (r: Result<int, Failure>, replayed: bool)
      requires Valid() && command.agentId == agentId && root.Valid() && Linked(root)
      modifies this`active, this`containers, this`network, root
      ensures Valid() && root.Valid() && Linked(root)
      ensures P.Allots(root.range, old(root.records), root.records, agentId,
                       BundleComplete(command) && Prepare(At(old(active), HermesData), prepareSteps).Ok?,
                       if r.Ok? then Some(r.value) else None, r == Err(PortExhausted), write)
      ensures replayed ==>
              r.Ok? && MetadataOf(active) == MetadataOf(old(active)) && FiveOf(active) == FiveOf(old(active)) &&
              MetadataOf(active).Some? && MetadataOf(active).value.idempotencyKey == command.idempotencyKey
      ensures r.Ok? && !replayed ==> ProvisionedWith(FilesOf(command), M.ProvisionRecord(command, names, r.value))
      ensures r.Ok? && !replayed ==> Holds(FiveOf(active), command) && SkillsMerged(old(active), active, disabled)
      ensures (BundleComplete(command) && Prepare(At(old(active), HermesData), prepareSteps).Ok? &&
               P.Allocate(root.range, old(root.records), agentId).Some? && Provisions(old(active), command, disabled) &&
               works && write.Recorded?) ==> r.Ok?
      ensures r.Err? ==> MetadataOf(active) == MetadataOf(old(active)) ||
                         (P.Allocate(root.range, old(root.records), agentId).Some? &&
                          RecordFailed(MetadataOf(old(active)), MetadataOf(active),
                                       M.ProvisionRecord(command, names,
                                           P.Allocate(root.range, old(root.records), agentId).value), write))
      ensures r.Ok? && !replayed ==>
              MetadataOf(active).Some? && M.RecordsCommand(MetadataOf(active).value, command, names, r.value)
      ensures r == Err(InvalidInput) <==> command.config.None? || command.placement.agentId != Some(command.agentId)
    {
      FilesHold(command);
      r, replayed := ProvisionSteps(command, disabled, prepareSteps, write, works, root);
    }

    /** Its steps. */
    method ProvisionSteps(command: M.ConfigCommand, disabled: Option<seq<string>>, prepareSteps: nat,
        write: RecordWrite, works: bool, root: P.InstanceRoot)
      returns (r: Result<int, Failure>, replayed: bool)
      requires Valid() && command.agentId == agentId && root.Valid() && Linked(root)
      modifies this`active, this`containers, this`network, root
      ensures Valid() && root.Valid() && Linked(root)
      ensures P.Allots(root.range, old(root.records), root.records, agentId,
                       BundleComplete(command) && Prepare(At(old(active), HermesData), prepareSteps).Ok?,
                       if r.Ok? then Some(r.value) else None, r == Err(PortExhausted), write)
      ensures replayed ==>
              r.Ok? && MetadataOf(active) == MetadataOf(old(active)) && FiveOf(active) == FiveOf(old(active)) &&
              MetadataOf(active).Some? && MetadataOf(active).value.idempotencyKey == command.idempotencyKey
      ensures r.Ok? && !replayed ==> ProvisionedWith(FilesOf(command), M.ProvisionRecord(command, names, r.value))
      ensures r.Ok? && !replayed ==> SkillsMerged(old(active), active, disabled)
      ensures (BundleComplete(command) && Prepare(At(old(active), HermesData), prepareSteps).Ok? &&
               P.Allocate(root.range, old(root.records), agentId).Some? && Provisions(old(active), command, disabled) &&
               works && write.Recorded?) ==> r.Ok?
      ensures r.Err? ==> MetadataOf(active) == MetadataOf(old(active)) ||
                         (P.Allocate(root.range, old(root.records), agentId).Some? &&
                          RecordFailed(MetadataOf(old(active)), MetadataOf(active),
                                       M.ProvisionRecord(command, names,
                                           P.Allocate(root.range, old(root.records), agentId).value), write))
      ensures r == Err(InvalidInput) <==> !BundleComplete(command)
    {
      replayed := false;
      if !BundleComplete(command) { return Err(InvalidInput), false; }
      var port := PrepareInstance(prepareSteps, root);
      MemoriesKeepFive(old(active), active);
      if port.Err? { return Err(port.error), false; }
      PreparedReady(old(active), active, prepareSteps);
      ghost var between := active;
      r, replayed := FindOrProvision(command, disabled, port.value, write, works, root);
      MergesAlike(old(active), between, active, command, disabled);
    }

    /** Makes and prepares the directories, and allocates the port. */
    method PrepareInstance(prepareSteps: nat, root: P.InstanceRoot) returns (r: Result<int, Failure>)
      requires Valid() && root.Valid() && Linked(root)
      modifies this`active, root
      ensures Valid() && root.Valid() && Linked(root) && root.records == old(root.records)
      ensures root.range.instanceKey(agentId) in root.instances && OnlyMemories(old(active), active)
      ensures var prepared := Prepare(At(old(active), HermesData), prepareSteps);
        var port := P.Allocate(root.range, root.records, agentId);
        && (prepared.Ok? ==> At(active, HermesData) == prepared.value)
        && r == if prepared.Err? then Err(Failed) else if port.None? then Err(PortExhausted) else Ok(port.value)
    {
      root.MakeDirectory(agentId);
      var ok := PrepareHermesDataDirectory(prepareSteps);
      if !ok { return Err(Failed); }
      var port := root.AllocatePort(agentId);
      r := if port.None? then Err(PortExhausted) else Ok(port.value);
    }

    /** The command's files can be printed and started on, and its skill list merged. */
    predicate Provisions(before: Directory, command: M.ConfigCommand, disabled: Option<seq<string>>) {
      FilesOf(command).Ok? && ReadableSecrets(command) && CanMerge(before, disabled)
    }

    /** A prepared hermes-data can be prepared again, and has the same config.yaml. */
    lemma PreparedReady(before: Directory, after: Directory, steps: nat)
      requires Prepare(At(before, HermesData), steps) == Ok(At(after, HermesData)) && OnlyMemories(before, after)
      ensures HasData(after) && Prepare(At(after, HermesData), 4).Ok?
      ensures ActiveAt(after, ConfigYaml) == ActiveAt(before, ConfigYaml)
    {
    }

    lemma MergesAlike(before: Directory, between: Directory, after: Directory, command: M.ConfigCommand,
                      disabled: Option<seq<string>>)
      requires ActiveAt(between, ConfigYaml) == ActiveAt(before, ConfigYaml)
      ensures Provisions(between, command, disabled) <==> Provisions(before, command, disabled)
      ensures SkillsMerged(between, after, disabled) <==> SkillsMerged(before, after, disabled)
    {
    }

    /** From the look for an earlier provisioning on. */
    method FindOrProvision(command: M.ConfigCommand, disabled: Option<seq<string>>, port: int, write: RecordWrite,
        works: bool, root: P.InstanceRoot)
      returns (r: Result<int, Failure>, replayed: bool)
      requires Valid() && command.agentId == agentId && root.Valid() && Linked(root)
      requires root.range.instanceKey(agentId) in root.instances &&
               P.Allocate(root.range, root.records, agentId) == Some(port)
      modifies this`active, this`containers, this`network, root
      ensures Valid() && root.Valid() && Linked(root) && (r.Err? ==> r.error == Failed)
      ensures P.Allots(root.range, old(root.records), root.records, agentId, true, if r.Ok? then Some(r.value)
              else None, false, write)
      ensures replayed ==> r.Ok? && active == old(active) &&
                           MetadataOf(active).Some? && MetadataOf(active).value.idempotencyKey == command.idempotencyKey
      ensures r.Ok? && !replayed ==> ProvisionedWith(FilesOf(command), M.ProvisionRecord(command, names, r.value))
      ensures r.Ok? && !replayed ==> SkillsMerged(old(active), active, disabled)
      ensures (works && write.Recorded? && Provisions(old(active), command, disabled) && HasData(old(active)) &&
               Prepare(At(old(active), HermesData), 4).Ok?) ==> r.Ok?
      ensures r.Err? ==>
              RecordFailed(MetadataOf(old(active)), MetadataOf(active), M.ProvisionRecord(command, names, port), write)
    {
      replayed := false;
      var reuse := FindProvisioned(command.idempotencyKey, works, root);
      if reuse.Some? {
        if P.Sound(root.range, root.records) { P.AllocateStable(root.range, root.records, agentId); }
        assert root.records[agentId := reuse.value] == root.records;
        return Ok(reuse.value), true;
      }
      var record, files := M.ProvisionRecord(command, names, port), FilesOf(command);
      if files.Ok? {
        ConfigurationSettled(command, names, platformUrl, digests, files.value, record);
        StartsExactly(command, active, record, NO_FAULTS);
      }
      var ok := ProvisionAnew(files, disabled, record, write, works, root);
      r := if ok then Ok(port) else Err(Failed);
    }

    /** From the writing of the files on. */
    method ProvisionAnew(files: Result<M.Five, EnvFile.Error>, disabled: Option<seq<string>>, record: Metadata,
                         write: RecordWrite, works: bool, root: P.InstanceRoot) returns (ok: bool)
      requires Valid() && RecordOk(record) && (files.Ok? ==> FiveSettled(FiveFiles(files.value), record, digests))
      requires root.Valid() && Linked(root) && root.range.instanceKey(agentId) in root.instances
      requires record.runtimePort.Some? && P.Allocate(root.range, root.records, agentId) == record.runtimePort
      modifies this`active, this`containers, this`network, root
      ensures Valid() && root.Valid() && Linked(root)
      ensures ok ==> write.Recorded? && root.records == old(root.records)[agentId := record.runtimePort.value]
      ensures !ok ==> root.records == old(root.records) ||
                      (!write.Recorded? &&
                       root.records == P.RecordsAfter(old(root.records), agentId, record.runtimePort.value, write))
      ensures ok ==> ProvisionedWith(files, record) && SkillsMerged(old(active), active, disabled)
      ensures works && write.Recorded? && CanMerge(old(active), disabled) && StartsOn(files, old(active), record) ==> ok
      ensures !ok ==> RecordFailed(MetadataOf(old(active)), MetadataOf(active), record, write)
    {
      ok := StartProvisioned(files, disabled, record, works);
      if !ok { return; }
      ghost var between := active;
      ok := WriteProvisionRecord(record, write, root);
      MergedStays(old(active), between, active, disabled);
      if ok { ProvisionedNow(active, files.value, record); }
    }

    lemma MergedStays(before: Directory, between: Directory, after: Directory, disabled: Option<seq<string>>)
      requires ActiveAt(after, ConfigYaml) == ActiveAt(between, ConfigYaml)
      ensures SkillsMerged(before, between, disabled) <==> SkillsMerged(before, after, disabled)
    {
    }

    lemma ProvisionedNow(dir: Directory, five: M.Five, record: Metadata)
      requires FiveOf(dir) == FiveFiles(five) && MetadataOf(dir) == Some(record)
      requires FiveSettled(FiveFiles(five), record, digests)
      ensures Provisioned(dir, digests)
    {
    }

    /** Writes the record, which the allocator reads. */
    method WriteProvisionRecord(record: Metadata, write: RecordWrite, root: P.InstanceRoot) returns (ok: bool)
      requires Valid() && RecordOk(record)
      requires root.Valid() && Linked(root) && root.range.instanceKey(agentId) in root.instances
      requires record.runtimePort.Some? && P.Allocate(root.range, root.records, agentId) == record.runtimePort
      modifies this`active, root
      ensures Valid() && root.Valid() && Linked(root)
      ensures root.records == P.RecordsAfter(old(root.records), agentId, record.runtimePort.value, write)
      ensures MetadataOf(active) == RecordAfter(MetadataOf(old(active)), record, write) && (ok <==> write.Recorded?)
      ensures FiveOf(active) == FiveOf(old(active)) && ActiveAt(active, ConfigYaml) == ActiveAt(old(active), ConfigYaml)
      ensures HasData(active) <==> HasData(old(active))
    {
      ok := WriteRecord(record, write);
      assert Same(Data(old(active)), Data(active), ConfigYaml);
      root.WriteRecord(record, write);
    }

    /** The port of an earlier provisioning with this idempotency key whose three containers are all there. */
    method FindProvisioned(idempotencyKey: string, works: bool, root: P.InstanceRoot) returns (port: Option<int>)
      requires root.Valid() && root.range.instanceKey(agentId) in root.instances && Linked(root)
      ensures port.Some? ==> agentId in root.records && root.records[agentId] == port.value
      ensures port.Some? ==> MetadataOf(active).Some? && MetadataOf(active).value.idempotencyKey == idempotencyKey
    {
      var hermes := Exists(Hermes, works);
      var dashboard := Exists(Dashboard, works);
      var runtime := Exists(Runtime, works);
      port := root.Replay(agentId, idempotencyKey, hermes && dashboard && runtime);
    }

    /** The instance is provisioned with these files, and its containers run. */
    predicate ProvisionedWith(files: Result<M.Five, EnvFile.Error>, record: Metadata)
      reads this
    {
      && MetadataOf(active) == Some(record) && Provisioned(active, digests) && AllRunning(containers) && network
      && files.Ok? && FiveOf(active) == FiveFiles(files.value)
    }

    /** The files before the one that does not print may be written already. */
    method WriteFirstFiles()
      modifies this`active
      ensures At(active, InstanceJson) == At(old(active), InstanceJson)
    {
      var hermes: string, dashboard: string := *, *;
      var _ := WriteEntry(HermesEnv, hermes, false);
      var _ := WriteEntry(DashboardEnv, dashboard, false);
    }

    /** Everything but the record. */
    method StartProvisioned(files: Result<M.Five, EnvFile.Error>, disabled: Option<seq<string>>, record: Metadata,
                            works: bool) returns (ok: bool)
      requires Valid() && RecordOk(record) && (files.Ok? ==> FiveSettled(FiveFiles(files.value), record, digests))
      modifies this`active, this`containers, this`network
      ensures Valid() && At(active, InstanceJson) == At(old(active), InstanceJson)
      ensures ok ==> files.Ok? && FiveOf(active) == FiveFiles(files.value) && AllRunning(containers) && network
      ensures ok ==> SkillsMerged(old(active), active, disabled)
      ensures works && CanMerge(old(active), disabled) && StartsOn(files, old(active), record) ==> ok
    {
      if files.Err? {
        WriteFirstFiles();
        return false;
      }
      ok := WriteProvisioned(files.value, disabled, works);
      if !ok { return; }
      PrepareAlike(old(active), active, 4);
      ok := RunSettled(files.value, record, works);
    }

    /** The containers can be started on the files. */
    predicate StartsOn(files: Result<M.Five, EnvFile.Error>, dir: Directory, record: Metadata) {
      && files.Ok? && HasData(dir)
      && Starts(Envs(Some(File(Text(files.value.runtimeEnv))), Some(File(Text(files.value.dashboardEnv)))), dir, record,
                digests, NO_FAULTS)
    }

    method RunSettled(five: M.Five, record: Metadata, works: bool) returns (ok: bool)
      requires Valid() && RecordOk(record) && FiveSettled(FiveFiles(five), record, digests)
      requires FiveOf(active) == FiveFiles(five)
      modifies this`active, this`containers, this`network
      ensures Valid() && At(active, InstanceJson) == At(old(active), InstanceJson)
      ensures FiveOf(active) == FiveOf(old(active)) && At(Data(active), ConfigYaml) == At(Data(old(active)), ConfigYaml)
      ensures ok ==> AllRunning(containers) && network
      ensures works && Starts(EnvsOf(old(active)), old(active), record, digests, NO_FAULTS) ==> ok
    {
      var faults: StartFaults := *;
      faults := if works then NO_FAULTS else faults;
      SettledStays(FiveFiles(five), record, digests, faults.envs);
      ok := RunContainers(record, faults);
      assert Same(Data(old(active)), Data(active), ConfigYaml);
    }

    /** What one configuration command makes of the instance, given whether it succeeded and how a write of
        its record would end. */
    predicate StepDone(before: Directory, after: Directory, step: ConfigStep, ok: bool, write: RecordWrite) {
      if ok && step.Apply? then Applied(before, after, step.command)
      else FiveOf(after) == FiveOf(before) && RecordLeft(before, after, step.command, write)
    }

    /** Over every run of config.stage and config.apply, whatever fails in it, the five files are those of
        the last apply that succeeded. If no write of the record fails once the new one is complete, the
        record, as long as it is readable, names that apply's revision. `states` are the instance
        directories between the commands. */
    method RunConfigCommands(steps: seq<ConfigStep>, faults: seq<ApplyFaults>)
      returns (succeeded: seq<bool>, ghost states: seq<Directory>)
      requires Valid() && Provisioned(active, digests)
      requires forall s | s in steps :: s.command.agentId == agentId
      requires |faults| == |steps| && forall f | f in faults :: f.rollback.NoFault?
      modifies this`active, this`stagedConfig, this`configHistory, this`containers, this`network
      ensures Valid() && |succeeded| == |steps| && StatesOf(states, steps, succeeded, faults)
      ensures states[0] == old(active) && states[|steps|] == active
      ensures FiveOf(active) == Replay(ConfiguredAs(old(active)), steps, succeeded, names, platformUrl, digests).five
      ensures forall k | LastApply(steps, succeeded, k) :: Holds(FiveOf(active), steps[k].command)
      ensures (forall k | 0 <= k < |steps| :: !(succeeded[k] && steps[k].Apply?)) ==>
              FiveOf(active) == FiveOf(old(active))
      ensures (forall f | f in faults :: !f.record.LateFailure?) ==>
              Names(active, Replay(ConfiguredAs(old(active)), steps, succeeded, names, platformUrl, digests))
    {
      succeeded, states := [], [active];
      for i := 0 to |steps|
        invariant Valid() && (MetadataOf(active).Some? ==> Provisioned(active, digests))
        invariant |succeeded| == i && StatesOf(states, steps[..i], succeeded, faults[..i])
        invariant states[0] == old(active) && states[i] == active
      {
        assert steps[i] in steps && faults[i] in faults;
        var ok := RunConfigStep(steps[i], faults[i]);
        StatesNext(states, steps, succeeded, faults, i, ok, active);
        succeeded, states := succeeded + [ok], states + [active];
      }
      assert steps[..|steps|] == steps && faults[..|steps|] == faults;
      ReplayOfStates(states, steps, succeeded, faults);
      LastApplyHolds(states, steps, succeeded, faults);
    }

    /** The last apply that succeeded. */
    predicate LastApply(steps: seq<ConfigStep>, succeeded: seq<bool>, k: int) {
      && 0 <= k < |steps| == |succeeded| && succeeded[k] && steps[k].Apply?
      && forall j | k < j < |steps| :: !(succeeded[j] && steps[j].Apply?)
    }

    lemma LastApplyHolds(states: seq<Directory>, steps: seq<ConfigStep>, succeeded: seq<bool>, faults: seq<ApplyFaults>)
      requires digests.Valid() && StatesOf(states, steps, succeeded, faults)
      ensures forall k | LastApply(steps, succeeded, k) :: Holds(FiveOf(states[|steps|]), steps[k].command)
      ensures (forall k | 0 <= k < |steps| :: !(succeeded[k] && steps[k].Apply?)) ==>
              FiveOf(states[|steps|]) == FiveOf(states[0])
    {
      forall k | LastApply(steps, succeeded, k) ensures Holds(FiveOf(states[|steps|]), steps[k].command) {
        assert StepDone(states[k], states[k + 1], steps[k], succeeded[k], faults[k].record);
        AppliedHolds(states[k], states[k + 1], steps[k].command);
        FiveStay(states, steps, succeeded, faults, k + 1, |steps|);
      }
      if forall k | 0 <= k < |steps| :: !(succeeded[k] && steps[k].Apply?) {
        FiveStay(states, steps, succeeded, faults, 0, |steps|);
      }
    }

    lemma {:induction false} FiveStay(states: seq<Directory>, steps: seq<ConfigStep>, succeeded: seq<bool>,
                                      faults: seq<ApplyFaults>, from: nat, to: nat)
      requires StatesOf(states, steps, succeeded, faults) && from <= to <= |steps|
      requires forall k | from <= k < to :: !(succeeded[k] && steps[k].Apply?)
      ensures FiveOf(states[to]) == FiveOf(states[from])
    {
      if from < to {
        FiveStay(states, steps, succeeded, faults, from, to - 1);
        assert StepDone(states[to - 1], states[to], steps[to - 1], succeeded[to - 1], faults[to - 1].record);
      }
    }

    /** One state before and after each command, each made of the one before as the command answered. */
    predicate StatesOf(states: seq<Directory>, steps: seq<ConfigStep>, succeeded: seq<bool>, faults: seq<ApplyFaults>) {
      && |states| == |steps| + 1 && |succeeded| == |faults| == |steps|
      && forall i | 0 <= i < |steps| :: StepDone(states[i], states[i + 1], steps[i], succeeded[i], faults[i].record)
    }

    lemma StatesNext(states: seq<Directory>, steps: seq<ConfigStep>, succeeded: seq<bool>, faults: seq<ApplyFaults>,
                     i: nat, ok: bool, next: Directory)
      requires i < |steps| == |faults| && StatesOf(states, steps[..i], succeeded, faults[..i])
      requires StepDone(states[i], next, steps[i], ok, faults[i].record)
      ensures StatesOf(states + [next], steps[..i + 1], succeeded + [ok], faults[..i + 1])
    {
    }

    function ConfiguredAs(dir: Directory): Configured {
      Configured(if MetadataOf(dir).Some? then MetadataOf(dir).value.configRevisionId else None, FiveOf(dir))
    }

    /** A readable record names the revision. */
    predicate Names(dir: Directory, now: Configured) {
      MetadataOf(dir).Some? ==> MetadataOf(dir).value.configRevisionId == now.revision
    }

    lemma {:induction false} ReplayOfStates(states: seq<Directory>, steps: seq<ConfigStep>, succeeded: seq<bool>,
                                            faults: seq<ApplyFaults>)
      requires StatesOf(states, steps, succeeded, faults)
      ensures var now := Replay(ConfiguredAs(states[0]), steps, succeeded, names, platformUrl, digests);
        && FiveOf(states[|steps|]) == now.five
        && ((forall f | f in faults :: !f.record.LateFailure?) ==> Names(states[|steps|], now))
    {
      if steps != [] {
        var k := |steps| - 1;
        ReplayOfStates(states[..k + 1], steps[..k], succeeded[..k], faults[..k]);
        assert states[..k + 1][0] == states[0] && states[..k + 1][k] == states[k];
        assert faults[k] in faults && forall f | f in faults[..k] :: f in faults;
        FollowsNext(states[k], states[k + 1], steps[k], succeeded[k], faults[k].record,
                    Replay(ConfiguredAs(states[0]), steps[..k], succeeded[..k], names, platformUrl, digests));
      }
    }

    lemma FollowsNext(before: Directory, after: Directory, step: ConfigStep, ok: bool, write: RecordWrite,
        now: Configured)
      requires StepDone(before, after, step, ok, write) && FiveOf(before) == now.five
      ensures var next := if ok && step.Apply? && FilesOf(step.command).Ok?
                          then Configured(step.command.revisionId, FiveFiles(FilesOf(step.command).value)) else now;
        FiveOf(after) == next.five && (!write.LateFailure? && Names(before, now) ==> Names(after, next))
    {
    }

    /** A write of the record that fails once the new one is complete: the files are rolled back, and the
        record names the revision of the command that failed. */
    lemma LateFailureMisnames(before: Directory, after: Directory, command: M.ConfigCommand)
      requires MetadataOf(before).Some? && MetadataOf(after) != MetadataOf(before)
      requires StepDone(before, after, Apply(command), false, LateFailure)
      ensures FiveOf(after) == FiveOf(before)
      ensures MetadataOf(after).Some? && MetadataOf(after).value.configRevisionId == command.revisionId
    {
    }

    method RunConfigStep(step: ConfigStep, faults: ApplyFaults) returns (ok: bool)
      requires Valid() && step.command.agentId == agentId && faults.rollback.NoFault?
      requires MetadataOf(active).Some? ==> Provisioned(active, digests)
      modifies this`active, this`stagedConfig, this`configHistory, this`containers, this`network
      ensures Valid() && (MetadataOf(active).Some? ==> Provisioned(active, digests))
      ensures StepDone(old(active), active, step, ok, faults.record)
    {
      if step.Stage? {
        var staged := StageConfiguration(step.command, faults.staging);
        return staged.Ok?;
      }
      FailureUndone(active, configHistory, step.command, faults);
      var r := ApplyConfiguration(step.command, faults);
      ok := r.Ok?;
      if MetadataOf(old(active)).Some? && MetadataOf(active).Some? {
        StaysProvisioned(old(active), active, step.command, faults.record);
      }
    }

    // -------------------------------------------------------------- config.apply-user

    /** The new content of the owner's file: a merge of the skill list into the YAML document, or the soul
        with its line endings normalised. */
    function OwnerText(change: OwnerChange, current: Option<Node>): Option<string> {
      match change
      case Skills(disabled) =>
        (match current
         case None => libraries.mergeSkills("{}\n", disabled)
         case Some(File(Text(text))) => libraries.mergeSkills(text, disabled)
         case _ => None)
      case Identity(soul) => Some(LineFeeds(T.Normalise(soul)))
      case Malformed(_) => None
    }

    function OwnerFile(change: OwnerChange): Name {
      match change
      case Skills(_) => ConfigYaml
      case Identity(_) => SoulMd
      case Malformed(skills) => if skills then ConfigYaml else SoulMd
    }

    /** Writes a temporary file, renames it over the target and sets its mode. */
    method AtomicWriteSecure(n: Name, text: string, fault: AtomicFault) returns (ok: bool)
      requires n.SoulMd? || n.ConfigYaml?
      modifies this`active
      ensures OnlyActive(old(active), active, n) && (HermesData in active <==> HermesData in old(active))
      ensures ok <==> HasData(old(active)) && fault.AllGood?
      ensures ActiveAt(active, n) ==
              if HasData(old(active)) && !fault.BeforeRename? then Some(File(Text(text))) else ActiveAt(old(active), n)
      ensures n.ConfigYaml? ==> FiveOf(active) == FiveOf(old(active))
    {
      if !CanPut(active, n) { return false; }
      if fault.BeforeRename? {
        PutActiveAt(active, Temporary, fault.leftover);
        active := PutActive(active, Temporary, fault.leftover);
        return false;
      }
      PutActiveAt(active, n, Some(File(Text(text))));
      active := PutActive(active, n, Some(File(Text(text))));
      ok := fault.AllGood?;
    }

    /** Starts the Hermes container again and puts it back into its previous lifecycle state. */
    method RestartHermes(previous: Option<Status>, works: bool) returns (ok: bool)
      modifies this`containers
      ensures works ==> ok
      ensures ok ==> Hermes in containers && containers[Hermes] == RestartedAs(previous)
    {
      ok := ReplaceContainer(Hermes, works);
      if !ok { return; }
      ok := RestoreHermesLifecycle(previous, works);
    }

    /** The command gets as far as writing the owner's file. */
    predicate ReachesWrite(before: Directory, command: OwnerCommand, faults: OwnerFaults) {
      && MetadataOf(before).Some? && ValidRevision(command.revisionId) && command.change.Some? && faults.saving &&
          HasData(before)
      && var change := command.change.value;
      (match change
       case Skills(disabled) =>
         && (ActiveAt(before, ConfigYaml).Some? ==> Copyable(ActiveAt(before, ConfigYaml)))
         && SkillDocument(before).Some? && libraries.mergeSkills(SkillDocument(before).value, disabled).Some?
       case Identity(_) => ActiveAt(before, SoulMd).Some? ==> Copyable(ActiveAt(before, SoulMd))
       case Malformed(_) => false)
    }

    /** The document the skill list is merged into: config.yaml, or an empty one where there is none. */
    function SkillDocument(dir: Directory): Option<string> {
      match ActiveAt(dir, ConfigYaml)
      case None => Some("{}\n")
      case Some(File(Text(text))) => Some(text)
      case _ => None
    }

    /** config.apply-user is a transaction on the owner's file: it fails with the old content, or absence,
        except exactly where the write goes as far as the rename and then fails in its chmod, which is not
        rolled back. After success, and after a rollback that went through, the Hermes container is back in
        the lifecycle state it had exactly if the inspection before the change answered or the container
        ran; where there was none it runs. */
    method ApplyUserConfiguration(command: OwnerCommand, faults: OwnerFaults)
      returns (r: Result<(), Failure>, rolledBack: bool)
      requires Valid() && command.agentId == agentId
      modifies this`active, this`configHistory, this`containers
      ensures Valid()
      ensures r.Ok? || rolledBack ==>
              Hermes in containers &&
              LifecycleOf(containers[Hermes]) == LifecycleAfter(StatusIn(old(containers), Hermes), faults.inspects)
      ensures (r.Ok? || rolledBack) && faults.inspects && Hermes in old(containers) ==>
              match old(containers)[Hermes]
              case Paused => containers[Hermes] == Paused
              case Created => containers[Hermes] == Exited
              case Exited => containers[Hermes] == Exited
              case Dead => containers[Hermes] == Exited
              case _ => containers[Hermes] == Running
      ensures (r.Ok? || rolledBack) && Hermes in old(containers) ==>
              (BackAs(containers, old(containers)[Hermes]) <==>
                  faults.inspects || LifecycleOf(old(containers)[Hermes]) == Runs)
      ensures r.Ok? ==> OwnerApplied(old(active), active, command) && ReachesWrite(old(active), command, faults)
      ensures r.Ok? ==> faults.write.AllGood? && faults.record.Recorded?
      ensures ReachesWrite(old(active), command, faults) && faults.write.AllGood? && faults.docker ==>
              if faults.record.Recorded? then r.Ok? else rolledBack
      ensures r.Err? ==> OwnerRecordLeft(old(active), active, command, faults.record)
      ensures command.change.Some? ==> OwnerKept(old(active), active, OwnerFile(command.change.value))
      ensures r.Err? && command.change.Some? ==>
              var n := OwnerFile(command.change.value);
              if ReachesWrite(old(active), command, faults) && faults.write.ChmodFails?
              then OwnerWritten(old(active), active, command.change.value)
              else ActiveAt(active, n) == ActiveAt(old(active), n)
    {
      rolledBack := false;
      var record := MetadataOf(active);
      if record.None? { return Err(NotFound), false; }
      if !ValidRevision(command.revisionId) || command.change.None? { return Err(InvalidInput), false; }
      var change := command.change.value;
      var n := OwnerFile(change);
      var current := ActiveAt(active, n);
      var previous := ContainerStatus(Hermes, faults.inspects);
      var key := HistoryKey(record.value, command.revisionId.value);
      var saved := SaveOwnerFile(key, n, faults.saving);
      if !saved { return Err(Failed), false; }
      var text := OwnerText(change, current);
      if text.None? { return Err(InvalidInput), false; }
      RestartedClass(previous);
      r, rolledBack := InstallOwnerFile(n, text.value, key, current, previous,
        Revised(record.value, command.revisionId, command.idempotencyKey), faults);
      if ActiveAt(active, n) == Some(File(Text(text.value))) { OwnerTextWritten(old(active), active, change); }
    }

    predicate OwnerRecordLeft(before: Directory, after: Directory, command: OwnerCommand, write: RecordWrite) {
      MetadataOf(after) == MetadataOf(before) ||
      (MetadataOf(before).Some? &&
       RecordFailed(MetadataOf(before), MetadataOf(after), Revised(MetadataOf(before).value, command.revisionId,
           command.idempotencyKey), write))
    }

    /** From the writing of the file on: the change, and its rollback, which a failed write does not get. */
    method InstallOwnerFile(n: Name, text: string, key: string, current: Option<Node>, previous: Option<Status>,
                            revised: Metadata, faults: OwnerFaults)
      returns (r: Result<(), Failure>, rolledBack: bool)
      requires (n.SoulMd? || n.ConfigYaml?) && current == ActiveAt(active, n)
      requires current.Some? ==> current.value.File? && key in configHistory && At(configHistory[key], n) == current
      modifies this`active, this`containers
      ensures r.Ok? || rolledBack ==>
              Hermes in containers && containers[Hermes] == RestartedAs(previous)
      ensures OwnerKept(old(active), active, n)
      ensures r.Ok? ==> ActiveAt(active, n) == Some(File(Text(text))) && MetadataOf(active) == Some(revised)
      ensures r.Ok? ==> HasData(old(active)) && faults.write.AllGood? && faults.record.Recorded?
      ensures HasData(old(active)) && faults.write.AllGood? && faults.docker ==>
              if faults.record.Recorded? then r.Ok? else rolledBack
      ensures r.Err? ==> RecordFailed(MetadataOf(old(active)), MetadataOf(active), revised, faults.record)
      ensures r.Err? ==>
              ActiveAt(active, n) ==
                if HasData(old(active)) && faults.write.ChmodFails? then Some(File(Text(text))) else current
    {
      rolledBack := false;
      var ok := AtomicWriteSecure(n, text, faults.write);
      if !ok { return Err(Failed), false; }
      ok := RestartHermes(previous, faults.docker);
      if ok {
        ok := WriteMetadata(revised, faults.record);
        if ok { return Ok(()), false; }
      }
      rolledBack := UndoOwnerFile(key, n, current, previous, faults.docker);
      r := Err(Failed);
    }

    /** The `catch`: the file as it was, and the container started on it. */
    method UndoOwnerFile(key: string, n: Name, current: Option<Node>, previous: Option<Status>, works: bool)
      returns (restarted: bool)
      requires (n.SoulMd? || n.ConfigYaml?) && HasData(active)
      requires current.Some? ==> current.value.File? && key in configHistory && At(configHistory[key], n) == current
      modifies this`active, this`containers
      ensures OnlyActive(old(active), active, n) && ActiveAt(active, n) == current
      ensures works ==> restarted
      ensures restarted ==> Hermes in containers && containers[Hermes] == RestartedAs(previous)
    {
      RollBackOwnerFile(key, n, current.Some?);
      restarted := RestartHermes(previous, works);
    }

    /** The file has the content the change asks for: config.yaml, or an empty document where there is none,
        with the skill list merged into it; SOUL.md the soul, with a line feed for each line break. */
    predicate OwnerWritten(before: Directory, after: Directory, change: OwnerChange) {
      match change
      case Skills(disabled) =>
        SkillDocument(before).Some? && libraries.mergeSkills(SkillDocument(before).value, disabled).Some? &&
        ActiveAt(after, ConfigYaml) ==
          Some(File(Text(libraries.mergeSkills(SkillDocument(before).value, disabled).value)))
      case Identity(soul) => ActiveAt(after, SoulMd) == Some(File(Text(T.Unbroken(soul))))
      case Malformed(_) => false
    }

    /** The text computed is the one asked for. */
    lemma OwnerTextWritten(before: Directory, after: Directory, change: OwnerChange)
      requires var text := OwnerText(change, ActiveAt(before, OwnerFile(change)));
        text.Some? && ActiveAt(after, OwnerFile(change)) == Some(File(Text(text.value)))
      ensures OwnerWritten(before, after, change)
    {
      if change.Identity? { BreaksInOnePass(change.soul); }
    }

    /** Nothing but the owner's file and the record may differ. */
    ghost predicate OwnerKept(before: Directory, after: Directory, n: Name) {
      && (forall m | m != HermesData && m != InstanceJson :: At(after, m) == At(before, m))
      && (forall m | m != Temporary && m != n :: At(Data(after), m) == At(Data(before), m))
    }

    predicate OwnerApplied(before: Directory, after: Directory, command: OwnerCommand) {
      && MetadataOf(before).Some? && ValidRevision(command.revisionId)
      && command.change.Some? && OwnerWritten(before, after, command.change.value)
      && MetadataOf(after) == Some(MetadataOf(before).value.(configRevisionId := command.revisionId,
                                                             idempotencyKey := command.idempotencyKey))
    }

    /** Copies the saved file back; removes the file if there was none, or if its copy is gone. */
    method RollBackOwnerFile(key: string, n: Name, hadFile: bool)
      requires (n.SoulMd? || n.ConfigYaml?) && HasData(active)
      modifies this`active
      ensures OnlyActive(old(active), active, n)
      ensures var copy := if key in configHistory then At(configHistory[key], n) else None;
        ActiveAt(active, n) == if !hadFile || copy.None? then None else if Copyable(copy) then copy
            else ActiveAt(old(active), n)
    {
      if hadFile && key in configHistory && n in configHistory[key] {
        var _ := CopyFileSecure(Some(configHistory[key][n]), n, Written);
      } else {
        PutActiveAt(active, n, None);
        active := PutActive(active, n, None);
      }
    }

    /** Copies the owner's file, if there is one, into the history directory. */
    method SaveOwnerFile(key: string, n: Name, works: bool) returns (ok: bool)
      modifies this`configHistory
      ensures ok <==> works && (ActiveAt(active, n).Some? ==> Copyable(ActiveAt(active, n)))
      ensures ok && ActiveAt(active, n).Some? ==>
              key in configHistory && At(configHistory[key], n) == ActiveAt(active, n)
    {
      var history := if key in configHistory then configHistory[key] else map[];
      var source := ActiveAt(active, n);
      if !works || (source.Some? && !Copyable(source)) {
        var wreck: Directory := *;
        configHistory := configHistory[key := wreck];
        return false;
      }
      configHistory := configHistory[key := if source.Some? then history[n := source.value] else history];
      ok := true;
    }

    // -------------------------------------------------------------- backup.create and backup.restore

    /** 12 random bytes in base64, and the time as an ISO string. */
    method RandomFields() returns (iv: string, createdAt: string)
      ensures |iv| == 16 && Envelope.Unescaped(iv) && |createdAt| <= 27 && Envelope.Unescaped(createdAt)
    {
      iv, createdAt := *, *;
      if |iv| != 16 || !Envelope.Unescaped(iv) { iv := seq(16, _ => 'A'); }
      if |createdAt| > 27 || !Envelope.Unescaped(createdAt) { createdAt := ""; }
    }

    /** A successful backup can be read back to exactly the five archived entries of the instance; the
        plaintext archive is gone whether it succeeds or not. A hermes-data in which some path leads to a
        link or a special file is refused, and no other directory is. */
    method CreateBackup(backupId: string, works: bool) returns (r: Result<(), Failure>)
      requires Valid() && libraries.Valid()
      modifies this`vault
      ensures r.Ok? ==> BackupSet(active).Some? && ArchiveIn(libraries, vault, backupId, agentId) == BackupSet(active)
      ensures hasBackupKey && MetadataOf(active).Some? && Envelope.Identifier(backupId) && HasData(active) ==>
              (r == Err(UnsafeBackup) <==> !PlainTree(active[HermesData]))
      ensures r.Ok? ==> hasBackupKey && MetadataOf(active).Some? && Envelope.Identifier(backupId)
      ensures r.Ok? ==> (PlainEntries(BackupSet(active).value) <==> active[HermesData].Dir? && EnvsPlain(active))
      ensures (hasBackupKey && MetadataOf(active).Some? && Envelope.Identifier(backupId) && HasData(active) &&
               PlainTree(active[HermesData]) && BackupSet(active).Some? && works) ==> r.Ok?
      ensures vault == old(vault) || Plain(backupId) !in vault
      ensures forall f | f != Plain(backupId) && f != Backup(backupId) && f in old(vault) ::
              f in vault && vault[f] == old(vault)[f]
    {
      if !hasBackupKey { return Err(NoBackupKey); }
      if MetadataOf(active).None? { return Err(NotFound); }
      if !Envelope.Identifier(backupId) { return Err(InvalidInput); }
      if HermesData !in active { return Err(InvalidBackup); }
      var safe := DataIsSafe(active[HermesData]);
      if safe.Err? { return Err(safe.error); }
      var archive := BackupSet(active);
      var ok := false;
      if archive.Some? {
        ok := PackAndSeal(backupId, archive.value, works);
        ArchivePlain(active);
      }
      vault := vault - {Plain(backupId)};
      r := if ok then Ok(()) else Err(Failed);
    }

    /** The entries that a backup archives unchecked. */
    ghost predicate EnvsPlain(dir: Directory) {
      forall n | n in dir && n in {HermesEnv, DashboardEnv, RuntimeEnv} :: PlainTree(dir[n])
    }

    lemma ArchivePlain(dir: Directory)
      requires BackupSet(dir).Some? && MetadataOf(dir).Some?
      ensures PlainEntries(BackupSet(dir).value) <==> PlainTree(dir[HermesData]) && EnvsPlain(dir)
      ensures dir[HermesData].Link? ==> !PlainTree(dir[HermesData])
    {
      var archive := BackupSet(dir).value;
      SafeExactly(dir[InstanceJson]);
      SafeExactly(dir[HermesData]);
      assert forall n | n in archive :: archive[n] == dir[n];
    }

    /** The check of hermes-data. A link there is followed, to a tree outside the instance. */
    method DataIsSafe(data: Node) returns (r: Result<(), Failure>)
      ensures data.Dir? ==> r == if SafeNode(data) then Ok(()) else Err(UnsafeBackup)
      ensures data.Dir? ==> (r.Ok? <==> PlainTree(data))
      ensures data.File? || data.Special? ==> r == Err(Failed)
    {
      SafeExactly(data);
      var elsewhere: Result<(), Failure> := *;
      match data {
        case Dir(_) => r := if SafeNode(data) then Ok(()) else Err(UnsafeBackup);
        case Link(_) => r := elsewhere;
        case _ => r := Err(Failed);
      }
    }

    /** The body of the `try`: tar, encryption and the writing of the envelope. */
    method PackAndSeal(backupId: string, archive: Directory, works: bool) returns (ok: bool)
      requires Valid() && libraries.Valid() && Envelope.Identifier(backupId)
      modifies this`vault
      ensures works ==> ok
      ensures ok ==> ArchiveIn(libraries, vault - {Plain(backupId)}, backupId, agentId) == Some(archive)
      ensures forall f | f != Plain(backupId) && f != Backup(backupId) && f in old(vault) ::
              f in vault && vault[f] == old(vault)[f]
    {
      var packed: bool, written: bool, wreck: Envelope.Bytes := *, *, *;
      packed, written := works || packed, works || written;
      var plain := libraries.tar(archive);
      vault := vault[Plain(backupId) := if packed then plain else wreck];
      if !packed { return false; }
      var iv, createdAt := RandomFields();
      Envelope.BackupRoundTrip(libraries.crypto, backupId, agentId, iv, createdAt, plain);
      var header := Envelope.HeaderFor(libraries.crypto, backupId, agentId, iv, createdAt, plain);
      var output := Envelope.Frame(header, libraries.crypto.encrypt(iv, plain));
      ok := written;
      vault := vault[Backup(backupId) := if ok then output else wreck];
      if ok { SealedReadsBack(libraries, vault - {Plain(backupId)}, backupId, agentId, iv, createdAt, archive); }
    }

    method StopContainers(works: bool) returns (ok: bool)
      modifies this`containers
      ensures works ==> ok && forall role | role in old(containers) ::
                role in containers && containers[role] == Exited
    {
      ok := StopContainer(Runtime, works);
      if !ok { return; }
      ok := StopContainer(Dashboard, works);
      if !ok { return; }
      ok := StopContainer(Hermes, works);
    }

    /** Stops a container that exists. */
    method StopContainer(role: Role, works: bool) returns (ok: bool)
      modifies this`containers
      ensures works ==> ok
      ensures works && role in old(containers) ==> role in containers && containers[role] == Exited
      ensures forall other | other != role :: other in containers <==> other in old(containers)
      ensures forall other | other != role && other in containers :: containers[other] == old(containers)[other]
    {
      var present := Exists(role, works);
      ok := true;
      if present { ok := Docker(role, Some(Exited), works); }
    }

    /** The environment files are files, and there are no sockets or pipes. */
    predicate Saveable(saved: Saved) {
      EnvsAreFiles(saved) && (saved.data.Some? ==> NoSpecial(saved.data.value))
    }

    /** Copies what the restore will replace into its history directory, with relative links resolved. */
    method SaveHistory(restoreId: string, works: bool) returns (ok: bool)
      modifies this`restoreHistory
      ensures works && Saveable(SavedOf(active)) ==> ok
      ensures ok ==>
              restoreId in restoreHistory && restoreHistory[restoreId] ==
              Place(map[], CopiedSaved(SavedOf(active), home))
      ensures ok ==> Saveable(SavedOf(active))
    {
      var copied: bool, wreck: Directory := *, *;
      var saved := SavedOf(active);
      ok := (works || copied) && EnvsAreFiles(saved) && (HermesData in active ==> NoSpecial(active[HermesData]));
      restoreHistory := restoreHistory[restoreId := if ok then Place(map[], CopiedSaved(saved, home)) else wreck];
    }

    /** The forward file steps: the data directory is removed and the staged one renamed into its place,
        and the environment files are copied. */
    method PlaceArchive(restoreId: string, archive: Directory, works: bool) returns (ok: bool)
      requires archive.Keys == ARCHIVED
      modifies this`active, this`restoreStaging
      ensures (ok ==> EnvsCopyable(archive)) && (works && EnvsCopyable(archive) ==> ok)
      ensures OnlySaved(old(active), active)
      ensures ok ==> active == Place(old(active), SavedOf(archive))
    {
      var removed: bool, renamed: bool, wreck: Option<Node> := *, *, *;
      removed, renamed := works || removed, works || renamed;
      WithIn(active, HermesData, if removed then None else wreck);
      WithIn(active, HermesData, Some(archive[HermesData]));
      active := With(active, HermesData, if removed then None else wreck);
      if !removed || !renamed { return false; }
      active := With(active, HermesData, Some(archive[HermesData]));
      restoreStaging := restoreStaging[restoreId := archive - {HermesData}];
      ghost var before := active;
      ok := PlaceEnvs(archive, works);
      OnlySavedThrough(old(active), before, active);
    }

    predicate EnvsCopyable(archive: Directory) {
      Copyable(At(archive, HermesEnv)) && Copyable(At(archive, DashboardEnv)) && Copyable(At(archive, RuntimeEnv))
    }

    method PlaceEnvs(archive: Directory, works: bool) returns (ok: bool)
      requires archive.Keys == ARCHIVED
      modifies this`active
      ensures (ok ==> EnvsCopyable(archive)) && (works && EnvsCopyable(archive) ==> ok)
      ensures OnlySaved(old(active), active)
      ensures ok ==>
              active == With(With(With(old(active), HermesEnv, At(archive, HermesEnv)),
                                  DashboardEnv, At(archive, DashboardEnv)),
                             RuntimeEnv, At(archive, RuntimeEnv))
    {
      ok := PlaceEnv(archive, HermesEnv, works);
      if !ok { return; }
      ghost var before := active;
      ok := PlaceEnv(archive, DashboardEnv, works);
      OnlySavedThrough(old(active), before, active);
      if !ok { return; }
      before := active;
      ok := PlaceEnv(archive, RuntimeEnv, works);
      OnlySavedThrough(old(active), before, active);
    }

    method PlaceEnv(archive: Directory, n: Name, works: bool) returns (ok: bool)
      requires n in {HermesEnv, DashboardEnv, RuntimeEnv}
      modifies this`active
      ensures (ok ==> Copyable(At(archive, n))) && (works && Copyable(At(archive, n)) ==> ok)
      ensures OnlySaved(old(active), active)
      ensures ok ==> active == With(old(active), n, At(archive, n))
    {
      var outcome: WriteOutcome := *;
      ok := CopyFileSecure(At(archive, n), n, if works then Written else outcome);
      OnlyActiveIn(old(active), active, n);
    }

    /** The body of the inner `try`: the files are placed and the containers started on the result. */
    method InstallArchive(restoreId: string, archive: Directory, metadata: Metadata, works: bool, faults: StartFaults)
        returns (ok: bool)
      requires Valid() && archive.Keys == ARCHIVED && RecordOk(metadata)
      modifies this`active, this`restoreStaging, this`containers, this`network
      ensures OnlySaved(old(active), active) && At(active, InstanceJson) == At(old(active), InstanceJson)
      ensures ok ==> AllRunning(containers) && network && RestoredTo(active, archive, metadata, faults)
      ensures ok ==> EnvsCopyable(archive)
      ensures (works && faults.docker && EnvsCopyable(archive) &&
               Start(SavedOf(archive), metadata, digests, faults).Ok?) ==> ok
    {
      ok := PlaceArchive(restoreId, archive, works);
      OnlySavedThrough(old(active), old(active), active);
      if !ok { return; }
      PlaceSaved(old(active), SavedOf(archive));
      ok := RunAfter(metadata, old(active), faults);
      if ok { StartedExactly(SavedOf(archive), metadata, digests, faults); }
    }

    /** Starts the containers on what was placed. */
    method RunAfter(metadata: Metadata, ghost before: Directory, faults: StartFaults) returns (ok: bool)
      requires digests.Valid() && EnvFile.OneLine(metadata.names.dashboard) && OnlySaved(before, active)
      modifies this`active, this`containers, this`network
      ensures SavedOf(active) == Left(Start(SavedOf(old(active)), metadata, digests, faults))
      ensures ok ==> Start(SavedOf(old(active)), metadata, digests, faults).Ok? && AllRunning(containers) && network
      ensures Start(SavedOf(old(active)), metadata, digests, faults).Ok? && faults.docker ==> ok
      ensures OnlySaved(before, active) && At(active, InstanceJson) == At(before, InstanceJson)
    {
      ok := RunContainers(metadata, faults);
      OnlyStartedIn(old(active), active);
      OnlySavedThrough(before, old(active), active);
    }

    /** The saved entries are those of the archive, as the start of the containers leaves them: unchanged
        exactly if they are normal. */
    predicate RestoredTo(after: Directory, archive: Directory, metadata: Metadata, faults: StartFaults) {
      && Start(SavedOf(archive), metadata, digests, faults) == Ok(SavedOf(after))
      && (SavedOf(after) == SavedOf(archive) <==> Normal(SavedOf(archive), metadata, digests))
    }

    /** Copies back what the history holds, and removes what it does not. */
    method PutFilesBack(restoreId: string, ghost saved: Saved)
      requires restoreId in restoreHistory && restoreHistory[restoreId] == Place(map[], CopiedSaved(saved, home))
      modifies this`active
      ensures active == Place(old(active), CopiedSaved(saved, home))
    {
      var history := restoreHistory[restoreId];
      PlaceSaved(map[], CopiedSaved(saved, home));
      CopiedSavedExactly(saved, home);
      CopiedSavedExactly(CopiedSaved(saved, home), home + ["restore-history", restoreId]);
      var kept := CopiedSaved(SavedOf(history), home + ["restore-history", restoreId]);
      active := With(active, HermesData, kept.data);
      active := With(active, HermesEnv, kept.hermesEnv);
      active := With(active, DashboardEnv, kept.dashboardEnv);
      active := With(active, RuntimeEnv, kept.runtimeEnv);
    }

    /** The rollback: everything saved is put back, what was absent is removed, and the containers are
        started again if all three environment files were there, whatever comes of that. The entries are
        then as that start leaves the copies; where it goes through, unchanged exactly if they are normal
        and hermes-data has no relative link. */
    method PutBackHistory(restoreId: string, ghost saved: Saved, metadata: Metadata, restart: StartFaults)
        returns (restarted: bool)
      requires Valid() && RecordOk(metadata)
      requires restoreId in restoreHistory && restoreHistory[restoreId] == Place(map[], CopiedSaved(saved, home))
      modifies this`active, this`containers, this`network
      ensures OnlySaved(old(active), active) && At(active, InstanceJson) == At(old(active), InstanceJson)
      ensures SavedOf(active) == RolledBack(saved, home, metadata, digests, restart)
      ensures restarted ==> AllEnvs(saved) && (SavedOf(active) == saved <==> Undisturbed(saved, metadata))
    {
      restarted := false;
      PutFilesBack(restoreId, saved);
      PlaceSaved(old(active), CopiedSaved(saved, home));
      if HermesEnv in active && DashboardEnv in active && RuntimeEnv in active {
        restarted := RunAfter(metadata, old(active), restart);
        if restarted { RestartedExactly(saved, home, metadata, digests, restart); }
      }
    }

    /** Saved entries that a rollback with a restart gives back as they were. */
    predicate Undisturbed(saved: Saved, metadata: Metadata) {
      Normal(saved, metadata, digests) && LinksAbsolute(saved.data)
    }

    /** An acceptable archive whose entries can be copied and started on, over entries that can be saved. */
    predicate Restores(saved: Saved, archive: Option<Directory>, metadata: Metadata, faults: StartFaults) {
      && archive.Some? && Acceptable(archive.value, agentId) && EnvsCopyable(archive.value) && Saveable(saved)
      && Start(SavedOf(archive.value), metadata, digests, faults).Ok?
    }

    /** An archive of entries that may be there, of directories and files alone. */
    ghost predicate Unobjectionable(archive: Option<Directory>) {
      archive.Some? && archive.value != map[] && archive.value.Keys <= ARCHIVED && PlainEntries(archive.value)
    }

    /** Lists, extracts and validates the archive. */
    method Unpack(restoreId: string, plain: Envelope.Bytes, works: bool) returns (r: Result<Directory, Failure>)
      modifies this`restoreStaging
      ensures works && libraries.untar(plain).Some? && Acceptable(libraries.untar(plain).value, agentId) ==> r.Ok?
      ensures r.Ok? ==> libraries.untar(plain) == Some(r.value) && Acceptable(r.value, agentId)
      ensures r.Err? ==> r.error in {Failed, UnsafeBackup, InvalidBackup, IdentityMismatch}
      ensures r.Ok? ==> PlainEntries(r.value)
      ensures r == Err(UnsafeBackup) ==> !Unobjectionable(libraries.untar(plain))
    {
      var unpacked := libraries.untar(plain);
      var listed: bool, extracted: bool, parses: bool, junk: Directory := *, *, *, *;
      listed, extracted := works || listed, works || extracted;
      if !listed { return Err(Failed); }
      if unpacked.None? { return Err(UnsafeBackup); }
      SafeEntries(unpacked.value);
      var archive := unpacked.value;
      if archive == map[] || !(archive.Keys <= ARCHIVED) { return Err(UnsafeBackup); }
      restoreStaging := restoreStaging[restoreId := if extracted then archive else junk];
      if !extracted { return Err(Failed); }
      if exists n | n in archive :: !SafeNode(archive[n]) { return Err(UnsafeBackup); }
      var archived := MetadataOf(archive);
      if archived.None? { return Err(if parses then IdentityMismatch else Failed); }
      if archived.value.agentId != agentId { return Err(IdentityMismatch); }
      if !(ARCHIVED <= archive.Keys) { return Err(InvalidBackup); }
      r := Ok(archive);
    }

    /** What happens to the unpacked archive inside the outer `try`. `rolledBack` says whether a failure
        came after the first file step, and `restarted` whether the containers started again then. */
    method RestoreStaged(command: RestoreCommand, plain: Envelope.Bytes, metadata: Metadata, faults: RestoreFaults)
      returns (r: Result<(), Failure>, rolledBack: bool, restarted: bool)
      requires Valid() && MetadataOf(active) == Some(metadata)
      modifies this`active, this`restoreStaging, this`restoreHistory, this`containers, this`network
      ensures Valid() && MetadataOf(active) == Some(metadata) && OnlySaved(old(active), active)
      ensures r.Ok? ==> Restores(SavedOf(old(active)), libraries.untar(plain), metadata, faults.start)
      ensures (Restores(SavedOf(old(active)), libraries.untar(plain), metadata, faults.start) && faults.works &&
               faults.start.docker) ==> r.Ok?
      ensures r.Ok? ==>
              AllRunning(containers) && network && RestoredFrom(active, libraries.untar(plain), metadata, faults.start)
      ensures r.Ok? ==> command.restoreId in restoreHistory &&
                        SavedOf(restoreHistory[command.restoreId]) == CopiedSaved(SavedOf(old(active)), home)
      ensures r.Err? ==> PutBackFrom(SavedOf(old(active)), SavedOf(active), metadata, faults.restart, rolledBack,
              restarted)
      ensures r.Err? ==> r.error in {Failed, UnsafeBackup, InvalidBackup, IdentityMismatch}
      ensures r.Ok? ==> libraries.untar(plain).Some? && PlainEntries(libraries.untar(plain).value)
      ensures r == Err(UnsafeBackup) ==> !Unobjectionable(libraries.untar(plain))
    {
      rolledBack, restarted := false, false;
      var unpacked := Unpack(command.restoreId, plain, faults.works);
      if unpacked.Err? { return Err(unpacked.error), false, false; }
      var archive := unpacked.value;
      var saved := SaveHistory(command.restoreId, faults.works);
      if !saved { return Err(Failed), false, false; }
      PlaceSaved(map[], CopiedSaved(SavedOf(active), home));
      var stopped := StopContainers(faults.works);
      if !stopped { return Err(Failed), false, false; }
      ghost var before := SavedOf(active);
      var installed := InstallArchive(command.restoreId, archive, metadata, faults.works, faults.start);
      if installed { return Ok(()), false, false; }
      ghost var between := active;
      restarted := PutBackHistory(command.restoreId, before, metadata, faults.restart);
      OnlySavedThrough(old(active), between, active);
      r, rolledBack := Err(Failed), true;
    }

    /** An acceptable archive, restored. */
    predicate RestoredFrom(after: Directory, archive: Option<Directory>, metadata: Metadata, faults: StartFaults) {
      archive.Some? && Acceptable(archive.value, agentId) && RestoredTo(after, archive.value, metadata, faults)
    }

    /** The saved entries after a failure: as they were before the first file step, and as the rollback
        leaves them after it. */
    predicate PutBackFrom(before: Saved, after: Saved, metadata: Metadata, restart: StartFaults, rolledBack: bool,
        restarted: bool) {
      && after == (if rolledBack then RolledBack(before, home, metadata, digests, restart) else before)
      && (restarted ==> rolledBack && AllEnvs(before) && (after == before <==> Undisturbed(before, metadata)))
    }

    /** One of the checks that come first fails. */
    predicate Refuses(command: RestoreCommand)
      reads this
    {
      || !command.approved || MetadataOf(active).None?
      || !Envelope.Identifier(command.backupId) || !Envelope.Identifier(command.restoreId)
      || !hasBackupKey || Backup(command.backupId) !in vault
      || Envelope.ReadBackup(libraries.crypto, vault[Backup(command.backupId)], command.backupId, agentId).Err?
    }

    /** backup.restore is a transaction. It fails with hermes-data and the three environment files as they
        were, contents and presence, or succeeds with those of the archive and the old ones in the restore
        history. Relative links in hermes-data are absolute in the history, and so after a rollback; where
        containers are started on the entries, these are unchanged exactly if normal. A failed check touches
        nothing; a failed preparation, before the `try`, leaves behind what its fault says; and from the
        `try` on the plaintext archive and the staging directory are gone afterwards. */
    method RestoreBackup(command: RestoreCommand, faults: RestoreFaults)
        returns (r: Result<(), Failure>, rolledBack: bool, restarted: bool)
      requires Valid() && command.agentId == agentId
      modifies this`active, this`vault, this`restoreStaging, this`restoreHistory, this`containers, this`network
      ensures Valid() && MetadataOf(active) == MetadataOf(old(active)) && OnlySaved(old(active), active)
      ensures old(Refuses(command)) ==>
              r.Err? && active == old(active) && vault == old(vault) && restoreStaging == old(restoreStaging) &&
              restoreHistory == old(restoreHistory) && containers == old(containers)
      ensures r.Ok? ==> !old(Refuses(command)) && AllRunning(containers) && network
      ensures r.Ok? ==> RestoredFrom(active, ArchiveIn(libraries, old(vault), command.backupId, agentId),
              MetadataOf(active).value, faults.start)
      ensures r.Ok? ==> command.restoreId in restoreHistory &&
                        SavedOf(restoreHistory[command.restoreId]) == CopiedSaved(SavedOf(old(active)), home)
      ensures var archive := ArchiveIn(libraries, old(vault), command.backupId, agentId);
        && (r.Ok? ==> archive.Some? && PlainEntries(archive.value))
        && (r.Ok? ==>
              faults.setup.Ready? && Restores(SavedOf(old(active)), archive, MetadataOf(active).value, faults.start))
        && ((!old(Refuses(command)) && faults.setup.Ready? && faults.works && faults.start.docker &&
             Restores(SavedOf(old(active)), archive, MetadataOf(active).value, faults.start)) ==> r.Ok?)
        && (r == Err(UnsafeBackup) ==> !Unobjectionable(archive))
      ensures r.Err? && !old(Refuses(command)) ==>
              PutBackFrom(SavedOf(old(active)), SavedOf(active), MetadataOf(active).value, faults.restart, rolledBack,
                  restarted)
      ensures r.Err? && (MetadataOf(active).Some? ==> PutsBack(SavedOf(old(active)), MetadataOf(active).value,
              digests)) ==>
              SavedOf(active) == SavedOf(old(active))
      ensures forall f | f in old(vault) && f != Plain(command.restoreId) :: f in vault && vault[f] == old(vault)[f]
      ensures !old(Refuses(command)) ==> Traces(old(vault), command.restoreId, faults.setup, r)
    {
      rolledBack, restarted := false, false;
      if !command.approved { return Err(ApprovalRequired), false, false; }
      var record := MetadataOf(active);
      if record.None? { return Err(NotFound), false, false; }
      if !Envelope.Identifier(command.backupId) || !Envelope.Identifier(command.restoreId) {
        return Err(InvalidInput), false, false;
      }
      if !hasBackupKey { return Err(NoBackupKey), false, false; }
      if Backup(command.backupId) !in vault { return Err(NotFound), false, false; }
      var read := Envelope.ReadBackup(libraries.crypto, vault[Backup(command.backupId)], command.backupId, agentId);
      if read.Err? { return Err(BackupFailed(read.error)), false, false; }
      r, rolledBack, restarted := RestorePlain(command, read.value, record.value, faults);
      if PutsBack(SavedOf(old(active)), record.value, digests) {
        PutBack(SavedOf(old(active)), home, record.value, digests, faults.restart);
      }
    }

    /** What a restore leaves of its plaintext archive and its staging directory. */
    predicate Traces(before: map<VaultFile, Envelope.Bytes>, restoreId: string, fault: SetupFault,
        r: Result<(), Failure>)
      reads this
    {
      match fault
      case Ready => Plain(restoreId) !in vault && restoreId !in restoreStaging
      case EmptyingFails(left) => r == Err(SetupFailed) && vault == before &&
          StagedUnder(restoreStaging, restoreId) == left
      case WritingFails(wreck) =>
        r == Err(SetupFailed) && PlainUnder(vault, restoreId) == wreck &&
            StagedUnder(restoreStaging, restoreId) == Some(map[])
    }

    function StagedUnder(staging: map<string, Directory>, restoreId: string): Option<Directory> {
      if restoreId in staging then Some(staging[restoreId]) else None
    }

    function PlainUnder(files: map<VaultFile, Envelope.Bytes>, restoreId: string): Option<Envelope.Bytes> {
      if Plain(restoreId) in files then Some(files[Plain(restoreId)]) else None
    }

    /** From the preparation on, and the `finally`. */
    method RestorePlain(command: RestoreCommand, plain: Envelope.Bytes, metadata: Metadata, faults: RestoreFaults)
      returns (r: Result<(), Failure>, rolledBack: bool, restarted: bool)
      requires Valid() && MetadataOf(active) == Some(metadata)
      modifies this`active, this`vault, this`restoreStaging, this`restoreHistory, this`containers, this`network
      ensures Valid() && MetadataOf(active) == Some(metadata) && OnlySaved(old(active), active)
      ensures r.Ok? ==> Restores(SavedOf(old(active)), libraries.untar(plain), metadata, faults.start)
      ensures (faults.setup.Ready? && faults.works && faults.start.docker &&
               Restores(SavedOf(old(active)), libraries.untar(plain), metadata, faults.start)) ==> r.Ok?
      ensures r.Ok? ==>
              AllRunning(containers) && network && RestoredFrom(active, libraries.untar(plain), metadata, faults.start)
      ensures r.Ok? ==> command.restoreId in restoreHistory &&
                        SavedOf(restoreHistory[command.restoreId]) == CopiedSaved(SavedOf(old(active)), home)
      ensures r.Err? ==> PutBackFrom(SavedOf(old(active)), SavedOf(active), metadata, faults.restart, rolledBack,
              restarted)
      ensures r.Ok? ==> libraries.untar(plain).Some? && PlainEntries(libraries.untar(plain).value)
      ensures r == Err(UnsafeBackup) ==> !Unobjectionable(libraries.untar(plain))
      ensures forall f | f in old(vault) && f != Plain(command.restoreId) :: f in vault && vault[f] == old(vault)[f]
      ensures Traces(old(vault), command.restoreId, faults.setup, r) && (r.Ok? ==> faults.setup.Ready?)
    {
      rolledBack, restarted := false, false;
      var prepared := PrepareRestore(command.restoreId, plain, faults.setup);
      if !prepared { return Err(SetupFailed), false, false; }
      r, rolledBack, restarted := RestoreStaged(command, plain, metadata, faults);
      RemoveTraces(command.restoreId);
    }

    /** The `finally`. */
    method RemoveTraces(restoreId: string)
      modifies this`vault, this`restoreStaging
      ensures Plain(restoreId) !in vault && restoreId !in restoreStaging
      ensures forall f | f in old(vault) && f != Plain(restoreId) :: f in vault && vault[f] == old(vault)[f]
      ensures forall id | id in old(restoreStaging) && id != restoreId ::
                id in restoreStaging && restoreStaging[id] == old(restoreStaging)[id]
    {
      vault := vault - {Plain(restoreId)};
      restoreStaging := restoreStaging - {restoreId};
    }

    /** Empties the staging directory and writes the plaintext archive, outside any `try`. */
    method PrepareRestore(restoreId: string, plain: Envelope.Bytes, fault: SetupFault) returns (ok: bool)
      modifies this`restoreStaging, this`vault
      ensures forall f | f in old(vault) && f != Plain(restoreId) :: f in vault && vault[f] == old(vault)[f]
      ensures ok <==> fault.Ready?
      ensures !ok ==> Traces(old(vault), restoreId, fault, Err(SetupFailed))
    {
      if fault.EmptyingFails? {
        restoreStaging := if fault.left.Some? then restoreStaging[restoreId := fault.left.value]
            else restoreStaging - {restoreId};
        return false;
      }
      restoreStaging := restoreStaging[restoreId := map[]];
      if fault.WritingFails? {
        vault := if fault.wreck.Some? then vault[Plain(restoreId) := fault.wreck.value] else vault - {Plain(restoreId)};
        return false;
      }
      vault := vault[Plain(restoreId) := plain];
      ok := true;
    }

    /** End to end: what was backed up comes back, whatever happened to the instance in between, provided
        the backup file was left alone and the record still names this agent. */
    method BackUpThenRestore(backupId: string, command: RestoreCommand, works: bool, faults: RestoreFaults)
      returns (created: Result<(), Failure>, restored: Result<(), Failure>)
      requires Valid() && libraries.Valid() && command.agentId == agentId && command.backupId == backupId
      modifies this
      ensures created.Ok? && restored.Ok? ==> MetadataOf(active).Some?
      ensures created.Ok? && restored.Ok? ==>
              (SavedOf(active) == SavedOf(old(active)) <==> Normal(SavedOf(old(active)), MetadataOf(active).value,
                  digests))
    {
      restored := Err(Failed);
      created := CreateBackup(backupId, works);
      if created.Err? { return; }
      BackupSetSaves(active);
      var ours := Meanwhile(backupId);
      if !ours { return; }
      var rolledBack, restarted;
      restored, rolledBack, restarted := RestoreBackup(command, faults);
    }

    /** Anything at all happens to files, history, containers and other backups. */
    method Meanwhile(backupId: string) returns (ours: bool)
      requires Valid() && Backup(backupId) in vault
      modifies this
      ensures ours ==> Valid()
      ensures ArchiveIn(libraries, vault, backupId, agentId) == ArchiveIn(libraries, old(vault), backupId, agentId)
    {
      var kept := vault[Backup(backupId)];
      active, vault, stagedConfig, configHistory, restoreStaging, restoreHistory, containers, network :=
          *, *, *, *, *, *, *, *;
      vault := vault[Backup(backupId) := kept];
      ours := MetadataOf(active).Some? ==> RecordOk(MetadataOf(active).value);
    }
  }
}
