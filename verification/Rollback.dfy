/** What the supervisor's file steps leave behind, as values, for every way in which they can fail; and
    exactly when its rollbacks put everything back. */
module Rollback {
  import opened Wrappers
  import opened Instance
  import opened InstanceFiles
  import EnvFile
  import M = Management

  /** A step on files: Ok where the code goes on, Err where it throws, each with what is there then. */
  type Step<T> = Result<T, T>

  function Left<T>(step: Step<T>): T {
    if step.Ok? then step.value else step.error
  }

  /** A write that succeeds, or one that fails and leaves anything, or nothing, in its target. */
  datatype WriteOutcome = Written | Torn(wreck: Option<Node>)

  function Wrote(node: Option<Node>, outcome: WriteOutcome): Option<Node> {
    if outcome.Written? then node else outcome.wreck
  }

  // ---------------------------------------------------------------- ensureManagementConfiguration

  /** The two files that starting the containers may complete. */
  datatype Envs = Envs(runtime: Option<Node>, dashboard: Option<Node>)

  datatype EnvWrites = EnvWrites(runtime: WriteOutcome, dashboard: WriteOutcome)

  const ALL_WRITTEN := EnvWrites(Written, Written)

  function EnvsOf(dir: Directory): Envs {
    Envs(At(dir, RuntimeEnv), At(dir, DashboardEnv))
  }

  /** The file steps, from the text of the runtime file, what it is to become, and what a missing
      dashboard file is to hold. */
  function CompleteText(e: Envs, text: string, managed: Printed, missing: Printed, writes: EnvWrites): Step<Envs> {
    var first := CompleteRuntime(e, text, managed, writes.runtime);
    if first.Err? then first else CreateDashboard(first.value, missing, writes.dashboard)
  }

  function CompleteRuntime(e: Envs, text: string, managed: Printed, outcome: WriteOutcome): Step<Envs> {
    if managed.Err? then Err(e)
    else if managed.value == text then Ok(e)
    else if outcome.Torn? then Err(e.(runtime := outcome.wreck))
    else Ok(e.(runtime := Some(File(Text(managed.value)))))
  }

  type Printed = Result<string, EnvFile.Error>

  function CreateDashboard(e: Envs, missing: Printed, outcome: WriteOutcome): Step<Envs> {
    if e.dashboard.Some? then Ok(e)
    else if missing.Err? then Err(e)
    else if outcome.Torn? then Err(e.(dashboard := outcome.wreck))
    else Ok(e.(dashboard := Some(File(Text(missing.value)))))
  }

  function Complete(e: Envs, metadata: Metadata, digests: M.Digests, writes: EnvWrites): Step<Envs> {
    match e.runtime
    case Some(File(Text(text))) =>
      CompleteText(e, text, M.ManageRuntime(text, metadata, digests), M.MissingDashboard(text, metadata, digests),
          writes)
    case _ => Err(e)
  }

  /** Nothing is left for ensureManagementConfiguration to write. */
  predicate EnvsSettled(e: Envs, metadata: Metadata, digests: M.Digests) {
    match e.runtime
    case Some(File(Text(text))) =>
      TextSettled(e, text, M.ManageRuntime(text, metadata, digests), M.MissingDashboard(text, metadata, digests))
    case _ => true
  }

  predicate TextSettled(e: Envs, text: string, managed: Printed, missing: Printed) {
    managed.Err? || (managed == Ok(text) && (e.dashboard.Some? || missing.Err?))
  }

  /** Settled, read off the entries of the runtime file: they cannot be completed, or not printed when
      they are; or they are complete, and there is a dashboard file or none that can be made. */
  lemma SettledEntries(e: Envs, text: string, metadata: Metadata, digests: M.Digests)
    requires digests.Valid() && EnvFile.OneLine(metadata.names.dashboard) && e.runtime == Some(File(Text(text)))
    ensures EnvsSettled(e, metadata, digests) <==>
            var values := EnvFile.ReadEnv(text);
            var completed := M.Complete(values, metadata, digests);
            if completed.Err? then true
            else if M.Has(values, completed.value) then e.dashboard.Some? ||
                M.MissingDashboard(text, metadata, digests).Err?
            else EnvFile.PrintEnv(M.PutCompleted(values, completed.value)).Err?
  {
    M.ManagedEntries(text, metadata, digests);
  }

  /** Where the files are settled nothing is written, and only there: a completion that is allowed all
      its writes changes any others. */
  lemma CompleteKeeps(e: Envs, metadata: Metadata, digests: M.Digests, writes: EnvWrites)
    ensures EnvsSettled(e, metadata, digests) ==> Left(Complete(e, metadata, digests, writes)) == e
    ensures Left(Complete(e, metadata, digests, ALL_WRITTEN)) == e ==> EnvsSettled(e, metadata, digests)
    ensures Complete(e, metadata, digests, writes) == Ok(e) ==> EnvsSettled(e, metadata, digests)
    ensures EnvsSettled(e, metadata, digests) ==>
            Complete(e, metadata, digests, writes) == Complete(e, metadata, digests, ALL_WRITTEN)
  {
    match e.runtime
    case Some(File(Text(text))) =>
      TextKeeps(e, text, M.ManageRuntime(text, metadata, digests), M.MissingDashboard(text, metadata, digests), writes);
    case _ =>
  }

  lemma TextKeeps(e: Envs, text: string, managed: Printed, missing: Printed, writes: EnvWrites)
    requires e.runtime == Some(File(Text(text)))
    ensures TextSettled(e, text, managed, missing) ==> Left(CompleteText(e, text, managed, missing, writes)) == e
    ensures Left(CompleteText(e, text, managed, missing, ALL_WRITTEN)) == e ==> TextSettled(e, text, managed, missing)
    ensures CompleteText(e, text, managed, missing, writes) == Ok(e) ==> TextSettled(e, text, managed, missing)
    ensures TextSettled(e, text, managed, missing) ==>
            CompleteText(e, text, managed, missing, writes) == CompleteText(e, text, managed, missing, ALL_WRITTEN)
  {
  }

  /** One call of ensureManagementConfiguration that goes through settles the files: any later one goes
      through too and writes nothing. */
  lemma CompleteSettles(e: Envs, metadata: Metadata, digests: M.Digests, writes: EnvWrites, later: EnvWrites)
    requires digests.Valid() && EnvFile.OneLine(metadata.names.dashboard)
    requires Complete(e, metadata, digests, writes).Ok?
    ensures var after := Complete(e, metadata, digests, writes).value;
      EnvsSettled(after, metadata, digests) && Complete(after, metadata, digests, later) == Ok(after)
  {
    var text := e.runtime.value.content.text;
    var managed := M.ManageRuntime(text, metadata, digests);
    TextCompleted(e, text, managed, M.MissingDashboard(text, metadata, digests), writes);
    M.ManageFixpoint(text, metadata, digests);
    CompletedStays(Complete(e, metadata, digests, writes).value, managed.value, metadata, digests, later);
  }

  lemma TextCompleted(e: Envs, text: string, managed: Printed, missing: Printed, writes: EnvWrites)
    requires e.runtime == Some(File(Text(text))) && CompleteText(e, text, managed, missing, writes).Ok?
    ensures managed.Ok?
    ensures var after := CompleteText(e, text, managed, missing, writes).value;
      after.dashboard.Some? && after.runtime == Some(File(Text(managed.value)))
  {
  }

  lemma CompletedStays(e: Envs, text: string, metadata: Metadata, digests: M.Digests, writes: EnvWrites)
    requires e.dashboard.Some? && e.runtime == Some(File(Text(text))) &&
             M.ManageRuntime(text, metadata, digests) == Ok(text)
    ensures EnvsSettled(e, metadata, digests) && Complete(e, metadata, digests, writes) == Ok(e)
  {
  }

  // ---------------------------------------------------------------- prepareHermesDataDirectory

  /** Its four steps, directory and ownership of hermes-data and then of `memories`; `steps` of them go
      through, if the entries in their way allow it. */
  function Prepare(data: Option<Node>, steps: nat): Step<Option<Node>> {
    if steps == 0 || (data.Some? && !data.value.Dir?) then Err(data) else
    var children := if data.None? then map[] else data.value.children;
    if steps == 1 then Err(Some(Dir(children)))
    else if Memories in children then
      (if children[Memories].Dir? && steps >= 4 then Ok(Some(Dir(children))) else Err(Some(Dir(children))))
    else if steps == 2 then Err(Some(Dir(children)))
    else if steps == 3 then Err(Some(Dir(children[Memories := Dir(map[])])))
    else Ok(Some(Dir(children[Memories := Dir(map[])])))
  }

  // ---------------------------------------------------------------- runContainers

  /** How far the file steps of a start of the containers come, and whether no Docker command fails. */
  datatype StartFaults = StartFaults(envs: EnvWrites, prepareSteps: nat, docker: bool)

  const NO_FAULTS := StartFaults(ALL_WRITTEN, 4, true)

  function EnvsOfSaved(s: Saved): Envs {
    Envs(s.runtimeEnv, s.dashboardEnv)
  }

  function WithEnvs(s: Saved, e: Envs): Saved {
    s.(runtimeEnv := e.runtime, dashboardEnv := e.dashboard)
  }

  /** The file steps of a start. */
  function Start(s: Saved, metadata: Metadata, digests: M.Digests, faults: StartFaults): Step<Saved> {
    var completed := Complete(EnvsOfSaved(s), metadata, digests, faults.envs);
    if completed.Err? then Err(WithEnvs(s, completed.error)) else
    var prepared := Prepare(s.data, faults.prepareSteps);
    var after := WithEnvs(s, completed.value).(data := Left(prepared));
    if prepared.Ok? then Ok(after) else Err(after)
  }

  /** All file steps of a start go through, with these files and this hermes-data. */
  predicate Starts(e: Envs, dir: Directory, metadata: Metadata, digests: M.Digests, faults: StartFaults) {
    Complete(e, metadata, digests, faults.envs).Ok? && Prepare(At(dir, HermesData), faults.prepareSteps).Ok?
  }

  lemma StartsOnText(text: string, dashboard: string, dir: Directory, metadata: Metadata, digests: M.Digests,
                     faults: StartFaults)
    requires M.ManageRuntime(text, metadata, digests).Ok? ==> M.ManageRuntime(text, metadata, digests) == Ok(text)
    ensures Starts(Envs(Some(File(Text(text))), Some(File(Text(dashboard)))), dir, metadata, digests, faults) <==>
            M.ManageRuntime(text, metadata, digests).Ok? && Prepare(At(dir, HermesData), faults.prepareSteps).Ok?
  {
  }

  /** Preparing goes as far where hermes-data has the same `memories`. */
  lemma PrepareAlike(before: Directory, after: Directory, steps: nat)
    requires At(Data(after), Memories) == At(Data(before), Memories)
    requires HasData(before) <==> HasData(after)
    requires HermesData in before <==> HermesData in after
    ensures Prepare(At(after, HermesData), steps).Ok? <==> Prepare(At(before, HermesData), steps).Ok?
  {
  }

  /** The start put together from what its two parts make of a directory. */
  lemma StartInSteps(before: Directory, between: Directory, after: Directory, metadata: Metadata, digests: M.Digests,
                     faults: StartFaults, completed: bool, ok: bool)
    requires Complete(EnvsOf(before), metadata, digests, faults.envs) ==
             if completed then Ok(EnvsOf(between)) else Err(EnvsOf(between))
    requires OnlyEnv(before, between) && OnlyMemories(between, after)
    requires if completed then Prepare(At(between, HermesData), faults.prepareSteps) ==
                               if ok then Ok(At(after, HermesData)) else Err(At(after, HermesData))
             else !ok && after == between
    ensures Start(SavedOf(before), metadata, digests, faults) == if ok then Ok(SavedOf(after)) else Err(SavedOf(after))
    ensures FiveOf(after) == CompleteFive(FiveOf(before), metadata, digests, faults.envs)
    ensures OnlyStarted(before, after) && At(after, InstanceJson) == At(before, InstanceJson)
  {
    EnvThenMemories(before, between, after);
    MemoriesKeepFive(between, after);
    PartsKept(before, between, after);
    assert EnvsOfSaved(SavedOf(before)) == EnvsOf(before);
  }

  lemma PartsKept(before: Directory, between: Directory, after: Directory)
    requires OnlyEnv(before, between) && OnlyMemories(between, after)
    ensures SavedOf(between) == WithEnvs(SavedOf(before), EnvsOf(between))
    ensures SavedOf(after) == SavedOf(between).(data := At(after, HermesData))
    ensures FiveOf(between) ==
            FiveOf(before).(runtimeEnv := EnvsOf(between).runtime, dashboardEnv := EnvsOf(between).dashboard)
  {
  }

  /** Management-normalised environment files, and a hermes-data with its `memories`. */
  predicate Normal(saved: Saved, metadata: Metadata, digests: M.Digests) {
    && saved.data.Some? && saved.data.value.Dir? && Memories in saved.data.value.children
    && saved.data.value.children[Memories].Dir?
    && EnvsSettled(EnvsOfSaved(saved), metadata, digests)
  }

  /** A start that goes through changes nothing exactly on normal files. */
  lemma StartedExactly(s: Saved, metadata: Metadata, digests: M.Digests, faults: StartFaults)
    requires Start(s, metadata, digests, faults).Ok?
    ensures Start(s, metadata, digests, faults) == Ok(s) <==> Normal(s, metadata, digests)
  {
    CompleteKeeps(EnvsOfSaved(s), metadata, digests, faults.envs);
    PreparedExactly(s.data, faults.prepareSteps);
    assert WithEnvs(s, EnvsOfSaved(s)) == s;
  }

  lemma PreparedExactly(data: Option<Node>, steps: nat)
    requires Prepare(data, steps).Ok?
    ensures Prepare(data, steps) == Ok(data) <==>
            data.Some? && data.value.Dir? && Memories in data.value.children && data.value.children[Memories].Dir?
  {
  }

  /** hermes-data has its `memories`, or something in its way. */
  predicate DataStays(data: Option<Node>) {
    data.Some? && (data.value.Dir? ==> Memories in data.value.children)
  }

  lemma PrepareKeeps(data: Option<Node>, steps: nat)
    ensures DataStays(data) ==> Left(Prepare(data, steps)) == data
    ensures Left(Prepare(data, 4)) == data ==> DataStays(data)
  {
    if DataStays(data) && data.value.Dir? {
      assert Dir(data.value.children) == data.value;
    }
  }

  /** No start changes these files, however far it comes: they are settled, and if they can be completed
      hermes-data stays as it is. */
  predicate StartKeeps(s: Saved, metadata: Metadata, digests: M.Digests) {
    && EnvsSettled(EnvsOfSaved(s), metadata, digests)
    && (Complete(EnvsOfSaved(s), metadata, digests, ALL_WRITTEN).Ok? ==> DataStays(s.data))
  }

  lemma StartKept(s: Saved, metadata: Metadata, digests: M.Digests, faults: StartFaults)
    requires StartKeeps(s, metadata, digests)
    ensures Left(Start(s, metadata, digests, faults)) == s
  {
    CompleteKeeps(EnvsOfSaved(s), metadata, digests, faults.envs);
    PrepareKeeps(s.data, faults.prepareSteps);
    assert WithEnvs(s, EnvsOfSaved(s)) == s;
  }

  lemma StartChanges(s: Saved, metadata: Metadata, digests: M.Digests)
    requires Left(Start(s, metadata, digests, NO_FAULTS)) == s
    ensures StartKeeps(s, metadata, digests)
  {
    CompleteKeeps(EnvsOfSaved(s), metadata, digests, ALL_WRITTEN);
    PrepareKeeps(s.data, 4);
  }

  // ---------------------------------------------------------------- the rollback of a restore

  predicate AllEnvs(saved: Saved) {
    saved.hermesEnv.Some? && saved.dashboardEnv.Some? && saved.runtimeEnv.Some?
  }

  /** What is there after the rollback: the copies of the saved entries, on which the containers are
      started again only if all three environment files were among them. */
  function RolledBack(saved: Saved, home: seq<string>, metadata: Metadata, digests: M.Digests, restart: StartFaults)
    : Saved
  {
    var copied := CopiedSaved(saved, home);
    if AllEnvs(copied) then Left(Start(copied, metadata, digests, restart)) else copied
  }

  predicate PutsBack(saved: Saved, metadata: Metadata, digests: M.Digests) {
    LinksAbsolute(saved.data) && (AllEnvs(saved) ==> StartKeeps(saved, metadata, digests))
  }

  /** The rollback is exact however far the restart comes, exactly where hermes-data has no relative link
      and no start would change the saved entries: a condition that a caller can check before the restore. */
  lemma RolledBackExactly(saved: Saved, home: seq<string>, metadata: Metadata, digests: M.Digests)
    ensures (forall restart :: RolledBack(saved, home, metadata, digests, restart) == saved) <==>
            PutsBack(saved, metadata, digests)
  {
    if PutsBack(saved, metadata, digests) {
      forall restart ensures RolledBack(saved, home, metadata, digests, restart) == saved {
        PutBack(saved, home, metadata, digests, restart);
      }
    } else if RolledBack(saved, home, metadata, digests, NO_FAULTS) == saved {
      RelativeLinkLost(saved, home, metadata, digests, NO_FAULTS);
      CopiedSavedExactly(saved, home);
      StartChanges(saved, metadata, digests);
    }
  }

  lemma PutBack(saved: Saved, home: seq<string>, metadata: Metadata, digests: M.Digests, restart: StartFaults)
    requires PutsBack(saved, metadata, digests)
    ensures RolledBack(saved, home, metadata, digests, restart) == saved
  {
    CopiedSavedExactly(saved, home);
    if AllEnvs(saved) { StartKept(saved, metadata, digests, restart); }
  }

  /** A relative link in hermes-data is not put back by any rollback, nor is it in the history. */
  lemma RelativeLinkLost(saved: Saved, home: seq<string>, metadata: Metadata, digests: M.Digests, restart: StartFaults)
    ensures LinksAbsolute(RolledBack(saved, home, metadata, digests, restart).data)
    ensures LinksAbsolute(CopiedSaved(saved, home).data)
    ensures !LinksAbsolute(saved.data) ==>
            RolledBack(saved, home, metadata, digests, restart) != saved && CopiedSaved(saved, home) != saved
  {
    var copied := CopiedSaved(saved, home);
    CopiedSavedExactly(saved, home);
    PrepareKeepsLinks(copied.data, restart.prepareSteps);
  }

  lemma PrepareKeepsLinks(data: Option<Node>, steps: nat)
    requires LinksAbsolute(data)
    ensures LinksAbsolute(Left(Prepare(data, steps)))
  {
  }

  /** Where the restart goes through, the entries are as before exactly if they are normal and hermes-data
      has no relative link. */
  lemma RestartedExactly(saved: Saved, home: seq<string>, metadata: Metadata, digests: M.Digests, restart: StartFaults)
    requires Start(CopiedSaved(saved, home), metadata, digests, restart).Ok?
    ensures Start(CopiedSaved(saved, home), metadata, digests, restart) == Ok(saved) <==>
            Normal(saved, metadata, digests) && LinksAbsolute(saved.data)
  {
    var copied := CopiedSaved(saved, home);
    CopiedSavedExactly(saved, home);
    PrepareKeepsLinks(copied.data, restart.prepareSteps);
    StartedExactly(copied, metadata, digests, restart);
  }

  // ---------------------------------------------------------------- copying the five files

  lemma FiveNames(i: nat)
    requires i < |FIVE|
    ensures InFive(FIVE[i])
    ensures FIVE[i] == match i
                       case 0 => HermesEnv case 1 => DashboardEnv case 2 => RuntimeEnv
                       case 3 => SoulMd case _ => ControlToken
  {
  }

  /** Which copy fails, and what it leaves in its target. */
  datatype CopyFault = NoFault | FailsAt(at: nat, wreck: Option<Node>)

  predicate Copyable(node: Option<Node>) {
    node.Some? && node.value.File?
  }

  /** The copies from the i-th on. Each needs a file to copy and, for SOUL.md, a hermes-data. */
  function CopyFrom(five: FiveNodes, hasData: bool, source: FiveNodes, i: nat, fault: CopyFault): Step<FiveNodes>
    requires i <= |FIVE|
    decreases |FIVE| - i
  {
    if i == |FIVE| then Ok(five) else
    FiveNames(i);
    var n := FIVE[i];
    if !Copyable(EntryOf(source, n)) || (InData(n) && !hasData) then Err(five)
    else if fault.FailsAt? && fault.at == i then Err(WithEntry(five, n, fault.wreck))
    else CopyFrom(WithEntry(five, n, EntryOf(source, n)), hasData, source, i + 1, fault)
  }

  function CopyAll(five: FiveNodes, hasData: bool, source: FiveNodes, fault: CopyFault): Step<FiveNodes> {
    CopyFrom(five, hasData, source, 0, fault)
  }

  predicate AllSome(five: FiveNodes) {
    && five.hermesEnv.Some? && five.dashboardEnv.Some? && five.runtimeEnv.Some? && five.soul.Some? &&
        five.controlToken.Some?
  }

  /** Those there are can be copied. */
  predicate CanSave(five: FiveNodes) {
    && (five.hermesEnv.Some? ==> five.hermesEnv.value.File?) &&
        (five.dashboardEnv.Some? ==> five.dashboardEnv.value.File?)
    && (five.runtimeEnv.Some? ==> five.runtimeEnv.value.File?) && (five.soul.Some? ==> five.soul.value.File?)
    && (five.controlToken.Some? ==> five.controlToken.value.File?)
  }

  /** The history of a revision after saving: the active files over what an earlier save has left. */
  function SavedOver(stale: FiveNodes, five: FiveNodes): FiveNodes {
    FiveNodes(M.Or(five.hermesEnv, stale.hermesEnv), M.Or(five.dashboardEnv, stale.dashboardEnv),
              M.Or(five.runtimeEnv, stale.runtimeEnv), M.Or(five.soul, stale.soul),
                  M.Or(five.controlToken, stale.controlToken))
  }

  /** Saving from the i-th on: a file that is not there is passed over, one that cannot be copied stops. */
  function SaveFrom(history: FiveNodes, five: FiveNodes, i: nat): Step<FiveNodes>
    requires i <= |FIVE|
    decreases |FIVE| - i
  {
    if i == |FIVE| then Ok(history) else
    FiveNames(i);
    var node := EntryOf(five, FIVE[i]);
    if node.None? then SaveFrom(history, five, i + 1)
    else if !Copyable(node) then Err(history)
    else SaveFrom(WithEntry(history, FIVE[i], node), five, i + 1)
  }

  lemma SaveOne(history: FiveNodes, five: FiveNodes, i: nat, n: Name)
    requires i < |FIVE| && n == FIVE[i] && InFive(n)
    ensures var node := EntryOf(five, n);
      SaveFrom(history, five, i) ==
      if node.None? then SaveFrom(history, five, i + 1) else if !Copyable(node) then Err(history)
      else SaveFrom(WithEntry(history, n, node), five, i + 1)
  {
  }

  lemma SaveAll(stale: FiveNodes, five: FiveNodes)
    ensures if CanSave(five) then SaveFrom(stale, five, 0) == Ok(SavedOver(stale, five))
            else SaveFrom(stale, five, 0).Err?
  {
    var h1 := stale.(hermesEnv := M.Or(five.hermesEnv, stale.hermesEnv));
    var h2 := h1.(dashboardEnv := M.Or(five.dashboardEnv, stale.dashboardEnv));
    var h3 := h2.(runtimeEnv := M.Or(five.runtimeEnv, stale.runtimeEnv));
    var h4 := h3.(soul := M.Or(five.soul, stale.soul));
    SaveOne(stale, five, 0, HermesEnv);
    SaveOne(h1, five, 1, DashboardEnv);
    SaveOne(h2, five, 2, RuntimeEnv);
    SaveOne(h3, five, 3, SoulMd);
    SaveOne(h4, five, 4, ControlToken);
  }

  // ---------------------------------------------------------------- config.apply

  function CompleteFive(five: FiveNodes, metadata: Metadata, digests: M.Digests, writes: EnvWrites): FiveNodes {
    var e := Left(Complete(Envs(five.runtimeEnv, five.dashboardEnv), metadata, digests, writes));
    five.(runtimeEnv := e.runtime, dashboardEnv := e.dashboard)
  }

  /** The failure points of config.apply: the writes of staging and saving, one copy of each loop, and the
      file steps of both starts. Docker and the write of the record touch none of the five files. */
  datatype ApplyFaults = ApplyFaults(staging: bool, saving: bool, copy: CopyFault, start: StartFaults,
                                     record: RecordWrite, rollback: CopyFault, restart: StartFaults)

  /** The five files after the `try` has thrown, wherever it did. */
  function TryFive(five: FiveNodes, hasData: bool, staged: FiveNodes, metadata: Metadata, digests: M.Digests,
                   faults: ApplyFaults): FiveNodes
  {
    var copied := CopyAll(five, hasData, staged, faults.copy);
    if copied.Err? then copied.error else CompleteFive(copied.value, metadata, digests, faults.start.envs)
  }

  /** The `catch`: copies back if the history has all five, and starts the containers on them again. */
  function CatchFive(five: FiveNodes, hasData: bool, history: FiveNodes, metadata: Metadata, digests: M.Digests,
                     rollback: CopyFault, restart: StartFaults): FiveNodes
  {
    if !AllSome(history) then five else
    var copied := CopyAll(five, hasData, history, rollback);
    if copied.Err? then copied.error else CompleteFive(copied.value, metadata, digests, restart.envs)
  }

  function AfterFailure(five: FiveNodes, hasData: bool, staged: FiveNodes, stale: FiveNodes, metadata: Metadata,
                        digests: M.Digests, faults: ApplyFaults): FiveNodes
  {
    CatchFive(TryFive(five, hasData, staged, metadata, digests, faults), hasData, SavedOver(stale, five), metadata,
              digests, faults.rollback, faults.restart)
  }

  predicate FiveSettled(five: FiveNodes, metadata: Metadata, digests: M.Digests) {
    EnvsSettled(Envs(five.runtimeEnv, five.dashboardEnv), metadata, digests)
  }

  /** A fully provisioned instance: a record, all five files, and nothing left to complete in them. */
  predicate Provisioned(dir: Directory, digests: M.Digests) {
    && MetadataOf(dir).Some? && AllFiles(FiveOf(dir))
    && FiveSettled(FiveOf(dir), MetadataOf(dir).value, digests)
  }

  lemma AlikeSettled(five: FiveNodes, a: Metadata, b: Metadata, digests: M.Digests)
    requires M.Alike(a, b) && FiveSettled(five, a, digests)
    ensures FiveSettled(five, b, digests)
  {
    match five.runtimeEnv
    case Some(File(Text(text))) => M.AlikeManaged(text, a, b, digests);
    case _ =>
  }

  /** What a configuration command writes is settled already. */
  lemma ConfigurationSettled(command: M.ConfigCommand, names: Names, platformUrl: string, digests: M.Digests,
                             five: M.Five, metadata: Metadata)
    requires digests.Valid() && EnvFile.OneLine(names.dashboard) && metadata.names == names
    requires M.ConfigurationFiles(command, names, platformUrl, digests) == Ok(five)
    ensures FiveSettled(FiveFiles(five), metadata, digests)
  {
    M.WrittenIsManaged(command, names, platformUrl, digests, five, metadata);
  }

  /** The five files before, and the history they are saved into, from which every failure is undone. */
  predicate Undone(five: FiveNodes, hasData: bool, stale: FiveNodes, metadata: Metadata, digests: M.Digests) {
    if hasData then AllFiles(five) && FiveSettled(five, metadata, digests)
    else five.hermesEnv.Some? && five.dashboardEnv.Some? && five.runtimeEnv.Some? && AllSome(SavedOver(stale, five))
  }

  /** Once the active files could be saved, the five are as before at every failure point exactly where
      they were all there and settled; or where there was no hermes-data, the three environment files
      were there, and the history has copies of all five. */
  lemma RollbackExactly(five: FiveNodes, hasData: bool, staged: FiveNodes, stale: FiveNodes, metadata: Metadata,
      digests: M.Digests)
    requires CanSave(five) && AllFiles(staged) && (!hasData ==> five.soul.None?)
    ensures (forall faults: ApplyFaults | faults.rollback.NoFault? ::
               AfterFailure(five, hasData, staged, stale, metadata, digests, faults) == five) <==>
            Undone(five, hasData, stale, metadata, digests)
  {
    if Undone(five, hasData, stale, metadata, digests) {
      forall faults: ApplyFaults | faults.rollback.NoFault?
        ensures AfterFailure(five, hasData, staged, stale, metadata, digests, faults) == five
      {
        UndoneAlways(five, hasData, staged, stale, metadata, digests, faults);
      }
    } else {
      var faults := NotUndone(five, hasData, staged, stale, metadata, digests);
    }
  }

  lemma UndoneAlways(five: FiveNodes, hasData: bool, staged: FiveNodes, stale: FiveNodes, metadata: Metadata,
                     digests: M.Digests, faults: ApplyFaults)
    requires CanSave(five) && (!hasData ==> five.soul.None?) && faults.rollback.NoFault?
    requires Undone(five, hasData, stale, metadata, digests)
    ensures AfterFailure(five, hasData, staged, stale, metadata, digests, faults) == five
  {
    var tried := TryFive(five, hasData, staged, metadata, digests, faults);
    if hasData {
      assert SavedOver(stale, five) == five;
      CopyRestores(tried, five);
      CompleteKeeps(Envs(five.runtimeEnv, five.dashboardEnv), metadata, digests, faults.restart.envs);
    } else {
      CopyStopsAtSoul(five, staged, faults.copy);
      CopyStopsAtSoul(tried, SavedOver(stale, five), NoFault);
    }
  }

  lemma SettledStays(five: FiveNodes, metadata: Metadata, digests: M.Digests, writes: EnvWrites)
    requires FiveSettled(five, metadata, digests)
    ensures CompleteFive(five, metadata, digests, writes) == five
  {
    CompleteKeeps(Envs(five.runtimeEnv, five.dashboardEnv), metadata, digests, writes);
  }

  /** A failure point that shows it, where the condition does not hold: nothing fails in a file, or one copy
      that leaves an empty file or none. */
  lemma NotUndone(five: FiveNodes, hasData: bool, staged: FiveNodes, stale: FiveNodes, metadata: Metadata,
      digests: M.Digests)
    returns (faults: ApplyFaults)
    requires CanSave(five) && AllFiles(staged) && (!hasData ==> five.soul.None?)
    requires !Undone(five, hasData, stale, metadata, digests)
    ensures faults.staging && faults.saving && faults.rollback.NoFault?
    ensures AfterFailure(five, hasData, staged, stale, metadata, digests, faults) != five
  {
    var history := SavedOver(stale, five);
    var partial := File(Text(""));
    var wreck := if five.hermesEnv == Some(partial) then None else Some(partial);
    if !AllSome(history) || (hasData && AllFiles(five)) {
      faults := FailedCopy(FailsAt(0, wreck));
      FirstCopyFails(five, hasData, staged, wreck);
      if AllSome(history) {
        assert history == five;
        CompleteKeeps(Envs(five.runtimeEnv, five.dashboardEnv), metadata, digests, ALL_WRITTEN);
        CopyRestores(five.(hermesEnv := wreck), five);
      }
    } else if hasData {
      faults := FailedCopy(FailsAt(4, Some(partial)));
      LastCopyFails(five, staged, Some(partial));
      SomeStays(staged.(controlToken := Some(partial)), true, history, metadata, digests);
    } else {
      faults := FailedCopy(NoFault);
      CopyStopsAtSoul(five, staged, NoFault);
      SomeStays(Left(CopyAll(five, false, staged, NoFault)), false, history, metadata, digests);
    }
  }

  /** Nothing else fails in a file. */
  function FailedCopy(fault: CopyFault): ApplyFaults {
    ApplyFaults(true, true, fault, NO_FAULTS, Recorded, NoFault, NO_FAULTS)
  }

  lemma CopiedIsSource(five: FiveNodes, hasData: bool, source: FiveNodes, fault: CopyFault)
    requires CopyAll(five, hasData, source, fault).Ok?
    ensures CopyAll(five, hasData, source, fault) == Ok(source) && hasData
  {
    var f1 := five.(hermesEnv := source.hermesEnv);
    var f2 := f1.(dashboardEnv := source.dashboardEnv);
    var f3 := f2.(runtimeEnv := source.runtimeEnv);
    var f4 := f3.(soul := source.soul);
    CopyOne(five, hasData, source, 0, HermesEnv, fault);
    CopyOne(f1, hasData, source, 1, DashboardEnv, fault);
    CopyOne(f2, hasData, source, 2, RuntimeEnv, fault);
    CopyOne(f3, hasData, source, 3, SoulMd, fault);
    CopyOne(f4, hasData, source, 4, ControlToken, fault);
  }

  lemma CopyNeedsData(five: FiveNodes, source: FiveNodes, fault: CopyFault)
    ensures CopyAll(five, false, source, fault).Err?
  {
    CopyStopsAtSoul(five, source, fault);
  }

  lemma CopyOne(five: FiveNodes, hasData: bool, source: FiveNodes, i: nat, n: Name, fault: CopyFault)
    requires i < |FIVE| && n == FIVE[i] && InFive(n)
    ensures CopyFrom(five, hasData, source, i, fault) ==
            if !Copyable(EntryOf(source, n)) || (InData(n) && !hasData) then Err(five)
            else if fault.FailsAt? && fault.at == i then Err(WithEntry(five, n, fault.wreck))
            else CopyFrom(WithEntry(five, n, EntryOf(source, n)), hasData, source, i + 1, fault)
  {
  }

  lemma CopyRestores(five: FiveNodes, source: FiveNodes)
    requires AllFiles(source)
    ensures CopyAll(five, true, source, NoFault) == Ok(source)
  {
    var f1 := five.(hermesEnv := source.hermesEnv);
    var f2 := f1.(dashboardEnv := source.dashboardEnv);
    var f3 := f2.(runtimeEnv := source.runtimeEnv);
    var f4 := f3.(soul := source.soul);
    CopyOne(five, true, source, 0, HermesEnv, NoFault);
    CopyOne(f1, true, source, 1, DashboardEnv, NoFault);
    CopyOne(f2, true, source, 2, RuntimeEnv, NoFault);
    CopyOne(f3, true, source, 3, SoulMd, NoFault);
    CopyOne(f4, true, source, 4, ControlToken, NoFault);
  }

  lemma FirstCopyFails(five: FiveNodes, hasData: bool, source: FiveNodes, wreck: Option<Node>)
    requires AllFiles(source)
    ensures CopyAll(five, hasData, source, FailsAt(0, wreck)) == Err(five.(hermesEnv := wreck))
  {
    CopyOne(five, hasData, source, 0, HermesEnv, FailsAt(0, wreck));
  }

  lemma LastCopyFails(five: FiveNodes, source: FiveNodes, wreck: Option<Node>)
    requires AllFiles(source)
    ensures CopyAll(five, true, source, FailsAt(4, wreck)) == Err(source.(controlToken := wreck))
  {
    var fault := FailsAt(4, wreck);
    var f1 := five.(hermesEnv := source.hermesEnv);
    var f2 := f1.(dashboardEnv := source.dashboardEnv);
    var f3 := f2.(runtimeEnv := source.runtimeEnv);
    var f4 := f3.(soul := source.soul);
    CopyOne(five, true, source, 0, HermesEnv, fault);
    CopyOne(f1, true, source, 1, DashboardEnv, fault);
    CopyOne(f2, true, source, 2, RuntimeEnv, fault);
    CopyOne(f3, true, source, 3, SoulMd, fault);
    CopyOne(f4, true, source, 4, ControlToken, fault);
  }

  /** Without hermes-data the loop stops at SOUL.md at the latest. */
  lemma CopyStopsAtSoul(five: FiveNodes, source: FiveNodes, fault: CopyFault)
    ensures var copied := CopyAll(five, false, source, fault);
      && copied.Err? && copied.error.soul == five.soul && copied.error.controlToken == five.controlToken
      && (fault.NoFault? && Copyable(source.hermesEnv) && Copyable(source.dashboardEnv) &&
          Copyable(source.runtimeEnv) ==>
            copied.error == source.(soul := five.soul, controlToken := five.controlToken))
  {
    var f1 := five.(hermesEnv := source.hermesEnv);
    var f2 := f1.(dashboardEnv := source.dashboardEnv);
    var f3 := f2.(runtimeEnv := source.runtimeEnv);
    CopyOne(five, false, source, 0, HermesEnv, fault);
    CopyOne(f1, false, source, 1, DashboardEnv, fault);
    CopyOne(f2, false, source, 2, RuntimeEnv, fault);
    CopyOne(f3, false, source, 3, SoulMd, fault);
  }

  /** What is there stays there, if no copy and no write fails. */
  predicate KeepsSome(before: FiveNodes, after: FiveNodes) {
    && (before.hermesEnv.Some? ==> after.hermesEnv.Some?) && (before.dashboardEnv.Some? ==> after.dashboardEnv.Some?)
    && (before.runtimeEnv.Some? ==> after.runtimeEnv.Some?) && (before.soul.Some? ==> after.soul.Some?)
    && (before.controlToken.Some? ==> after.controlToken.Some?)
  }

  lemma {:induction false} CopyKeepsSome(five: FiveNodes, hasData: bool, source: FiveNodes, i: nat)
    requires i <= |FIVE|
    ensures KeepsSome(five, Left(CopyFrom(five, hasData, source, i, NoFault)))
    decreases |FIVE| - i
  {
    if i < |FIVE| {
      FiveNames(i);
      var n := FIVE[i];
      CopyOne(five, hasData, source, i, n, NoFault);
      CopyKeepsSome(WithEntry(five, n, EntryOf(source, n)), hasData, source, i + 1);
    }
  }

  lemma SomeStays(five: FiveNodes, hasData: bool, history: FiveNodes, metadata: Metadata, digests: M.Digests)
    requires AllSome(history)
    ensures KeepsSome(five, CatchFive(five, hasData, history, metadata, digests, NoFault, NO_FAULTS))
  {
    CopyKeepsSome(five, hasData, history, 0);
    var copied := Left(CopyAll(five, hasData, history, NoFault));
    CompleteKeepsSome(Envs(copied.runtimeEnv, copied.dashboardEnv), metadata, digests);
  }

  lemma CompleteKeepsSome(e: Envs, metadata: Metadata, digests: M.Digests)
    ensures EnvsKeepSome(e, Left(Complete(e, metadata, digests, ALL_WRITTEN)))
  {
    match e.runtime
    case Some(File(Text(text))) =>
      TextKeepsSome(e, text, M.ManageRuntime(text, metadata, digests), M.MissingDashboard(text, metadata, digests));
    case _ =>
  }

  predicate EnvsKeepSome(before: Envs, after: Envs) {
    (before.runtime.Some? ==> after.runtime.Some?) && (before.dashboard.Some? ==> after.dashboard.Some?)
  }

  lemma TextKeepsSome(e: Envs, text: string, managed: Printed, missing: Printed)
    ensures EnvsKeepSome(e, Left(CompleteText(e, text, managed, missing, ALL_WRITTEN)))
  {
  }

  /** After `credential.revoke` has removed the token, a failing apply puts back any token that an
      earlier one has left in the history, wherever it fails. */
  lemma RevokedTokenReturns(five: FiveNodes, staged: FiveNodes, stale: FiveNodes, metadata: Metadata,
                            digests: M.Digests, faults: ApplyFaults)
    requires five.controlToken.None? && Copyable(stale.controlToken) &&
             AllFiles(five.(controlToken := stale.controlToken))
    requires faults.rollback.NoFault?
    ensures AfterFailure(five, true, staged, stale, metadata, digests, faults).controlToken == stale.controlToken
  {
    var history := five.(controlToken := stale.controlToken);
    assert SavedOver(stale, five) == history;
    CopyRestores(TryFive(five, true, staged, metadata, digests, faults), history);
  }
}
