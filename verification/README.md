# BaiRui: server agent and panel protocols, modelled and proved

BaiRui runs one Hermes agent per owner on a customer's server. A supervisor keeps the agent's files and
containers, a control client leases commands from the platform and reports on them, and browser panels
follow the agent through event streams. This project models five parts of it and proves what they keep
over whole runs, under every failure the code itself reacts to.

* **Supervisor** (`Supervisor.dfy`, with `Rollback.dfy`, `InstanceFiles.dfy`, `Management.dfy`, `EnvFile.dfy`
  and `Envelope.dfy`). A class holds the instance directory, the backup root and the containers. Every Docker
  call and every forward file step may fail, and then leaves its target in any state; a failed write of
  `instance.json` leaves the old record, an unreadable one or the complete new one. For the transactions the
  failing file step is a parameter, so that what is left after each is a function of it. Configuration apply,
  owner apply and restore are transactions; a backup comes back as it was made. Where nothing outside fails each
  operation succeeds, exactly under the conditions its contract names.
* **Port allocator** (`PortAllocator.dfy`, with `Instance.dfy`). Ports are not reserved, only recorded; the
  guarantees rest on an invariant over all past provisions.
* **Lease and receipt client** (`ControlClient.dfy`). Platform, clocks, executor and resolvers are
  adversarial, and all they do is an input; the claims are about the log of a run of any number of cycles.
* **Scene revision protocol** (`SceneTransport.dfy`). Snapshots, scene events, patches and command replies, in
  the shapes the server gives them, arrive in any order; the claim is a refinement invariant between the
  client's scene and the server's history.
* **Incremental readers and accounting** (`SseReaders.dfy` over `Text.dfy`, `DirectoryBytes.dfy`). Streaming
  splitters against one split of the whole stream; an explicit worklist against the recursive definition.

`dafny verify dfyconfig.toml` checks everything.

## What the proofs show beyond the happy path

Some expected properties are false of the code. "Exactly" marks a condition proved in both directions.

* `config.apply` undoes every failure, once its saving has gone through on an instance that has hermes-data,
  exactly if the instance is provisioned: all five files there, and nothing left to complete in them
  (`ApplyUndoneExactly`). Without hermes-data it does so exactly if the three environment files are there and
  the history already has copies of all five (`RollbackExactly`). If one of the five is missing and the
  history has no copy of it, the `catch` touches nothing and the failed step's work stays. If an earlier
  failed apply has left a copy, that copy is put back: a token that `credential.revoke` has removed returns,
  wherever the apply fails (`RevokedTokenReturns`).
* A failed write of `instance.json` is not undone. If it fails once the new record is complete, the files are
  rolled back and the record names the revision of the command that failed (`LateFailureMisnames`); over a run
  without such a failure a readable record names the revision of the files (`RunConfigCommands`).
* An unreadable record frees its port: an agent is given it exactly if the agent's probes reach it past ports
  that others hold (`TornRecordFreesPort`), as those of the agent that lost it do, as long as nobody else has it
  (`LostAgentReturns`). The other agents keep their ports exactly if the records stay sound, that is if none of
  them was given its own past the lost one (`LossIsHarmless`). A run of commands keeps its promises up to the first
  torn write that meets a recorded agent (`InstanceRoot.Run`); the ports handed out lie in range in all of it.
* `backup.restore` copies hermes-data into the history, and back in its rollback, with relative link targets
  made absolute, and the rollback starts containers on what it has put back. The rollback is exact, however
  far that start comes, exactly if hermes-data has no relative link and no start would complete or create
  anything (`RolledBackExactly`); no rollback gives back a relative link (`RelativeLinkLost`). Where the start
  goes through, it is exact exactly if the files are normal and no link is relative (`RestartedExactly`).
* `config.apply-user` does not undo a write that fails in its final chmod, after the rename; every other
  failure it does. After success or a completed rollback the Hermes container is back in the lifecycle state
  it had exactly if the inspection before the change answered or the container was running
  (`ApplyUserConfiguration`); however the inspection answers, exactly if it was running (`LifecycleKept`).
* `backup.restore` empties its staging directory and writes the plaintext archive before its `try`; a
  failure in the writing leaves the staging directory and whatever was written (`RestoreBackup`, `Traces`).
* The chat reader hands on the blocks of one split of the whole normalised stream exactly when every CR LF
  that a chunk boundary separates lies behind the last blank line (`ChatHandsOn`); with the piece it holds
  they agree exactly when no CR LF is separated (`ChatChunking`). The run log reader agrees, blocks and held
  piece, for every chunking exactly when the stream has no CR CR LF (`RunChunking`); on the blocks alone, exactly
  when it has none up to its last blank line and, behind that, no LF that only CRs separate from the next
  (`RunHandsOn`): empty chunks normalise the piece held again until such a gap is closed.
* A `scene` event names its revision `rev` (`packages/scene/projection.mjs:69-72`), and the client looks for
  `revision`: it reads every scene event as revision 0 (`ReadMessage`). That breaks consistency exactly if the
  event is about another revision than 0 and the client is not at 0 with the same view already
  (`SceneEventBreaks`); after it every patch from another base than 0 is refused, and asks for a resync, until a
  snapshot or a reply comes (`SceneEventStalls`).
* A command reply that carries only a revision number keeps the scene consistent, whatever the server's
  history, exactly when it names the revision the client has (`BareRevisionBreaks`). Any other revision that
  nothing has spoken of before can break it, in every settled state of every run (`BareRevisionUnsettles`).
* `backup.create` checks the tree in hermes-data, following a link at its root, and no other entry; tar archives
  links as they are, and `backup.restore` refuses them. A backup that succeeds holds no link or special file
  exactly if hermes-data is a directory and the environment files hold none (`CreateBackup`).
* Environment files do not round-trip values with U+2028 or U+2029: the printer lets them pass, the reader
  drops the line (`EnvFileRoundTrip`). So files written with such a character in one of the two machine
  secrets are never complete and the containers are not started on them (`WrittenIsManaged`): provisioning and
  `config.apply` with such a secret fail, whatever else works (`ApplyConfiguration`).
* A rejected `expired` receipt after an execution is followed by `failed` with the same event sequence; the
  acknowledged receipts still have the documented shape. Replays are recognised by the lease id of the
  envelope, while receipts carry the command's own. The platform's route sends one command an envelope, under
  one id for both (`apps/web/routes/internal-control.mjs:125-133`); whatever a platform sends, the promises
  hold for a command's own lease id that came under one envelope only (`OwnIsTrace`).

## Model

| member | source | states |
|---|---|---|
| Supervisor.AgentSupervisor.WriteMetadata | server-agent/supervisor.mjs:317-320 | Nothing but the record may change; it comes out as the outcome of the write says: the new one on success; the old one, an unreadable one or the complete new one on failure. |
| Supervisor.AgentSupervisor.CopyFileSecure | server-agent/supervisor.mjs:54-57 | A copy needs a regular file and the target's directory; it puts the source, or what its failure leaves, and touches no other file; otherwise nothing changes. |
| Supervisor.AgentSupervisor.Docker | server-agent/supervisor.mjs:151-153 | A command on one container leaves all others alone; that one ends as asked, or in any state on failure. |
| Supervisor.AgentSupervisor.ReplaceContainer | server-agent/supervisor.mjs:185-188 | After success the container runs, whether or not there was one before; the others are untouched. |
| Supervisor.AgentSupervisor.RestoreHermesLifecycle | server-agent/supervisor.mjs:312-315 | On success a running container that was paused is paused, one that was created, exited or dead is stopped, and any other runs; where it was not seen, nothing is done and it succeeds. |
| Supervisor.AgentSupervisor.EnsureManagementConfiguration | server-agent/supervisor.mjs:227-253 | The runtime and dashboard files come out as specified for every outcome of the two writes; nothing else is touched. |
| Supervisor.AgentSupervisor.PrepareHermesDataDirectory | server-agent/supervisor.mjs:190-215 | hermes-data and its `memories` come as far as the steps go through; everything that was there is kept. |
| Supervisor.AgentSupervisor.RunContainers | server-agent/supervisor.mjs:292-300 | On settled files with `memories` a start writes nothing, however far it comes; in general the files are as its file steps leave them, and success, which comes if they all go through and no Docker command fails, means a network and three running containers. |
| Supervisor.AgentSupervisor.Provision | server-agent/supervisor.mjs:322-351 | Success leaves five files that hold, key by key, what the command says, config.yaml with its skill list merged in, the command's record with the allocated port, running containers and nothing to complete; where nothing outside fails it succeeds if the files can be printed and started on, the list merged and a port allocated; a replay changes none of it and is given the recorded port; exhaustion is reported exactly if the command comes as far as the allocation and it fails; on failure the record is as before or as the failed write leaves the command's, and the allocator sees just what is there. |
| Supervisor.AgentSupervisor.StageConfiguration | server-agent/supervisor.mjs:413-421 | Succeeds exactly with a record, a valid revision, a printable command and working writes, and then the staged files hold, key by key, what the command says. |
| Supervisor.AgentSupervisor.SaveActive | server-agent/supervisor.mjs:435 | Saving succeeds exactly if every active file that exists is a regular one; the history then holds them over what an earlier save left. |
| Supervisor.AgentSupervisor.InstallFiles | server-agent/supervisor.mjs:437-443 | The copying loop leaves the five files as specified for each copy that fails, and touches no other file. |
| InstanceFiles.LiesWhere | server-agent/supervisor.mjs:425-437 | SOUL.md and config.yaml lie in hermes-data, the other files beside it. |
| Supervisor.AgentSupervisor.RollBackConfiguration | server-agent/supervisor.mjs:441-447 | The five files come out as specified for every failing copy and every outcome of the restart; if the history lacks one of them, files and containers are not touched at all. |
| Supervisor.AgentSupervisor.ApplyConfiguration | server-agent/supervisor.mjs:423-449 | Success is five files that hold, key by key, what the command says, its revision in the record and running containers; it comes, where no Docker command fails, exactly if the command reaches the `try`, its copies and the record's write go through, its secrets are readable and hermes-data can be prepared; the history then holds the files that were active. Failure leaves the five files that the failure point determines, for every instance. No other file differs either way. |
| Supervisor.AgentSupervisor.ApplyUndoneExactly | server-agent/supervisor.mjs:431-447 | Every failure point of a command that reaches the `try` leaves the five files as before exactly if the instance is provisioned. |
| Rollback.RollbackExactly | server-agent/supervisor.mjs:431-447 | The same with or without hermes-data, over every history an earlier apply may have left. |
| Rollback.NotUndone | server-agent/supervisor.mjs:436-447 | Where the condition fails, one failing copy, with an empty file or nothing in its target, after which the five files differ. |
| Rollback.RevokedTokenReturns | server-agent/supervisor.mjs:435-443 | With the token removed and a copy of it in the history, a failing apply puts it back at every failure point. |
| Supervisor.AgentSupervisor.StaysProvisioned | server-agent/supervisor.mjs:280-300 | Applied or rolled back, a provisioned instance stays provisioned, so the next apply can roll back exactly too. |
| Supervisor.AgentSupervisor.RunConfigCommands | server-agent/supervisor.mjs:413-449 | Over every run of stage and apply commands with failures anywhere, each command makes of the instance what its answer says, and the five files hold what the command of the last apply that succeeded says, or are those of the start; a readable record names its revision if no write of the record failed once complete. |
| Supervisor.AgentSupervisor.LateFailureMisnames | server-agent/supervisor.mjs:439-447 | An apply whose record is written but whose write then fails leaves the old files under the new revision. |
| Supervisor.AgentSupervisor.AtomicWriteSecure | server-agent/supervisor.mjs:100-105 | A failure before the rename keeps the old content, one in the chmod leaves the new; no other file but the temporary differs. |
| Supervisor.AgentSupervisor.ApplyUserConfiguration | server-agent/supervisor.mjs:451-494 | Success is the skill list merged into config.yaml, or the soul with a line feed for each line break, and the record; failure is the old content or absence, except exactly where the write fails in its chmod; where no Docker command fails, a written change either succeeds or is rolled back; no other file differs; after success or a completed rollback the Hermes container is in the lifecycle class it was in exactly if the inspection answered or it ran, and runs if there was none. |
| Supervisor.BreaksInOnePass | server-agent/supervisor.mjs:97 | Replacing CR LF and then CR gives one line feed for each line break. |
| Supervisor.LifecycleKept | server-agent/supervisor.mjs:312-315 | Whatever the inspection answers, the lifecycle class is kept exactly if the container ran. |
| Supervisor.LifecycleClasses | server-agent/supervisor.mjs:312-315 | Paused is paused; created, exited and dead are stopped; all else runs. |
| Supervisor.AgentSupervisor.RollBackOwnerFile | server-agent/supervisor.mjs:486-490 | Puts the saved file back; removes it if there was none or its copy is gone. |
| Supervisor.AgentSupervisor.CreateBackup | server-agent/supervisor.mjs:502-526 | A backup succeeds if all five entries are there, hermes-data is a tree of directories and files, and nothing outside fails; it reads back to exactly those entries. A directory hermes-data is refused as unsafe exactly if some path in it leads to a link or a special file. The plaintext archive is gone in every case past validation; other backups are untouched. |
| Supervisor.AgentSupervisor.PlaceArchive | server-agent/supervisor.mjs:603-607 | The forward file steps of a restore: success is the archive's data and environment files in place; no other entry changes. |
| Supervisor.AgentSupervisor.PutBackHistory | server-agent/supervisor.mjs:609-617 | All four saved entries are put back, contents and presence, hermes-data with its links made absolute, and are then as the restart leaves them: where it goes through, as before exactly if normal and without relative links. |
| InstanceFiles.SafeExactly | server-agent/supervisor.mjs:59-68 | The recursive check accepts a tree exactly if no path of names in it leads to a link or a special file. |
| InstanceFiles.NoSpecialExactly | server-agent/supervisor.mjs:597 | A tree can be copied exactly if no path leads to a special file. |
| InstanceFiles.WalkNext | server-agent/supervisor.mjs:597 | A relative link is resolved segment by segment from the directory it lies in: names go down, two dots up, a dot stays. |
| InstanceFiles.CopiedLink | server-agent/supervisor.mjs:597 | An absolute link is copied as it is, a relative one as the absolute path it leads to. |
| Rollback.RolledBackExactly | server-agent/supervisor.mjs:597-617 | The rollback is exact however far the restart comes exactly if hermes-data has no relative link and no start would change the saved entries. |
| Rollback.RelativeLinkLost | server-agent/supervisor.mjs:597-611 | With a relative link in hermes-data neither the history copy nor any rollback is as before. |
| Rollback.RestartedExactly | server-agent/supervisor.mjs:609-617 | A rollback whose restart goes through is exact exactly if the saved entries are normal and no link is relative. |
| InstanceFiles.CopiedExactly | server-agent/supervisor.mjs:597 | A recursive copy has no relative link left, and is the original exactly if that has none. |
| Rollback.StartedExactly | server-agent/supervisor.mjs:292-295 | A start that goes through leaves the files unchanged exactly if they are normal. |
| Supervisor.AgentSupervisor.RestoreBackup | server-agent/supervisor.mjs:562-623 | Transaction: a failed check touches nothing; a failed preparation leaves the traces of its fault; any later failure leaves hermes-data and the three environment files as the rollback makes them, which is as before exactly under the conditions above; success is the archive's, running containers and, in restore-history, the copies of the old ones. Where nothing outside fails it succeeds exactly on an acceptable archive that can be copied and started on; no path of a restored archive leads to a link or a special file, and no archive of the expected entries without any is refused as unsafe. From the `try` on plaintext and staging are gone; other backup files and entries are untouched. |
| Supervisor.AgentSupervisor.BackUpThenRestore | server-agent/supervisor.mjs:502-623 | Whatever happened to files, history and containers in between, a successful restore of a successful backup gives back the files of create time exactly if they were normal. |
| Rollback.CompleteKeeps | server-agent/supervisor.mjs:227-253 | Settled files are what a completion with working writes leaves unchanged, and no other. |
| Rollback.CompleteSettles | server-agent/supervisor.mjs:227-253 | One call of ensureManagementConfiguration reaches a fixpoint: any later one goes through and writes nothing. |
| Rollback.SettledEntries | server-agent/supervisor.mjs:227-253 | Settled, read off the entries of the runtime file: they cannot be completed or not be printed, or they are complete and the dashboard file is there or cannot be made. |
| Rollback.ConfigurationSettled | server-agent/supervisor.mjs:259-290 | The five files of a configuration command leave nothing to complete, which makes rollbacks to them exact. |
| Management.ManageFixpoint | server-agent/supervisor.mjs:227-245 | Completing the completed runtime file changes nothing and asks for the same entries. |
| Management.ManagedEntries | server-agent/supervisor.mjs:227-245 | Completion returns the text unchanged exactly if its entries can be completed and are complete. |
| Management.ManagedExactly | server-agent/supervisor.mjs:227-245 | A completion that goes through leaves the five completed entries, each that was there or its default, and all other entries as they were; it goes through exactly if the entries can be completed, and printed where they are new. |
| Management.CompleteExactly | server-agent/supervisor.mjs:228-243 | The entries can be completed exactly if both secrets have at least 32 characters fit for a line and the workspace is there or can be made of the reference or the ids. |
| Management.DashboardMade | server-agent/supervisor.mjs:246-251 | A dashboard file that is made holds the user and password of the completed runtime file and the session secret. |
| Management.CredentialsKept | server-agent/supervisor.mjs:235-243 | Dashboard user and password that a runtime file has survive its completion. |
| Management.WrittenIsManaged | server-agent/supervisor.mjs:259-290 | A written runtime file is a fixpoint of completion exactly when both machine secrets are one line to the reader; otherwise completing it fails. |
| Management.FilesHoldCommand | server-agent/supervisor.mjs:259-290 | The five files hold what the command says: the soul, the control token, and under each of their 6, 5 and 17 keys the command's field, the derived secret or the constant, wherever it is one line; and nothing else. |
| Management.PrintableExactly | server-agent/supervisor.mjs:24-34 | There are files for a command exactly if it is complete, for its own agent, its secrets have at least 32 characters, all fields are given, and all is fit for a line. |
| Management.PutCompletedProperties | server-agent/supervisor.mjs:237-244 | Completing sets the five entries, keeps both secrets, and is the identity where they are set. |
| EnvFile.ReadEnvironmentFile | server-agent/supervisor.mjs:217-225 | The line loop computes the specification, and an absent file is an empty object. |
| EnvFile.ReadBack | server-agent/supervisor.mjs:70-72 | A printed object reads back as its one-line entries, in order. |
| EnvFile.EnvFileRoundTrip | server-agent/supervisor.mjs:70-72 | Reading a printed object gives the same object with the same key order exactly when all keys have the form read and no value holds a line terminator. |
| EnvFile.ReadIsWellFormed | server-agent/supervisor.mjs:220-223 | Whatever the text, what is read has distinct well-formed keys and one-line values. |
| EnvFile.ReadsCrLf | server-agent/supervisor.mjs:220 | Lines are read alike whether they end in LF or in CR LF. |
| EnvFile.ParseExactly | server-agent/supervisor.mjs:221 | A line is an entry exactly if it is a key of capitals, digits and underscores that begins with a capital, an equals sign, and a value without line terminators. |
| Envelope.HeaderFits | server-agent/supervisor.mjs:517 | The 128-character bound on identifiers makes every written header pass the reader's length check. |
| Envelope.UnframeFrame | server-agent/supervisor.mjs:517-520 | Length, header and ciphertext come apart exactly as they were framed. |
| Envelope.BackupRoundTrip | server-agent/supervisor.mjs:536-560 | Reading a sealed non-empty plaintext under its own id and agent gives it back. |
| Envelope.BackupBound | server-agent/supervisor.mjs:550 | Reading it under another id or for another agent is refused as an identity mismatch. |
| Envelope.ReadExactly | server-agent/supervisor.mjs:536-560 | A file is read as a plaintext exactly if it is a length, a header of 2 to 16384 bytes for the id and the agent, and a ciphertext that decrypts under it to a plaintext with its digest. |
| PortAllocator.Range.ProbeReaches | server-agent/supervisor.mjs:176-179 | Every port of the range is some agent's probe slot, from any first slot. |
| PortAllocator.Range.ProbeInOrder | server-agent/supervisor.mjs:176-179 | Probing goes through the range upwards from the port that the agent's digest picks, and from the last port on to the first. |
| PortAllocator.AllocatedFirst | server-agent/supervisor.mjs:176-181 | The allocated port is the first one not held by another agent in that cyclic order, said without the probing. |
| PortAllocator.ProbePorts | server-agent/supervisor.mjs:176-182 | The probing loop finds the first slot no other agent holds. |
| PortAllocator.ExhaustedExactly | server-agent/supervisor.mjs:178-182 | Allocation fails exactly when every port of the range belongs to another agent. |
| PortAllocator.AllocateStable | server-agent/supervisor.mjs:178-181 | An agent with a recorded port is given that port again. |
| PortAllocator.RecordSound | server-agent/supervisor.mjs:347-349 | Recording an allocated port keeps ports in range, distinct and reachable past slots that others hold. |
| PortAllocator.InstanceRoot.Occupied | server-agent/supervisor.mjs:168-175 | A scan in any order finds just the recorded ports, each with its agent. |
| PortAllocator.InstanceRoot.AllocatePort | server-agent/supervisor.mjs:166-183 | The allocated port is, for the records on disk, the first in cyclic order from the agent's own that no other agent holds; there is none exactly if all are held. |
| PortAllocator.InstanceRoot.Provision | server-agent/supervisor.mjs:322-351 | Records the allocated port on success, which comes if there is one and nothing fails; a failure leaves the records alone or as the failed write of that port does; reports exhaustion exactly when the allocation is reached and fails. |
| PortAllocator.TornRecordFreesPort | server-agent/supervisor.mjs:168-181 | Without the record of an agent its port goes to an agent exactly if that one's probes reach it past ports that others hold. |
| PortAllocator.LostAgentReturns | server-agent/supervisor.mjs:168-181 | The agent that lost its record is given the same port again, if nobody else has been given it meanwhile. |
| PortAllocator.LossIsHarmless | server-agent/supervisor.mjs:168-181 | After a loss the other agents are given their recorded ports again exactly if the records are still sound. |
| PortAllocator.InstanceRoot.Apply | server-agent/supervisor.mjs:439 | Rewriting a record changes no recorded port; a torn write loses that of its own agent and no other. |
| PortAllocator.InstanceRoot.Run | server-agent/supervisor.mjs:322-377 | Over every run of provision, apply and delete: ports handed out lie in range; up to the first torn write that meets a recorded agent, two are equal exactly when they are the same agent's. |
| ControlClient.Client.NextSequence | server-agent/control-client.mjs:31-40 | The counter takes the clock or, where that is not ahead, the next number; it strictly increases for every reading. |
| ControlClient.Client.AssertLeaseBinding | server-agent/control-client.mjs:85-107 | A lease is accepted exactly if it answers its own request, is signed, unexpired and new, and is remembered exactly then; replay, expiry and signature are reported each where the checks before pass. |
| ControlClient.Client.LeaseControlCommands | server-agent/control-client.mjs:151-173 | A cycle comes by a lease exactly if it may; no command of an accepted lease has any trace yet, even if the platform replays leases. |
| ControlClient.Client.SendCommandReceipt | server-agent/control-client.mjs:176-227 | At most one receipt is posted, under the command's own lease id, and for a command the lease holds just as its delivery says; a candidate without observation or evidence is never posted. |
| ControlClient.Client.ProcessCommand | server-agent/control-client.mjs:251-297 | A command gets the trace that its course determines, with rejections and exceptions anywhere, and is reported with the terminal state acknowledged last; without one it is an error. |
| ControlClient.Client.AfterExecution | server-agent/control-client.mjs:269-280 | From the executor on: a throw and a throwing observer are told as failed, an overrun lease as expired, and if that is not accepted as failed, a proven result as a completion candidate. |
| ControlClient.DueExecutes | server-agent/control-client.mjs:259-269 | The executor is called, once, exactly if running was acknowledged and the secrets, if any, were resolved. |
| ControlClient.DueOutcome | server-agent/control-client.mjs:252-297 | The reported state by its cause: a candidate for proven work in time, expired before or after the work, failed where something throws or is missing or `expired` is not accepted; each where its receipt is acknowledged. |
| ControlClient.DuePhases | docs/11-control-plane-protocol.md:33-43 | Every course gives a legal trace, with running acknowledged exactly if the command was in time and both receipts came through. |
| ControlClient.Client.HasExpired | server-agent/control-client.mjs:252 | Expired is a lease, or a command, whose time is not after the reading of the clock. |
| ControlClient.Client.ExecuteControlCycle | server-agent/control-client.mjs:242-299 | A cycle accepts its lease exactly if it may; it processes its commands in order up to the first without an outcome, and reports all outcomes exactly if all have one; no other trace changes. |
| ControlClient.Client.RunControlDaemon | server-agent/daemon.mjs:33-60 | Over any number of cycles and replayed leases: each lease is accepted exactly if it may be; every command of an accepted one has the trace its course determines, up to where its cycle ended, and no other has any; the executor was called exactly once for each whose running was acknowledged and that has no secrets or resolved ones, and for no other; acknowledged receipts have the documented shape, all sequence numbers increase, and the counter stays a safe integer; likewise by a command's own lease id that came under one envelope. |
| ControlClient.OwnIsTrace | apps/web/routes/internal-control.mjs:125-133 | A command's trace by its own lease id is that by its envelope, if the two came together only. |
| ControlClient.PhaseInvariant | docs/11-control-plane-protocol.md:33-38 | Each phase of the receipt automaton fixes which receipts are acknowledged and how often the executor was called. |
| ControlClient.LegalTrace | docs/11-control-plane-protocol.md:33-43 | Acknowledged receipts are a prefix of accepted, running and one terminal, or expired alone, with event sequences 1..n and at most one terminal, the last. |
| ControlClient.ExecutedAfterRunning | server-agent/control-client.mjs:259-269 | The executor is called only after accepted and running were both acknowledged. |
| SceneTransport.ReplacedView | apps/web/public/bairui-scene-bootstrap.js:5-9 | After an operation that replaces `/view` the view does not depend on the one before. |
| SceneTransport.AppliedLast | apps/web/public/bairui-scene-bootstrap.js:5-9 | The view after a patch is that of its last operation that replaces it. |
| SceneTransport.ReadSent | apps/web/public/bairui-scene-bootstrap.js:11-17 | A scene, and a panel's snapshot with one among its data, as the server builds them, are read as their revision and view. |
| SceneTransport.ReadFields | apps/web/public/bairui-scene-bootstrap.js:11-17 | `data.scene` comes before `scene` and that before the snapshot itself; revision and view are each the scene's, or else the snapshot's, or else 0 and the empty view. |
| SceneTransport.ReadMessage | packages/scene/projection.mjs:69-72 | A scene event is read as revision 0, whatever revision it names. |
| SceneTransport.ReadReply | apps/web/public/bairui-scene-bootstrap.js:97-98 | Of a command's result the snapshot comes before the scene, and a revision counts only without either. |
| SceneTransport.ReplyExactly | apps/web/public/bairui-scene-bootstrap.js:97-98 | The same for any result; a revision counts exactly if it is a safe integer. |
| SceneTransport.ConsistentStep | apps/web/public/bairui-scene-bootstrap.js:38-104 | Each truthful arrival keeps or restores consistency as the settled rule says. |
| SceneTransport.SceneConsistency | apps/web/public/bairui-scene-bootstrap.js:38-104 | With snapshots, scene events, patches and replies in flight in any order, in the shapes the server sends them, the view is the server's at the client's revision in every settled state, even as revisions go backwards. |
| SceneTransport.AlwaysSettled | apps/web/public/bairui-scene-bootstrap.js:97-98 | Without bare-revision replies and scene events a consistent client is settled in every state. |
| SceneTransport.BareRevisionBreaks | apps/web/public/bairui-scene-bootstrap.js:98 | A bare revision keeps consistency under every history exactly when it is the client's own. |
| SceneTransport.SceneEventBreaks | apps/web/public/bairui-scene-bootstrap.js:63-66 | A scene event keeps consistency under every history exactly if it is about revision 0 or shows what a client at 0 has. |
| SceneTransport.SceneEventStalls | apps/web/public/bairui-scene-bootstrap.js:67-73 | After a scene event no patch from another base than 0 applies, and revision and view stay. |
| SceneTransport.SettledExact | apps/web/public/bairui-scene-bootstrap.js:38-104 | At a consistent client the settled rule says just which of the arrivals that can come keep consistency under every history that makes them truthful. |
| SceneTransport.BareRevisionUnsettles | apps/web/public/bairui-scene-bootstrap.js:98 | In every settled state of every run, a bare reply with a new revision is consistent with some history under which the view is wrong. |
| SceneTransport.CatchUp | apps/web/public/bairui-scene-bootstrap.js:67-79 | Contiguous patches r+1..N each apply without a resync and end at N with the server's view at N. |
| SceneTransport.BairuiSceneTransport.Connect | apps/web/public/bairui-scene-bootstrap.js:54-58 | Opens one source and leaves it the only live one; opens nothing after close. |
| SceneTransport.BairuiSceneTransport.OnPatch | apps/web/public/bairui-scene-bootstrap.js:67-79 | A patch with another base, or one that does not parse, changes neither view nor revision and asks for a resync. |
| SceneTransport.BairuiSceneTransport.OnError | apps/web/public/bairui-scene-bootstrap.js:80-91 | Schedules at most one timer, with the next delay of the doubling series. |
| SceneTransport.BairuiSceneTransport.FinishResync | apps/web/public/bairui-scene-bootstrap.js:106-113 | Renders the fresh snapshot and reconnects unless closed meanwhile. |
| SceneTransport.BairuiSceneTransport.Close | apps/web/public/bairui-scene-bootstrap.js:127-132 | Afterwards no source is live and no timer pending. |
| SceneTransport.BairuiSceneTransport.Handle | apps/web/public/bairui-scene-bootstrap.js:38-132 | Each step makes of the scene what its arrival does, opens a source exactly for connect, timer and finished resync while not closed, asks for a resync exactly for what does not parse or fit, and schedules the specified delay. |
| SceneTransport.BairuiSceneTransport.Run | apps/web/public/bairui-scene-bootstrap.js:38-132 | Over every run: at most one live source and one pending timer, nothing opened after a close before or in the run, delays as specified; the scene is what the events that could happen make of it in their order, and consistent whenever it is settled. |
| SseReaders.ParseBlock | apps/web/public/bairui-bailongma.js:671-676 | The line loop finds the last event name and all data lines in order. |
| SseReaders.LastEventNames | apps/web/public/bairui-bailongma.js:671-674 | The name is the trimmed rest of the last event line, and `message` without one. |
| SseReaders.DataInOrder | apps/web/public/bairui-bailongma.js:675 | Each data line gives its payload without white space before it, in order; other lines give nothing. |
| Text.TrimExactly | apps/web/public/bairui-bailongma.js:674 | Trimming takes white space, all of it, off both ends, and nothing else. |
| SseReaders.ConsumeHermesSse | apps/web/public/bairui-bailongma.js:664-681 | Hands on the events of all but the last block of the normalised chunks and holds that block; they are those of the whole stream if every separated CR LF lies behind its last blank line. |
| SseReaders.ChatChunking | apps/web/public/bairui-bailongma.js:667-669 | Blocks and held piece are independent of chunking exactly when no boundary separates a CR from its LF. |
| SseReaders.ChatHandsOn | apps/web/public/bairui-bailongma.js:667-670 | The blocks handed on are independent of chunking exactly when every separated CR LF lies behind the last blank line. |
| SseReaders.HandOn | apps/web/public/bairui-workspace-runs.js:22-40 | Hands on the first data payload of each block up to the first that does not parse, and notices a terminal event among them. |
| SseReaders.FirstDataLine | apps/web/public/bairui-workspace-runs.js:23-25 | The payload of a block is the rest of its first data line, as it is. |
| SseReaders.TerminalExactly | apps/web/public/bairui-workspace-runs.js:35 | A terminal event is a payload whose event is run.completed, run.failed or run.cancelled. |
| SseReaders.StreamRun | apps/web/public/bairui-workspace-runs.js:15-42 | Over all chunks, hands on exactly the parsed payloads before the first failure, throws exactly on one, and remembers a terminal event. |
| SseReaders.RunReadsWhole | apps/web/public/bairui-workspace-runs.js:19-21 | Without CR CR LF, any chunking gives the pieces of one split of the whole. |
| SseReaders.RunCutAfterCrCrLf | apps/web/public/bairui-workspace-runs.js:19-21 | A cut right behind a CR CR LF gives other pieces, because the carried buffer is normalised twice. |
| SseReaders.RunChunking | apps/web/public/bairui-workspace-runs.js:19-21 | Blocks and held piece are independent of chunking exactly when the stream has no CR CR LF. |
| SseReaders.RunHandsOn | apps/web/public/bairui-workspace-runs.js:19-22 | The blocks handed on are independent of chunking exactly when the stream has no CR CR LF up to its last blank line and, behind it, no LF that only CRs separate from the next. |
| SseReaders.PrintReadRoundTrip | apps/web/public/bairui-bailongma.js:664-681 | Events printed as `event:`/`data:` lines are read back, in any chunks, with the same names and joined payloads. |
| Text.SplitCarry | apps/web/public/bairui-bailongma.js:668-669 | Carrying only the last piece over loses nothing: split continues as if the text had come whole. |
| Text.NormaliseConcat | apps/web/public/bairui-bailongma.js:667 | Normalising two parts alone is exact unless the cut separates CR from LF, and then one character too long. |
| Text.NormaliseOnce | apps/web/public/bairui-workspace-runs.js:20 | Without CR CR LF, normalising a prefix early changes nothing. |
| DirectoryBytes.ScanDirectory | server-agent/resource-collector.mjs:71-81 | One directory's listing moves its share from the tree to the counters, or a limit is truly exceeded. |
| DirectoryBytes.DirectoryBytes | server-agent/resource-collector.mjs:63-84 | Terminates with the sizes of the files below the root exactly when the number of entries below is within the limit and the total is a safe integer, and with null otherwise. |
| DirectoryBytes.BelowReached | server-agent/resource-collector.mjs:70-79 | Below a directory is just what a path of listing positions leads to; links and unreadable directories lead nowhere. |
| DirectoryBytes.TotalsBelow | server-agent/resource-collector.mjs:63-84 | The recursive count is the number of entries below, and the recursive total the sizes of the files among them. |
| DirectoryBytes.OrderIndependent | server-agent/resource-collector.mjs:70-71 | Count and total do not depend on the order in which directories, at any depth, are listed. |

## Left out

- Cryptography, tar, JSON and YAML: functions with stated inverses and fixed widths (`Crypto.Valid`, `Libraries.Valid`, `Digests.Valid`); base64 and ISO times are plain text of their length.
- One instance directory: the supervisor class holds one agent's; distinct agents have distinct digests, as `Range.owner` says.
- Supervisor.AgentSupervisor.PutBackHistory: the copies and removals of a restore's rollback are taken to succeed; nothing is said of a rollback that fails itself.
- Supervisor.AgentSupervisor.RollBackOwnerFile: likewise for the copy or removal of the owner's file. In config.apply the rollback's copies may fail, with the outcome specified, and the exactness theorems are about those that do not.
- Supervisor.AgentSupervisor.RestoreBackup: what a failed forward step of a restore leaves is arbitrary rather than a parameter, since the rollback puts all four entries back; which Docker command fails, and what it leaves, is arbitrary throughout.
- Supervisor.AgentSupervisor.RunConfigCommands: after a torn write of `instance.json` nothing is said of the revision; later commands find no record and change nothing. Contents of a torn record that parse as another record are not among the outcomes.
- Supervisor.AgentSupervisor.ApplyUserConfiguration: `rolledBack` is the outcome of the restart in the `catch`; if that fails too, the container may be in any state. The merge of the skill list is a function of the YAML library; validation of the owner document happens before the model and appears as `Malformed`.
- Supervisor.AgentSupervisor.Provision: no rollback, so nothing is said of the five files after a failure; concurrent provisions are not modelled, since the port is recorded only after the containers start.
- ControlClient.Client.RunControlDaemon: acknowledged means that a successful answer reached the client; if such an answer is lost, the platform may hold `expired` and `failed` under one event sequence. Clock readings are numbers up to the largest date; command ids of one lease are distinct; resource telemetry between cycles and delays are not part of the loop.
- PortAllocator.InstanceRoot.Provision: in runs over all agents containers and files are abstract; `AgentSupervisor.Provision`, with files and containers, is proved against the same predicate `Allots`.
- InstanceFiles.CopiedExactly: a copy to a target that exists, and links that a copy is told to follow, do not occur; the links of an instance directory moved elsewhere are not part of this model.
- File modes, ownership and existing files reached through links: chown is a step that may fail, and modes are not recorded.
- Containers that change state by themselves, or write into hermes-data, during a command.
- Paths inside an archive: a listing with absolute paths, backslashes or `..` is an archive that does not unpack; other unknown top-level names are refused as in the code.
- Panel snapshots without a scene (`memory-graph`, panels that are not available): the client does not load them; which panel a client is for is not part of this model.
- Records without a dashboard name, and `files.dashboardEnv` left undefined: every modelled caller passes the path.
- JavaScript values: a JSON value carries what `Number()` makes of it, and for scalars whether it is truthy and a safe integer; string lengths count characters.
- DOM, rendering, `applyScene` exceptions and command intents of the panels; `fetch`, byte decoding and aborts of the readers.
- backup.verify and backup.expire: they read one backup file, and remove it or not; nothing in the instance changes.
- release.stage and release.apply: images are pulled and the containers started on the files as they are, with a new record and no rollback; the start is the one modelled here.
- Start, stop, suspend and restart of containers, snapshots and control checks: Docker commands that touch no file of the instance. credential.revoke removes the token and stops one container; `RevokedTokenReturns` takes up from there.
- Control authority, outbox, channel worker and contract validators: the database side is not part of this model.
