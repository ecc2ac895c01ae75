/** The environment files of an instance: what a configuration command puts into them, and what
    `ensureManagementConfiguration` completes in them before containers start. */
module Management {
  import opened Wrappers
  import opened Instance
  import opened EnvFile

  const API_KEY := "HERMES_API_SERVER_KEY"
  const SHARED_SECRET := "BAIRUI_RUNTIME_SHARED_SECRET"
  const MANAGEMENT_URL := "HERMES_MANAGEMENT_URL"
  const USERNAME := "HERMES_DASHBOARD_USERNAME"
  const PASSWORD := "HERMES_DASHBOARD_PASSWORD"
  const DATA_PATH := "BAIRUI_HERMES_DATA_PATH"
  const WORKSPACE_ID := "BAIRUI_WORKSPACE_ID"
  const ORGANIZATION_ID := "BAIRUI_ORGANIZATION_ID"
  const USER_ID := "BAIRUI_USER_ID"
  const AGENT_ID := "BAIRUI_AGENT_ID"
  const WORKSPACE_REF := "BAIRUI_WORKSPACE_REF"

  /** Prints and reads back as itself. */
  predicate Plain(value: string) {
    EnvValueOk(value) && OneLine(value)
  }

  /** The two digests; base64url and hexadecimal text. */
  datatype Digests = Digests(derivedSecret: (string, string) -> string, workspaceDigest: string -> string)
  {
    ghost predicate Valid() {
      && (forall value, purpose :: Plain(derivedSecret(value, purpose)))
      && (forall ref :: Plain(workspaceDigest(ref)))
    }
  }

  function GetOr<T>(a: Option<T>, default: T): T {
    if a.Some? then a.value else default
  }

  /** `a ?? b`. */
  function Or<T>(a: Option<T>, b: Option<T>): Option<T> {
    if a.Some? then a else b
  }

  function MachineSecret(value: Option<string>): Result<string, Error> {
    if value.Some? && EnvValueOk(value.value) && |value.value| >= 32 then Ok(value.value) else Err(InvalidConfig)
  }

  function WorkspaceIdFromRef(ref: string, digests: Digests): Result<string, Error> {
    if EnvValueOk(ref) then Ok(digests.workspaceDigest(ref)) else Err(InvalidConfig)
  }

  /** A template part; undefined prints as such. */
  function Part(a: Option<string>): string {
    GetOr(a, "undefined")
  }

  function DefaultWorkspaceRef(organizationId: Option<string>, userId: Option<string>, agentId: Option<string>)
    : string
  {
    "hermes:" + Part(organizationId) + ":" + Part(userId) + ":" + Part(agentId)
  }

  function ManagementUrl(names: Names): string {
    "http://" + names.dashboard + ":9119"
  }

  function DashboardValues(username: string, password: string, secret: string): Values {
    [Entry("HERMES_HOME", "/opt/data"),
     Entry("HERMES_DASHBOARD_BASIC_AUTH_USERNAME", username),
     Entry("HERMES_DASHBOARD_BASIC_AUTH_PASSWORD", password),
     Entry("HERMES_DASHBOARD_BASIC_AUTH_SECRET", secret),
     Entry("HERMES_DASHBOARD_BASIC_AUTH_TTL_SECONDS", "43200")]
  }

  // ---------------------------------------------------------------- ensureManagementConfiguration

  datatype Completed = Completed(url: string, username: string, password: string, workspaceId: string)

  function WorkspaceId(values: Values, metadata: Metadata, digests: Digests): Result<string, Error> {
    if Get(values, WORKSPACE_ID).Some? then Ok(Get(values, WORKSPACE_ID).value)
    else WorkspaceIdFromRef(RecordRef(values, metadata), digests)
  }

  function RecordRef(values: Values, metadata: Metadata): string {
    var organizationId := Or(Get(values, ORGANIZATION_ID), metadata.organizationId);
    var userId := Or(Get(values, USER_ID), metadata.userId);
    var agentId := Or(Get(values, AGENT_ID), Some(metadata.agentId));
    GetOr(Or(Get(values, WORKSPACE_REF), metadata.workspaceRef), DefaultWorkspaceRef(organizationId, userId, agentId))
  }

  function Username(values: Values): string {
    GetOr(Get(values, USERNAME), "bairui-runtime")
  }

  function Password(values: Values, apiKey: string, digests: Digests): string {
    GetOr(Get(values, PASSWORD), digests.derivedSecret(apiKey, "hermes-dashboard-password"))
  }

  /** The five values the runtime file must have, given those it has. */
  function Complete(values: Values, metadata: Metadata, digests: Digests): Result<Completed, Error> {
    var apiKey := MachineSecret(Get(values, API_KEY));
    if apiKey.Err? then Err(apiKey.error)
    else if MachineSecret(Get(values, SHARED_SECRET)).Err? then Err(InvalidConfig)
    else
      var workspaceId := WorkspaceId(values, metadata, digests);
      if workspaceId.Err? then Err(workspaceId.error)
      else Ok(Completed(ManagementUrl(metadata.names), Username(values), Password(values, apiKey.value, digests),
          workspaceId.value))
  }

  function PutCompleted(values: Values, c: Completed): Values {
    Put(Put(Put(Put(Put(values, MANAGEMENT_URL, c.url), USERNAME, c.username), PASSWORD, c.password),
            DATA_PATH, "/opt/data"), WORKSPACE_ID, c.workspaceId)
  }

  /** The new text of the runtime file, which is written only if an entry changes. */
  function ManageRuntime(text: string, metadata: Metadata, digests: Digests): Result<string, Error> {
    var values := ReadEnv(text);
    var c := Complete(values, metadata, digests);
    if c.Err? then Err(c.error)
    else if PutCompleted(values, c.value) == values then Ok(text)
    else PrintEnv(PutCompleted(values, c.value))
  }

  function MissingDashboard(text: string, metadata: Metadata, digests: Digests): Result<string, Error> {
    var values := ReadEnv(text);
    var c := Complete(values, metadata, digests);
    if c.Err? then Err(c.error)
    else PrintEnv(DashboardValues(c.value.username, c.value.password,
                                 digests.derivedSecret(Part(Get(values, SHARED_SECRET)), "hermes-dashboard-session")))
  }

  /** The completed names differ from each other and from the two secrets. */
  lemma KeysDiffer()
    ensures var keys := [MANAGEMENT_URL, USERNAME, PASSWORD, DATA_PATH, WORKSPACE_ID, API_KEY, SHARED_SECRET];
      forall i, j | 0 <= i < j < |keys| :: keys[i] != keys[j]
  {
  }

  lemma CompletedKeysOk()
    ensures KeyOk(MANAGEMENT_URL) && KeyOk(USERNAME) && KeyOk(PASSWORD) && KeyOk(DATA_PATH) && KeyOk(WORKSPACE_ID)
  {
    RuntimeKeysOk1();
    RuntimeKeysOk2();
    RuntimeKeysOk4();
  }

  predicate Has(values: Values, c: Completed) {
    && Get(values, MANAGEMENT_URL) == Some(c.url) && Get(values, USERNAME) == Some(c.username)
    && Get(values, PASSWORD) == Some(c.password) && Get(values, DATA_PATH) == Some("/opt/data")
    && Get(values, WORKSPACE_ID) == Some(c.workspaceId)
  }

  /** The names of the entries that completing sets. */
  const COMPLETED := {MANAGEMENT_URL, USERNAME, PASSWORD, DATA_PATH, WORKSPACE_ID}

  /** Completing sets just the five entries, and changes nothing where they are set already. */
  lemma PutCompletedProperties(values: Values, c: Completed)
    ensures Has(PutCompleted(values, c), c)
    ensures Get(PutCompleted(values, c), API_KEY) == Get(values, API_KEY)
    ensures Get(PutCompleted(values, c), SHARED_SECRET) == Get(values, SHARED_SECRET)
    ensures forall k | k !in COMPLETED :: Get(PutCompleted(values, c), k) == Get(values, k)
    ensures Has(values, c) ==> PutCompleted(values, c) == values
  {
    KeysDiffer();
    var v1 := Put(values, MANAGEMENT_URL, c.url);
    var v2 := Put(v1, USERNAME, c.username);
    var v3 := Put(v2, PASSWORD, c.password);
    var v4 := Put(v3, DATA_PATH, "/opt/data");
    PutProperties(values, MANAGEMENT_URL, c.url);
    PutProperties(v1, USERNAME, c.username);
    PutProperties(v2, PASSWORD, c.password);
    PutProperties(v3, DATA_PATH, "/opt/data");
    PutProperties(v4, WORKSPACE_ID, c.workspaceId);
  }

  lemma PutCompletedWellRead(values: Values, c: Completed)
    requires WellRead(values) && OneLine(c.url) && OneLine(c.username) && OneLine(c.password) && OneLine(c.workspaceId)
    ensures WellRead(PutCompleted(values, c))
  {
    CompletedKeysOk();
    PutWellRead(values, MANAGEMENT_URL, c.url);
    var v1 := Put(values, MANAGEMENT_URL, c.url);
    PutWellRead(v1, USERNAME, c.username);
    var v2 := Put(v1, USERNAME, c.username);
    PutWellRead(v2, PASSWORD, c.password);
    var v3 := Put(v2, PASSWORD, c.password);
    PutWellRead(v3, DATA_PATH, "/opt/data");
    PutWellRead(Put(v3, DATA_PATH, "/opt/data"), WORKSPACE_ID, c.workspaceId);
  }

  lemma PutWellRead(values: Values, key: string, value: string)
    requires WellRead(values) && KeyOk(key) && OneLine(value)
    ensures WellRead(Put(values, key, value))
  {
    PutDistinct(values, key, value);
    PutProperties(values, key, value);
  }

  /** A runtime file is left as it is exactly if it can be completed and holds the completed entries. */
  lemma ManagedEntries(text: string, metadata: Metadata, digests: Digests)
    requires digests.Valid() && OneLine(metadata.names.dashboard)
    ensures ManageRuntime(text, metadata, digests) == Ok(text) <==>
            Complete(ReadEnv(text), metadata, digests).Ok? &&
                Has(ReadEnv(text), Complete(ReadEnv(text), metadata, digests).value)
    ensures var values, completed := ReadEnv(text), Complete(ReadEnv(text), metadata, digests);
      completed.Ok? && !Has(values, completed.value) ==>
        ManageRuntime(text, metadata, digests) == PrintEnv(PutCompleted(values, completed.value))
  {
    var completed := Complete(ReadEnv(text), metadata, digests);
    if completed.Ok? {
      PutCompletedProperties(ReadEnv(text), completed.value);
      UpdatedIsRead(text, metadata, digests);
    }
  }

  /** Once the five entries are there, completing again asks for the same. */
  lemma CompleteAgain(values: Values, metadata: Metadata, digests: Digests, c: Completed)
    requires Has(values, c) && c.url == ManagementUrl(metadata.names)
    requires MachineSecret(Get(values, API_KEY)).Ok? && MachineSecret(Get(values, SHARED_SECRET)).Ok?
    ensures Complete(values, metadata, digests) == Ok(c)
  {
  }

  lemma {:induction false} OneLineConcat(a: string, b: string)
    requires OneLine(a) && OneLine(b)
    ensures OneLine(a + b)
  {
  }

  lemma UrlOneLine(names: Names)
    requires OneLine(names.dashboard)
    ensures OneLine(ManagementUrl(names))
  {
    OneLineConcat("http://", names.dashboard);
    OneLineConcat("http://" + names.dashboard, ":9119");
  }

  lemma GetOneLine(values: Values, key: string)
    requires WellRead(values) && Get(values, key).Some?
    ensures OneLine(Get(values, key).value)
  {
    GetIsMember(values, key);
  }

  lemma CompletedOneLine(values: Values, metadata: Metadata, digests: Digests)
    requires digests.Valid() && OneLine(metadata.names.dashboard) && WellRead(values)
    requires Complete(values, metadata, digests).Ok?
    ensures var c := Complete(values, metadata, digests).value;
      OneLine(c.url) && OneLine(c.username) && OneLine(c.password) && OneLine(c.workspaceId)
  {
    UrlOneLine(metadata.names);
    UsernameOneLine(values);
    PasswordOneLine(values, MachineSecret(Get(values, API_KEY)).value, digests);
    if Get(values, WORKSPACE_ID).Some? { GetOneLine(values, WORKSPACE_ID); }
  }

  lemma UsernameOneLine(values: Values)
    requires WellRead(values)
    ensures OneLine(Username(values))
  {
    if Get(values, USERNAME).Some? { GetOneLine(values, USERNAME); }
  }

  lemma PasswordOneLine(values: Values, apiKey: string, digests: Digests)
    requires WellRead(values) && digests.Valid()
    ensures OneLine(Password(values, apiKey, digests))
  {
    if Get(values, PASSWORD).Some? { GetOneLine(values, PASSWORD); }
  }

  /** The same in all that completing looks at. */
  predicate Alike(a: Metadata, b: Metadata) {
    && a.agentId == b.agentId && a.organizationId == b.organizationId && a.userId == b.userId
    && a.workspaceRef == b.workspaceRef && a.names == b.names
  }

  lemma AlikeManaged(text: string, a: Metadata, b: Metadata, digests: Digests)
    requires Alike(a, b)
    ensures ManageRuntime(text, a, digests) == ManageRuntime(text, b, digests)
    ensures MissingDashboard(text, a, digests) == MissingDashboard(text, b, digests)
  {
    AlikeCompleted(ReadEnv(text), a, b, digests);
  }

  lemma AlikeCompleted(values: Values, a: Metadata, b: Metadata, digests: Digests)
    requires Alike(a, b)
    ensures Complete(values, a, digests) == Complete(values, b, digests)
  {
  }

  /** One call is enough: the text it leaves is a fixpoint, with the entries the first call completed. */
  lemma ManageFixpoint(text: string, metadata: Metadata, digests: Digests)
    requires digests.Valid() && OneLine(metadata.names.dashboard)
    requires ManageRuntime(text, metadata, digests).Ok?
    ensures var after := ManageRuntime(text, metadata, digests).value;
      && ManageRuntime(after, metadata, digests) == Ok(after)
      && Complete(ReadEnv(after), metadata, digests) == Complete(ReadEnv(text), metadata, digests)
  {
    if ManageRuntime(text, metadata, digests).value != text {
      UpdatedIsRead(text, metadata, digests);
      UpdatedIsFixpoint(ReadEnv(text), metadata, digests);
    }
  }

  /** Dashboard credentials that a runtime file has are kept. */
  lemma CredentialsKept(text: string, metadata: Metadata, digests: Digests)
    requires digests.Valid() && OneLine(metadata.names.dashboard)
    requires ManageRuntime(text, metadata, digests).Ok?
    ensures KeepsCredentials(ReadEnv(text), ReadEnv(ManageRuntime(text, metadata, digests).value))
  {
    if ManageRuntime(text, metadata, digests).value != text {
      UpdatedIsRead(text, metadata, digests);
      UpdatedKeepsCredentials(ReadEnv(text), metadata, digests);
    }
  }

  predicate KeepsCredentials(before: Values, after: Values) {
    && (Get(before, USERNAME).Some? ==> Get(after, USERNAME) == Get(before, USERNAME))
    && (Get(before, PASSWORD).Some? ==> Get(after, PASSWORD) == Get(before, PASSWORD))
  }

  lemma UpdatedKeepsCredentials(values: Values, metadata: Metadata, digests: Digests)
    requires Complete(values, metadata, digests).Ok?
    ensures KeepsCredentials(values, PutCompleted(values, Complete(values, metadata, digests).value))
  {
    UpdatedIsFixpoint(values, metadata, digests);
  }

  lemma UpdatedIsRead(text: string, metadata: Metadata, digests: Digests)
    requires digests.Valid() && OneLine(metadata.names.dashboard)
    requires Complete(ReadEnv(text), metadata, digests).Ok?
    ensures var updated := PutCompleted(ReadEnv(text), Complete(ReadEnv(text), metadata, digests).value);
      PrintEnv(updated).Ok? ==> ReadEnv(PrintEnv(updated).value) == updated
  {
    var values := ReadEnv(text);
    var c := Complete(values, metadata, digests).value;
    ReadIsWellFormed([], TextLines(text));
    CompletedOneLine(values, metadata, digests);
    PutCompletedWellRead(values, c);
    if PrintEnv(PutCompleted(values, c)).Ok? {
      EnvFileRoundTrip(PutCompleted(values, c));
    }
  }

  lemma UpdatedIsFixpoint(values: Values, metadata: Metadata, digests: Digests)
    requires Complete(values, metadata, digests).Ok?
    ensures var c := Complete(values, metadata, digests).value;
      var updated := PutCompleted(values, c);
      && Complete(updated, metadata, digests) == Ok(c) && PutCompleted(updated, c) == updated
      && Get(updated, USERNAME) == Some(c.username) && Get(updated, PASSWORD) == Some(c.password)
  {
    var c := Complete(values, metadata, digests).value;
    PutCompletedProperties(values, c);
    CompleteAgain(PutCompleted(values, c), metadata, digests, c);
    PutCompletedProperties(PutCompleted(values, c), c);
  }

  // ---------------------------------------------------------------- configuration commands

  datatype Placement = Placement(agentId: Option<string>, organizationId: Option<string>, userId: Option<string>,
                                 runtimeId: Option<string>, workspaceRef: Option<string>)

  datatype Secrets = Secrets(providerApiKey: Option<string>, hermesApiServerKey: Option<string>,
                             runtimeSharedSecret: Option<string>, agentControlToken: Option<string>)

  /** The document fields that reach the files, and the secrets. */
  datatype Config = Config(baseUrl: Option<string>, model: Option<string>, workspaceRef: Option<string>,
                           soul: Option<string>, secrets: Secrets)

  datatype ConfigCommand = ConfigCommand(
    agentId: string, revisionId: Option<string>, workspaceRef: Option<string>, placement: Placement,
    config: Option<Config>, approved: bool, idempotencyKey: string)

  /** The contents of the five files of a configuration. */
  datatype Five = Five(hermesEnv: string, dashboardEnv: string, runtimeEnv: string, soul: string, controlToken: string)

  function OrEmpty(a: Option<string>): string {
    GetOr(a, "")
  }

  const RUNTIME_KEYS: seq<string> :=
    ["HERMES_API_URL", MANAGEMENT_URL, API_KEY, USERNAME, PASSWORD, DATA_PATH, SHARED_SECRET, "BAIRUI_PLATFORM_URL",
     ORGANIZATION_ID, USER_ID, AGENT_ID, "BAIRUI_RUNTIME_ID", WORKSPACE_ID, "BAIRUI_CONFIG_REVISION_ID",
     "BAIRUI_AGENT_CONTROL_TOKEN", "BAIRUI_RUNTIME_HOST", "BAIRUI_RUNTIME_PORT"]

  function Zip(keys: seq<string>, values: seq<string>): Values
    requires |keys| == |values|
  {
    seq(|keys|, i requires 0 <= i < |keys| => Entry(keys[i], values[i]))
  }

  /** The values of RUNTIME_KEYS, in that order. */
  function RuntimeColumn(command: ConfigCommand, v: ConfigValues, names: Names, platformUrl: string)
    : (column: seq<string>)
    ensures |column| == 17
    ensures column[1] == ManagementUrl(names) && column[2] == v.apiKey && column[3] == "bairui-runtime"
    ensures column[4] == v.password && column[5] == "/opt/data" && column[6] == v.runtimeSecret &&
            column[12] == v.workspaceId
  {
    var p := command.placement;
    ["http://" + names.hermes + ":8642", ManagementUrl(names), v.apiKey, "bairui-runtime", v.password, "/opt/data",
     v.runtimeSecret,
     platformUrl, OrEmpty(p.organizationId), OrEmpty(p.userId), OrEmpty(p.agentId), OrEmpty(p.runtimeId), v.workspaceId,
     OrEmpty(command.revisionId), v.controlToken, "0.0.0.0", "8787"]
  }

  function HermesValues(config: Config, apiKey: string): Values {
    [Entry("API_SERVER_ENABLED", "true"), Entry("API_SERVER_HOST", "0.0.0.0"), Entry("API_SERVER_KEY", apiKey),
     Entry("OPENAI_API_KEY", OrEmpty(config.secrets.providerApiKey)), Entry("OPENAI_BASE_URL", OrEmpty(config.baseUrl)),
     Entry("MODEL", OrEmpty(config.model))]
  }

  function WorkspaceRefOf(command: ConfigCommand): string
    requires command.config.Some?
  {
    var p := command.placement;
    GetOr(Or(Or(p.workspaceRef, command.workspaceRef), command.config.value.workspaceRef),
          DefaultWorkspaceRef(p.organizationId, p.userId, p.agentId))
  }

  /** The record a provisioning writes. */
  function ProvisionRecord(command: ConfigCommand, names: Names, port: int): Metadata {
    var p := command.placement;
    Metadata(command.agentId, p.organizationId, p.userId,
             Some(GetOr(Or(p.workspaceRef, command.workspaceRef),
                        DefaultWorkspaceRef(p.organizationId, p.userId, Some(command.agentId)))),
             names, Some(port), command.revisionId, command.idempotencyKey)
  }

  /** The record of a provisioning: the command's ids, revision and key, the port, and the workspace of the
      placement, or else the command's, or else one made of the ids. */
  predicate RecordsCommand(record: Metadata, command: ConfigCommand, names: Names, port: int) {
    var p := command.placement;
    && record.agentId == command.agentId && record.organizationId == p.organizationId && record.userId == p.userId
    && record.names == names && record.runtimePort == Some(port)
    && record.configRevisionId == command.revisionId && record.idempotencyKey == command.idempotencyKey
    && record.workspaceRef ==
         if p.workspaceRef.Some? then p.workspaceRef
         else if command.workspaceRef.Some? then command.workspaceRef
         else
           var organization := if p.organizationId.Some? then p.organizationId.value else "undefined";
           var user := if p.userId.Some? then p.userId.value else "undefined";
           Some("hermes:" + organization + ":" + user + ":" + command.agentId)
  }

  datatype ConfigValues = ConfigValues(apiKey: string, runtimeSecret: string, controlToken: string, password: string,
                                       dashboardSecret: string, workspaceId: string)

  function ConfigurationValues(command: ConfigCommand, digests: Digests): Result<ConfigValues, Error> {
    if command.config.None? || command.placement.agentId != Some(command.agentId) then Err(InvalidBundle) else
    var secrets := command.config.value.secrets;
    var apiKey := MachineSecret(secrets.hermesApiServerKey);
    if apiKey.Err? then Err(apiKey.error) else
    var runtimeSecret := MachineSecret(secrets.runtimeSharedSecret);
    if runtimeSecret.Err? then Err(runtimeSecret.error) else
    var controlToken := MachineSecret(secrets.agentControlToken);
    if controlToken.Err? then Err(controlToken.error) else
    var workspaceId := WorkspaceIdFromRef(WorkspaceRefOf(command), digests);
    if workspaceId.Err? then Err(workspaceId.error)
    else Ok(ConfigValues(apiKey.value, runtimeSecret.value, controlToken.value,
                         digests.derivedSecret(apiKey.value, "hermes-dashboard-password"),
                         digests.derivedSecret(runtimeSecret.value, "hermes-dashboard-session"), workspaceId.value))
  }

  /** The printing of the three environment files, in order. */
  function PrintFiles(command: ConfigCommand, v: ConfigValues, names: Names, platformUrl: string): Result<Five, Error>
    requires command.config.Some?
  {
    var hermes := PrintEnv(HermesValues(command.config.value, v.apiKey));
    if hermes.Err? then Err(hermes.error) else
    var dashboard := PrintEnv(DashboardValues("bairui-runtime", v.password, v.dashboardSecret));
    if dashboard.Err? then Err(dashboard.error) else
    var runtime := PrintEnv(Zip(RUNTIME_KEYS, RuntimeColumn(command, v, names, platformUrl)));
    if runtime.Err? then Err(runtime.error)
    else Ok(Five(hermes.value, dashboard.value, runtime.value, OrEmpty(command.config.value.soul), v.controlToken))
  }

  function ConfigurationFiles(command: ConfigCommand, names: Names, platformUrl: string, digests: Digests)
    : Result<Five, Error>
  {
    var v := ConfigurationValues(command, digests);
    if v.Err? then Err(v.error) else PrintFiles(command, v.value, names, platformUrl)
  }

  lemma RuntimeKeysOk1() ensures KeyOk("HERMES_API_URL") && KeyOk(MANAGEMENT_URL) && KeyOk(API_KEY) {}

  lemma RuntimeKeysOk2() ensures KeyOk(USERNAME) && KeyOk(PASSWORD) && KeyOk(DATA_PATH) {}

  lemma RuntimeKeysOk3() ensures KeyOk(SHARED_SECRET) && KeyOk("BAIRUI_PLATFORM_URL") && KeyOk(ORGANIZATION_ID) {}

  lemma RuntimeKeysOk4()
    ensures KeyOk(USER_ID) && KeyOk(AGENT_ID) && KeyOk("BAIRUI_RUNTIME_ID") && KeyOk(WORKSPACE_ID)
  {}

  lemma RuntimeKeysOk5() ensures KeyOk("BAIRUI_CONFIG_REVISION_ID") && KeyOk("BAIRUI_AGENT_CONTROL_TOKEN") {}

  lemma RuntimeKeysOk6() ensures KeyOk("BAIRUI_RUNTIME_HOST") && KeyOk("BAIRUI_RUNTIME_PORT") {}

  ghost predicate KeysGood(keys: seq<string>) {
    && (forall k | k in keys :: KeyOk(k))
    && (forall i, j | 0 <= i < j < |keys| :: keys[i] != keys[j])
  }

  lemma RuntimeKeysGood()
    ensures KeysGood(RUNTIME_KEYS)
  {
    RuntimeKeysOk1();
    RuntimeKeysOk2();
    RuntimeKeysOk3();
    RuntimeKeysOk4();
    RuntimeKeysOk5();
    RuntimeKeysOk6();
  }

  /** A readable entry is found after reading back. */
  lemma {:induction false} ReadableGet(values: Values, i: nat)
    requires Distinct(values) && i < |values| && OneLine(values[i].value)
    ensures Get(Readable(values), values[i].key) == Some(values[i].value)
  {
    var e, t := values[0], values[1..];
    if i == 0 {
      GetCons(e, Readable(t));
    } else {
      ReadableGet(t, i - 1);
      if OneLine(e.value) { GetCons(e, Readable(t)); }
      assert [] + Readable(t) == Readable(t);
    }
  }

  lemma {:induction false} ReadableMembers(values: Values)
    ensures forall e | e in Readable(values) :: e in values
  {
    if values != [] { ReadableMembers(values[1..]); }
  }

  /** An entry that is not readable is lost. */
  lemma {:induction false} ReadableLost(values: Values, i: nat)
    requires Distinct(values) && i < |values| && !OneLine(values[i].value)
    ensures Get(Readable(values), values[i].key).None?
  {
    var e, t := values[0], values[1..];
    if i == 0 {
      ReadableMembers(t);
      NoKey(Readable(t), e.key);
      assert [] + Readable(t) == Readable(t);
    } else {
      ReadableLost(t, i - 1);
      if OneLine(e.value) { GetCons(e, Readable(t)); }
      assert [] + Readable(t) == Readable(t);
    }
  }

  /** A value of the printed file is found under its key when the file is read back, if it is one line. */
  lemma ColumnReadBack(keys: seq<string>, column: seq<string>, i: nat)
    requires KeysGood(keys) && |keys| == |column| && i < |keys| && PrintEnv(Zip(keys, column)).Ok?
    ensures Get(ReadEnv(PrintEnv(Zip(keys, column)).value), keys[i]) ==
            if OneLine(column[i]) then Some(column[i]) else None
  {
    ReadBack(Zip(keys, column));
    if OneLine(column[i]) {
      ReadableGet(Zip(keys, column), i);
    } else {
      ReadableLost(Zip(keys, column), i);
    }
  }

  // ---------------------------------------------------------------- what the five files hold

  /** A file that, read back, has this value under the key; or nothing, where the value is not one line. */
  predicate Carries(text: string, key: string, value: string) {
    Get(ReadEnv(text), key) == if OneLine(value) then Some(value) else None
  }

  /** The same for a field that must be given. */
  predicate CarriesField(text: string, key: string, value: Option<string>) {
    value.Some? && Carries(text, key, value.value)
  }

  predicate HermesCarries(text: string, config: Config) {
    && Carries(text, "API_SERVER_ENABLED", "true") && Carries(text, "API_SERVER_HOST", "0.0.0.0")
    && CarriesField(text, "API_SERVER_KEY", config.secrets.hermesApiServerKey)
    && CarriesField(text, "OPENAI_API_KEY", config.secrets.providerApiKey)
    && CarriesField(text, "OPENAI_BASE_URL", config.baseUrl) && CarriesField(text, "MODEL", config.model)
  }

  predicate DashboardCarries(text: string, username: string, password: string, secret: string) {
    && Carries(text, "HERMES_HOME", "/opt/data")
    && Carries(text, "HERMES_DASHBOARD_BASIC_AUTH_USERNAME", username)
    && Carries(text, "HERMES_DASHBOARD_BASIC_AUTH_PASSWORD", password)
    && Carries(text, "HERMES_DASHBOARD_BASIC_AUTH_SECRET", secret)
    && Carries(text, "HERMES_DASHBOARD_BASIC_AUTH_TTL_SECONDS", "43200")
  }

  predicate RuntimeCarries(text: string, command: ConfigCommand, names: Names, platformUrl: string, password: string,
                           workspaceId: string)
    requires command.config.Some?
  {
    var p, secrets := command.placement, command.config.value.secrets;
    && Carries(text, "HERMES_API_URL", "http://" + names.hermes + ":8642")
    && Carries(text, "HERMES_MANAGEMENT_URL", "http://" + names.dashboard + ":9119")
    && CarriesField(text, "HERMES_API_SERVER_KEY", secrets.hermesApiServerKey)
    && Carries(text, "HERMES_DASHBOARD_USERNAME", "bairui-runtime")
    && Carries(text, "HERMES_DASHBOARD_PASSWORD", password)
    && Carries(text, "BAIRUI_HERMES_DATA_PATH", "/opt/data")
    && CarriesField(text, "BAIRUI_RUNTIME_SHARED_SECRET", secrets.runtimeSharedSecret)
    && Carries(text, "BAIRUI_PLATFORM_URL", platformUrl)
    && CarriesField(text, "BAIRUI_ORGANIZATION_ID", p.organizationId)
    && CarriesField(text, "BAIRUI_USER_ID", p.userId) && CarriesField(text, "BAIRUI_AGENT_ID", p.agentId)
    && CarriesField(text, "BAIRUI_RUNTIME_ID", p.runtimeId) && Carries(text, "BAIRUI_WORKSPACE_ID", workspaceId)
    && CarriesField(text, "BAIRUI_CONFIG_REVISION_ID", command.revisionId)
    && CarriesField(text, "BAIRUI_AGENT_CONTROL_TOKEN", secrets.agentControlToken)
    && Carries(text, "BAIRUI_RUNTIME_HOST", "0.0.0.0") && Carries(text, "BAIRUI_RUNTIME_PORT", "8787")
  }

  /** The workspace a command is for: the placement's, or else its own, or else the document's, or else
      one made of the placement's ids. */
  predicate IsWorkspaceRef(command: ConfigCommand, ref: string)
    requires command.config.Some?
  {
    var p := command.placement;
    if p.workspaceRef.Some? then ref == p.workspaceRef.value
    else if command.workspaceRef.Some? then ref == command.workspaceRef.value
    else if command.config.value.workspaceRef.Some? then ref == command.config.value.workspaceRef.value
    else
      var organization := if p.organizationId.Some? then p.organizationId.value else "undefined";
      var user := if p.userId.Some? then p.userId.value else "undefined";
      var agent := if p.agentId.Some? then p.agentId.value else "undefined";
      ref == "hermes:" + organization + ":" + user + ":" + agent
  }

  /** The five files hold what the command says, under its secrets, and nothing else. */
  ghost predicate HoldCommand(five: Five, command: ConfigCommand, names: Names, platformUrl: string, digests: Digests) {
    && command.config.Some?
    && var config := command.config.value;
    && five.soul == (if config.soul.Some? then config.soul.value else "")
    && Some(five.controlToken) == config.secrets.agentControlToken
    && config.secrets.hermesApiServerKey.Some? && config.secrets.runtimeSharedSecret.Some?
    && var password := digests.derivedSecret(config.secrets.hermesApiServerKey.value, "hermes-dashboard-password");
    && var secret := digests.derivedSecret(config.secrets.runtimeSharedSecret.value, "hermes-dashboard-session");
    && |ReadEnv(five.hermesEnv)| <= 6 && |ReadEnv(five.dashboardEnv)| <= 5 && |ReadEnv(five.runtimeEnv)| <= 17
    && HermesCarries(five.hermesEnv, config)
    && DashboardCarries(five.dashboardEnv, "bairui-runtime", password, secret)
    && exists ref: string :: IsWorkspaceRef(command, ref) &&
         RuntimeCarries(five.runtimeEnv, command, names, platformUrl, password, digests.workspaceDigest(ref))
  }

  lemma EntryReadBack(values: Values, i: nat)
    requires AllKeysOk(values) && Distinct(values) && i < |values| && PrintEnv(values).Ok?
    ensures Carries(PrintEnv(values).value, values[i].key, values[i].value)
  {
    ReadBack(values);
    if OneLine(values[i].value) { ReadableGet(values, i); } else { ReadableLost(values, i); }
  }

  lemma {:induction false} ReadableShort(values: Values)
    ensures |Readable(values)| <= |values|
  {
    if values != [] { ReadableShort(values[1..]); }
  }

  predicate CarriesAll(text: string, values: Values) {
    forall i | 0 <= i < |values| :: Carries(text, values[i].key, values[i].value)
  }

  lemma CarriesAt(text: string, values: Values, i: nat)
    requires CarriesAll(text, values) && i < |values|
    ensures Carries(text, values[i].key, values[i].value)
  {
  }

  lemma ValuesReadBack(values: Values)
    requires AllKeysOk(values) && Distinct(values) && PrintEnv(values).Ok?
    ensures CarriesAll(PrintEnv(values).value, values) && |ReadEnv(PrintEnv(values).value)| <= |values|
  {
    ReadBack(values);
    ReadableShort(values);
    forall i | 0 <= i < |values| ensures Carries(PrintEnv(values).value, values[i].key, values[i].value) {
      EntryReadBack(values, i);
    }
  }

  lemma HermesKeysGood(config: Config, apiKey: string)
    ensures AllKeysOk(HermesValues(config, apiKey)) && Distinct(HermesValues(config, apiKey))
  {
    HermesKeysOk1();
    HermesKeysOk2();
  }

  lemma HermesKeysOk1() ensures KeyOk("API_SERVER_ENABLED") && KeyOk("API_SERVER_HOST") && KeyOk("API_SERVER_KEY") {}

  lemma HermesKeysOk2() ensures KeyOk("OPENAI_API_KEY") && KeyOk("OPENAI_BASE_URL") && KeyOk("MODEL") {}

  lemma DashboardKeysOk1()
    ensures KeyOk("HERMES_HOME") && KeyOk("HERMES_DASHBOARD_BASIC_AUTH_USERNAME")
  {}

  lemma DashboardKeysOk2()
    ensures KeyOk("HERMES_DASHBOARD_BASIC_AUTH_PASSWORD") && KeyOk("HERMES_DASHBOARD_BASIC_AUTH_SECRET")
  {}

  lemma DashboardKeysOk3() ensures KeyOk("HERMES_DASHBOARD_BASIC_AUTH_TTL_SECONDS") {}

  lemma DashboardKeysGood(username: string, password: string, secret: string)
    ensures AllKeysOk(DashboardValues(username, password, secret))
    ensures Distinct(DashboardValues(username, password, secret))
  {
    DashboardKeysOk1();
    DashboardKeysOk2();
    DashboardKeysOk3();
  }

  /** A field that is not given does not print. */
  lemma FieldGiven(values: Values, i: nat, field: Option<string>)
    requires i < |values| && PrintEnv(values).Ok? && values[i].value == OrEmpty(field)
    ensures field == Some(values[i].value)
  {
    assert values[i] in values;
  }

  lemma HermesFile(config: Config, apiKey: string)
    requires PrintEnv(HermesValues(config, apiKey)).Ok? && config.secrets.hermesApiServerKey == Some(apiKey)
    ensures HermesCarries(PrintEnv(HermesValues(config, apiKey)).value, config)
    ensures |ReadEnv(PrintEnv(HermesValues(config, apiKey)).value)| <= 6
  {
    var values := HermesValues(config, apiKey);
    HermesKeysGood(config, apiKey);
    ValuesReadBack(values);
    FieldGiven(values, 3, config.secrets.providerApiKey);
    FieldGiven(values, 4, config.baseUrl);
    FieldGiven(values, 5, config.model);
    HermesFields(PrintEnv(values).value, config, apiKey);
  }

  lemma HermesFields(text: string, config: Config, apiKey: string)
    requires CarriesAll(text, HermesValues(config, apiKey)) && config.secrets.hermesApiServerKey == Some(apiKey)
    requires config.secrets.providerApiKey.Some? && config.baseUrl.Some? && config.model.Some?
    ensures HermesCarries(text, config)
  {
    var values := HermesValues(config, apiKey);
    CarriesAt(text, values, 0); CarriesAt(text, values, 1); CarriesAt(text, values, 2);
    CarriesAt(text, values, 3); CarriesAt(text, values, 4); CarriesAt(text, values, 5);
  }

  lemma DashboardFile(username: string, password: string, secret: string)
    requires PrintEnv(DashboardValues(username, password, secret)).Ok?
    ensures DashboardCarries(PrintEnv(DashboardValues(username, password, secret)).value, username, password, secret)
    ensures |ReadEnv(PrintEnv(DashboardValues(username, password, secret)).value)| <= 5
  {
    DashboardKeysGood(username, password, secret);
    ValuesReadBack(DashboardValues(username, password, secret));
    DashboardFields(PrintEnv(DashboardValues(username, password, secret)).value, username, password, secret);
  }

  lemma DashboardFields(text: string, username: string, password: string, secret: string)
    requires CarriesAll(text, DashboardValues(username, password, secret))
    ensures DashboardCarries(text, username, password, secret)
  {
    var values := DashboardValues(username, password, secret);
    CarriesAt(text, values, 0); CarriesAt(text, values, 1); CarriesAt(text, values, 2);
    CarriesAt(text, values, 3); CarriesAt(text, values, 4);
  }

  predicate SecretsAre(command: ConfigCommand, v: ConfigValues) {
    command.config.Some? && var secrets := command.config.value.secrets;
    && secrets.hermesApiServerKey == Some(v.apiKey) && secrets.runtimeSharedSecret == Some(v.runtimeSecret)
    && secrets.agentControlToken == Some(v.controlToken)
  }

  lemma RuntimeFile(command: ConfigCommand, v: ConfigValues, names: Names, platformUrl: string)
    requires SecretsAre(command, v)
    requires PrintEnv(Zip(RUNTIME_KEYS, RuntimeColumn(command, v, names, platformUrl))).Ok?
    ensures RuntimeCarries(PrintEnv(Zip(RUNTIME_KEYS, RuntimeColumn(command, v, names, platformUrl))).value, command,
                           names, platformUrl, v.password, v.workspaceId)
    ensures |ReadEnv(PrintEnv(Zip(RUNTIME_KEYS, RuntimeColumn(command, v, names, platformUrl))).value)| <= 17
  {
    var values := Zip(RUNTIME_KEYS, RuntimeColumn(command, v, names, platformUrl));
    RuntimeKeysGood();
    ValuesReadBack(values);
    RuntimeGiven(command, v, names, platformUrl);
    RuntimeFields(PrintEnv(values).value, command, v, names, platformUrl);
  }

  lemma RuntimeGiven(command: ConfigCommand, v: ConfigValues, names: Names, platformUrl: string)
    requires PrintEnv(Zip(RUNTIME_KEYS, RuntimeColumn(command, v, names, platformUrl))).Ok?
    ensures var p := command.placement;
      && p.organizationId.Some? && p.userId.Some? && p.agentId.Some? && p.runtimeId.Some? && command.revisionId.Some?
  {
    var values := Zip(RUNTIME_KEYS, RuntimeColumn(command, v, names, platformUrl));
    FieldGiven(values, 8, command.placement.organizationId);
    FieldGiven(values, 9, command.placement.userId);
    FieldGiven(values, 10, command.placement.agentId);
    FieldGiven(values, 11, command.placement.runtimeId);
    FieldGiven(values, 13, command.revisionId);
  }

  lemma RuntimeFields(text: string, command: ConfigCommand, v: ConfigValues, names: Names, platformUrl: string)
    requires SecretsAre(command, v) && command.revisionId.Some?
    requires var p := command.placement;
      p.organizationId.Some? && p.userId.Some? && p.agentId.Some? && p.runtimeId.Some?
    requires CarriesAll(text, Zip(RUNTIME_KEYS, RuntimeColumn(command, v, names, platformUrl)))
    ensures RuntimeCarries(text, command, names, platformUrl, v.password, v.workspaceId)
  {
    var values := Zip(RUNTIME_KEYS, RuntimeColumn(command, v, names, platformUrl));
    CarriesAt(text, values, 0); CarriesAt(text, values, 1); CarriesAt(text, values, 2);
    CarriesAt(text, values, 3); CarriesAt(text, values, 4); CarriesAt(text, values, 5);
    CarriesAt(text, values, 6); CarriesAt(text, values, 7); CarriesAt(text, values, 8);
    CarriesAt(text, values, 9); CarriesAt(text, values, 10); CarriesAt(text, values, 11);
    CarriesAt(text, values, 12); CarriesAt(text, values, 13); CarriesAt(text, values, 14);
    CarriesAt(text, values, 15); CarriesAt(text, values, 16);
  }

  /** The files of a configuration command hold, key by key, what the command says. */
  lemma FilesHoldCommand(command: ConfigCommand, names: Names, platformUrl: string, digests: Digests)
    requires ConfigurationFiles(command, names, platformUrl, digests).Ok?
    ensures HoldCommand(ConfigurationFiles(command, names, platformUrl, digests).value, command, names, platformUrl,
                        digests)
  {
    var v := ConfigurationValues(command, digests).value;
    HermesFile(command.config.value, v.apiKey);
    DashboardFile("bairui-runtime", v.password, v.dashboardSecret);
    RuntimeFile(command, v, names, platformUrl);
    assert IsWorkspaceRef(command, WorkspaceRefOf(command));
  }

  // ---------------------------------------------------------------- when there are files

  /** Given, not empty, and without CR, LF and NUL. */
  predicate Given(field: Option<string>) {
    field.Some? && field.value != "" && forall c | c in field.value :: c != '\r' && c != '\n' && c != '\0'
  }

  predicate GoodSecret(field: Option<string>) {
    Given(field) && |field.value| >= 32
  }

  lemma GivenIsOk(text: string)
    ensures EnvValueOk(text) <==> Given(Some(text))
    ensures MachineSecret(Some(text)).Ok? <==> GoodSecret(Some(text))
  {
  }

  /** A command that is complete, for its own agent, with secrets of at least 32 characters, all its fields
      given, and everything that gets into a file fit for a line of it. */
  ghost predicate Printable(command: ConfigCommand, names: Names, platformUrl: string) {
    && command.config.Some? && command.placement.agentId == Some(command.agentId)
    && var config, p := command.config.value, command.placement;
    && GoodSecret(config.secrets.hermesApiServerKey) && GoodSecret(config.secrets.runtimeSharedSecret)
    && GoodSecret(config.secrets.agentControlToken)
    && Given(config.secrets.providerApiKey) && Given(config.baseUrl) && Given(config.model)
    && Given(p.organizationId) && Given(p.userId) && Given(p.agentId) && Given(p.runtimeId)
    && Given(command.revisionId) && Given(Some(platformUrl))
    && Given(Some("http://" + names.hermes + ":8642")) && Given(Some("http://" + names.dashboard + ":9119"))
    && exists ref: string :: IsWorkspaceRef(command, ref) && Given(Some(ref))
  }

  ghost predicate AllGiven(values: Values) {
    forall i | 0 <= i < |values| :: Given(Some(values[i].value))
  }

  lemma PrintsIfGiven(values: Values)
    ensures PrintEnv(values).Ok? <==> AllGiven(values)
  {
    forall i | 0 <= i < |values| ensures EnvValueOk(values[i].value) <==> Given(Some(values[i].value)) {
      GivenIsOk(values[i].value);
    }
    if AllGiven(values) {
      forall e | e in values ensures EnvValueOk(e.value) {
        var i :| 0 <= i < |values| && values[i] == e;
      }
    } else {
      var i :| 0 <= i < |values| && !Given(Some(values[i].value));
      assert values[i] in values;
    }
  }

  lemma ConstantsGiven()
    ensures Given(Some("true")) && Given(Some("0.0.0.0")) && Given(Some("8787")) && Given(Some("/opt/data"))
    ensures Given(Some("43200")) && Given(Some("bairui-runtime"))
  {
  }

  lemma OrEmptyGiven(field: Option<string>)
    ensures Given(Some(OrEmpty(field))) <==> Given(field)
  {
  }

  lemma HermesPrints(config: Config, apiKey: string)
    requires Given(Some(apiKey))
    ensures PrintEnv(HermesValues(config, apiKey)).Ok? <==>
            Given(config.secrets.providerApiKey) && Given(config.baseUrl) && Given(config.model)
  {
    var values := HermesValues(config, apiKey);
    PrintsIfGiven(values);
    ConstantsGiven();
    OrEmptyGiven(config.secrets.providerApiKey);
    OrEmptyGiven(config.baseUrl);
    OrEmptyGiven(config.model);
    assert AllGiven(values) <==>
           Given(Some(values[3].value)) && Given(Some(values[4].value)) && Given(Some(values[5].value));
  }

  lemma DashboardPrints(v: ConfigValues)
    requires Given(Some(v.password)) && Given(Some(v.dashboardSecret))
    ensures PrintEnv(DashboardValues("bairui-runtime", v.password, v.dashboardSecret)).Ok?
  {
    PrintsIfGiven(DashboardValues("bairui-runtime", v.password, v.dashboardSecret));
    ConstantsGiven();
  }

  lemma RuntimePrints(command: ConfigCommand, v: ConfigValues, names: Names, platformUrl: string)
    requires Given(Some(v.apiKey)) && Given(Some(v.runtimeSecret)) && Given(Some(v.controlToken))
    requires Given(Some(v.password)) && Given(Some(v.workspaceId))
    ensures var p := command.placement;
      PrintEnv(Zip(RUNTIME_KEYS, RuntimeColumn(command, v, names, platformUrl))).Ok? <==>
      && Given(Some("http://" + names.hermes + ":8642")) && Given(Some("http://" + names.dashboard + ":9119"))
      && Given(Some(platformUrl)) && Given(p.organizationId) && Given(p.userId) && Given(p.agentId)
      && Given(p.runtimeId) && Given(command.revisionId)
  {
    var p, column := command.placement, RuntimeColumn(command, v, names, platformUrl);
    PrintsIfGiven(Zip(RUNTIME_KEYS, column));
    ConstantsGiven();
    OrEmptyGiven(p.organizationId);
    OrEmptyGiven(p.userId);
    OrEmptyGiven(p.agentId);
    OrEmptyGiven(p.runtimeId);
    OrEmptyGiven(command.revisionId);
    ColumnGiven(column);
  }

  lemma ColumnGiven(column: seq<string>)
    requires |column| == 17
    ensures AllGiven(Zip(RUNTIME_KEYS, column)) <==>
            && Given(Some(column[0])) && Given(Some(column[1])) && Given(Some(column[2])) && Given(Some(column[3]))
            && Given(Some(column[4])) && Given(Some(column[5])) && Given(Some(column[6])) && Given(Some(column[7]))
            && Given(Some(column[8])) && Given(Some(column[9])) && Given(Some(column[10])) && Given(Some(column[11]))
            && Given(Some(column[12])) && Given(Some(column[13])) && Given(Some(column[14])) && Given(Some(column[15]))
            && Given(Some(column[16]))
  {
    var values := Zip(RUNTIME_KEYS, column);
    assert forall i | 0 <= i < 17 :: values[i].value == column[i];
  }

  /** There are files for a command exactly if it is printable. */
  lemma PrintableExactly(command: ConfigCommand, names: Names, platformUrl: string, digests: Digests)
    requires digests.Valid()
    ensures ConfigurationFiles(command, names, platformUrl, digests).Ok? <==> Printable(command, names, platformUrl)
  {
    if command.config.Some? {
      ValuesExactly(command, digests);
      if ConfigurationValues(command, digests).Ok? {
        var v := ConfigurationValues(command, digests).value;
        HermesPrints(command.config.value, v.apiKey);
        DashboardPrints(v);
        RuntimePrints(command, v, names, platformUrl);
      }
    }
  }

  lemma ValuesExactly(command: ConfigCommand, digests: Digests)
    requires digests.Valid() && command.config.Some?
    ensures var values, secrets := ConfigurationValues(command, digests), command.config.value.secrets;
      && (values.Ok? <==>
            && command.placement.agentId == Some(command.agentId)
            && GoodSecret(secrets.hermesApiServerKey) && GoodSecret(secrets.runtimeSharedSecret)
            && GoodSecret(secrets.agentControlToken)
            && exists ref: string :: IsWorkspaceRef(command, ref) && Given(Some(ref)))
      && (values.Ok? ==> var v := values.value;
            && Given(Some(v.apiKey)) && Given(Some(v.runtimeSecret)) && Given(Some(v.controlToken))
            && Given(Some(v.password)) && Given(Some(v.dashboardSecret)) && Given(Some(v.workspaceId)))
  {
    var secrets := command.config.value.secrets;
    GivenIsOk(OrEmpty(secrets.hermesApiServerKey));
    GivenIsOk(OrEmpty(secrets.runtimeSharedSecret));
    GivenIsOk(OrEmpty(secrets.agentControlToken));
    GivenIsOk(WorkspaceRefOf(command));
    assert IsWorkspaceRef(command, WorkspaceRefOf(command));
    if ConfigurationValues(command, digests).Ok? {
      var v := ConfigurationValues(command, digests).value;
      GivenIsOk(v.password);
      GivenIsOk(v.dashboardSecret);
      GivenIsOk(v.workspaceId);
    }
  }

  // ---------------------------------------------------------------- what a completion leaves

  /** The workspace of an instance: the file's reference, or else the record's, or else one made of the
      ids, each the file's or else the record's. */
  predicate IsRecordRef(values: Values, metadata: Metadata, ref: string) {
    if Get(values, "BAIRUI_WORKSPACE_REF").Some? then ref == Get(values, "BAIRUI_WORKSPACE_REF").value
    else if metadata.workspaceRef.Some? then ref == metadata.workspaceRef.value
    else
      var organization := if Get(values, "BAIRUI_ORGANIZATION_ID").Some?
                          then Get(values, "BAIRUI_ORGANIZATION_ID").value
                          else if metadata.organizationId.Some? then metadata.organizationId.value else "undefined";
      var user := if Get(values, "BAIRUI_USER_ID").Some? then Get(values, "BAIRUI_USER_ID").value
                  else if metadata.userId.Some? then metadata.userId.value else "undefined";
      var agent := if Get(values, "BAIRUI_AGENT_ID").Some? then Get(values, "BAIRUI_AGENT_ID").value
                   else metadata.agentId;
      ref == "hermes:" + organization + ":" + user + ":" + agent
  }

  /** The entries of a runtime file after its completion, by those before: what was there of user, password
      and workspace stays, or else is the constant, the secret derived from the API key, and the digest of
      the reference. */
  predicate CompletedAs(before: Values, after: Values, metadata: Metadata, digests: Digests)
    requires Get(before, API_KEY).Some?
  {
    && Get(after, "HERMES_MANAGEMENT_URL") == Some("http://" + metadata.names.dashboard + ":9119")
    && Get(after, "BAIRUI_HERMES_DATA_PATH") == Some("/opt/data")
    && Get(after, "HERMES_DASHBOARD_USERNAME") == Or(Get(before, "HERMES_DASHBOARD_USERNAME"), Some("bairui-runtime"))
    && Get(after, "HERMES_DASHBOARD_PASSWORD") ==
         Or(Get(before, "HERMES_DASHBOARD_PASSWORD"),
            Some(digests.derivedSecret(Get(before, API_KEY).value, "hermes-dashboard-password")))
    && (Get(before, "BAIRUI_WORKSPACE_ID").Some? ==>
          Get(after, "BAIRUI_WORKSPACE_ID") == Get(before, "BAIRUI_WORKSPACE_ID"))
  }

  ghost predicate WorkspaceCompleted(before: Values, after: Values, metadata: Metadata, digests: Digests) {
    Get(before, "BAIRUI_WORKSPACE_ID").None? ==>
      exists ref: string :: IsRecordRef(before, metadata, ref) && Given(Some(ref)) &&
        Get(after, "BAIRUI_WORKSPACE_ID") == Some(digests.workspaceDigest(ref))
  }

  /** Both secrets are good, and the workspace is there or can be made. */
  ghost predicate Completable(values: Values, metadata: Metadata) {
    && GoodSecret(Get(values, "HERMES_API_SERVER_KEY")) && GoodSecret(Get(values, "BAIRUI_RUNTIME_SHARED_SECRET"))
    && (Get(values, "BAIRUI_WORKSPACE_ID").Some? ||
        exists ref: string :: IsRecordRef(values, metadata, ref) && Given(Some(ref)))
  }

  lemma CompleteExactly(values: Values, metadata: Metadata, digests: Digests)
    ensures Complete(values, metadata, digests).Ok? <==> Completable(values, metadata)
    ensures Complete(values, metadata, digests).Ok? ==>
            var after := PutCompleted(values, Complete(values, metadata, digests).value);
            CompletedAs(values, after, metadata, digests) && WorkspaceCompleted(values, after, metadata, digests)
  {
    GivenIsOk(OrEmpty(Get(values, API_KEY)));
    GivenIsOk(OrEmpty(Get(values, SHARED_SECRET)));
    var ref := RecordRef(values, metadata);
    GivenIsOk(ref);
    assert IsRecordRef(values, metadata, ref);
    if Complete(values, metadata, digests).Ok? {
      PutCompletedProperties(values, Complete(values, metadata, digests).value);
    }
  }

  /** A completion that goes through leaves a runtime file with the five entries completed and all others
      as they were; it goes through exactly if the entries can be completed, and if they are printed where
      they are not there already. */
  lemma ManagedExactly(text: string, metadata: Metadata, digests: Digests)
    requires digests.Valid() && OneLine(metadata.names.dashboard)
    ensures var values, managed := ReadEnv(text), ManageRuntime(text, metadata, digests);
      && (managed.Ok? ==>
            && Get(values, API_KEY).Some?
            && var after := ReadEnv(managed.value);
               && CompletedAs(values, after, metadata, digests) && WorkspaceCompleted(values, after, metadata, digests)
               && forall k | k !in COMPLETED :: Get(after, k) == Get(values, k))
      && (managed.Ok? ==> Completable(values, metadata))
      && (Completable(values, metadata) ==>
            (managed.Ok? <==> Has(values, Complete(values, metadata, digests).value) ||
                              AllGiven(PutCompleted(values, Complete(values, metadata, digests).value))))
  {
    var values := ReadEnv(text);
    CompleteExactly(values, metadata, digests);
    if Complete(values, metadata, digests).Ok? {
      var c := Complete(values, metadata, digests).value;
      PutCompletedProperties(values, c);
      UpdatedIsRead(text, metadata, digests);
      PrintsIfGiven(PutCompleted(values, c));
    }
  }

  /** A dashboard file made for a runtime file holds the user and password of its completion. */
  lemma DashboardMade(text: string, metadata: Metadata, digests: Digests)
    requires MissingDashboard(text, metadata, digests).Ok?
    ensures var values := ReadEnv(text);
      && Get(values, API_KEY).Some? && Get(values, SHARED_SECRET).Some?
      && DashboardCarries(
           MissingDashboard(text, metadata, digests).value,
           Or(Get(values, "HERMES_DASHBOARD_USERNAME"), Some("bairui-runtime")).value,
           Or(Get(values, "HERMES_DASHBOARD_PASSWORD"),
              Some(digests.derivedSecret(Get(values, API_KEY).value, "hermes-dashboard-password"))).value,
           digests.derivedSecret(Get(values, SHARED_SECRET).value, "hermes-dashboard-session"))
  {
    var values := ReadEnv(text);
    var c := Complete(values, metadata, digests).value;
    DashboardFile(c.username, c.password,
                  digests.derivedSecret(Get(values, SHARED_SECRET).value, "hermes-dashboard-session"));
  }

  /** Both secrets survive printing and reading. */
  predicate SecretsReadable(v: ConfigValues) {
    OneLine(v.apiKey) && OneLine(v.runtimeSecret)
  }

  lemma SecretsOf(command: ConfigCommand, digests: Digests)
    requires ConfigurationValues(command, digests).Ok?
    ensures SecretsAre(command, ConfigurationValues(command, digests).value)
  {
  }

  /** A runtime file as provisioning and staging write it is already complete, and completing it changes
      nothing, exactly when no line terminator that the printer lets pass is in either secret; with one,
      the completion fails. */
  lemma WrittenIsManaged(command: ConfigCommand, names: Names, platformUrl: string, digests: Digests, five: Five,
      metadata: Metadata)
    requires digests.Valid() && OneLine(names.dashboard) && metadata.names == names
    requires ConfigurationFiles(command, names, platformUrl, digests) == Ok(five)
    ensures ManageRuntime(five.runtimeEnv, metadata, digests) ==
            if SecretsReadable(ConfigurationValues(command, digests).value) then Ok(five.runtimeEnv)
                else Err(InvalidConfig)
  {
    var v := ConfigurationValues(command, digests).value;
    ValuesOneLine(command, digests);
    ColumnText(five.runtimeEnv, RuntimeColumn(command, v, names, platformUrl), v, metadata, digests);
  }

  lemma ValuesOneLine(command: ConfigCommand, digests: Digests)
    requires digests.Valid() && ConfigurationValues(command, digests).Ok?
    ensures ValuesGood(ConfigurationValues(command, digests).value)
  {
  }

  predicate ValuesGood(v: ConfigValues) {
    && OneLine(v.password) && OneLine(v.workspaceId)
    && MachineSecret(Some(v.apiKey)).Ok? && MachineSecret(Some(v.runtimeSecret)).Ok?
  }

  lemma ColumnText(text: string, column: seq<string>, v: ConfigValues, metadata: Metadata, digests: Digests)
    requires |column| == 17 && PrintEnv(Zip(RUNTIME_KEYS, column)) == Ok(text) && ValuesGood(v)
    requires column[1] == ManagementUrl(metadata.names) && column[2] == v.apiKey && column[3] == "bairui-runtime"
    requires column[4] == v.password && column[5] == "/opt/data" && column[6] == v.runtimeSecret &&
             column[12] == v.workspaceId
    requires OneLine(metadata.names.dashboard)
    ensures ManageRuntime(text, metadata, digests) == if SecretsReadable(v) then Ok(text) else Err(InvalidConfig)
  {
    RuntimeIsManaged(column, Completed(ManagementUrl(metadata.names), "bairui-runtime", v.password, v.workspaceId),
        metadata, digests);
  }

  lemma RuntimeIsManaged(column: seq<string>, c: Completed, metadata: Metadata, digests: Digests)
    requires |column| == 17 && PrintEnv(Zip(RUNTIME_KEYS, column)).Ok?
    requires column[1] == c.url && column[3] == c.username && column[4] == c.password
    requires column[5] == "/opt/data" && column[12] == c.workspaceId
    requires MachineSecret(Some(column[2])).Ok? && MachineSecret(Some(column[6])).Ok?
    requires c.url == ManagementUrl(metadata.names) && OneLine(metadata.names.dashboard)
    requires c.username == "bairui-runtime" && OneLine(c.password) && OneLine(c.workspaceId)
    ensures var text := PrintEnv(Zip(RUNTIME_KEYS, column)).value;
      ManageRuntime(text, metadata, digests) ==
        if OneLine(column[2]) && OneLine(column[6]) then Ok(text) else Err(InvalidConfig)
  {
    RuntimeKeysGood();
    ColumnIsManaged(RUNTIME_KEYS, column, c, metadata, digests);
  }

  lemma ColumnIsManaged(keys: seq<string>, column: seq<string>, c: Completed, metadata: Metadata, digests: Digests)
    requires KeysGood(keys) && |keys| == |column| == 17 && PrintEnv(Zip(keys, column)).Ok?
    requires keys[1] == MANAGEMENT_URL && keys[3] == USERNAME && keys[4] == PASSWORD && keys[5] == DATA_PATH &&
             keys[12] == WORKSPACE_ID
    requires keys[2] == API_KEY && keys[6] == SHARED_SECRET
    requires column[1] == c.url && column[3] == c.username && column[4] == c.password
    requires column[5] == "/opt/data" && column[12] == c.workspaceId
    requires MachineSecret(Some(column[2])).Ok? && MachineSecret(Some(column[6])).Ok?
    requires c.url == ManagementUrl(metadata.names) && OneLine(metadata.names.dashboard)
    requires OneLine(c.username) && OneLine(c.password) && OneLine(c.workspaceId)
    ensures var text := PrintEnv(Zip(keys, column)).value;
      ManageRuntime(text, metadata, digests) ==
        if OneLine(column[2]) && OneLine(column[6]) then Ok(text) else Err(InvalidConfig)
  {
    UrlOneLine(metadata.names);
    ColumnReadBack(keys, column, 1);
    ColumnReadBack(keys, column, 2);
    ColumnReadBack(keys, column, 3);
    ColumnReadBack(keys, column, 4);
    ColumnReadBack(keys, column, 5);
    ColumnReadBack(keys, column, 6);
    ColumnReadBack(keys, column, 12);
    HasIsManaged(PrintEnv(Zip(keys, column)).value, metadata, digests, c);
  }

  lemma HasIsManaged(text: string, metadata: Metadata, digests: Digests, c: Completed)
    requires Has(ReadEnv(text), c) && c.url == ManagementUrl(metadata.names)
    ensures ManageRuntime(text, metadata, digests) ==
            if MachineSecret(Get(ReadEnv(text), API_KEY)).Ok? && MachineSecret(Get(ReadEnv(text), SHARED_SECRET)).Ok?
                then Ok(text)
            else Err(InvalidConfig)
  {
    var values := ReadEnv(text);
    if Complete(values, metadata, digests).Ok? {
      CompleteAgain(values, metadata, digests, c);
      PutCompletedProperties(values, c);
    }
  }
}
