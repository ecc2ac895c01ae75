/** The record of one agent instance, `instance.json`. */
module Instance {
  import opened Wrappers

  /** Container and network names, made of the digest of the agent id. */
  datatype Names = Names(network: string, hermes: string, dashboard: string, runtime: string)

  datatype Metadata = Metadata(
    agentId: string, organizationId: Option<string>, userId: Option<string>, workspaceRef: Option<string>,
    names: Names, runtimePort: Option<int>, configRevisionId: Option<string>, idempotencyKey: string)

  /** How a write of the record ends: it succeeds, or it fails and leaves the old record, an unreadable
      one, or the complete new one. */
  datatype RecordWrite = Recorded | Unwritten | TornWrite | LateFailure

  function RecordAfter(before: Option<Metadata>, record: Metadata, write: RecordWrite): Option<Metadata> {
    match write
    case Recorded => Some(record)
    case Unwritten => before
    case TornWrite => None
    case LateFailure => Some(record)
  }
}
