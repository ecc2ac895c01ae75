/** The runtime port of an agent: linear probing over the metadata of all instances, and what it
    guarantees over every sequential run of supervisor commands. Ports are not reserved: the probe
    reads what earlier provisions recorded, and deleting a deployment keeps its record. */
module PortAllocator {
  import opened Wrappers
  import opened Instance

  datatype Error = PortExhausted | NotFound | Failed

  /** The configured range and the two functions of an agent id taken from its digest: the name of its
      directory, and the number its first probe comes from. Distinct agents have distinct directories:
      `owner` is the agent a directory name belongs to. */
  datatype Range = Range(portStart: int, portEnd: int, instanceKey: string -> string, owner: string -> string,
                         digest: string -> nat)
  {
    ghost predicate Valid() {
      && 1024 <= portStart < portEnd <= 65535
      && forall a :: owner(instanceKey(a)) == a
    }

    function Size(): int { portEnd - portStart + 1 }

    predicate Contains(port: int) { portStart <= port <= portEnd }

    function Probe(agentId: string, offset: nat): (port: int)
      requires Valid()
      ensures Contains(port)
    {
      var first := portStart + digest(agentId) % Size();
      portStart + (first - portStart + offset) % Size()
    }

    /** How far a port lies behind an agent's first one, in the cyclic order of the range: upwards from
        there, and from the last port on to the first. */
    function Behind(agentId: string, port: int): int
      requires portStart <= portEnd
    {
      var first := portStart + digest(agentId) % Size();
      if port >= first then port - first else (portEnd - first + 1) + (port - portStart)
    }

    /** Probing goes through the range in its cyclic order, from the agent's first port on. */
    lemma ProbeInOrder(agentId: string, offset: nat)
      requires Valid() && offset < Size()
      ensures Behind(agentId, Probe(agentId, offset)) == offset
    {
      var at := digest(agentId) % Size();
      if at + offset < Size() { ModOnce(at + offset, Size()); } else { ModOnce(at + offset - Size(), Size()); }
    }

    /** Every port of the range is probed. */
    lemma ProbeReaches(agentId: string, port: int) returns (offset: nat)
      requires Valid() && Contains(port)
      ensures offset < Size() && Probe(agentId, offset) == port
    {
      var at, want := digest(agentId) % Size(), port - portStart;
      offset := if want >= at then want - at else want - at + Size();
      ModOnce(want, Size());
    }
  }

  lemma ModOnce(x: int, size: int)
    requires 0 <= x < size
    ensures x % size == x && (x + size) % size == x
  {
  }

  type Records = map<string, int>

  predicate HeldByOther(records: Records, port: int, agentId: string) {
    exists other | other in records :: other != agentId && records[other] == port
  }

  /** The first probe slot from `offset` on that no other agent holds. */
  function FirstFree(range: Range, records: Records, agentId: string, offset: nat): Option<int>
    requires range.Valid()
    decreases range.Size() - offset
  {
    if offset >= range.Size() then None
    else if HeldByOther(records, range.Probe(agentId, offset), agentId)
        then FirstFree(range, records, agentId, offset + 1)
    else Some(range.Probe(agentId, offset))
  }

  lemma FirstFreeStep(range: Range, records: Records, agentId: string, offset: nat)
    requires range.Valid() && offset < range.Size()
    ensures var port := range.Probe(agentId, offset);
      FirstFree(range, records, agentId, offset) ==
      if HeldByOther(records, port, agentId) then FirstFree(range, records, agentId, offset + 1) else Some(port)
  {
  }

  function Allocate(range: Range, records: Records, agentId: string): Option<int>
    requires range.Valid()
  {
    FirstFree(range, records, agentId, 0)
  }

  /** The port no other agent holds that comes first in the cyclic order of the range, from the port
      that the agent's digest picks. */
  ghost predicate FirstInOrder(range: Range, records: Records, agentId: string, port: int)
    requires range.Valid()
  {
    && range.Contains(port) && !HeldByOther(records, port, agentId)
    && forall p | range.Contains(p) && range.Behind(agentId, p) < range.Behind(agentId, port) ::
         HeldByOther(records, p, agentId)
  }

  /** That port is the one allocated. */
  lemma AllocatedFirst(range: Range, records: Records, agentId: string, port: int)
    requires range.Valid()
    ensures Allocate(range, records, agentId) == Some(port) <==> FirstInOrder(range, records, agentId, port)
  {
    FirstFreeFinds(range, records, agentId, 0);
    if Allocate(range, records, agentId) == Some(port) {
      var at: nat :| at < range.Size() && range.Probe(agentId, at) == port
        && forall k: nat | k < at :: HeldByOther(records, range.Probe(agentId, k), agentId);
      range.ProbeInOrder(agentId, at);
      forall p | range.Contains(p) && range.Behind(agentId, p) < at ensures HeldByOther(records, p, agentId) {
        var k := range.ProbeReaches(agentId, p);
        range.ProbeInOrder(agentId, k);
      }
    } else if FirstInOrder(range, records, agentId, port) {
      var at := range.ProbeReaches(agentId, port);
      range.ProbeInOrder(agentId, at);
      forall k: nat | k < at ensures HeldByOther(records, range.Probe(agentId, k), agentId) {
        range.ProbeInOrder(agentId, k);
      }
      SkipHeld(range, records, agentId, 0, at);
    }
  }

  /** Everything probed before an agent's own port is held by others. */
  ghost predicate ProbedThere(range: Range, records: Records, agentId: string)
    requires range.Valid() && agentId in records
  {
    exists at: nat :: at < range.Size() && range.Probe(agentId, at) == records[agentId]
      && forall earlier: nat | earlier < at :: HeldByOther(records, range.Probe(agentId, earlier), agentId)
  }

  /** Recorded ports lie in range and are distinct. */
  ghost predicate Orderly(range: Range, records: Records) {
    && (forall a | a in records :: range.Contains(records[a]))
    && (forall a, b | a in records && b in records && a != b :: records[a] != records[b])
  }

  ghost predicate Sound(range: Range, records: Records)
    requires range.Valid()
  {
    && Orderly(range, records)
    && (forall a {:trigger ProbedThere(range, records, a)} | a in records :: ProbedThere(range, records, a))
  }

  lemma {:induction false} FirstFreeFinds(range: Range, records: Records, agentId: string, offset: nat)
    requires range.Valid() && offset <= range.Size()
    requires forall k: nat | k < offset :: HeldByOther(records, range.Probe(agentId, k), agentId)
    ensures var port := FirstFree(range, records, agentId, offset);
      if port.Some? then
        && !HeldByOther(records, port.value, agentId)
        && exists at: nat :: at < range.Size() && range.Probe(agentId, at) == port.value
             && forall k: nat | k < at :: HeldByOther(records, range.Probe(agentId, k), agentId)
      else
        forall k: nat | k < range.Size() :: HeldByOther(records, range.Probe(agentId, k), agentId)
    decreases range.Size() - offset
  {
    if offset < range.Size() && HeldByOther(records, range.Probe(agentId, offset), agentId) {
      FirstFreeFinds(range, records, agentId, offset + 1);
    }
  }

  /** An allocation fails exactly when every port of the range belongs to another agent. */
  lemma ExhaustedExactly(range: Range, records: Records, agentId: string)
    requires range.Valid()
    ensures Allocate(range, records, agentId).None? <==>
            forall port | range.Contains(port) :: HeldByOther(records, port, agentId)
  {
    FirstFreeFinds(range, records, agentId, 0);
    if Allocate(range, records, agentId).None? {
      forall port | range.Contains(port) ensures HeldByOther(records, port, agentId) {
        var at := range.ProbeReaches(agentId, port);
      }
    }
  }

  /** An agent with a recorded port is given that port again. */
  lemma AllocateStable(range: Range, records: Records, agentId: string)
    requires range.Valid() && Sound(range, records) && agentId in records
    ensures Allocate(range, records, agentId) == Some(records[agentId])
  {
    assert ProbedThere(range, records, agentId);
    var at: nat :| at < range.Size() && range.Probe(agentId, at) == records[agentId]
      && forall k: nat | k < at :: HeldByOther(records, range.Probe(agentId, k), agentId);
    SkipHeld(range, records, agentId, 0, at);
  }

  lemma {:induction false} SkipHeld(range: Range, records: Records, agentId: string, offset: nat, at: nat)
    requires range.Valid() && offset <= at < range.Size()
    requires forall k: nat | k < at :: HeldByOther(records, range.Probe(agentId, k), agentId)
    requires !HeldByOther(records, range.Probe(agentId, at), agentId)
    ensures FirstFree(range, records, agentId, offset) == Some(range.Probe(agentId, at))
    decreases at - offset
  {
    if offset < at {
      SkipHeld(range, records, agentId, offset + 1, at);
    }
  }

  /** Recording an allocated port keeps the records sound: slots once held stay held. */
  lemma RecordSound(range: Range, records: Records, agentId: string, port: int)
    requires range.Valid() && Sound(range, records)
    requires Allocate(range, records, agentId) == Some(port)
    ensures Sound(range, records[agentId := port])
    ensures agentId in records ==> records[agentId := port] == records
    ensures Keeps(records, records[agentId := port])
  {
    if agentId in records {
      AllocateStable(range, records, agentId);
      assert records[agentId := port] == records;
    } else {
      var after := records[agentId := port];
      FirstFreeFinds(range, records, agentId, 0);
      forall p, a | HeldByOther(records, p, a) ensures HeldByOther(after, p, a) {
        var other :| other in records && other != a && records[other] == p;
        assert other in after && after[other] == p;
      }
      forall a | a in after ensures ProbedThere(range, after, a) {
        if a != agentId { assert ProbedThere(range, records, a); }
      }
      forall a, b | a in after && b in after && a != b ensures after[a] != after[b] {
        assert !HeldByOther(records, port, agentId);
      }
    }
  }

  /** Recording an allocated port keeps ports in range and distinct, even where records have been lost. */
  lemma RecordOrderly(range: Range, records: Records, agentId: string, port: int)
    requires range.Valid() && Orderly(range, records) && Allocate(range, records, agentId) == Some(port)
    ensures Orderly(range, records[agentId := port])
  {
    FirstFreeFinds(range, records, agentId, 0);
    var after := records[agentId := port];
    forall a, b | a in after && b in after && a != b ensures after[a] != after[b] {
      assert !HeldByOther(records, port, agentId);
    }
  }

  // ---------------------------------------------------------------- lost records

  lemma HeldAfterLoss(records: Records, lost: string, port: int, agentId: string)
    ensures HeldByOther(records - {lost}, port, agentId) ==> HeldByOther(records, port, agentId)
    ensures HeldByOther(records, port, agentId) && (lost == agentId || lost !in records || records[lost] != port) ==>
            HeldByOther(records - {lost}, port, agentId)
  {
    var after := records - {lost};
    if HeldByOther(records, port, agentId) {
      var other :| other in records && other != agentId && records[other] == port;
      assert other != lost ==> other in after && after[other] == port;
    }
  }

  /** An agent is given a port whose record has become unreadable exactly if the port is one of its probe
      slots and others hold all the slots before it. */
  lemma TornRecordFreesPort(range: Range, records: Records, lost: string, agentId: string)
    requires range.Valid() && Orderly(range, records) && lost in records
    ensures Allocate(range, records - {lost}, agentId) == Some(records[lost]) <==>
            exists at: nat :: ReachesAt(range, records - {lost}, agentId, records[lost], at)
  {
    var after := records - {lost};
    FirstFreeFinds(range, after, agentId, 0);
    assert !HeldByOther(after, records[lost], agentId);
    if Allocate(range, after, agentId) == Some(records[lost]) {
      var at: nat :| at < range.Size() && range.Probe(agentId, at) == records[lost]
        && forall k: nat | k < at :: HeldByOther(after, range.Probe(agentId, k), agentId);
      assert ReachesAt(range, after, agentId, records[lost], at);
    }
    if at: nat :| ReachesAt(range, after, agentId, records[lost], at) {
      SkipHeld(range, after, agentId, 0, at);
    }
  }

  /** The port is the probe slot `at` of the agent, and others hold all slots before it. */
  ghost predicate ReachesAt(range: Range, records: Records, agentId: string, port: int, at: nat)
    requires range.Valid()
  {
    && at < range.Size() && range.Probe(agentId, at) == port
    && forall k: nat | k < at :: HeldByOther(records, range.Probe(agentId, k), agentId)
  }

  /** The agent itself gets its port back, for as long as nobody else has been given it. */
  lemma LostAgentReturns(range: Range, records: Records, lost: string)
    requires range.Valid() && Sound(range, records) && lost in records
    ensures Allocate(range, records - {lost}, lost) == Some(records[lost])
  {
    var after := records - {lost};
    assert ProbedThere(range, records, lost);
    var at: nat :| at < range.Size() && range.Probe(lost, at) == records[lost]
      && forall k: nat | k < at :: HeldByOther(records, range.Probe(lost, k), lost);
    forall k: nat | k < at ensures HeldByOther(after, range.Probe(lost, k), lost) {
      HeldAfterLoss(records, lost, range.Probe(lost, k), lost);
    }
    assert ReachesAt(range, after, lost, records[lost], at);
    TornRecordFreesPort(range, records, lost, lost);
  }

  /** After a loss the other agents keep their ports exactly if the records are still sound: if none of
      them was given its own past the lost one. */
  lemma LossIsHarmless(range: Range, records: Records, lost: string)
    requires range.Valid() && Sound(range, records) && lost in records
    ensures (forall b | b in records && b != lost :: Allocate(range, records - {lost}, b) == Some(records[b])) <==>
            Sound(range, records - {lost})
  {
    var after := records - {lost};
    if Sound(range, after) {
      forall b | b in records && b != lost ensures Allocate(range, after, b) == Some(records[b]) {
        AllocateStable(range, after, b);
      }
    }
    if forall b | b in records && b != lost :: Allocate(range, after, b) == Some(records[b]) {
      forall b {:trigger ProbedThere(range, after, b)} | b in after ensures ProbedThere(range, after, b) {
        FirstFreeFinds(range, after, b, 0);
      }
    }
  }

  /** Instance directories by name; one without a readable `instance.json` maps to None. */
  type Instances = map<string, Option<Metadata>>

  predicate Recorded(range: Range, instances: Instances, agentId: string) {
    var k := range.instanceKey(agentId);
    k in instances && instances[k].Some? && instances[k].value.agentId == agentId &&
        instances[k].value.runtimePort.Some?
  }

  /** Metadata lie in the directory of their agent, and `records` are their ports by agent. */
  ghost predicate Describes(range: Range, instances: Instances, records: Records) {
    && (forall k | k in instances && instances[k].Some? :: range.instanceKey(instances[k].value.agentId) == k)
    && (forall a {:trigger RecordAt(range, instances, records, a)} :: RecordAt(range, instances, records, a))
  }

  ghost predicate RecordAt(range: Range, instances: Instances, records: Records, agentId: string) {
    && (Recorded(range, instances, agentId) <==> agentId in records)
    && (agentId in records && Recorded(range, instances, agentId) ==>
          instances[range.instanceKey(agentId)].value.runtimePort == Some(records[agentId]))
  }

  lemma DescribesAt(range: Range, instances: Instances, records: Records, agentId: string)
    requires Describes(range, instances, records)
    ensures RecordAt(range, instances, records, agentId)
  {
  }

  lemma NothingRecorded(range: Range)
    ensures Describes(range, map[], map[])
  {
    forall a {:trigger RecordAt(range, map[], map[], a)} ensures RecordAt(range, map[], map[], a) {
      assert !Recorded(range, map[], a);
    }
  }

  lemma NewDirectory(range: Range, instances: Instances, records: Records, k: string)
    requires Describes(range, instances, records) && k !in instances
    ensures Describes(range, instances[k := None], records)
  {
    var after := instances[k := None];
    forall a {:trigger RecordAt(range, after, records, a)} ensures RecordAt(range, after, records, a) {
      DescribesAt(range, instances, records, a);
    }
  }

  lemma WriteMetadata(range: Range, instances: Instances, records: Records, metadata: Metadata)
    requires range.Valid() && Describes(range, instances, records)
    requires metadata.runtimePort.Some?
    ensures Describes(range, instances[range.instanceKey(metadata.agentId) := Some(metadata)],
                      records[metadata.agentId := metadata.runtimePort.value])
  {
    var after := instances[range.instanceKey(metadata.agentId) := Some(metadata)];
    var now := records[metadata.agentId := metadata.runtimePort.value];
    forall a {:trigger RecordAt(range, after, now, a)} ensures RecordAt(range, after, now, a)
    {
      DescribesAt(range, instances, records, a);
    }
  }

  /** Rewriting a record with the same agent and port changes no recorded port. */
  lemma RewriteMetadata(range: Range, instances: Instances, records: Records, k: string, metadata: Metadata)
    requires Describes(range, instances, records) && k in instances && instances[k].Some?
    requires metadata.agentId == instances[k].value.agentId && metadata.runtimePort == instances[k].value.runtimePort
    ensures Describes(range, instances[k := Some(metadata)], records)
  {
    var after := instances[k := Some(metadata)];
    forall a {:trigger RecordAt(range, after, records, a)} ensures RecordAt(range, after, records, a) {
      DescribesAt(range, instances, records, a);
    }
  }

  /** A record that has become unreadable is gone. */
  lemma LoseMetadata(range: Range, instances: Instances, records: Records, agentId: string)
    requires range.Valid() && Describes(range, instances, records)
    ensures Describes(range, instances[range.instanceKey(agentId) := None], records - {agentId})
  {
    var after := instances[range.instanceKey(agentId) := None];
    forall a {:trigger RecordAt(range, after, records - {agentId}, a)}
      ensures RecordAt(range, after, records - {agentId}, a)
    {
      DescribesAt(range, instances, records, a);
      assert range.owner(range.instanceKey(a)) == a && range.owner(range.instanceKey(agentId)) == agentId;
    }
  }

  /** `occupied` holds just the recorded ports, each with its agent. */
  ghost predicate IndexesPorts(records: Records, occupied: map<int, string>) {
    && (forall p | p in occupied :: occupied[p] in records && records[occupied[p]] == p)
    && (forall a | a in records :: records[a] in occupied && occupied[records[a]] == a)
  }

  lemma OccupiedMeansHeld(records: Records, occupied: map<int, string>, port: int, agentId: string)
    requires IndexesPorts(records, occupied)
    ensures HeldByOther(records, port, agentId) <==> port in occupied && occupied[port] != agentId
  {
  }

  /** The probing loop, over the ports found in the directory. */
  method ProbePorts(range: Range, ghost records: Records, occupied: map<int, string>, agentId: string)
      returns (port: Option<int>)
    requires range.Valid()
    requires IndexesPorts(records, occupied)
    ensures port == Allocate(range, records, agentId)
  {
    var offset := 0;
    while offset < range.Size()
      invariant offset <= range.Size()
      invariant FirstFree(range, records, agentId, offset) == Allocate(range, records, agentId)
    {
      var candidate := range.Probe(agentId, offset);
      OccupiedMeansHeld(records, occupied, candidate, agentId);
      FirstFreeStep(range, records, agentId, offset);
      if candidate !in occupied || occupied[candidate] == agentId {
        return Some(candidate);
      }
      offset := offset + 1;
    }
    port := None;
  }

  /** The part of the supervisor that reads and writes the instance directories. */
  class InstanceRoot {
    const range: Range
    var instances: Instances
    ghost var records: Records

    ghost predicate Valid()
      reads this
    {
      range.Valid() && Describes(range, instances, records) && Orderly(range, records)
    }

    constructor (range: Range)
      requires range.Valid()
      ensures Valid() && records == map[] && Sound(range, records) && this.range == range
    {
      this.range := range;
      instances, records := map[], map[];
      NothingRecorded(range);
    }

    /** Ports by agent as a directory scan finds them, in whatever order the entries are listed. */
    method Occupied() returns (occupied: map<int, string>)
      requires Valid()
      ensures IndexesPorts(records, occupied)
    {
      occupied := map[];
      var entries := instances.Keys;
      forall a | a in records ensures range.instanceKey(a) in entries { DescribesAt(range, instances, records, a); }
      while entries != {}
        invariant entries <= instances.Keys
        invariant forall p | p in occupied :: occupied[p] in records && records[occupied[p]] == p
        invariant forall a | a in records ::
                    range.instanceKey(a) in entries || (records[a] in occupied && occupied[records[a]] == a)
      {
        var k :| k in entries;
        entries := entries - {k};
        var metadata := instances[k];
        if metadata.Some? {
          DescribesAt(range, instances, records, metadata.value.agentId);
          if metadata.value.runtimePort.Some? {
            occupied := occupied[metadata.value.runtimePort.value := metadata.value.agentId];
          }
        }
        forall a | a in records && range.instanceKey(a) == k ensures metadata.Some? && metadata.value.agentId == a {
          DescribesAt(range, instances, records, a);
        }
      }
    }

    method AllocatePort(agentId: string) returns (port: Option<int>)
      requires Valid()
      ensures port == Allocate(range, records, agentId)
      ensures port.Some? ==> FirstInOrder(range, records, agentId, port.value)
      ensures port.None? ==> forall p | range.Contains(p) :: HeldByOther(records, p, agentId)
    {
      var occupied := Occupied();
      port := ProbePorts(range, records, occupied, agentId);
      if port.Some? { AllocatedFirst(range, records, agentId, port.value); }
      ExhaustedExactly(range, records, agentId);
    }

    /** Docker, file writes and the validation of the command bundle may fail at any point; the record
        is written last, and `write` says how that ends. `record` is what the command asks to record, its
        port still open; `prepares` says whether hermes-data could be prepared, which comes before the
        allocation, and `works` that nothing between that and the record fails. */
    method Provision(record: Metadata, prepares: bool, works: bool, write: RecordWrite) returns (r: Result<int, Error>)
      requires Valid()
      modifies this
      ensures Valid()
      ensures prepares && works && write.Recorded? && Allocate(range, old(records), record.agentId).Some? ==> r.Ok?
      ensures Allots(range, old(records), records, record.agentId, prepares, if r.Ok? then Some(r.value) else None,
                     r == Err(PortExhausted), write)
    {
      var agentId := record.agentId;
      MakeDirectory(agentId);
      if !prepares { return Err(Failed); }
      var port := AllocatePort(agentId);
      if port.None? { return Err(PortExhausted); }
      var containersExist: bool, succeeds: bool := *, *;
      var reuse := Replay(agentId, record.idempotencyKey, containersExist);
      if reuse.Some? {
        if Sound(range, records) { AllocateStable(range, records, agentId); }
        assert records[agentId := reuse.value] == records;
        return Ok(reuse.value);
      }
      if !works && !succeeds { return Err(Failed); }
      WriteRecord(record.(runtimePort := port), write);
      r := if write.Recorded? then Ok(port.value) else Err(Failed);
    }

    method MakeDirectory(agentId: string)
      requires Valid()
      modifies this
      ensures Valid() && records == old(records) && range.instanceKey(agentId) in instances
      ensures instances ==
              if range.instanceKey(agentId) in old(instances) then old(instances)
              else old(instances)[range.instanceKey(agentId) := None]
    {
      var key := range.instanceKey(agentId);
      if key !in instances {
        NewDirectory(range, instances, records, key);
        instances := instances[key := None];
      }
    }

    /** The recorded port, where the record is of the same command and all containers exist. */
    method Replay(agentId: string, idempotencyKey: string, containersExist: bool) returns (port: Option<int>)
      requires Valid() && range.instanceKey(agentId) in instances
      ensures port.Some? ==> agentId in records && records[agentId] == port.value && containersExist
      ensures port.Some? ==> var previous := instances[range.instanceKey(agentId)];
                             previous.Some? && previous.value.idempotencyKey == idempotencyKey
    {
      var previous := instances[range.instanceKey(agentId)];
      if previous.Some? && previous.value.idempotencyKey == idempotencyKey && containersExist {
        DescribesAt(range, instances, records, agentId);
        return previous.value.runtimePort;
      }
      port := None;
    }

    /** Writes the record of an allocated port, with the outcome given. */
    method WriteRecord(metadata: Metadata, write: RecordWrite)
      requires Valid() && metadata.runtimePort.Some? && range.instanceKey(metadata.agentId) in instances
      requires Allocate(range, records, metadata.agentId) == metadata.runtimePort
      modifies this
      ensures Valid()
      ensures records == RecordsAfter(old(records), metadata.agentId, metadata.runtimePort.value, write)
      ensures var key := range.instanceKey(metadata.agentId);
        instances == old(instances)[key := RecordAfter(old(instances)[key], metadata, write)]
    {
      var key := range.instanceKey(metadata.agentId);
      assert instances[key := instances[key]] == instances;
      if write.TornWrite? {
        Lose(metadata.agentId);
      } else if !write.Unwritten? {
        RecordOrderly(range, records, metadata.agentId, metadata.runtimePort.value);
        WriteMetadata(range, instances, records, metadata);
        records := records[metadata.agentId := metadata.runtimePort.value];
        instances := instances[key := Some(metadata)];
      }
    }

    /** The record has become unreadable. */
    method Lose(agentId: string)
      requires Valid()
      modifies this
      ensures Valid() && records == old(records) - {agentId}
      ensures instances == old(instances)[range.instanceKey(agentId) := None]
    {
      LoseMetadata(range, instances, records, agentId);
      records := records - {agentId};
      instances := instances[range.instanceKey(agentId) := None];
    }

    /** config.apply and release.apply write the metadata they have read, with a new idempotency key. */
    method Apply(agentId: string, idempotencyKey: string, works: bool, write: RecordWrite)
        returns (r: Result<(), Error>)
      requires Valid()
      modifies this
      ensures Valid()
      ensures r == Err(NotFound) <==>
              range.instanceKey(agentId) !in old(instances) || old(instances)[range.instanceKey(agentId)].None?
      ensures r != Err(NotFound) && works && write.Recorded? ==> r.Ok?
      ensures r.Ok? ==> instances == old(instances)[range.instanceKey(agentId) :=
                Some(old(instances)[range.instanceKey(agentId)].value.(idempotencyKey := idempotencyKey))]
      ensures records == old(records) || (r.Err? && write.TornWrite? && records == old(records) - {agentId})
    {
      var key := range.instanceKey(agentId);
      if key !in instances || instances[key].None? { return Err(NotFound); }
      var succeeds: bool := *;
      if (!works && !succeeds) || write.Unwritten? { return Err(Failed); }
      if write.TornWrite? {
        Lose(agentId);
        return Err(Failed);
      }
      var metadata := instances[key].value.(idempotencyKey := idempotencyKey);
      RewriteMetadata(range, instances, records, key, metadata);
      instances := instances[key := Some(metadata)];
      r := if write.Recorded? then Ok(()) else Err(Failed);
    }

    /** deployment.delete removes containers only. */
    method Delete(agentId: string) returns (r: Result<(), Error>)
      requires Valid()
    {
      var key := range.instanceKey(agentId);
      if key !in instances || instances[key].None? { return Err(NotFound); }
      var succeeds: bool := *;
      r := if succeeds then Ok(()) else Err(Failed);
    }

    method Execute(command: Command, write: RecordWrite) returns (port: Option<int>)
      requires Valid()
      modifies this
      ensures Valid() && Stepped(range, old(records), records, command, port, write)
    {
      port := None;
      match command {
        case Provision(record) =>
          var prepares: bool, works: bool := *, *;
          var r := Provision(record, prepares, works, write);
          if r.Ok? { port := Some(r.value); }
          AllotsSteps(range, old(records), records, command, prepares, port, r == Err(PortExhausted), write);
        case Apply(agentId, idempotencyKey) =>
          if agentId !in records { assert records - {agentId} == records; }
          var works: bool := *;
          var _ := Apply(agentId, idempotencyKey, works, write);
        case Delete(agentId) =>
          var _ := Delete(agentId);
      }
    }

    /** Over every run, whatever fails in it: all ports handed out are in range. Up to the first torn write
        that meets a recorded agent, an agent always gets the same port and no two agents get the same.
        `states` are the records between the commands. */
    method Run(commands: seq<Command>, writes: seq<RecordWrite>)
        returns (ports: seq<Option<int>>, ghost states: seq<Records>)
      requires Valid() && Sound(range, records) && |writes| == |commands|
      modifies this
      ensures Valid() && |ports| == |commands| && StatesOf(range, states, commands, ports, writes)
      ensures states[0] == old(records) && states[|commands|] == records
      ensures forall i | 0 <= i < |ports| && ports[i].Some? :: range.Contains(ports[i].value)
      ensures forall n: nat | n <= |commands| && NoneLost(states, commands, writes, n) ::
              Promised(old(records), commands, ports, n)
    {
      ports, states := [], [records];
      for i := 0 to |commands|
        invariant Valid() && |ports| == i && StatesOf(range, states, commands[..i], ports, writes[..i])
        invariant states[0] == old(records) && states[i] == records
        invariant forall k | 0 <= k < i && ports[k].Some? :: range.Contains(ports[k].value)
      {
        var port := Execute(commands[i], writes[i]);
        ports, states := ports + [port], states + [records];
      }
      assert commands[..|commands|] == commands && writes[..|commands|] == writes;
      forall n: nat | n <= |commands| && NoneLost(states, commands, writes, n)
        ensures Promised(old(records), commands, ports, n)
      {
        PromisesOfRun(range, states, commands, ports, writes, n);
      }
    }
  }

  // ---------------------------------------------------------------- runs

  function RecordsAfter(before: Records, agentId: string, port: int, write: RecordWrite): Records {
    match write
    case Recorded => before[agentId := port]
    case Unwritten => before
    case TornWrite => before - {agentId}
    case LateFailure => before[agentId := port]
  }

  /** What one provisioning makes of the records. A port is given out as it is recorded: the allocated one
      or, in a replay, the recorded one, which are the same for sound records. A failure leaves the records
      alone, or as the failed write of the allocated port leaves them. The range is exhausted exactly if
      the command comes as far as the allocation and it fails. */
  ghost predicate Allots(range: Range, before: Records, after: Records, agentId: string, reached: bool,
                         port: Option<int>, exhausted: bool, write: RecordWrite)
    requires range.Valid()
  {
    var free := Allocate(range, before, agentId);
    && (port.Some? ==> after == before[agentId := port.value])
    && (port.Some? ==> free == port || (agentId in before && before[agentId] == port.value))
    && (port.Some? && Sound(range, before) ==> free == port)
    && (port.None? ==> after == before ||
                       (free.Some? && !write.Recorded? && after == RecordsAfter(before, agentId, free.value, write)))
    && (exhausted <==> reached && free.None?)
  }

  /** What one command makes of the records: only its own agent's may change. For sound records it does
      not, once it is there, and they stay sound, unless the write of a recorded agent is torn. */
  ghost predicate Stepped(range: Range, before: Records, after: Records, command: Command, port: Option<int>,
      write: RecordWrite)
    requires range.Valid()
  {
    var agentId := AgentOf(command);
    && (forall a | a != agentId :: a in before <==> a in after)
    && (forall a | a != agentId && a in before && a in after :: before[a] == after[a])
    && (port.Some? ==> agentId in after && after[agentId] == port.value)
    && (Sound(range, before) && !Loses(before, command, write) ==> Sound(range, after) && Keeps(before, after))
  }

  predicate Loses(before: Records, command: Command, write: RecordWrite) {
    write.TornWrite? && AgentOf(command) in before
  }

  lemma AllotsSteps(range: Range, before: Records, after: Records, command: Command, reached: bool, port: Option<int>,
                    exhausted: bool, write: RecordWrite)
    requires range.Valid() && Allots(range, before, after, AgentOf(command), reached, port, exhausted, write)
    ensures Stepped(range, before, after, command, port, write)
  {
    var agentId := AgentOf(command);
    if Sound(range, before) && !Loses(before, command, write) {
      var free := Allocate(range, before, agentId);
      if free.Some? { RecordSound(range, before, agentId, free.value); }
      if agentId !in before { assert before - {agentId} == before; }
    }
  }

  ghost predicate StatesOf(range: Range, states: seq<Records>, commands: seq<Command>, ports: seq<Option<int>>,
      writes: seq<RecordWrite>)
    requires range.Valid()
  {
    && |states| == |commands| + 1 && |ports| == |writes| == |commands|
    && forall i | 0 <= i < |commands| :: Stepped(range, states[i], states[i + 1], commands[i], ports[i], writes[i])
  }

  /** In the first n commands no torn write meets a recorded agent. */
  predicate NoneLost(states: seq<Records>, commands: seq<Command>, writes: seq<RecordWrite>, n: nat)
    requires |states| == |commands| + 1 && |writes| == |commands|
  {
    n <= |commands| && forall i | 0 <= i < n :: !Loses(states[i], commands[i], writes[i])
  }

  /** Among the first n commands two ports are equal exactly if they are the same agent's, and agents that
      had ports at the start are given those. */
  ghost predicate Promised(before: Records, commands: seq<Command>, ports: seq<Option<int>>, n: nat)
    requires n <= |commands| && |ports| == |commands|
  {
    && (forall i, j | 0 <= i < n && 0 <= j < n && ports[i].Some? && ports[j].Some? ::
          ports[i] == ports[j] <==> AgentOf(commands[i]) == AgentOf(commands[j]))
    && (forall i | 0 <= i < n && ports[i].Some? && AgentOf(commands[i]) in before ::
          ports[i].value == before[AgentOf(commands[i])])
  }

  /** Every port handed out so far is recorded for the agent of its command. */
  ghost predicate PortsRecorded(records: Records, commands: seq<Command>, ports: seq<Option<int>>, n: nat)
    requires n <= |commands| && |ports| == |commands|
  {
    forall k | 0 <= k < n && ports[k].Some? :: AgentOf(commands[k]) in records &&
        records[AgentOf(commands[k])] == ports[k].value
  }

  lemma {:induction false} RecordedAlong(range: Range, states: seq<Records>, commands: seq<Command>,
                                         ports: seq<Option<int>>, writes: seq<RecordWrite>, n: nat)
    requires range.Valid() && StatesOf(range, states, commands, ports, writes) && Sound(range, states[0])
    requires n <= |commands| && NoneLost(states, commands, writes, n)
    ensures Sound(range, states[n]) && Keeps(states[0], states[n]) && PortsRecorded(states[n], commands, ports, n)
  {
    if n > 0 {
      RecordedAlong(range, states, commands, ports, writes, n - 1);
      assert Stepped(range, states[n - 1], states[n], commands[n - 1], ports[n - 1], writes[n - 1]);
    }
  }

  lemma PromisesOfRun(range: Range, states: seq<Records>, commands: seq<Command>, ports: seq<Option<int>>,
                      writes: seq<RecordWrite>, n: nat)
    requires range.Valid() && StatesOf(range, states, commands, ports, writes) && Sound(range, states[0])
    requires n <= |commands| && NoneLost(states, commands, writes, n)
    ensures Promised(states[0], commands, ports, n)
  {
    RecordedAlong(range, states, commands, ports, writes, n);
  }

  /** Recorded ports are never changed or released. */
  ghost predicate Keeps(before: Records, after: Records) {
    forall a | a in before :: a in after && after[a] == before[a]
  }

  datatype Command =
    | Provision(record: Metadata)
    | Apply(agentId: string, idempotencyKey: string)
    | Delete(agentId: string)

  function AgentOf(command: Command): string {
    if command.Provision? then command.record.agentId else command.agentId
  }
}
