/** The scene revision protocol of one panel: a client that holds (revision, view), a server that holds
    a history of views, and snapshots, patches, scene events and command replies that arrive in any order. */
module SceneTransport {
  import opened Wrappers

  // ---------------------------------------------------------------- messages

  /** What JavaScript's Number() makes of a value. */
  datatype Number = NaN | Num(value: int)

  /** A decoded JSON value, as far as the client looks into it: what Number() makes of it, and for
      a scalar whether it is truthy and whether it is a safe integer. */
  datatype Json =
    | Null
    | Scalar(number: Number, truthy: bool, integer: bool)
    | Object(fields: map<string, Json>, number: Number)
  {
    /** Optional chaining: a missing field, or a field of null or of a scalar, is undefined. */
    function Get(field: string): Option<Json> {
      if Object? && field in fields then Some(fields[field]) else None
    }
  }

  function Integer(n: int): Json {
    Scalar(Num(n), n != 0, true)
  }

  /** `a ?? b`. */
  function Or(a: Option<Json>, b: Option<Json>): Option<Json> {
    if a.None? || a.value.Null? then b else a
  }

  function GetIn(a: Option<Json>, field: string): Option<Json> {
    if a.None? then None else a.value.Get(field)
  }

  /** Number() of a value that may be undefined. */
  function ToNumber(a: Option<Json>): Number {
    if a.None? then NaN else if a.value.Null? then Num(0) else a.value.number
  }

  predicate Truthy(a: Option<Json>) {
    a.Some? && (a.value.Object? || (a.value.Scalar? && a.value.truthy))
  }

  predicate SafeInteger(a: Option<Json>) {
    a.Some? && a.value.Scalar? && a.value.integer && a.value.number.Num?
  }

  const EMPTY_VIEW := Object(map["surfaces" := Object(map[], Num(0))], NaN)

  datatype Scene = Scene(revision: Number, view: Json)

  function SceneFromSnapshot(snapshot: Json): Scene {
    var scene := Or(Or(GetIn(snapshot.Get("data"), "scene"), snapshot.Get("scene")), Some(snapshot));
    Scene(ToNumber(Or(Or(GetIn(scene, "revision"), snapshot.Get("revision")), Some(Integer(0)))),
          Or(Or(GetIn(scene, "view"), snapshot.Get("view")), Some(EMPTY_VIEW)).value)
  }

  datatype Operation = Operation(op: string, path: string, value: Option<Json>)

  predicate ReplacesView(operation: Operation) {
    operation.path == "/view" && operation.op in {"replace", "add"} &&
    operation.value.Some? && operation.value.value.Object?
  }

  function ApplyOperation(view: Json, operation: Operation): Json {
    if operation.path != "/view" then view
    else if operation.op !in {"replace", "add"} then view
    else if operation.value.Some? && operation.value.value.Object? then operation.value.value
    else view
  }

  function ApplyAll(view: Json, operations: seq<Operation>): Json {
    if operations == [] then view
    else ApplyOperation(ApplyAll(view, operations[..|operations| - 1]), operations[|operations| - 1])
  }

  datatype Patch = Patch(base: Option<Json>, rev: Option<Json>, operations: seq<Operation>)
  {
    function Base(): Number { ToNumber(base) }
  }

  /** The snapshot the client renders after applying a patch to its view. */
  function PatchedSnapshot(patch: Patch, view: Json): Json {
    Object(if patch.rev.Some? then map["revision" := patch.rev.value, "view" := view] else map["view" := view], NaN)
  }

  /** What the client takes from the result of a command: a scene or snapshot in it, a safe revision
      number, or nothing. */
  datatype Reply = WithScene(snapshot: Json) | BareRevision(revision: int) | Plain

  function ReplyOf(result: Json): Reply {
    if Truthy(result.Get("scene")) || Truthy(result.Get("snapshot")) then
      WithScene(Or(result.Get("snapshot"), result.Get("scene")).value)
    else if SafeInteger(result.Get("revision")) then BareRevision(result.Get("revision").value.number.value)
    else Plain
  }

  datatype Arrival =
    | Snapshot(snapshot: Json)
    | SceneMessage(message: Json)
    | PatchEvent(patch: Patch)
    | CommandReply(result: Json)
    | Nothing

  // ---------------------------------------------------------------- what the server sends

  type Fields = map<string, Json>

  /** The scene contract: revision and view among other fields. */
  function SceneBody(revision: int, view: Json, others: Fields): Json {
    Object((others - {"data", "scene"})["revision" := Integer(revision)]["view" := view], NaN)
  }

  /** A panel's snapshot with a scene among its data. */
  function PanelBody(revision: int, scene: Json, data: Fields, others: Fields): Json {
    Object(others["revision" := Integer(revision)]["data" := Object(data["scene" := scene], NaN)], NaN)
  }

  /** The server's revision and view as a scene alone or inside a panel's snapshot. */
  datatype Sent =
    | Bare(revision: int, view: Json, others: Fields)
    | Panel(revision: int, view: Json, others: Fields, outer: int, data: Fields, panel: Fields)
  {
    function Body(): Json {
      match this
      case Bare(_, _, _) => SceneBody(revision, view, others)
      case Panel(_, _, _, _, _, _) => PanelBody(outer, SceneBody(revision, view, others), data, panel)
    }
  }

  /** A command's result: with a snapshot of the panel, with the scene, with a revision alone, or without. */
  datatype SentReply =
    | WithSnapshot(snapshot: Sent, others: Fields)
    | OfScene(scene: Sent, others: Fields)
    | OfRevision(revision: int, others: Fields)
    | Without(others: Fields)
  {
    function Body(): Json {
      match this
      case WithSnapshot(snapshot, others) => Object(others["snapshot" := snapshot.Body()], NaN)
      case OfScene(scene, others) => Object((others - {"snapshot"})["scene" := scene.Body()], NaN)
      case OfRevision(revision, others) =>
        Object((others - {"scene", "snapshot"})["revision" := Integer(revision)], NaN)
      case Without(others) => Object(others - {"scene", "snapshot", "revision"}, NaN)
    }
  }

  /** The data of a `scene` event: it names its revision `rev`. */
  function MessageBody(rev: int, view: Json): Json {
    Object(map["v" := Integer(1), "type" := Scalar(NaN, true, false), "rev" := Integer(rev), "view" := view], NaN)
  }

  function PatchBody(base: int, rev: int, operations: seq<Operation>): Patch {
    Patch(Some(Integer(base)), Some(Integer(rev)), operations)
  }

  /** A scene, and a panel's snapshot with a scene, are read as their revision and view. */
  lemma ReadSent(sent: Sent)
    requires !sent.view.Null?
    ensures SceneFromSnapshot(sent.Body()) == Scene(Num(sent.revision), sent.view)
  {
    var scene := SceneBody(sent.revision, sent.view, sent.others);
    assert scene.Get("revision") == Some(Integer(sent.revision)) && scene.Get("view") == Some(sent.view);
    assert scene.Get("data").None? && scene.Get("scene").None?;
    if sent.Panel? {
      assert GetIn(sent.Body().Get("data"), "scene") == Some(scene);
    }
  }

  /** A scene event is read as revision 0, whatever revision it names. */
  lemma ReadMessage(rev: int, view: Json)
    requires !view.Null?
    ensures SceneFromSnapshot(MessageBody(rev, view)) == Scene(Num(0), view)
  {
    var message := MessageBody(rev, view);
    assert message.Get("data").None? && message.Get("scene").None? && message.Get("revision").None?;
    assert message.Get("view") == Some(view);
  }

  /** A result's snapshot comes before its scene, and a revision counts only without either. */
  lemma ReadReply(reply: SentReply)
    ensures match reply
      case WithSnapshot(snapshot, _) => ReplyOf(reply.Body()) == WithScene(snapshot.Body())
      case OfScene(scene, _) => ReplyOf(reply.Body()) == WithScene(scene.Body())
      case OfRevision(revision, _) => ReplyOf(reply.Body()) == BareRevision(revision)
      case Without(_) => ReplyOf(reply.Body()) == Plain
  {
  }

  /** Whatever a result holds: a scene or snapshot that is an object is taken, and without either just a
      revision that is a safe integer. */
  lemma ReplyExactly(result: Fields, number: Number)
    ensures var reply := ReplyOf(Object(result, number));
      && ("snapshot" in result && result["snapshot"].Object? ==> reply == WithScene(result["snapshot"]))
      && ("snapshot" !in result && "scene" in result && result["scene"].Object? ==> reply == WithScene(result["scene"]))
      && ("snapshot" !in result && "scene" !in result ==>
            forall n :: reply == BareRevision(n) <==>
                        "revision" in result && exists truthy :: result["revision"] == Scalar(Num(n), truthy, true))
      && ("snapshot" !in result && "scene" !in result ==> !reply.WithScene?)
  {
    var reply := ReplyOf(Object(result, number));
    assert Object(result, number).Get("revision") ==
           if "revision" in result then Some(result["revision"]) else None;
    if "revision" in result && SafeInteger(Some(result["revision"])) {
      var r := result["revision"];
      assert r == Scalar(Num(r.number.value), r.truthy, true);
    }
  }

  lemma ReadPatched(base: int, rev: int, operations: seq<Operation>, view: Json)
    requires !view.Null?
    ensures PatchBody(base, rev, operations).Base() == Num(base)
    ensures SceneFromSnapshot(PatchedSnapshot(PatchBody(base, rev, operations), view)) == Scene(Num(rev), view)
  {
    var snapshot := PatchedSnapshot(PatchBody(base, rev, operations), view);
    assert snapshot.Get("data").None? && snapshot.Get("scene").None?;
    assert snapshot.Get("view") == Some(view) && snapshot.Get("revision") == Some(Integer(rev));
  }

  predicate Present(fields: Fields, field: string) {
    field in fields && !fields[field].Null?
  }

  /** Where the scene of a snapshot is: under `data.scene`, or else under `scene`, or else itself. */
  predicate SceneOf(snapshot: Fields, scene: Fields) {
    if Present(snapshot, "data") && snapshot["data"].Object? && Present(snapshot["data"].fields, "scene") then
      snapshot["data"].fields["scene"].Object? && snapshot["data"].fields["scene"].fields == scene
    else if Present(snapshot, "scene") then snapshot["scene"].Object? && snapshot["scene"].fields == scene
    else snapshot == scene
  }

  /** Revision and view are each the scene's; where it has none, the snapshot's; and else 0 and the
      empty view. */
  lemma ReadFields(snapshot: Fields, scene: Fields, number: Number)
    requires SceneOf(snapshot, scene)
    ensures var read := SceneFromSnapshot(Object(snapshot, number));
      && (Present(scene, "revision") ==> read.revision == scene["revision"].number)
      && (!Present(scene, "revision") && Present(snapshot, "revision") ==>
            read.revision == snapshot["revision"].number)
      && (!Present(scene, "revision") && !Present(snapshot, "revision") ==> read.revision == Num(0))
      && (Present(scene, "view") ==> read.view == scene["view"])
      && (!Present(scene, "view") && Present(snapshot, "view") ==> read.view == snapshot["view"])
      && (!Present(scene, "view") && !Present(snapshot, "view") ==> read.view == EMPTY_VIEW)
  {
  }

  // ---------------------------------------------------------------- the client's scene

  predicate Applies(patch: Patch, scene: Scene) {
    patch.Base() == scene.revision && scene.revision.Num?
  }

  /** What one arrival makes of the client's scene; a patch with another base changes nothing. */
  function Receive(scene: Scene, arrival: Arrival): Scene {
    match arrival
    case Snapshot(snapshot) => SceneFromSnapshot(snapshot)
    case SceneMessage(message) => SceneFromSnapshot(message)
    case PatchEvent(patch) =>
      if Applies(patch, scene) then SceneFromSnapshot(PatchedSnapshot(patch, ApplyAll(scene.view, patch.operations)))
      else scene
    case CommandReply(result) =>
      (match ReplyOf(result)
       case WithScene(snapshot) => SceneFromSnapshot(snapshot)
       case BareRevision(revision) => scene.(revision := Num(revision))
       case Plain => scene)
    case Nothing => scene
  }

  function ReceiveAll(scene: Scene, arrivals: seq<Arrival>): Scene {
    if arrivals == [] then scene
    else Receive(ReceiveAll(scene, arrivals[..|arrivals| - 1]), arrivals[|arrivals| - 1])
  }

  // ---------------------------------------------------------------- consistency

  /** The server's view at each revision it has had. */
  type History = map<int, Json>

  ghost predicate Consistent(history: History, scene: Scene) {
    scene.revision.Num? && scene.revision.value in history && scene.view == history[scene.revision.value]
  }

  ghost predicate Had(history: History, revision: int, view: Json) {
    revision in history && history[revision] == view && !view.Null?
  }

  /** A truthful message: what the server sends of its own history. */
  ghost predicate Truthful(history: History, arrival: Arrival) {
    match arrival
    case Snapshot(snapshot) => exists sent: Sent :: snapshot == sent.Body() && Had(history, sent.revision, sent.view)
    case SceneMessage(message) =>
      exists rev: int, view: Json :: message == MessageBody(rev, view) && Had(history, rev, view)
    case PatchEvent(patch) => TruthfulPatch(history, patch)
    case CommandReply(result) => exists reply: SentReply :: result == reply.Body() && TruthfulReply(history, reply)
    case Nothing => true
  }

  ghost predicate TruthfulReply(history: History, reply: SentReply) {
    match reply
    case WithSnapshot(sent, _) => Had(history, sent.revision, sent.view)
    case OfScene(sent, _) => Had(history, sent.revision, sent.view)
    case OfRevision(revision, _) => revision in history
    case Without(_) => true
  }

  ghost predicate TruthfulPatch(history: History, patch: Patch) {
    exists base: int, rev: int ::
      && patch == PatchBody(base, rev, patch.operations)
      && base in history && Had(history, rev, ApplyAll(history[base], patch.operations))
  }

  /** After the operations of a patch the view is that of the last one that replaces it. */
  lemma {:induction false} AppliedLast(view: Json, operations: seq<Operation>, i: nat)
    requires i < |operations| && ReplacesView(operations[i])
    requires forall j | i < j < |operations| :: !ReplacesView(operations[j])
    ensures ApplyAll(view, operations) == operations[i].value.value
  {
    if i < |operations| - 1 {
      AppliedLast(view, operations[..|operations| - 1], i);
    }
  }

  /** Operations of which none replaces the view leave it alone. */
  lemma {:induction false} NoneApplied(view: Json, operations: seq<Operation>)
    requires forall o | o in operations :: !ReplacesView(o)
    ensures ApplyAll(view, operations) == view
  {
    if operations != [] {
      var before, last := operations[..|operations| - 1], operations[|operations| - 1];
      assert last in operations && forall o | o in before :: o in operations;
      NoneApplied(view, before);
    }
  }

  /** After a replacing operation the view no longer depends on the view before. */
  lemma {:induction false} ReplacedView(a: Json, b: Json, operations: seq<Operation>)
    requires exists o | o in operations :: ReplacesView(o)
    ensures ApplyAll(a, operations) == ApplyAll(b, operations)
  {
    var before, last := operations[..|operations| - 1], operations[|operations| - 1];
    if !ReplacesView(last) {
      var o :| o in operations && ReplacesView(o);
      assert operations == before + [last] && o in before;
      ReplacedView(a, b, before);
    }
  }

  /** Whether the scene is known to be consistent after an arrival, given whether it was before. A
      snapshot, a reply with a scene, or an applied patch that replaces the view restores it; a bare
      revision number other than the client's breaks it; and so does a scene event, which the client reads
      as revision 0, unless that is its revision or it shows what a client at 0 has already. */
  predicate Settled(before: bool, scene: Scene, arrival: Arrival) {
    match arrival
    case Snapshot(_) => true
    case SceneMessage(message) =>
      || message.Get("rev") == Some(Integer(0))
      || (before && scene.revision == Num(0) && message.Get("view") == Some(scene.view))
    case PatchEvent(patch) =>
      before || (Applies(patch, scene) && exists o | o in patch.operations :: ReplacesView(o))
    case CommandReply(result) =>
      (match ReplyOf(result)
       case WithScene(_) => true
       case BareRevision(revision) => before && scene.revision == Num(revision)
       case Plain => before)
    case Nothing => before
  }

  predicate SettledAll(initially: bool, scene: Scene, arrivals: seq<Arrival>) {
    if arrivals == [] then initially
    else
      var before := arrivals[..|arrivals| - 1];
      Settled(SettledAll(initially, scene, before), ReceiveAll(scene, before), arrivals[|arrivals| - 1])
  }

  lemma ConsistentStep(history: History, settled: bool, scene: Scene, arrival: Arrival)
    requires Truthful(history, arrival)
    requires settled ==> Consistent(history, scene)
    ensures Settled(settled, scene, arrival) ==> Consistent(history, Receive(scene, arrival))
  {
    match arrival
    case Snapshot(snapshot) =>
      var sent: Sent :| snapshot == sent.Body() && Had(history, sent.revision, sent.view);
      ReadSent(sent);
    case SceneMessage(message) =>
      var rev: int, view: Json :| message == MessageBody(rev, view) && Had(history, rev, view);
      ReadMessage(rev, view);
      assert message.Get("rev") == Some(Integer(rev)) && message.Get("view") == Some(view);
    case PatchEvent(patch) =>
      if Applies(patch, scene) && Settled(settled, scene, arrival) { PatchStep(history, settled, scene, patch); }
    case CommandReply(result) =>
      var reply: SentReply :| result == reply.Body() && TruthfulReply(history, reply);
      ReadReply(reply);
      if reply.WithSnapshot? { ReadSent(reply.snapshot); }
      if reply.OfScene? { ReadSent(reply.scene); }
    case Nothing =>
  }

  lemma PatchStep(history: History, settled: bool, scene: Scene, patch: Patch)
    requires TruthfulPatch(history, patch) && Applies(patch, scene)
    requires if settled then Consistent(history, scene) else exists o | o in patch.operations :: ReplacesView(o)
    ensures Consistent(history, Receive(scene, PatchEvent(patch)))
  {
    var base: int, rev: int :|
      && patch == PatchBody(base, rev, patch.operations)
      && base in history && Had(history, rev, ApplyAll(history[base], patch.operations));
    if !settled { ReplacedView(scene.view, history[base], patch.operations); }
    ReadPatched(base, rev, patch.operations, history[rev]);
  }

  /** In every reachable state, whatever truthful messages have arrived in whatever order, the view is
      the server's view at the client's revision, except between an arrival that breaks that and the next
      one that restores it. */
  lemma {:induction false} SceneConsistency(history: History, scene: Scene, arrivals: seq<Arrival>, initially: bool)
    requires initially ==> Consistent(history, scene)
    requires forall a | a in arrivals :: Truthful(history, a)
    ensures SettledAll(initially, scene, arrivals) ==> Consistent(history, ReceiveAll(scene, arrivals))
  {
    if arrivals != [] {
      var before, last := arrivals[..|arrivals| - 1], arrivals[|arrivals| - 1];
      assert forall a | a in before :: a in arrivals;
      assert last in arrivals;
      SceneConsistency(history, scene, before, initially);
      ConsistentStep(history, SettledAll(initially, scene, before), ReceiveAll(scene, before), last);
    }
  }

  /** Without bare-revision replies and scene events a consistent client stays consistent. */
  lemma {:induction false} AlwaysSettled(scene: Scene, arrivals: seq<Arrival>)
    requires forall a | a in arrivals :: !a.SceneMessage? && !(a.CommandReply? && ReplyOf(a.result).BareRevision?)
    ensures SettledAll(true, scene, arrivals)
  {
    if arrivals != [] {
      var before, last := arrivals[..|arrivals| - 1], arrivals[|arrivals| - 1];
      assert forall a | a in before :: a in arrivals;
      assert last in arrivals;
      AlwaysSettled(scene, before);
    }
  }

  /** Some value other than the given one. */
  function OtherThan(view: Json): (other: Json)
    ensures other != view
  {
    if view.Null? then Integer(0) else Null
  }

  /** An arrival leaves a consistent client consistent, whatever the server's history. */
  ghost predicate Harmless(scene: Scene, arrival: Arrival) {
    forall history | Consistent(history, scene) && Truthful(history, arrival) ::
      Consistent(history, Receive(scene, arrival))
  }

  /** A bare-revision reply keeps the scene consistent, whatever the server's history, exactly when it
      names the revision the client has already: a test the client could make on its own state. */
  lemma BareRevisionBreaks(scene: Scene, revision: int, others: Fields)
    requires scene.revision.Num?
    ensures Harmless(scene, CommandReply(OfRevision(revision, others).Body())) <==> scene.revision == Num(revision)
  {
    var reply := OfRevision(revision, others);
    ReadReply(reply);
    if scene.revision != Num(revision) {
      var history := map[scene.revision.value := scene.view, revision := OtherThan(scene.view)];
      assert TruthfulReply(history, reply) && Truthful(history, CommandReply(reply.Body()));
      assert Consistent(history, scene);
    }
  }

  /** A scene event about a revision other than 0 breaks consistency for every client but one at 0 that
      has its view already; one that contradicts the client's own revision cannot come. */
  lemma SceneEventBreaks(scene: Scene, rev: int, view: Json)
    requires scene.revision.Num? && !view.Null? && (scene.revision == Num(rev) ==> scene.view == view)
    ensures Harmless(scene, SceneMessage(MessageBody(rev, view))) <==> rev == 0 || scene == Scene(Num(0), view)
  {
    var arrival := SceneMessage(MessageBody(rev, view));
    ReadMessage(rev, view);
    assert MessageBody(rev, view).Get("rev") == Some(Integer(rev)) && MessageBody(rev, view).Get("view") == Some(view);
    if rev == 0 || scene == Scene(Num(0), view) {
      forall history | Consistent(history, scene) && Truthful(history, arrival)
        ensures Consistent(history, Receive(scene, arrival))
      {
        ConsistentStep(history, true, scene, arrival);
      }
    } else {
      var others := map[0 := OtherThan(view)][rev := view];
      var history := others[scene.revision.value := scene.view];
      assert Had(history, rev, view) && Truthful(history, arrival) && Consistent(history, scene);
    }
  }

  /** The settled rule is exact for every arrival that can come to a consistent client: it says settled
      just where the arrival leaves the scene consistent under every history that makes it truthful. */
  lemma SettledExact(history: History, scene: Scene, arrival: Arrival)
    requires Consistent(history, scene) && Truthful(history, arrival)
    ensures Settled(true, scene, arrival) <==> Harmless(scene, arrival)
  {
    if Settled(true, scene, arrival) {
      forall h | Consistent(h, scene) && Truthful(h, arrival) ensures Consistent(h, Receive(scene, arrival)) {
        ConsistentStep(h, true, scene, arrival);
      }
    } else if arrival.SceneMessage? {
      var rev: int, view: Json :| arrival.message == MessageBody(rev, view) && Had(history, rev, view);
      assert arrival.message.Get("rev") == Some(Integer(rev)) && arrival.message.Get("view") == Some(view);
      SceneEventBreaks(scene, rev, view);
    } else {
      var reply: SentReply :| arrival.result == reply.Body() && TruthfulReply(history, reply);
      ReadReply(reply);
      BareRevisionBreaks(scene, reply.revision, reply.others);
    }
  }

  /** The server has more revisions than before. */
  ghost predicate Extends(after: History, before: History) {
    forall r | r in before :: r in after && after[r] == before[r]
  }

  lemma TruthfulExtends(before: History, after: History, arrival: Arrival)
    requires Extends(after, before) && Truthful(before, arrival)
    ensures Truthful(after, arrival)
  {
    match arrival
    case Snapshot(snapshot) =>
      var sent: Sent :| snapshot == sent.Body() && Had(before, sent.revision, sent.view);
      assert Had(after, sent.revision, sent.view);
    case SceneMessage(message) =>
      var rev: int, view: Json :| message == MessageBody(rev, view) && Had(before, rev, view);
      assert Had(after, rev, view);
    case PatchEvent(patch) =>
    case CommandReply(result) =>
      var reply: SentReply :| result == reply.Body() && TruthfulReply(before, reply);
      assert TruthfulReply(after, reply);
    case Nothing =>
  }

  /** In every settled state of every run, a bare reply with a revision that nothing so far has spoken of
      can break consistency: some history agrees with all that arrived, and the view is not its own. */
  lemma BareRevisionUnsettles(history: History, scene: Scene, arrivals: seq<Arrival>, revision: int, others: Fields)
      returns (grown: History)
    requires Consistent(history, scene) && SettledAll(true, scene, arrivals)
    requires forall a | a in arrivals :: Truthful(history, a)
    requires revision !in history
    ensures var last := CommandReply(OfRevision(revision, others).Body());
      && Extends(grown, history) && Consistent(grown, scene)
      && (forall a | a in arrivals + [last] :: Truthful(grown, a))
      && !Consistent(grown, ReceiveAll(scene, arrivals + [last]))
  {
    var before, reply := ReceiveAll(scene, arrivals), OfRevision(revision, others);
    SceneConsistency(history, scene, arrivals, true);
    grown := history[revision := OtherThan(before.view)];
    TruthfulAll(history, grown, arrivals);
    ReplyBreaks(grown, before, reply);
    ReceiveNext(scene, arrivals, CommandReply(reply.Body()));
  }

  lemma TruthfulAll(before: History, after: History, arrivals: seq<Arrival>)
    requires Extends(after, before) && forall a | a in arrivals :: Truthful(before, a)
    ensures forall a | a in arrivals :: Truthful(after, a)
  {
    forall a | a in arrivals ensures Truthful(after, a) {
      TruthfulExtends(before, after, a);
    }
  }

  lemma ReplyBreaks(history: History, scene: Scene, reply: SentReply)
    requires reply.OfRevision? && reply.revision in history && history[reply.revision] != scene.view
    ensures Truthful(history, CommandReply(reply.Body()))
    ensures !Consistent(history, Receive(scene, CommandReply(reply.Body())))
  {
    ReadReply(reply);
    assert TruthfulReply(history, reply);
  }

  /** After a scene event the client is at revision 0 and stays there with the view of the event: every
      patch from any other revision is refused, until a snapshot or a reply comes. */
  lemma {:induction false} SceneEventStalls(scene: Scene, rev: int, view: Json, patches: seq<Patch>)
    requires !view.Null? && forall p | p in patches :: p.Base() != Num(0)
    ensures ReceiveAll(scene, [SceneMessage(MessageBody(rev, view))] + AsArrivals(patches)) == Scene(Num(0), view)
    ensures forall p | p in patches :: !Applies(p, Scene(Num(0), view))
  {
    var message := SceneMessage(MessageBody(rev, view));
    if patches == [] {
      ReadMessage(rev, view);
      assert [message] + [] == [] + [message];
      ReceiveNext(scene, [], message);
    } else {
      var before, last := patches[..|patches| - 1], patches[|patches| - 1];
      assert last in patches && forall p | p in before :: p in patches;
      SceneEventStalls(scene, rev, view, before);
      assert [message] + AsArrivals(patches) == [message] + AsArrivals(before) + [PatchEvent(last)];
      ReceiveNext(scene, [message] + AsArrivals(before), PatchEvent(last));
    }
  }

  // ---------------------------------------------------------------- catch-up

  /** Contiguous patches: each from the revision before to the next. */
  ghost predicate Contiguous(history: History, from: int, patches: seq<Patch>) {
    forall i | 0 <= i < |patches| ::
      && patches[i] == PatchBody(from + i, from + i + 1, patches[i].operations)
      && TruthfulPatch(history, patches[i])
  }

  function AsArrivals(patches: seq<Patch>): seq<Arrival> {
    if patches == [] then [] else AsArrivals(patches[..|patches| - 1]) + [PatchEvent(patches[|patches| - 1])]
  }

  /** From a consistent scene at revision r, the patches to r+1, ..., N each find their own base when
      they arrive, and the client ends at N with the server's view at N. */
  lemma {:induction false} CatchUp(history: History, scene: Scene, from: int, patches: seq<Patch>)
    requires scene.revision == Num(from) && Consistent(history, scene)
    requires Contiguous(history, from, patches)
    ensures AllApply(scene, patches)
    ensures from + |patches| in history
    ensures ReceiveAll(scene, AsArrivals(patches)) == Scene(Num(from + |patches|), history[from + |patches|])
  {
    if patches != [] {
      var before, last := patches[..|patches| - 1], patches[|patches| - 1];
      ContiguousInit(history, from, patches);
      CatchUp(history, scene, from, before);
      CatchUpNext(history, scene, from + |before|, AsArrivals(before), last);
    }
  }

  lemma ContiguousInit(history: History, from: int, patches: seq<Patch>)
    requires patches != [] && Contiguous(history, from, patches)
    ensures var before, last := patches[..|patches| - 1], patches[|patches| - 1];
      && Contiguous(history, from, before) && TruthfulPatch(history, last)
      && last == PatchBody(from + |before|, from + |before| + 1, last.operations)
  {
  }

  lemma CatchUpNext(history: History, scene: Scene, at: int, arrivals: seq<Arrival>, patch: Patch)
    requires at in history && ReceiveAll(scene, arrivals) == Scene(Num(at), history[at])
    requires patch == PatchBody(at, at + 1, patch.operations) && TruthfulPatch(history, patch)
    ensures at + 1 in history && Applies(patch, ReceiveAll(scene, arrivals))
    ensures ReceiveAll(scene, arrivals + [PatchEvent(patch)]) == Scene(Num(at + 1), history[at + 1])
  {
    ReceiveNext(scene, arrivals, PatchEvent(patch));
    CatchUpOne(history, at, patch);
  }

  lemma CatchUpOne(history: History, at: int, patch: Patch)
    requires at in history && patch == PatchBody(at, at + 1, patch.operations) && TruthfulPatch(history, patch)
    ensures at + 1 in history
    ensures Receive(Scene(Num(at), history[at]), PatchEvent(patch)) == Scene(Num(at + 1), history[at + 1])
  {
    ReadPatched(at, at + 1, patch.operations, history[at + 1]);
  }

  /** Every patch applies at its turn, so none makes the client ask for a resync. */
  predicate AllApply(scene: Scene, patches: seq<Patch>) {
    patches == [] ||
    var before, last := patches[..|patches| - 1], patches[|patches| - 1];
    AllApply(scene, before) && Applies(last, ReceiveAll(scene, AsArrivals(before)))
  }

  lemma ReceiveNext(scene: Scene, arrivals: seq<Arrival>, a: Arrival)
    ensures ReceiveAll(scene, arrivals + [a]) == Receive(ReceiveAll(scene, arrivals), a)
  {
    var all := arrivals + [a];
    assert all[..|all| - 1] == arrivals;
  }

  // ---------------------------------------------------------------- the transport object

  /** The delay scheduled after k others since the last open. */
  function Backoff(k: nat): nat {
    var delay := 500 * Pow2(k);
    if delay < 15000 then delay else 15000
  }

  function Pow2(k: nat): (p: nat)
    ensures p >= 1
  {
    if k == 0 then 1 else 2 * Pow2(k - 1)
  }

  lemma BackoffDoubles(k: nat)
    ensures Backoff(k + 1) == if Backoff(k) * 2 < 15000 then Backoff(k) * 2 else 15000
  {
  }

  /** What the host hands to the transport, one atomic step each. Payloads that do not parse, and
      patches whose operations are not iterable, are None. */
  datatype Event =
    | Connect
    | Opened(source: nat)
    | SceneEvent(data: Option<Json>)
    | ScenePatch(decoded: Option<Patch>)
    | SourceError(source: nat)
    | TimerFires
    | Loaded(snapshot: Json)
    | Resync
    | ResyncLoaded(snapshot: Json)
    | ResyncFailed
    | Replied(result: Json)
    | Conflict
    | Close

  class BairuiSceneTransport {
    var revision: Number
    var view: Json
    var source: Option<nat>
    var closed: bool
    var reconnectDelay: nat
    var reconnectTimer: bool
    // The world outside: sources opened so far (numbered from 0) and those still live, timers pending,
    // resyncs that wait for their snapshot, and the delays scheduled since the last open.
    var sourceCount: nat
    ghost var live: set<nat>
    ghost var timers: nat
    var resyncs: nat
    ghost var delays: seq<nat>

    /** At most one live event source, the current one; at most one pending timer, the recorded one; and
        the delays since the last open double from 500 up to 15000. */
    ghost predicate Valid()
      reads this
    {
      && (forall s | s in live :: source == Some(s))
      && (source.Some? ==> source.value < sourceCount)
      && timers == (if reconnectTimer then 1 else 0)
      && (closed ==> live == {} && timers == 0)
      && reconnectDelay == Backoff(|delays|)
      && (forall k | 0 <= k < |delays| :: delays[k] == Backoff(k))
    }

    ghost function View(): Scene
      reads this
    {
      Scene(revision, view)
    }

    constructor ()
      ensures Valid() && !closed && View() == Scene(Num(0), EMPTY_VIEW) && sourceCount == 0 && resyncs == 0
    {
      revision, view := Num(0), EMPTY_VIEW;
      source, closed, reconnectDelay, reconnectTimer := None, false, 500, false;
      sourceCount, live, timers, resyncs, delays := 0, {}, 0, 0, [];
    }

    method Render(snapshot: Json)
      modifies this`revision, this`view
      ensures View() == SceneFromSnapshot(snapshot)
    {
      var next := SceneFromSnapshot(snapshot);
      revision, view := next.revision, next.view;
    }

    method CloseSource()
      modifies this`live
      ensures live == if source.Some? then old(live) - {source.value} else old(live)
    {
      if source.Some? { live := live - {source.value}; }
    }

    method Connect()
      requires Valid()
      modifies this`source, this`sourceCount, this`live
      ensures Valid()
      ensures if closed then sourceCount == old(sourceCount) && live == old(live) && source == old(source)
              else sourceCount == old(sourceCount) + 1 && source == Some(old(sourceCount)) && live == {old(sourceCount)}
    {
      if closed { return; }
      CloseSource();
      source := Some(sourceCount);
      live := live + {sourceCount};
      sourceCount := sourceCount + 1;
    }

    /** Applies a patch with the client's base; any other patch, like one that does not parse, asks for a
        resync and leaves revision and view alone. */
    method OnPatch(patch: Option<Patch>)
      requires Valid()
      modifies this`revision, this`view, this`resyncs
      ensures Valid()
      ensures if patch.Some? then View() == Receive(old(View()), PatchEvent(patch.value)) else View() == old(View())
      ensures resyncs == old(resyncs) + if patch.Some? && Applies(patch.value, old(View())) then 0 else 1
    {
      if patch.None? || patch.value.Base() != revision || revision.NaN? {
        resyncs := resyncs + 1;
        return;
      }
      var operations := patch.value.operations;
      ghost var before := view;
      for i := 0 to |operations|
        invariant view == ApplyAll(before, operations[..i]) && revision == old(revision) && resyncs == old(resyncs)
      {
        assert operations[..i + 1][..i] == operations[..i];
        view := ApplyOperation(view, operations[i]);
      }
      assert operations[..|operations|] == operations;
      Render(PatchedSnapshot(patch.value, view));
    }

    /** Renders a scene event; one that does not parse asks for a resync. */
    method OnScene(data: Option<Json>)
      requires Valid()
      modifies this`revision, this`view, this`resyncs
      ensures Valid() && View() == (if data.Some? then SceneFromSnapshot(data.value) else old(View()))
      ensures resyncs == old(resyncs) + if data.Some? then 0 else 1
    {
      if data.Some? { Render(data.value); } else { resyncs := resyncs + 1; }
    }

    /** Takes over what the result of a command carries. */
    method OnReply(result: Json)
      requires Valid()
      modifies this`revision, this`view
      ensures Valid() && View() == Receive(old(View()), CommandReply(result))
    {
      if Truthy(result.Get("scene")) || Truthy(result.Get("snapshot")) {
        Render(Or(result.Get("snapshot"), result.Get("scene")).value);
      } else if SafeInteger(result.Get("revision")) {
        revision := Num(result.Get("revision").value.number.value);
      }
    }

    method OnError(failed: nat)
      requires Valid()
      modifies this`live, this`reconnectDelay, this`reconnectTimer, this`timers, this`delays
      ensures Valid() && live == old(live) - {failed}
      ensures if !closed && !old(reconnectTimer) then reconnectTimer && delays == old(delays) + [Backoff(|old(delays)|)]
              else reconnectTimer == old(reconnectTimer) && delays == old(delays)
    {
      live := live - {failed};
      if !closed && !reconnectTimer {
        BackoffDoubles(|delays|);
        delays := delays + [reconnectDelay];
        reconnectDelay := if reconnectDelay * 2 < 15000 then reconnectDelay * 2 else 15000;
        reconnectTimer, timers := true, timers + 1;
      }
    }

    method OnTimer()
      requires Valid() && timers > 0
      modifies this`reconnectTimer, this`timers, this`source, this`sourceCount, this`live
      ensures Valid() && !closed && !reconnectTimer && sourceCount == old(sourceCount) + 1
    {
      reconnectTimer, timers := false, timers - 1;
      Connect();
    }

    /** The second half of a resync, once the fresh snapshot is there. */
    method FinishResync(snapshot: Json)
      requires Valid() && resyncs > 0
      modifies this
      ensures Valid() && closed == old(closed) && View() == SceneFromSnapshot(snapshot)
      ensures sourceCount == old(sourceCount) + if closed then 0 else 1
      ensures resyncs == old(resyncs) - 1 && delays == old(delays)
    {
      resyncs := resyncs - 1;
      Render(snapshot);
      CloseSource();
      Connect();
    }

    method Close()
      requires Valid()
      modifies this`closed, this`live, this`reconnectTimer, this`timers
      ensures Valid() && closed && sourceCount == old(sourceCount)
    {
      closed := true;
      CloseSource();
      if reconnectTimer { timers := timers - 1; }
      reconnectTimer := false;
    }

    /** Which steps the outside world can take now. */
    ghost predicate Possible(event: Event)
      reads this
    {
      match event
      case TimerFires => timers > 0
      case ResyncLoaded(_) => resyncs > 0
      case ResyncFailed => resyncs > 0
      case _ => true
    }

    method Handle(event: Event) returns (ghost arrival: Arrival)
      requires Valid() && Possible(event)
      modifies this
      ensures Valid() && (old(closed) || event.Close? ==> closed && sourceCount == old(sourceCount))
      ensures View() == Receive(old(View()), arrival) && arrival == ArrivalOf(event)
      ensures resyncs == old(resyncs) + Asks(old(View()), event)
      ensures sourceCount == old(sourceCount) + if Opens(event) && !old(closed) then 1 else 0
      ensures delays == if event.Opened? then [] else if event.SourceError? && !old(closed) && !old(reconnectTimer)
                        then old(delays) + [Backoff(|old(delays)|)] else old(delays)
    {
      arrival := ArrivalOf(event);
      match event {
        case Connect => Connect();
        case Opened(_) => reconnectDelay, delays := 500, [];
        case SceneEvent(data) => OnScene(data);
        case ScenePatch(patch) => OnPatch(patch);
        case SourceError(failed) => OnError(failed);
        case TimerFires => OnTimer();
        case Loaded(snapshot) => Render(snapshot);
        case Resync => resyncs := resyncs + 1;
        case ResyncLoaded(snapshot) => FinishResync(snapshot);
        case ResyncFailed => resyncs := resyncs - 1;
        case Replied(result) => OnReply(result);
        case Conflict => resyncs := resyncs + 1;
        case Close => Close();
      }
    }

    /** Steps that open a source, unless the transport is closed. */
    predicate Opens(event: Event) {
      event.Connect? || event.TimerFires? || event.ResyncLoaded?
    }

    /** The resyncs a step starts, or that end with it. */
    function Asks(scene: Scene, event: Event): int {
      match event
      case SceneEvent(data) => if data.None? then 1 else 0
      case ScenePatch(patch) => if patch.Some? && Applies(patch.value, scene) then 0 else 1
      case Resync => 1
      case Conflict => 1
      case ResyncLoaded(_) => -1
      case ResyncFailed => -1
      case _ => 0
    }

    /** Whether the outside world can take the step, by what the object itself holds. */
    method CanHappen(event: Event) returns (possible: bool)
      requires Valid()
      ensures possible <==> Possible(event)
    {
      match event {
        case TimerFires => possible := reconnectTimer;
        case ResyncLoaded(_) => possible := resyncs > 0;
        case ResyncFailed => possible := resyncs > 0;
        case _ => possible := true;
      }
    }

    method TakeStep(event: Event) returns (taken: bool)
      requires Valid()
      modifies this
      ensures Valid() && (old(closed) ==> closed && sourceCount == old(sourceCount))
      ensures View() == if taken then Receive(old(View()), ArrivalOf(event)) else old(View())
      ensures taken || Conditional(event)
      ensures event.Close? ==> closed && sourceCount == old(sourceCount)
    {
      taken := CanHappen(event);
      if taken {
        var _ := Handle(event);
      }
    }

    /** Over every run: the connection discipline of Valid holds at the end, nothing is opened once
        closed, and the scene is what the arrivals make of it, one for each event that could happen, in
        their order; so with truthful arrivals it is consistent whenever it is settled. Timer and resync
        steps that are not possible when their turn comes do not happen. `counts` are the sources opened
        before each event; it stays the same from a close on, inside the run or before it. */
    method Run(events: seq<Event>, ghost history: History, ghost settled: bool)
      returns (ghost arrivals: seq<Arrival>, ghost taken: seq<bool>, ghost counts: seq<nat>)
      requires Valid()
      requires settled ==> Consistent(history, View())
      requires forall e | e in events :: Truthful(history, ArrivalOf(e))
      modifies this
      ensures Valid() && (old(closed) ==> closed && sourceCount == old(sourceCount))
      ensures StillAfterClose(events, counts, closed) && counts[0] == old(sourceCount) &&
              counts[|events|] == sourceCount
      ensures |taken| == |events| && arrivals == Taken(events, taken)
      ensures forall i | 0 <= i < |events| && !taken[i] :: Conditional(events[i])
      ensures View() == ReceiveAll(old(View()), arrivals)
      ensures SettledAll(settled, old(View()), arrivals) ==> Consistent(history, View())
    {
      taken, counts := [], [sourceCount];
      for i := 0 to |events|
        invariant Valid() && (old(closed) ==> closed && sourceCount == old(sourceCount))
        invariant StillAfterClose(events[..i], counts, closed) && counts[0] == old(sourceCount) &&
                  counts[i] == sourceCount
        invariant |taken| == i && View() == ReceiveAll(old(View()), Taken(events[..i], taken))
        invariant forall k | 0 <= k < i && !taken[k] :: Conditional(events[k])
      {
        ghost var wasClosed := closed;
        var possible := TakeStep(events[i]);
        StillNext(events, i, counts, wasClosed, sourceCount, closed);
        ReceiveTaken(old(View()), events, i, taken, possible);
        taken, counts := taken + [possible], counts + [sourceCount];
      }
      assert events[..|events|] == events;
      arrivals := Taken(events, taken);
      TakenTruthful(history, events, taken);
      SceneConsistency(history, old(View()), arrivals, settled);
    }
  }

  lemma ReceiveTaken(scene: Scene, events: seq<Event>, i: nat, taken: seq<bool>, more: bool)
    requires i < |events| && |taken| == i
    ensures var before := ReceiveAll(scene, Taken(events[..i], taken));
      ReceiveAll(scene, Taken(events[..i + 1], taken + [more])) ==
        if more then Receive(before, ArrivalOf(events[i])) else before
  {
    TakenNext(events, i, taken, more);
    ReceiveNext(scene, Taken(events[..i], taken), ArrivalOf(events[i]));
  }

  /** Steps that need a pending timer or resync. */
  predicate Conditional(event: Event) {
    event.TimerFires? || event.ResyncLoaded? || event.ResyncFailed?
  }

  /** From a close on the number of opened sources stays the same, and the transport closed. */
  predicate StillAfterClose(events: seq<Event>, counts: seq<nat>, closed: bool) {
    && |counts| == |events| + 1
    && (forall i, j | 0 <= i < j <= |events| && events[i].Close? :: counts[j] == counts[i])
    && (forall i | 0 <= i < |events| && events[i].Close? :: closed)
  }

  lemma StillNext(events: seq<Event>, i: nat, counts: seq<nat>, wasClosed: bool, count: nat, closed: bool)
    requires i < |events| && StillAfterClose(events[..i], counts, wasClosed)
    requires wasClosed || events[i].Close? ==> closed && count == counts[i]
    ensures StillAfterClose(events[..i + 1], counts + [count], closed)
  {
    assert events[..i + 1][..i] == events[..i];
  }

  /** The arrivals of the events taken, in order. */
  function Taken(events: seq<Event>, taken: seq<bool>): seq<Arrival>
    requires |events| == |taken|
  {
    if events == [] then []
    else
      var k := |events| - 1;
      Taken(events[..k], taken[..k]) + if taken[k] then [ArrivalOf(events[k])] else []
  }

  lemma TakenNext(events: seq<Event>, i: nat, taken: seq<bool>, more: bool)
    requires i < |events| && |taken| == i
    ensures Taken(events[..i + 1], taken + [more]) ==
            if more then Taken(events[..i], taken) + [ArrivalOf(events[i])] else Taken(events[..i], taken)
  {
    assert events[..i + 1][..i] == events[..i] && (taken + [more])[..i] == taken;
  }

  lemma {:induction false} TakenTruthful(history: History, events: seq<Event>, taken: seq<bool>)
    requires |events| == |taken| && forall e | e in events :: Truthful(history, ArrivalOf(e))
    ensures forall a | a in Taken(events, taken) :: Truthful(history, a)
  {
    if events != [] {
      var k := |events| - 1;
      assert events[k] in events && forall e | e in events[..k] :: e in events;
      TakenTruthful(history, events[..k], taken[..k]);
    }
  }

  /** What a step of the outside world means for the scene. */
  function ArrivalOf(event: Event): Arrival {
    match event
    case SceneEvent(Some(message)) => SceneMessage(message)
    case ScenePatch(Some(patch)) => PatchEvent(patch)
    case Loaded(snapshot) => Snapshot(snapshot)
    case ResyncLoaded(snapshot) => Snapshot(snapshot)
    case Replied(result) => CommandReply(result)
    case _ => Nothing
  }
}
