/** A worker program run through facade, codec, frame and actor against the
    same program run directly on the storage. */
module EndToEnd {
  import opened Results
  import opened Tensors
  import opened Values
  import opened Packets
  import opened RoundTrip
  import opened RpcSerializer
  import opened MapTensors
  import opened Stores
  import opened SharedStates
  import opened StateTravel
  import opened ActorStates
  import opened BatchedActor
  import opened BatchedOutcomes
  import opened BatchedRuns
  import opened BatchedFacade
  import opened Protocol

  // ---------- Requests on the wire ----------

  /** The commands a program sends. */
  predicate Carried(cmd: Command) {
    || cmd.PickOut? || cmd.Add? || cmd.Publish? || cmd.Donate? || cmd.Complete? || cmd.CompletePruned?
    || cmd.GetState? || cmd.GetSnapshot? || cmd.Sort? || cmd.GetItem?
  }

  function RequestValue(cmd: Command): Value
    requires Carried(cmd)
  {
    VTuple([VStr(MethodName(cmd))] + Arguments(cmd))
  }

  function MethodName(cmd: Command): string
    requires Carried(cmd)
  {
    match cmd
    case PickOut(_, _) => "pick_out"
    case Add(_, _, _, _) => "add"
    case Publish(_, _, _, _, _) => "publish_children"
    case Donate(_, _, _, _) => "donate"
    case Complete(_, _) => "complete_pick_to_local"
    case CompletePruned(_, _) => "complete_pruned"
    case GetState => "state"
    case GetSnapshot => "snapshot"
    case Sort => "sort"
    case GetItem(_, _) => "get_item"
  }

  function Arguments(cmd: Command): seq<Value>
    requires Carried(cmd)
  {
    match cmd
    case PickOut(worker, size) => [worker, size]
    case Add(worker, bounds, data, flag) => [worker, bounds, data, flag]
    case Publish(worker, checkout, bounds, data, flag) => [worker, checkout, bounds, data, flag]
    case Donate(worker, bounds, data, flag) => [worker, bounds, data, flag]
    case Complete(worker, checkout) => [worker, checkout]
    case CompletePruned(worker, checkout) => [worker, checkout]
    case GetState => []
    case GetSnapshot => []
    case Sort => []
    case GetItem(index, version) => [index, version]
  }

  function ParseRequest(v: Value): Option<Command> {
    if v.VTuple? && v.items != [] && v.items[0].VStr? then Invocation(v.items[0].s, v.items[1..]) else None
  }

  function Invocation(name: string, xs: seq<Value>): Option<Command> {
    if name == "pick_out" && |xs| == 2 then Some(PickOut(xs[0], xs[1]))
    else if name == "add" && |xs| == 4 then Some(Add(xs[0], xs[1], xs[2], xs[3]))
    else if name == "publish_children" && |xs| == 5 then Some(Publish(xs[0], xs[1], xs[2], xs[3], xs[4]))
    else if name == "donate" && |xs| == 4 then Some(Donate(xs[0], xs[1], xs[2], xs[3]))
    else if name == "complete_pick_to_local" && |xs| == 2 then Some(Complete(xs[0], xs[1]))
    else if name == "complete_pruned" && |xs| == 2 then Some(CompletePruned(xs[0], xs[1]))
    else if name == "state" && |xs| == 0 then Some(GetState)
    else if name == "snapshot" && |xs| == 0 then Some(GetSnapshot)
    else if name == "sort" && |xs| == 0 then Some(Sort)
    else if name == "get_item" && |xs| == 2 then Some(GetItem(xs[0], xs[1]))
    else None
  }

  // ---------- The two ways to run a program ----------

  /** Everything a worker does with the list while it uses it. */
  predicate InProgram(op: Operation) {
    !op.WorkerFailedOp? && !op.CloseOp?
  }

  /** One call with request and reply encoded, framed, unframed and decoded. A
      payload that cannot travel breaks the facade. */
  function RemoteStep<S>(cfg: Config<S>, w: Worker, f: Facade, a: ActorState<S>, op: Operation, token: string)
    : (Facade, ActorState<S>, Answer)
    requires InProgram(op)
  {
    match Decide(w.id, f, op, false)
    case Finished(f', answer) => (f', a, answer)
    case Sends(cmd) =>
      var sent := Carry(w.codec, RequestValue(cmd));
      var request := if sent.None? then None else ParseRequest(sent.value);
      if request.None? then (f.(broken := true), a, Fails)
      else
        var (a', reply) := Execute(cfg, a, request.value, token);
        if reply.Raised? then
          var (f', answer) := Hear(w, f, op, reply);
          (f', a', answer)
        else
          var received := Carry(w.codec, reply.value);
          if received.None? then (f.(broken := true), a', Fails)
          else
            var (f', answer) := Hear(w, f, op, Returned(received.value));
            (f', a', answer)
  }

  /** The storage used directly, under the same discipline: one batch out at a
      time, known by its token, and a version that counts the changes. */
  datatype Local<S> = Local(domains: S, checkout: Option<string>, version: nat)

  function LocalState<S>(store: Store<S>, l: Local<S>): SharedState {
    var n := store.length(l.domains);
    SharedState(n, if l.checkout.Some? then 1 else 0, n == 0 && l.checkout.None?, false, None)
  }

  /** The batch on hand, and the token given for it, if one is given. */
  predicate OnHand<S>(l: Local<S>, checkout: Value) {
    l.checkout.Some? && (checkout.VNone? || checkout == VStr(l.checkout.value))
  }

  /** Domains are handed in; with them, or without, the batch on hand is done. */
  function HandIn<S>(l: Local<S>, added: Option<Outcome<S, Value>>): (Local<S>, Answer) {
    if Succeeds(added) then (Local(added.value.next, None, l.version + 1), Gives(added.value.value)) else (l, Fails)
  }

  function HandBack<S>(l: Local<S>, checkout: Value): (Local<S>, Answer) {
    if OnHand(l, checkout) then (Local(l.domains, None, l.version + 1), Gives(VNone)) else (l, Fails)
  }

  function LocalPick<S>(cfg: Config<S>, l: Local<S>, size: Value, token: string): (Local<S>, Answer) {
    if !size.VInt? || size.i <= 0 || l.checkout.Some? then (l, Fails)
    else
      var n := cfg.store.length(l.domains);
      if n == 0 then (l, Gives(VNone))
      else
        var picked := cfg.store.pickOut(l.domains, if size.i < n then size.i else n);
        if picked.Raises? then (l, Fails)
        else (Local(picked.next, Some(token), l.version + 1), Gives(picked.value))
  }

  function LocalItem<S>(cfg: Config<S>, l: Local<S>, index: Value, version: Value): Answer {
    if !index.VInt? || !(version.VNone? || Number(version) == Some(l.version as real)) then Fails
    else
      var domain := DomainAt(cfg.store, l.domains, index.i);
      if domain.None? || RecordOf(domain.value).None? then Fails else Gives(RecordOf(domain.value).value)
  }

  function LocalStep<S>(cfg: Config<S>, l: Local<S>, op: Operation, token: string): (Local<S>, Answer)
    requires InProgram(op)
  {
    match op
    case PickOp(size) => LocalPick(cfg, l, size, token)
    case AddOp(bounds, data, flag) => HandIn(l, Added(cfg, l.domains, bounds, data, flag))
    case PublishOp(checkout, bounds, data, flag) =>
      if checkout.VNone? || !OnHand(l, checkout) then (l, Fails)
      else HandIn(l, Added(cfg, l.domains, bounds, data, flag))
    case DonateOp(bounds, data, flag) =>
      if l.checkout.Some? then (l, Fails) else HandIn(l, Added(cfg, l.domains, bounds, data, flag))
    case CompleteOp(checkout) => HandBack(l, checkout)
    case PrunedOp(checkout) => HandBack(l, checkout)
    case StateOp => (l, Gives(ToDict(LocalState(cfg.store, l))))
    case SnapshotOp => (l, Gives(SnapshotToDict(Snapshot(cfg.jobId, l.version, LocalState(cfg.store, l)))))
    case SortOp =>
      (match cfg.store.sort(l.domains)
       case Raises(_, _) => (l, Fails)
       case Returns(next, _) => (Local(next, l.checkout, l.version + 1), Gives(VNone)))
    case GetItemOp(index, version) => (l, LocalItem(cfg, l, index, version))
  }

  /** The calls that go beyond the facade and fail there: the storage raises,
      what is added is not valid, nothing is on hand to publish, or there is no
      such record at the current version. */
  predicate Breaks<S>(cfg: Config<S>, l: Local<S>, op: Operation)
    requires InProgram(op)
  {
    match op
    case PickOp(size) =>
      && size.VInt? && size.i > 0 && l.checkout.None?
      && var n := cfg.store.length(l.domains);
         n > 0 && cfg.store.pickOut(l.domains, if size.i < n then size.i else n).Raises?
    case AddOp(bounds, data, flag) => flag.VBool? && !Succeeds(Added(cfg, l.domains, bounds, data, flag))
    case PublishOp(checkout, bounds, data, flag) =>
      && checkout == OptionalText(l.checkout)
      && (l.checkout.None? || !Succeeds(Added(cfg, l.domains, bounds, data, flag)))
    case DonateOp(bounds, data, flag) =>
      l.checkout.None? && !Succeeds(Added(cfg, l.domains, bounds, data, flag))
    case SortOp => cfg.store.sort(l.domains).Raises?
    case GetItemOp(index, version) => LocalItem(cfg, l, index, version).Fails?
    case _ => false
  }

  // ---------- What travels ----------

  /** Payloads the codec can represent: those of the program and those the
      storage hands out; batches are dictionaries. */
  ghost predicate Travels<S(!new)>(cfg: Config<S>, c: Codec) {
    && (forall s: S, n: nat | cfg.store.pickOut(s, n).Returns? ::
          cfg.store.pickOut(s, n).value.VDict? && Faithful(c, cfg.store.pickOut(s, n).value))
    && (forall s: S, p: Value | cfg.store.add(s, p).Returns? :: Faithful(c, cfg.store.add(s, p).value))
    && (forall s: S, i: nat | cfg.store.item(s, i).Some? && RecordOf(cfg.store.item(s, i).value).Some? ::
          Faithful(c, RecordOf(cfg.store.item(s, i).value).value))
  }

  ghost predicate ArgumentsTravel(c: Codec, op: Operation) {
    match op
    case PickOp(batch) => Faithful(c, batch)
    case AddOp(bounds, data, flag) => Faithful(c, bounds) && Faithful(c, data) && Faithful(c, flag)
    case PublishOp(_, bounds, data, flag) => Faithful(c, bounds) && Faithful(c, data) && Faithful(c, flag)
    case DonateOp(bounds, data, flag) => Faithful(c, bounds) && Faithful(c, data) && Faithful(c, flag)
    case GetItemOp(index, version) => Faithful(c, index) && Faithful(c, version)
    case _ => true
  }

  ghost predicate Ready<S(!new)>(cfg: Config<S>, w: Worker) {
    && w.codec.Consistent() && w.codec.platform.RoundTrips() && Travels(cfg, w.codec)
    && cfg.jobId != "" && forall t: Dense :: w.transfer(t) == t
  }

  lemma StateDictTravels<S>(cfg: Config<S>, c: Codec, s: ActorState<S>)
    ensures Faithful(c, StateDict(cfg, s))
  {
    hide ToDict;
    hide SnapshotToDict;
    StateTravels(c, Snapshot(cfg.jobId, s.version, StateOf(cfg.store, s)));
  }

  lemma SnapshotDictTravels<S>(cfg: Config<S>, c: Codec, s: ActorState<S>)
    ensures Faithful(c, SnapshotDict(cfg, s))
  {
    hide ToDict;
    hide SnapshotToDict;
    StateTravels(c, Snapshot(cfg.jobId, s.version, StateOf(cfg.store, s)));
  }

  lemma AddedTravels<S>(cfg: Config<S>, c: Codec, s: ActorState<S>, v: Value)
    requires Faithful(c, v)
    ensures AddedReply(cfg, s, v).Returned? && Faithful(c, AddedReply(cfg, s, v).value)
  {
    hide StateDict;
    StateDictTravels(cfg, c, s);
    RecordTravels(c, AddedReply(cfg, s, v).value.entries);
  }

  lemma OkTravels<S>(cfg: Config<S>, c: Codec, s: ActorState<S>)
    ensures OkReply(cfg, s).Returned? && Faithful(c, OkReply(cfg, s).value)
    ensures EmptyReply(cfg, s).Returned? && Faithful(c, EmptyReply(cfg, s).value)
  {
    hide StateDict;
    StateDictTravels(cfg, c, s);
    RecordTravels(c, OkReply(cfg, s).value.entries);
    RecordTravels(c, EmptyReply(cfg, s).value.entries);
  }

  lemma DataTravels<S>(cfg: Config<S>, c: Codec, s: ActorState<S>, v: Value, token: string)
    requires Faithful(c, v)
    ensures DataReply(cfg, s, v, token).Returned? && Faithful(c, DataReply(cfg, s, v, token).value)
  {
    hide StateDict;
    StateDictTravels(cfg, c, s);
    RecordTravels(c, DataReply(cfg, s, v, token).value.entries);
  }

  lemma SortedTravels<S>(cfg: Config<S>, c: Codec, s: ActorState<S>)
    ensures SortedReply(cfg, s).Returned? && Faithful(c, SortedReply(cfg, s).value)
  {
    hide SnapshotDict;
    SnapshotDictTravels(cfg, c, s);
    RecordTravels(c, SortedReply(cfg, s).value.entries);
  }

  lemma RecordReplyTravels<S>(c: Codec, s: ActorState<S>, record: Value)
    requires Faithful(c, record)
    ensures RecordReply(s, record).Returned? && Faithful(c, RecordReply(s, record).value)
  {
    RecordTravels(c, RecordReply(s, record).value.entries);
  }

  lemma ParsesBack(cmd: Command)
    requires Carried(cmd)
    ensures ParseRequest(RequestValue(cmd)) == Some(cmd)
  {
    var items := RequestValue(cmd).items;
    assert items[0] == VStr(MethodName(cmd)) && items[1..] == Arguments(cmd);
  }

  lemma RequestTravels(c: Codec, cmd: Command)
    requires Carried(cmd) && forall x | x in Arguments(cmd) :: Faithful(c, x)
    ensures Faithful(c, RequestValue(cmd)) && ParseRequest(RequestValue(cmd)) == Some(cmd)
  {
    hide Invocation;
    hide MethodName;
    hide Arguments;
    ParsesBack(cmd);
    assert forall x | x in RequestValue(cmd).items :: x == VStr(MethodName(cmd)) || x in Arguments(cmd);
  }

  // ---------- One step ----------

  /** Facade and actor stand where the local run stands. */
  ghost predicate Matches<S>(w: Worker, f: Facade, a: ActorState<S>, l: Local<S>) {
    && f.Usable() && !a.Failed() && a.domains == l.domains && a.version == l.version && w.id in a.workers
    && f.checkout == l.checkout && (f.hasBatch <==> l.checkout.Some?)
    && a.checkouts == if l.checkout.Some? then map[w.id := l.checkout.value] else map[]
  }

  lemma SentArgumentsTravel(c: Codec, w: string, f: Facade, op: Operation)
    requires InProgram(op) && ArgumentsTravel(c, op) && Decide(w, f, op, false).Sends?
    ensures var cmd := Decide(w, f, op, false).cmd;
            Carried(cmd) && Faithful(c, RequestValue(cmd)) && ParseRequest(RequestValue(cmd)) == Some(cmd)
  {
    hide RequestValue;
    hide ParseRequest;
    var cmd := Decide(w, f, op, false).cmd;
    assert forall x | x in Arguments(cmd) :: Faithful(c, x);
    RequestTravels(c, cmd);
  }

  /** What the actor returns to a program can travel. */
  lemma ReturnedTravels<S(!new)>(cfg: Config<S>, w: Worker, a: ActorState<S>, cmd: Command, token: string)
    requires Ready(cfg, w) && Carried(cmd) && Execute(cfg, a, cmd, token).1.Returned?
    ensures Faithful(w.codec, Execute(cfg, a, cmd, token).1.value)
  {
    hide OkReply;
    hide EmptyReply;
    hide DataReply;
    hide AddedReply;
    hide SortedReply;
    hide RecordReply;
    hide StateDict;
    hide SnapshotDict;
    hide Faithful;
    hide RecordOf;
    hide SameKey;
    var a' := Execute(cfg, a, cmd, token).0;
    StateDictTravels(cfg, w.codec, a');
    SnapshotDictTravels(cfg, w.codec, a');
    OkTravels(cfg, w.codec, a');
    SortedTravels(cfg, w.codec, a');
    if cmd.PickOut? && cfg.store.length(a.domains) != 0 {
      var n := cfg.store.length(a.domains);
      var picked := cfg.store.pickOut(a.domains, if cmd.size.i < n then cmd.size.i else n);
      DataTravels(cfg, w.codec, a', picked.value, token);
    } else if cmd.Add? || cmd.Publish? || cmd.Donate? {
      AddedTravels(cfg, w.codec, a', StoreAdd(cfg, a.domains, cmd.bounds, cmd.data, cmd.flag).value);
    } else if cmd.GetItem? {
      var i := Position(cmd.index.i, cfg.store.length(a.domains)).value;
      RecordReplyTravels(w.codec, a, RecordAt(cfg, a, i).value);
    }
  }

  /** Travelling changes nothing: a remote step that leaves the facade usable is
      the step of the facade on the actor itself. */
  lemma RemoteIsDirect<S(!new)>(cfg: Config<S>, w: Worker, f: Facade, a: ActorState<S>, op: Operation, token: string)
    requires Ready(cfg, w) && InProgram(op) && ArgumentsTravel(w.codec, op)
    requires RemoteStep(cfg, w, f, a, op, token).0.Usable()
    ensures RemoteStep(cfg, w, f, a, op, token) == Step(cfg, w, f, a, op, Link(false, true, token))
  {
    hide Execute;
    hide Hear;
    hide RequestValue;
    hide ParseRequest;
    hide Carry;
    hide Ready;
    hide Faithful;
    assert w.codec.Consistent() && w.codec.platform.RoundTrips() by {
      ReadyCodec(cfg, w);
    }
    var d := Decide(w.id, f, op, false);
    if d.Sends? {
      SentArgumentsTravel(w.codec, w.id, f, op);
      CarryIdentity(w.codec, RequestValue(d.cmd));
      var (a', reply) := Execute(cfg, a, d.cmd, token);
      if reply.Returned? {
        ReturnedTravels(cfg, w, a, d.cmd, token);
        CarryIdentity(w.codec, reply.value);
      }
    }
  }

  lemma ReadyCodec<S(!new)>(cfg: Config<S>, w: Worker)
    requires Ready(cfg, w)
    ensures w.codec.Consistent() && w.codec.platform.RoundTrips()
  {
  }

  lemma MovedUnchanged(w: Worker, v: Value)
    requires Faithful(w.codec, v) && forall t: Dense :: w.transfer(t) == t
    ensures Moved(w, v) == Gives(v)
  {
    MapIdentity(w.codec, v, w.transfer);
  }

  /** One step leaves facade and actor where the local step leaves its run, with
      the same answer, unless the call breaks the facade. */
  ghost predicate Follows<S(!new)>(
    cfg: Config<S>, w: Worker, f: Facade, a: ActorState<S>, l: Local<S>, op: Operation, token: string)
    requires InProgram(op)
  {
    var (f', a', answer) := Step(cfg, w, f, a, op, Link(false, true, token));
    var (l', expected) := LocalStep(cfg, l, op, token);
    if Breaks(cfg, l, op) then f'.broken && answer.Fails?
    else Matches(w, f', a', l') && answer == expected
  }

  lemma PickFollows<S(!new)>(
    cfg: Config<S>, w: Worker, f: Facade, a: ActorState<S>, l: Local<S>, op: Operation, token: string)
    requires Ready(cfg, w) && Matches(w, f, a, l) && op.PickOp? && token != ""
    ensures Follows(cfg, w, f, a, l, op, token)
  {
    hide DataReply;
    hide EmptyReply;
    hide Field;
    hide Moved;
    hide Faithful;
    hide StateDict;
    var (a', reply) := Execute(cfg, a, PickOut(VStr(w.id), op.batch), token);
    DataReplyFields(cfg, a', VNone, token);
    PickRepliesAreDicts(cfg, a', VNone, token);
    if op.batch.VInt? && op.batch.i > 0 && l.checkout.None? {
      var n := cfg.store.length(a.domains);
      if n != 0 {
        var picked := cfg.store.pickOut(a.domains, if op.batch.i < n then op.batch.i else n);
        if picked.Returns? {
          DataReplyFields(cfg, a', picked.value, token);
          PickRepliesAreDicts(cfg, a', picked.value, token);
          MovedUnchanged(w, picked.value);
        }
      }
    }
  }

  lemma PickRepliesAreDicts<S>(cfg: Config<S>, a: ActorState<S>, v: Value, token: string)
    ensures EmptyReply(cfg, a).value.VDict? && DataReply(cfg, a, v, token).value.VDict?
  {
  }

  lemma OkIsHeard<S>(cfg: Config<S>, a: ActorState<S>)
    ensures OkReply(cfg, a).Returned? && HasStatus(OkReply(cfg, a).value, "ok")
  {
    hide *;
    ReplyFields(cfg, a, VNone);
  }

  lemma CompleteFollows<S(!new)>(
    cfg: Config<S>, w: Worker, f: Facade, a: ActorState<S>, l: Local<S>, op: Operation, token: string)
    requires Matches(w, f, a, l) && op.CompleteOp?
    ensures Follows(cfg, w, f, a, l, op, token)
  {
    hide OkReply;
    hide HasStatus;
    if Decide(w.id, f, op, false).Sends? {
      OkIsHeard(cfg, Execute(cfg, a, Decide(w.id, f, op, false).cmd, token).0);
      assert a.checkouts - {w.id} == map[];
    }
  }

  lemma PrunedFollows<S(!new)>(
    cfg: Config<S>, w: Worker, f: Facade, a: ActorState<S>, l: Local<S>, op: Operation, token: string)
    requires Matches(w, f, a, l) && op.PrunedOp?
    ensures Follows(cfg, w, f, a, l, op, token)
  {
    hide OkReply;
    hide HasStatus;
    if Decide(w.id, f, op, false).Sends? {
      OkIsHeard(cfg, Execute(cfg, a, Decide(w.id, f, op, false).cmd, token).0);
      assert a.checkouts - {w.id} == map[];
    }
  }

  lemma AnswerComesBack<S(!new)>(cfg: Config<S>, w: Worker, a: ActorState<S>, domains: S, payload: Value)
    requires Ready(cfg, w) && cfg.store.add(domains, payload).Returns?
    ensures var v := cfg.store.add(domains, payload).value;
            var reply := AddedReply(cfg, a, v);
            reply.Returned? && HasStatus(reply.value, "ok") && Moved(w, Field(reply.value, "global_lb")) == Gives(v)
  {
    hide AddedReply;
    hide HasStatus;
    hide Field;
    hide Faithful;
    ReplyFields(cfg, a, cfg.store.add(domains, payload).value);
    MovedUnchanged(w, cfg.store.add(domains, payload).value);
  }

  /** Added domains reach the storage as they do locally, and its answer comes
      back. */
  lemma AddFollows<S(!new)>(
    cfg: Config<S>, w: Worker, f: Facade, a: ActorState<S>, l: Local<S>, op: Operation, token: string)
    requires Ready(cfg, w) && Matches(w, f, a, l) && op.AddOp?
    ensures Follows(cfg, w, f, a, l, op, token)
  {
    hide AddedReply;
    hide HasStatus;
    hide Field;
    hide Moved;
    hide Ready;
    var added := Added(cfg, a.domains, op.bounds, op.data, op.flag);
    if Succeeds(added) {
      var a' := Execute(cfg, a, Add(VStr(w.id), op.bounds, op.data, op.flag), token).0;
      AnswerComesBack(cfg, w, a', a.domains, Payload(op.bounds, op.data, op.flag));
      assert a.checkouts - {w.id} == map[];
    }
  }

  lemma PublishFollows<S(!new)>(
    cfg: Config<S>, w: Worker, f: Facade, a: ActorState<S>, l: Local<S>, op: Operation, token: string)
    requires Ready(cfg, w) && Matches(w, f, a, l) && op.PublishOp?
    ensures Follows(cfg, w, f, a, l, op, token)
  {
    hide AddedReply;
    hide HasStatus;
    hide Field;
    hide Moved;
    hide Ready;
    var added := Added(cfg, a.domains, op.bounds, op.data, op.flag);
    if op.checkout == OptionalText(f.checkout) && !op.checkout.VNone? && Succeeds(added) {
      var a' := Execute(cfg, a, Publish(VStr(w.id), op.checkout, op.bounds, op.data, op.flag), token).0;
      AnswerComesBack(cfg, w, a', a.domains, Payload(op.bounds, op.data, op.flag));
      assert a.checkouts - {w.id} == map[];
    }
  }

  lemma DonateFollows<S(!new)>(
    cfg: Config<S>, w: Worker, f: Facade, a: ActorState<S>, l: Local<S>, op: Operation, token: string)
    requires Ready(cfg, w) && Matches(w, f, a, l) && op.DonateOp?
    ensures Follows(cfg, w, f, a, l, op, token)
  {
    hide AddedReply;
    hide HasStatus;
    hide Field;
    hide Moved;
    hide Ready;
    var added := Added(cfg, a.domains, op.bounds, op.data, op.flag);
    if f.checkout.None? && Succeeds(added) {
      var a' := Execute(cfg, a, Donate(VStr(w.id), op.bounds, op.data, op.flag), token).0;
      AnswerComesBack(cfg, w, a', a.domains, Payload(op.bounds, op.data, op.flag));
      assert a.checkouts - {w.id} == map[];
    }
  }

  lemma StateFollows<S(!new)>(
    cfg: Config<S>, w: Worker, f: Facade, a: ActorState<S>, l: Local<S>, op: Operation, token: string)
    requires Ready(cfg, w) && Matches(w, f, a, l) && (op.StateOp? || op.SnapshotOp?)
    ensures Follows(cfg, w, f, a, l, op, token)
  {
    hide ToDict;
    hide FromDict;
    hide SnapshotToDict;
    hide SnapshotFromDict;
    assert |a.checkouts| == if l.checkout.Some? then 1 else 0;
    assert StateOf(cfg.store, a) == LocalState(cfg.store, l);
    ReportedStateAccepted(cfg.store, a);
    ReportedSnapshotAccepted(cfg.store, cfg.jobId, a);
  }

  lemma SortFollows<S(!new)>(
    cfg: Config<S>, w: Worker, f: Facade, a: ActorState<S>, l: Local<S>, op: Operation, token: string)
    requires Matches(w, f, a, l) && op.SortOp?
    ensures Follows(cfg, w, f, a, l, op, token)
  {
    hide SnapshotDict;
    hide Field;
    SortedOk(cfg, Execute(cfg, a, Sort, token).0);
  }

  lemma SortedOk<S>(cfg: Config<S>, a: ActorState<S>)
    ensures SortedReply(cfg, a).Returned? && HasStatus(SortedReply(cfg, a).value, "ok")
  {
    hide SnapshotDict;
    FindAt(SortedReply(cfg, a).value.entries, 0, "status");
  }

  lemma ItemFollows<S(!new)>(
    cfg: Config<S>, w: Worker, f: Facade, a: ActorState<S>, l: Local<S>, op: Operation, token: string)
    requires Matches(w, f, a, l) && op.GetItemOp?
    ensures Follows(cfg, w, f, a, l, op, token)
  {
    hide RecordOf;
    hide SameKey;
    hide Number;
    hide DomainAt;
    hide Position;
    hide RecordReply;
    hide Field;
    hide Find;
    CurrentVersion(op.version, a.version);
    if op.index.VInt? {
      PositionExactly(cfg.store, a.domains, op.index.i);
      var domain := DomainAt(cfg.store, a.domains, op.index.i);
      if domain.Some? && RecordOf(domain.value).Some? {
        RecordReplyReads(a, RecordOf(domain.value).value);
        RecordReplyFound(a, RecordOf(domain.value).value);
        RecordWireCheck(domain.value);
      }
    }
  }

  lemma RecordReplyFound<S>(a: ActorState<S>, record: Value)
    ensures RecordReply(a, record).value.VDict? && Find(RecordReply(a, record).value.entries, "record").Some?
  {
    FindAt(RecordReply(a, record).value.entries, 0, "record");
  }

  lemma StepFollows<S(!new)>(
    cfg: Config<S>, w: Worker, f: Facade, a: ActorState<S>, l: Local<S>, op: Operation, token: string)
    requires Ready(cfg, w) && Matches(w, f, a, l) && InProgram(op) && token != ""
    ensures Follows(cfg, w, f, a, l, op, token)
  {
    hide *;
    match op
    case PickOp(_) => PickFollows(cfg, w, f, a, l, op, token);
    case AddOp(_, _, _) => AddFollows(cfg, w, f, a, l, op, token);
    case PublishOp(_, _, _, _) => PublishFollows(cfg, w, f, a, l, op, token);
    case DonateOp(_, _, _) => DonateFollows(cfg, w, f, a, l, op, token);
    case CompleteOp(_) => CompleteFollows(cfg, w, f, a, l, op, token);
    case PrunedOp(_) => PrunedFollows(cfg, w, f, a, l, op, token);
    case StateOp => StateFollows(cfg, w, f, a, l, op, token);
    case SnapshotOp => StateFollows(cfg, w, f, a, l, op, token);
    case SortOp => SortFollows(cfg, w, f, a, l, op, token);
    case GetItemOp(_, _) => ItemFollows(cfg, w, f, a, l, op, token);
    case _ => NotInProgram(op);
  }

  lemma NotInProgram(op: Operation)
    requires InProgram(op)
    ensures !op.WorkerFailedOp? && !op.CloseOp?
  {
  }

  /** The request, if one is sent, and the reply, if one comes, can be encoded. */
  ghost predicate Sendable<S>(cfg: Config<S>, w: Worker, f: Facade, a: ActorState<S>, op: Operation, token: string)
    requires InProgram(op) && f.Usable()
  {
    var d := Decide(w.id, f, op, false);
    d.Sends? ==>
      && Dumps(w.codec, TreeHeap(), RequestValue(d.cmd)).Some?
      && var reply := Execute(cfg, a, d.cmd, token).1;
         reply.Returned? ==> Dumps(w.codec, TreeHeap(), reply.value).Some?
  }

  lemma RemoteUsable<S(!new)>(cfg: Config<S>, w: Worker, f: Facade, a: ActorState<S>, op: Operation, token: string)
    requires Ready(cfg, w) && InProgram(op) && ArgumentsTravel(w.codec, op) && f.Usable()
    ensures RemoteStep(cfg, w, f, a, op, token).0.Usable() <==>
              Step(cfg, w, f, a, op, Link(false, true, token)).0.Usable() && Sendable(cfg, w, f, a, op, token)
  {
    hide Execute;
    hide Hear;
    hide RequestValue;
    hide ParseRequest;
    hide Carry;
    hide Dumps;
    hide Ready;
    hide Faithful;
    ReadyCodec(cfg, w);
    var d := Decide(w.id, f, op, false);
    if d.Sends? {
      SentArgumentsTravel(w.codec, w.id, f, op);
      CarryIdentity(w.codec, RequestValue(d.cmd));
      var reply := Execute(cfg, a, d.cmd, token).1;
      if reply.Returned? {
        ReturnedTravels(cfg, w, a, d.cmd, token);
        CarryIdentity(w.codec, reply.value);
      } else {
        RaisedBreaks(w, f, op, reply);
      }
    }
  }

  lemma RaisedBreaks(w: Worker, f: Facade, op: Operation, reply: Reply)
    requires InProgram(op) && reply.Raised?
    ensures !Hear(w, f, op, reply).0.Usable()
  {
  }

  /** One step through facade, codec, frame and actor keeps the facade usable
      exactly when its messages can be encoded and the call does not fail beyond
      the facade; it then answers, and leaves the storage, as locally. */
  lemma StepMatches<S(!new)>(
    cfg: Config<S>, w: Worker, f: Facade, a: ActorState<S>, l: Local<S>, op: Operation, token: string)
    requires Ready(cfg, w) && Matches(w, f, a, l) && InProgram(op) && ArgumentsTravel(w.codec, op) && token != ""
    ensures var (f', a', answer) := RemoteStep(cfg, w, f, a, op, token);
            && (f'.Usable() <==> !Breaks(cfg, l, op) && Sendable(cfg, w, f, a, op, token))
            && (f'.Usable() ==>
                  Matches(w, f', a', LocalStep(cfg, l, op, token).0) && answer == LocalStep(cfg, l, op, token).1)
  {
    hide Ready;
    hide RemoteStep;
    hide Step;
    hide LocalStep;
    hide InProgram;
    hide Breaks;
    hide Sendable;
    RemoteUsable(cfg, w, f, a, op, token);
    StepFollows(cfg, w, f, a, l, op, token);
    if RemoteStep(cfg, w, f, a, op, token).0.Usable() {
      RemoteIsDirect(cfg, w, f, a, op, token);
    }
  }

  // ---------- Giving up ----------

  /** A worker reported as failed by its own facade has left, with a checkout as
      a failure; the caller gets the actor's state, and the facade stays as it
      is. */
  lemma ReportFollows<S>(
    cfg: Config<S>, w: Worker, f: Facade, a: ActorState<S>, reason: string, token: string)
    requires f.Usable()
    ensures var a' := Departed(a, w.id, WorkerFailedWithCheckout(w.id, reason));
            Step(cfg, w, f, a, WorkerFailedOp(reason), Link(false, true, token))
              == (f, a', Gives(ToDict(StateOf(cfg.store, a'))))
  {
    hide OkReply;
    hide HasStatus;
    hide Field;
    hide ToDict;
    hide FromDict;
    var a' := Departed(a, w.id, WorkerFailedWithCheckout(w.id, reason));
    ReplyFields(cfg, a', VNone);
    ReportedStateAccepted(cfg.store, a');
  }

  // ---------- Whole programs ----------

  datatype Instruction = Instruction(op: Operation, token: string)

  function RunRemote<S>(cfg: Config<S>, w: Worker, f: Facade, a: ActorState<S>, program: seq<Instruction>)
    : (Facade, ActorState<S>, seq<Answer>)
    requires forall x | x in program :: InProgram(x.op)
    decreases |program|
  {
    if program == [] then (f, a, [])
    else
      var (f1, a1, answer) := RemoteStep(cfg, w, f, a, program[0].op, program[0].token);
      var (f2, a2, answers) := RunRemote(cfg, w, f1, a1, program[1..]);
      (f2, a2, [answer] + answers)
  }

  function RunLocal<S>(cfg: Config<S>, l: Local<S>, program: seq<Instruction>): (Local<S>, seq<Answer>)
    requires forall x | x in program :: InProgram(x.op)
    decreases |program|
  {
    if program == [] then (l, [])
    else
      var (l1, answer) := LocalStep(cfg, l, program[0].op, program[0].token);
      var (l2, answers) := RunLocal(cfg, l1, program[1..]);
      (l2, [answer] + answers)
  }

  lemma {:induction false} BrokenStaysBroken<S>(
    cfg: Config<S>, w: Worker, f: Facade, a: ActorState<S>, program: seq<Instruction>)
    requires (forall x | x in program :: InProgram(x.op)) && !f.Usable()
    ensures !RunRemote(cfg, w, f, a, program).0.Usable()
    decreases |program|
  {
    hide Hear;
    hide Execute;
    hide Carry;
    hide RequestValue;
    hide ParseRequest;
    hide Token;
    if program != [] {
      var f1 := RemoteStep(cfg, w, f, a, program[0].op, program[0].token).0;
      assert !f1.Usable();
      BrokenStaysBroken(cfg, w, f1, RemoteStep(cfg, w, f, a, program[0].op, program[0].token).1, program[1..]);
    }
  }

  lemma {:induction false} RunMatches<S(!new)>(
    cfg: Config<S>, w: Worker, f: Facade, a: ActorState<S>, l: Local<S>, program: seq<Instruction>)
    requires Ready(cfg, w) && Matches(w, f, a, l)
    requires forall x | x in program :: InProgram(x.op) && ArgumentsTravel(w.codec, x.op) && x.token != ""
    requires RunRemote(cfg, w, f, a, program).0.Usable()
    ensures var (f', a', answers) := RunRemote(cfg, w, f, a, program);
            var (l', expected) := RunLocal(cfg, l, program);
            answers == expected && Matches(w, f', a', l')
    decreases |program|
  {
    hide Ready;
    hide Matches;
    hide RemoteStep;
    hide LocalStep;
    hide InProgram;
    hide ArgumentsTravel;
    if program != [] {
      assert program[0] in program;
      var (f1, a1, answer) := RemoteStep(cfg, w, f, a, program[0].op, program[0].token);
      if !f1.Usable() {
        BrokenStaysBroken(cfg, w, f1, a1, program[1..]);
      }
      StepMatches(cfg, w, f, a, l, program[0].op, program[0].token);
      RunMatches(cfg, w, f1, a1, LocalStep(cfg, l, program[0].op, program[0].token).0, program[1..]);
    }
  }

  /** Any finite program of picks, adds, completions and length queries, run by
      one registered worker through facade, codec, frame and actor, gives the
      answers it gives on the storage itself, and leaves the same storage,
      provided the facade is unbroken at the end. */
  lemma SharedListIsLocalList<S(!new)>(cfg: Config<S>, w: Worker, domains: S, program: seq<Instruction>)
    requires Ready(cfg, w) && w.id != ""
    requires forall x | x in program :: InProgram(x.op) && ArgumentsTravel(w.codec, x.op) && x.token != ""
    requires var a := Execute(cfg, Initial(domains), Register(VStr(w.id), VStr(cfg.jobId)), "").0;
             RunRemote(cfg, w, NEW_FACADE, a, program).0.Usable()
    ensures var a := Execute(cfg, Initial(domains), Register(VStr(w.id), VStr(cfg.jobId)), "").0;
            var (_, a', answers) := RunRemote(cfg, w, NEW_FACADE, a, program);
            var (l', expected) := RunLocal(cfg, Local(domains, None, 1), program);
            answers == expected && a'.domains == l'.domains
  {
    hide Ready;
    hide RunRemote;
    hide RunLocal;
    var a := Execute(cfg, Initial(domains), Register(VStr(w.id), VStr(cfg.jobId)), "").0;
    RunMatches(cfg, w, NEW_FACADE, a, Local(domains, None, 1), program);
  }
}
