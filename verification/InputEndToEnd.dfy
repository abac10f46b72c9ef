/** A worker program run on `RpcInputDomainList` against the same program run
    directly on the storage. */
module InputEndToEnd {
  import opened Results
  import opened Tensors
  import opened Values
  import opened Packets
  import opened RoundTrip
  import opened RpcSerializer
  import opened MapTensors
  import opened Stores
  import opened SharedStates
  import opened StateTravel
  import opened ActorStates
  import opened InputActor
  import opened InputRuns
  import opened InputFacade

  // ---------- The storage used directly ----------

  /** One batch out at a time, known by its token; a storage call that raised
      ends all use but the snapshots, which then say why. */
  datatype Local<S> = Local(domains: S, checkout: Option<string>, failure: Option<string>, version: nat)

  /** Everything a worker does with the list while it uses it. */
  predicate InProgram(op: Operation) {
    !op.WorkerFailedOp? && !op.CloseOp?
  }

  function LocalSnapshot<S>(cfg: Config<S>, l: Local<S>): Value {
    var n := cfg.store.length(l.domains);
    var idle := n == 0 && l.checkout.None? && l.failure.None?;
    SnapshotToDict(Snapshot(cfg.jobId, l.version,
      SharedState(n, if l.checkout.Some? then 1 else 0, idle, l.failure.Some?, l.failure)))
  }

  function Spoiled<S>(l: Local<S>, next: S, exn: Exn): Local<S> {
    Local(next, l.checkout, Some(Take(exn.typeName + ": " + exn.message, 1000)), l.version + 1)
  }

  function LocalPick<S>(cfg: Config<S>, l: Local<S>, size: Value, token: string): (Local<S>, Answer) {
    if l.checkout.Some? || l.failure.Some? || !size.VInt? || size.i <= 0 then (l, Fails)
    else
      var n := cfg.store.length(l.domains);
      if n == 0 then (l, Gives(VNone))
      else
        match cfg.store.pickOut(l.domains, if size.i < n then size.i else n)
        case Raises(next, exn) => (Spoiled(l, next, exn), Fails)
        case Returns(next, data) => (Local(next, Some(token), None, l.version + 1), Gives(data))
  }

  /** Domains are added; ending the batch on hand is a second change. */
  function LocalAdd<S>(cfg: Config<S>, l: Local<S>, payload: Value): (Local<S>, Answer) {
    if l.failure.Some? then (l, Fails)
    else
      match cfg.store.add(l.domains, payload)
      case Raises(next, exn) => (Spoiled(l, next, exn), Fails)
      case Returns(next, result) =>
        (Local(next, None, None, l.version + if l.checkout.Some? then 2 else 1), Gives(result))
  }

  function LocalStep<S>(cfg: Config<S>, l: Local<S>, op: Operation, token: string): (Local<S>, Answer)
    requires InProgram(op)
  {
    match op
    case PickOp(size) => LocalPick(cfg, l, size, token)
    case AddOp(payload) => LocalAdd(cfg, l, payload)
    case PublishOp(checkout, payload) =>
      if checkout != OptionalText(l.checkout) then (l, Fails)
      else
        // With nothing on hand and no token given the domains still go in.
        var (l', answer) := LocalAdd(cfg, l, payload);
        (l', if l.checkout.Some? then answer else Fails)
    case DonateOp(payload) => if l.checkout.Some? then (l, Fails) else LocalAdd(cfg, l, payload)
    case CompleteOp(checkout) =>
      if l.failure.None? && l.checkout.Some? && (checkout.VNone? || checkout == VStr(l.checkout.value)) then
        (Local(l.domains, None, None, l.version + 1), Gives(VNone))
      else (l, Fails)
    case SortOp =>
      if l.failure.Some? then (l, Fails)
      else
        (match cfg.store.sort(l.domains)
         case Raises(next, _) => (l.(domains := next), Fails)
         case Returns(next, _) => (l.(domains := next, version := l.version + 1), Gives(VNone)))
    case SnapshotOp => (l, Gives(LocalSnapshot(cfg, l)))
  }

  // ---------- One step ----------

  /** Batches can be encoded, and the move to the worker's device keeps tensor
      contents. */
  ghost predicate Ready<S(!new)>(cfg: Config<S>, w: Worker) {
    && cfg.jobId != "" && (forall t: Dense :: w.transfer(t) == t)
    && forall s: S, n: nat | cfg.store.pickOut(s, n).Returns? :: Faithful(w.codec, cfg.store.pickOut(s, n).value)
  }

  /** Facade and actor stand where the local run stands. */
  ghost predicate Matches<S>(w: Worker, f: Facade, a: ActorState<S>, l: Local<S>) {
    && f == Facade(l.checkout, true, false)
    && a.domains == l.domains && a.version == l.version && w.id in a.workers
    && a.checkouts == (if l.checkout.Some? then map[w.id := l.checkout.value] else map[])
    && l.failure == if a.Failed() then Some(a.failure.value.Text()) else None
  }

  /** An answered call gives the local answer and leaves everything where the
      local step leaves it. */
  ghost predicate Follows<S(!new)>(
    cfg: Config<S>, w: Worker, f: Facade, a: ActorState<S>, l: Local<S>, op: Operation, token: string)
    requires InProgram(op)
  {
    var (f', a', answer) := Step(cfg, w, f, a, op, Answered, token);
    var (l', expected) := LocalStep(cfg, l, op, token);
    Matches(w, f', a', l') && answer == expected
  }

  lemma PickFollows<S(!new)>(
    cfg: Config<S>, w: Worker, f: Facade, a: ActorState<S>, l: Local<S>, op: Operation, token: string)
    requires Ready(cfg, w) && Matches(w, f, a, l) && op.PickOp?
    ensures Follows(cfg, w, f, a, l, op, token)
  {
    hide DataReply;
    hide EmptyReply;
    hide Field;
    hide Map;
    hide Faithful;
    hide Take;
    var (a', reply) := Execute(cfg, a, PickOutBatch(VStr(w.id), op.size), token);
    ReplyFields(cfg, a', VNone, token);
    EmptyIsDict(cfg, a');
    if op.size.VInt? && op.size.i > 0 {
      var n := cfg.store.length(a.domains);
      if n != 0 {
        var picked := cfg.store.pickOut(a.domains, if op.size.i < n then op.size.i else n);
        if picked.Returns? {
          ReplyFields(cfg, a', picked.value, token);
          MapIdentity(w.codec, picked.value, w.transfer);
        }
      }
    }
  }

  lemma EmptyIsDict<S>(cfg: Config<S>, a: ActorState<S>)
    ensures EmptyReply(cfg, a).value.VDict?
  {
  }

  lemma ResultComesBack<S>(cfg: Config<S>, a: ActorState<S>, result: Value)
    ensures AddedReply(cfg, a, result).Returned? && Field(AddedReply(cfg, a, result).value, "result") == result
  {
    hide SnapshotDict;
    FindAt(AddedReply(cfg, a, result).value.entries, 1, "result");
  }

  lemma AddFollows<S(!new)>(
    cfg: Config<S>, w: Worker, f: Facade, a: ActorState<S>, l: Local<S>, op: Operation, token: string)
    requires Matches(w, f, a, l) && (op.AddOp? || op.PublishOp? || op.DonateOp?)
    ensures Follows(cfg, w, f, a, l, op, token)
  {
    hide AddedReply;
    hide Field;
    hide Take;
    var d := Decide(w.id, f, op);
    if d.Sends? {
      var added := cfg.store.add(a.domains, op.payload);
      if added.Returns? {
        ResultComesBack(cfg, Execute(cfg, a, d.cmd, token).0, added.value);
      }
      assert a.checkouts - {w.id} == map[];
    }
  }

  lemma OthersFollow<S(!new)>(
    cfg: Config<S>, w: Worker, f: Facade, a: ActorState<S>, l: Local<S>, op: Operation, token: string)
    requires Matches(w, f, a, l) && (op.CompleteOp? || op.SortOp?)
    ensures Follows(cfg, w, f, a, l, op, token)
  {
    hide SnapshotDict;
    assert a.checkouts - {w.id} == map[];
  }

  lemma SnapshotFollows<S(!new)>(
    cfg: Config<S>, w: Worker, f: Facade, a: ActorState<S>, l: Local<S>, op: Operation, token: string)
    requires Ready(cfg, w) && Matches(w, f, a, l) && op.SnapshotOp?
    ensures Follows(cfg, w, f, a, l, op, token)
  {
    hide SnapshotToDict;
    hide SnapshotFromDict;
    assert |a.checkouts| == if l.checkout.Some? then 1 else 0;
    ReportedSnapshotAccepted(cfg.store, cfg.jobId, a);
  }

  lemma StepFollows<S(!new)>(
    cfg: Config<S>, w: Worker, f: Facade, a: ActorState<S>, l: Local<S>, op: Operation, token: string)
    requires Ready(cfg, w) && Matches(w, f, a, l) && InProgram(op)
    ensures Follows(cfg, w, f, a, l, op, token)
  {
    hide Ready;
    hide Matches;
    hide Follows;
    match op
    case PickOp(_) => PickFollows(cfg, w, f, a, l, op, token);
    case AddOp(_) => AddFollows(cfg, w, f, a, l, op, token);
    case PublishOp(_, _) => AddFollows(cfg, w, f, a, l, op, token);
    case DonateOp(_) => AddFollows(cfg, w, f, a, l, op, token);
    case CompleteOp(_) => OthersFollow(cfg, w, f, a, l, op, token);
    case SortOp => OthersFollow(cfg, w, f, a, l, op, token);
    case SnapshotOp => SnapshotFollows(cfg, w, f, a, l, op, token);
  }

  // ---------- Leaving ----------

  lemma StateComesBack<S>(cfg: Config<S>, a: ActorState<S>)
    requires cfg.jobId != ""
    ensures OkReply(cfg, a).Returned?
    ensures SnapshotFromDict(Field(OkReply(cfg, a).value, "state"))
              == Some(Snapshot(cfg.jobId, a.version, StateOf(cfg.store, a)))
  {
    hide SnapshotToDict;
    hide SnapshotFromDict;
    FindAt(OkReply(cfg, a).value.entries, 1, "state");
    ReportedSnapshotAccepted(cfg.store, cfg.jobId, a);
  }

  /** An open facade of a registered worker that closes, or reports its worker
      as failed, takes it out, with a checkout as a failure. Closing keeps what
      the facade knows; reporting forgets registration and checkout and gives
      the actor's state. */
  lemma LeavingFollows<S>(
    cfg: Config<S>, w: Worker, f: Facade, a: ActorState<S>, reason: string, token: string)
    requires f.registered && !f.closed && w.id in a.workers && cfg.jobId != ""
    ensures Step(cfg, w, f, a, CloseOp, Answered, token)
              == (f.(closed := true), Departed(a, w.id, InputClosedWithCheckout), Gives(VNone))
    ensures var a' := Departed(a, w.id, InputWorkerFailed(w.id, reason));
            Step(cfg, w, f, a, WorkerFailedOp(reason), Answered, token)
              == (Facade(None, false, false), a',
                  Gives(SnapshotToDict(Snapshot(cfg.jobId, a'.version, StateOf(cfg.store, a')))))
  {
    hide OkReply;
    hide SnapshotDict;
    hide StateOf;
    hide Field;
    hide SnapshotToDict;
    hide SnapshotFromDict;
    StateComesBack(cfg, Departed(a, w.id, InputClosedWithCheckout));
    StateComesBack(cfg, Departed(a, w.id, InputWorkerFailed(w.id, reason)));
  }

  // ---------- Whole programs ----------

  datatype Instruction = Instruction(op: Operation, token: string)

  function RunAnswered<S>(cfg: Config<S>, w: Worker, f: Facade, a: ActorState<S>, program: seq<Instruction>)
    : (Facade, ActorState<S>, seq<Answer>)
    decreases |program|
  {
    if program == [] then (f, a, [])
    else
      var (f1, a1, answer) := Step(cfg, w, f, a, program[0].op, Answered, program[0].token);
      var (f2, a2, answers) := RunAnswered(cfg, w, f1, a1, program[1..]);
      (f2, a2, [answer] + answers)
  }

  function RunLocal<S>(cfg: Config<S>, l: Local<S>, program: seq<Instruction>): (Local<S>, seq<Answer>)
    requires forall x | x in program :: InProgram(x.op)
    decreases |program|
  {
    if program == [] then (l, [])
    else
      var (l1, answer) := LocalStep(cfg, l, program[0].op, program[0].token);
      var (l2, answers) := RunLocal(cfg, l1, program[1..]);
      (l2, [answer] + answers)
  }

  lemma {:induction false} RunMatches<S(!new)>(
    cfg: Config<S>, w: Worker, f: Facade, a: ActorState<S>, l: Local<S>, program: seq<Instruction>)
    requires Ready(cfg, w) && Matches(w, f, a, l) && forall x | x in program :: InProgram(x.op)
    ensures var (f', a', answers) := RunAnswered(cfg, w, f, a, program);
            var (l', expected) := RunLocal(cfg, l, program);
            answers == expected && Matches(w, f', a', l')
    decreases |program|
  {
    hide Ready;
    hide Matches;
    hide Step;
    hide LocalStep;
    hide InProgram;
    if program != [] {
      assert program[0] in program;
      var (f1, a1, answer) := Step(cfg, w, f, a, program[0].op, Answered, program[0].token);
      StepFollows(cfg, w, f, a, l, program[0].op, program[0].token);
      RunMatches(cfg, w, f1, a1, LocalStep(cfg, l, program[0].op, program[0].token).0, program[1..]);
    }
  }

  /** Any finite program of picks, adds, publishes, donations, completions, sorts
      and snapshots, run by one registered worker with every call answered,
      gives the answers it gives on the storage itself, and leaves the same
      storage, batch on hand and failure. */
  lemma SharedListIsLocalList<S(!new)>(cfg: Config<S>, w: Worker, domains: S, program: seq<Instruction>)
    requires Ready(cfg, w) && w.id != "" && forall x | x in program :: InProgram(x.op)
    ensures var a := Execute(cfg, Initial(domains), Register(VStr(w.id), VStr(cfg.jobId)), "").0;
            var (f', a', answers) := RunAnswered(cfg, w, Facade(None, true, false), a, program);
            var (l', expected) := RunLocal(cfg, Local(domains, None, None, 1), program);
            && answers == expected && a'.domains == l'.domains && f'.checkout == l'.checkout
            && (a'.Failed() <==> l'.failure.Some?)
  {
    hide Ready;
    hide RunAnswered;
    hide RunLocal;
    var a := Execute(cfg, Initial(domains), Register(VStr(w.id), VStr(cfg.jobId)), "").0;
    RunMatches(cfg, w, Facade(None, true, false), a, Local(domains, None, None, 1), program);
  }

  // ---------- On the wire ----------

  /** What a program sends. */
  predicate Carried(cmd: Command) {
    cmd.PickOutBatch? || cmd.Publish? || cmd.Donate? || cmd.Complete? || cmd.Sort? || cmd.GetSnapshot?
  }

  /** A payload stands for the positional and keyword arguments together. */
  function RequestValue(cmd: Command): Value
    requires Carried(cmd)
  {
    match cmd
    case PickOutBatch(worker, size) => VTuple([VStr("pick_out_batch"), worker, size])
    case Publish(worker, checkout, payload) => VTuple([VStr("publish"), worker, checkout, payload])
    case Donate(worker, payload) => VTuple([VStr("donate"), worker, payload])
    case Complete(worker, checkout) => VTuple([VStr("complete"), worker, checkout])
    case Sort => VTuple([VStr("sort")])
    case GetSnapshot => VTuple([VStr("snapshot")])
  }

  function ParseRequest(v: Value): Option<Command> {
    if !v.VTuple? then None
    else
      var xs := v.items;
      if |xs| == 3 && xs[0] == VStr("pick_out_batch") then Some(PickOutBatch(xs[1], xs[2]))
      else if |xs| == 4 && xs[0] == VStr("publish") then Some(Publish(xs[1], xs[2], xs[3]))
      else if |xs| == 3 && xs[0] == VStr("donate") then Some(Donate(xs[1], xs[2]))
      else if |xs| == 3 && xs[0] == VStr("complete") then Some(Complete(xs[1], xs[2]))
      else if |xs| == 1 && xs[0] == VStr("sort") then Some(Sort)
      else if |xs| == 1 && xs[0] == VStr("snapshot") then Some(GetSnapshot)
      else None
  }

  /** One call with request and reply encoded, framed, unframed and decoded. What
      cannot travel is an exception. */
  function RemoteStep<S>(cfg: Config<S>, w: Worker, f: Facade, a: ActorState<S>, op: Operation, token: string)
    : (Facade, ActorState<S>, Answer)
    requires InProgram(op)
  {
    match Decide(w.id, f, op)
    case Finished(f', answer) => (f', a, answer)
    case Sends(cmd) =>
      var sent := Carry(w.codec, RequestValue(cmd));
      var request := if sent.None? then None else ParseRequest(sent.value);
      if request.None? then (Miss(f, op).0, a, Miss(f, op).1)
      else
        var (a', reply) := Execute(cfg, a, request.value, token);
        if reply.Raised? then (Hear(w, f, op, reply).0, a', Hear(w, f, op, reply).1)
        else
          var received := Carry(w.codec, reply.value);
          if received.None? then (Miss(f, op).0, a', Miss(f, op).1)
          else
            var (f', answer) := Hear(w, f, op, Returned(received.value));
            (f', a', answer)
  }

  ghost predicate Wired<S(!new)>(cfg: Config<S>, w: Worker) {
    && w.codec.Consistent() && w.codec.platform.RoundTrips() && Ready(cfg, w)
    && forall s: S, p: Value | cfg.store.add(s, p).Returns? :: Faithful(w.codec, cfg.store.add(s, p).value)
  }

  ghost predicate ArgumentsTravel(c: Codec, op: Operation) {
    match op
    case PickOp(size) => Faithful(c, size)
    case AddOp(payload) => Faithful(c, payload)
    case PublishOp(_, payload) => Faithful(c, payload)
    case DonateOp(payload) => Faithful(c, payload)
    case _ => true
  }

  /** How the codec's limits let a call fare: what cannot be encoded is lost. */
  ghost function Fate<S>(cfg: Config<S>, w: Worker, a: ActorState<S>, cmd: Command, token: string): Delivery
    requires Carried(cmd)
  {
    var reply := Execute(cfg, a, cmd, token).1;
    if Dumps(w.codec, TreeHeap(), RequestValue(cmd)).None? then RequestLost
    else if reply.Returned? && Dumps(w.codec, TreeHeap(), reply.value).None? then ReplyLost
    else Answered
  }

  lemma SentTravels(c: Codec, w: string, f: Facade, op: Operation)
    requires InProgram(op) && ArgumentsTravel(c, op) && Decide(w, f, op).Sends?
    ensures var cmd := Decide(w, f, op).cmd;
            Carried(cmd) && Faithful(c, RequestValue(cmd)) && ParseRequest(RequestValue(cmd)) == Some(cmd)
  {
  }

  lemma SnapshotTravels<S>(cfg: Config<S>, c: Codec, s: ActorState<S>)
    ensures Faithful(c, SnapshotDict(cfg, s))
  {
    hide SnapshotToDict;
    hide ToDict;
    StateTravels(c, Snapshot(cfg.jobId, s.version, StateOf(cfg.store, s)));
  }

  lemma OkTravels<S>(cfg: Config<S>, c: Codec, s: ActorState<S>)
    ensures OkReply(cfg, s).Returned? && Faithful(c, OkReply(cfg, s).value)
    ensures EmptyReply(cfg, s).Returned? && Faithful(c, EmptyReply(cfg, s).value)
  {
    hide SnapshotDict;
    SnapshotTravels(cfg, c, s);
    RecordTravels(c, OkReply(cfg, s).value.entries);
    RecordTravels(c, EmptyReply(cfg, s).value.entries);
  }

  lemma DataTravels<S>(cfg: Config<S>, c: Codec, s: ActorState<S>, v: Value, token: string)
    requires Faithful(c, v)
    ensures DataReply(cfg, s, v, token).Returned? && Faithful(c, DataReply(cfg, s, v, token).value)
  {
    hide SnapshotDict;
    SnapshotTravels(cfg, c, s);
    RecordTravels(c, DataReply(cfg, s, v, token).value.entries);
  }

  lemma AddedTravels<S>(cfg: Config<S>, c: Codec, s: ActorState<S>, v: Value)
    requires Faithful(c, v)
    ensures AddedReply(cfg, s, v).Returned? && Faithful(c, AddedReply(cfg, s, v).value)
  {
    hide SnapshotDict;
    SnapshotTravels(cfg, c, s);
    RecordTravels(c, AddedReply(cfg, s, v).value.entries);
  }

  lemma ReturnedTravels<S(!new)>(cfg: Config<S>, w: Worker, a: ActorState<S>, cmd: Command, token: string)
    requires Wired(cfg, w) && Carried(cmd) && Execute(cfg, a, cmd, token).1.Returned?
    ensures Faithful(w.codec, Execute(cfg, a, cmd, token).1.value)
  {
    hide OkReply;
    hide EmptyReply;
    hide DataReply;
    hide AddedReply;
    hide SnapshotDict;
    hide Faithful;
    var a' := Execute(cfg, a, cmd, token).0;
    SnapshotTravels(cfg, w.codec, a');
    OkTravels(cfg, w.codec, a');
    if cmd.PickOutBatch? && cfg.store.length(a.domains) != 0 {
      var n := cfg.store.length(a.domains);
      var picked := cfg.store.pickOut(a.domains, if cmd.size.i < n then cmd.size.i else n);
      DataTravels(cfg, w.codec, a', picked.value, token);
    } else if cmd.Publish? || cmd.Donate? {
      AddedTravels(cfg, w.codec, a', cfg.store.add(a.domains, cmd.payload).value);
    } else if cmd.Sort? {
      StatusTravels(w.codec);
    }
  }

  lemma StatusTravels(c: Codec)
    ensures Faithful(c, VDict([Entry(VStr("status"), VStr("ok"))]))
  {
    RecordTravels(c, [Entry(VStr("status"), VStr("ok"))]);
  }

  lemma WiredCodec<S(!new)>(cfg: Config<S>, w: Worker)
    requires Wired(cfg, w)
    ensures w.codec.Consistent() && w.codec.platform.RoundTrips() && Ready(cfg, w)
  {
  }

  /** Over codec and frame, whatever their limits, a call is a call on the actor
      itself that is answered, or that loses its request, or its reply, exactly
      when that message cannot be encoded. */
  lemma RemoteIsDelivered<S(!new)>(
    cfg: Config<S>, w: Worker, f: Facade, a: ActorState<S>, op: Operation, token: string)
    requires Wired(cfg, w) && InProgram(op) && ArgumentsTravel(w.codec, op)
    ensures var d := Decide(w.id, f, op);
            && (d.Sends? ==> Carried(d.cmd))
            && RemoteStep(cfg, w, f, a, op, token)
               == Step(cfg, w, f, a, op, if d.Sends? then Fate(cfg, w, a, d.cmd, token) else Answered, token)
  {
    hide Execute;
    hide Hear;
    hide RequestValue;
    hide ParseRequest;
    hide Carry;
    hide Dumps;
    hide Wired;
    hide Faithful;
    WiredCodec(cfg, w);
    var d := Decide(w.id, f, op);
    if d.Sends? {
      SentTravels(w.codec, w.id, f, op);
      CarryIdentity(w.codec, RequestValue(d.cmd));
      var reply := Execute(cfg, a, d.cmd, token).1;
      if reply.Returned? {
        ReturnedTravels(cfg, w, a, d.cmd, token);
        CarryIdentity(w.codec, reply.value);
      }
    }
  }
}
