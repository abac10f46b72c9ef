/** The shared actor told by outcome instead of by operation: which calls are
    taken, which fail the actor and why, what becomes of the storage and of the
    set of workers, and what a read shows. */
module BatchedOutcomes {
  import opened Results
  import opened Values
  import opened Stores
  import opened SharedStates
  import opened ActorStates
  import opened BatchedActor

  // ---------- What the storage is asked ----------

  /** A pick that reaches the storage asks for no more than is pending. */
  function Picked<S>(cfg: Config<S>, s: ActorState<S>, size: Value): Option<Outcome<S, Value>> {
    var pending := cfg.store.length(s.domains);
    if size.VInt? && size.i > 0 && pending > 0 then
      Some(cfg.store.pickOut(s.domains, if size.i <= pending then size.i else pending))
    else None
  }

  /** Domains reach the storage only after they were found valid. */
  function Added<S>(cfg: Config<S>, domains: S, bounds: Value, data: Value, flag: Value): Option<Outcome<S, Value>> {
    if flag.VBool? && cfg.validateAdd(bounds, data) then Some(cfg.store.add(domains, VTuple([bounds, data, flag])))
    else None
  }

  /** The outcome of the call on the storage, if the call gets that far. */
  function OnStorage<S>(cfg: Config<S>, s: ActorState<S>, cmd: Command): Option<Outcome<S, Value>> {
    if s.Failed() then None
    else
      match cmd
      case PickOut(w, size) => if Known(s, w) && !Holding(s, w) then Picked(cfg, s, size) else None
      case Add(w, bounds, data, flag) => if Known(s, w) then Added(cfg, s.domains, bounds, data, flag) else None
      case Publish(w, checkout, bounds, data, flag) =>
        if Known(s, w) && Holding(s, w) && checkout == VStr(s.checkouts[w.s]) then
          Added(cfg, s.domains, bounds, data, flag)
        else None
      case Donate(w, bounds, data, flag) =>
        if Known(s, w) && !Holding(s, w) then Added(cfg, s.domains, bounds, data, flag) else None
      case Sort =>
        (match cfg.store.sort(s.domains)
         case Returns(next, _) => Some(Returns(next, VNone))
         case Raises(next, exn) => Some(Raises(next, exn)))
      case _ => None
  }

  // ---------- What becomes of the state ----------

  /** The storage is what its own operation left, and otherwise untouched. */
  lemma StorageExactly<S>(cfg: Config<S>, s: ActorState<S>, cmd: Command, token: string)
    ensures var outcome := OnStorage(cfg, s, cmd);
            Execute(cfg, s, cmd, token).0.domains == if outcome.Some? then outcome.value.next else s.domains
  {
    hide StateDict;
    hide SnapshotDict;
    hide GetItemReply;
  }

  /** The calls that return. */
  predicate Accepted<S>(cfg: Config<S>, s: ActorState<S>, cmd: Command) {
    match cmd
    case Register(w, job) => !s.Failed() && w.VStr? && w.s != "" && job == VStr(cfg.jobId)
    case PickOut(w, size) =>
      && !s.Failed() && Known(s, w) && !Holding(s, w) && size.VInt? && size.i > 0
      && (cfg.store.length(s.domains) == 0 || Succeeds(Picked(cfg, s, size)))
    case Add(_, _, _, _) => Succeeds(OnStorage(cfg, s, cmd))
    case Publish(_, _, _, _, _) => Succeeds(OnStorage(cfg, s, cmd))
    case Donate(_, _, _, _) => Succeeds(OnStorage(cfg, s, cmd))
    case Complete(w, checkout) => Completes(s, w, checkout)
    case CompletePruned(w, checkout) => Completes(s, w, checkout)
    case CloseWorker(w) => Known(s, w)
    case WorkerFailed(w, _) => Hashable(w)
    case Fail(_) => true
    case GetState => true
    case GetSnapshot => true
    case Sort => Succeeds(OnStorage(cfg, s, cmd))
    case GetItem(index, version) => Readable(cfg, s, index, version)
  }

  predicate Completes<S>(s: ActorState<S>, worker: Value, checkout: Value) {
    && !s.Failed() && Known(s, worker) && Holding(s, worker)
    && (checkout.VNone? || checkout == VStr(s.checkouts[worker.s]))
  }

  /** Why a call on a running actor fails it, if it does. */
  function Blame<S>(cfg: Config<S>, s: ActorState<S>, cmd: Command): Option<Reason> {
    match cmd
    case PickOut(w, size) =>
      if !Known(s, w) then None
      else if !size.VInt? || size.i <= 0 then Some(BadBatchSize)
      else if Holding(s, w) then Some(SecondPick)
      else if cfg.store.length(s.domains) == 0 || Succeeds(Picked(cfg, s, size)) then None
      else Some(PickRaised)
    case Add(w, bounds, data, flag) => if Known(s, w) then AddBlame(cfg, s, bounds, data, flag) else None
    case Donate(w, bounds, data, flag) =>
      if Known(s, w) && !Holding(s, w) then AddBlame(cfg, s, bounds, data, flag) else None
    case Publish(w, checkout, bounds, data, flag) =>
      if Known(s, w) && Holding(s, w) && checkout == VStr(s.checkouts[w.s]) && flag.VBool? then
        AddBlame(cfg, s, bounds, data, flag)
      else None
    case Complete(w, _) => if Known(s, w) && !Holding(s, w) then Some(NoActivePick) else None
    case CompletePruned(w, _) => if Known(s, w) && !Holding(s, w) then Some(NoActivePick) else None
    case CloseWorker(w) => if Known(s, w) && Holding(s, w) then Some(ClosedWithCheckout) else None
    case WorkerFailed(w, cause) => if Holding(s, w) then Some(WorkerFailedWithCheckout(w.s, cause)) else None
    case Fail(cause) => Some(Declared(cause))
    case Sort =>
      (match cfg.store.sort(s.domains)
       case Returns(_, _) => None
       case Raises(_, exn) => Some(SortRaised(exn)))
    case _ => None
  }

  function AddBlame<S>(cfg: Config<S>, s: ActorState<S>, bounds: Value, data: Value, flag: Value): Option<Reason> {
    if !flag.VBool? then Some(BadFlag)
    else if Succeeds(Added(cfg, s.domains, bounds, data, flag)) then None
    else Some(AddRaised)
  }

  /** Exactly which calls fail the actor, and with what reason; a reason once
      recorded is never replaced. */
  lemma FailsExactly<S>(cfg: Config<S>, s: ActorState<S>, cmd: Command, token: string)
    ensures Execute(cfg, s, cmd, token).0.failure == if s.Failed() then s.failure else Blame(cfg, s, cmd)
  {
    hide StateDict;
    hide SnapshotDict;
    hide GetItemReply;
  }

  /** Exactly who is registered after a call: workers enter by an accepted
      registration and leave by closing or by being reported, whether or not the
      actor has failed. */
  lemma WorkersExactly<S>(cfg: Config<S>, s: ActorState<S>, cmd: Command, token: string)
    ensures forall x ::
              x in Execute(cfg, s, cmd, token).0.workers <==>
                (x in s.workers && !Leaves(cmd, x)) || (cmd.Register? && Accepted(cfg, s, cmd) && x == cmd.worker.s)
  {
    hide StateDict;
    hide SnapshotDict;
    hide GetItemReply;
    hide StoreAdd;
  }

  predicate Leaves(cmd: Command, x: string) {
    (cmd.CloseWorker? || cmd.WorkerFailed?) && cmd.worker == VStr(x)
  }

  // ---------- Reads ----------

  /** The element Python finds at an index, counting back from the end. */
  function DomainAt<S>(store: Store<S>, domains: S, index: int): Option<Value> {
    var n := store.length(domains);
    if 0 <= index < n then store.item(domains, index)
    else if index < 0 && 0 <= index + n then store.item(domains, index + n)
    else None
  }

  /** What a domain shows under a name: the entry of a dictionary or the
      attribute of an instance. */
  function Shown(domain: Value, name: string): Option<Value> {
    match domain
    case VDict(es) => Find(es, name)
    case VCustom(_, VDict(es)) => Find(es, name)
    case _ => None
  }

  predicate RecordName(name: string) {
    || name == "lower_bound" || name == "upper_bound" || name == "threshold"
    || name == "history" || name == "split_history" || name == "depth"
  }

  /** The index exists, the domain there is a record, and the version is absent
      or the current one. */
  predicate Readable<S>(cfg: Config<S>, s: ActorState<S>, index: Value, version: Value) {
    && !s.Failed() && index.VInt?
    && (version.VNone? || Number(version) == Some(s.version as real))
    && var domain := DomainAt(cfg.store, s.domains, index.i);
       && domain.Some?
       && Shown(domain.value, "lower_bound").Some? && Shown(domain.value, "upper_bound").Some?
       && Shown(domain.value, "threshold").Some? && Shown(domain.value, "history").Some?
       && Shown(domain.value, "split_history").Some? && Shown(domain.value, "depth").Some?
  }

  /** The record has the six names, and under each what the domain shows. */
  ghost predicate Describes(record: Value, domain: Value) {
    && record.VDict?
    && forall name :: Find(record.entries, name) == if RecordName(name) then Shown(domain, name) else None
  }

  ghost predicate Reads<S>(cfg: Config<S>, s: ActorState<S>, index: Value, reply: Reply) {
    && index.VInt? && reply.Returned?
    && var domain := DomainAt(cfg.store, s.domains, index.i);
       && domain.Some? && Describes(Field(reply.value, "record"), domain.value)
       && Field(reply.value, "version") == VInt(s.version)
  }

  lemma RecordExactly(domain: Value)
    ensures RecordOf(domain).Some? <==>
              && Shown(domain, "lower_bound").Some? && Shown(domain, "upper_bound").Some?
              && Shown(domain, "threshold").Some? && Shown(domain, "history").Some?
              && Shown(domain, "split_history").Some? && Shown(domain, "depth").Some?
    ensures RecordOf(domain).Some? ==> Describes(RecordOf(domain).value, domain)
  {
    var names, es := RECORD_FIELDS, Attributes(domain);
    forall name
      ensures Shown(domain, name) == Find(es, name)
    {
    }
    assert names[0] == "lower_bound" && names[1] == "upper_bound" && names[2] == "threshold"
      && names[3] == "history" && names[4] == "split_history" && names[5] == "depth";
    if RecordOf(domain).Some? {
      var record := RecordOf(domain).value;
      forall name
        ensures Find(record.entries, name) == if RecordName(name) then Shown(domain, name) else None
      {
        FindRecord(domain, name);
      }
    }
  }

  lemma FindRecord(domain: Value, name: string)
    requires RecordOf(domain).Some?
    ensures Find(RecordOf(domain).value.entries, name)
              == if RecordName(name) then Find(Attributes(domain), name) else None
  {
    var es := RecordOf(domain).value.entries;
    RecordFieldsDiffer();
    if RecordName(name) {
      assert name in RECORD_FIELDS;
      var i :| 0 <= i < |RECORD_FIELDS| && RECORD_FIELDS[i] == name;
      FindAt(es, i, name);
    } else if Find(es, name).Some? {
      var i := FoundAt(es, name);
      assert false;
    }
  }

  lemma CurrentVersion(version: Value, current: nat)
    ensures SameKey(version, VInt(current)) <==> Number(version) == Some(current as real)
  {
  }

  lemma PositionExactly<S>(store: Store<S>, domains: S, index: int)
    ensures var i := Position(index, store.length(domains));
            DomainAt(store, domains, index) == if i.Some? then store.item(domains, i.value) else None
  {
  }

  lemma RecordReplyReads<S>(s: ActorState<S>, record: Value)
    ensures var reply := RecordReply(s, record);
            && reply.Returned? && Field(reply.value, "record") == record
            && Field(reply.value, "version") == VInt(s.version)
  {
    FindAt(RecordReply(s, record).value.entries, 0, "record");
    FindAt(RecordReply(s, record).value.entries, 1, "version");
  }

  /** A read shows the domain at its index and changes nothing. It is taken
      exactly when the actor runs, the index exists, the version is absent or
      current, and the domain there has all six attributes. */
  lemma ReadsExactly<S>(cfg: Config<S>, s: ActorState<S>, index: Value, version: Value, token: string)
    ensures var (s', reply) := Execute(cfg, s, GetItem(index, version), token);
            && s' == s
            && (reply.Returned? <==> Readable(cfg, s, index, version))
            && (reply.Returned? ==> Reads(cfg, s, index, reply))
  {
    hide RecordOf;
    hide Describes;
    hide Shown;
    hide SameKey;
    hide Number;
    hide DomainAt;
    hide Position;
    hide RecordReply;
    hide Field;
    CurrentVersion(version, s.version);
    if index.VInt? {
      PositionExactly(cfg.store, s.domains, index.i);
      var domain := DomainAt(cfg.store, s.domains, index.i);
      if domain.Some? {
        RecordExactly(domain.value);
        if RecordOf(domain.value).Some? {
          RecordReplyReads(s, RecordOf(domain.value).value);
        }
      }
    }
  }

  // ---------- Which calls are taken ----------

  /** The error of a call that raises. */
  function Complaint<S>(cfg: Config<S>, s: ActorState<S>, cmd: Command): ActorError {
    if s.Failed() && NeedsRunning(cmd) then ActorFailed
    else if cmd.WorkerFailed? then TypeFault
    else if cmd.GetItem? then
      if !cmd.index.VInt? || !(cmd.version.VNone? || Number(cmd.version) == Some(s.version as real)) then InvalidState
      else
        var n := cfg.store.length(s.domains);
        if n <= cmd.index.i || cmd.index.i + n < 0 then OutOfRange else StorageFault
    else
      var blame := Blame(cfg, s, cmd);
      if blame.Some? && (blame.value.PickRaised? || blame.value.AddRaised? || blame.value.SortRaised?) then
        DomainOperation
      else InvalidState
  }

  /** Exactly which calls return, and with what error the others raise. */
  lemma AcceptsExactly<S>(cfg: Config<S>, s: ActorState<S>, cmd: Command, token: string)
    ensures var reply := Execute(cfg, s, cmd, token).1;
            && (reply.Returned? <==> Accepted(cfg, s, cmd))
            && (reply.Raised? ==> reply.error == Complaint(cfg, s, cmd))
  {
    hide StateDict;
    hide SnapshotDict;
    hide Readable;
    hide SameKey;
    hide Number;
    if cmd.GetItem? {
      ReadsExactly(cfg, s, cmd.index, cmd.version, token);
      CurrentVersion(cmd.version, s.version);
    }
    hide RecordAt;
  }

  /** Checkouts open by an accepted pick that found something, under its token,
      and end by an accepted add, publish or completion of their worker. */
  lemma CheckoutsExactly<S>(cfg: Config<S>, s: ActorState<S>, cmd: Command, token: string)
    ensures Execute(cfg, s, cmd, token).0.checkouts
              == if !Accepted(cfg, s, cmd) then s.checkouts
                 else if cmd.PickOut? && cfg.store.length(s.domains) > 0 then s.checkouts[cmd.worker.s := token]
                 else if cmd.Add? || cmd.Publish? || cmd.Complete? || cmd.CompletePruned? then
                   s.checkouts - {cmd.worker.s}
                 else s.checkouts
  {
    hide StateDict;
    hide SnapshotDict;
    hide Readable;
    hide GetItemReply;
  }

  /** The calls that count as a change: the accepted ones, except reads, a
      registration of a worker already there, an empty pick, and a failure
      declared again; and a publish or sort whose storage raised. */
  predicate Counts<S>(cfg: Config<S>, s: ActorState<S>, cmd: Command) {
    match cmd
    case Register(w, _) => Accepted(cfg, s, cmd) && !Known(s, w)
    case PickOut(_, _) => Accepted(cfg, s, cmd) && cfg.store.length(s.domains) > 0
    case Publish(_, _, _, _, _) => Accepted(cfg, s, cmd) || (!s.Failed() && Blame(cfg, s, cmd).Some?)
    case Fail(_) => !s.Failed()
    case Sort => !s.Failed()
    case GetState => false
    case GetSnapshot => false
    case GetItem(_, _) => false
    case _ => Accepted(cfg, s, cmd)
  }

  /** The version is the number of changes. */
  lemma VersionExactly<S>(cfg: Config<S>, s: ActorState<S>, cmd: Command, token: string)
    ensures Execute(cfg, s, cmd, token).0.version == s.version + if Counts(cfg, s, cmd) then 1 else 0
  {
    hide StateDict;
    hide SnapshotDict;
    hide Readable;
    hide GetItemReply;
  }

  predicate NeedsRunning(cmd: Command) {
    !(cmd.CloseWorker? || cmd.WorkerFailed? || cmd.Fail? || cmd.GetState? || cmd.GetSnapshot?)
  }

  // ---------- Leaving ----------

  /** A registered worker that closes is gone, and gone alone; if it still had
      a checkout, the actor has failed for that reason. Anyone else who closes
      is refused. */
  lemma ClosingExactly<S>(cfg: Config<S>, s: ActorState<S>, worker: string, token: string)
    ensures var (s', reply) := Execute(cfg, s, CloseWorker(VStr(worker)), token);
            if worker !in s.workers then s' == s && reply.Raised?
            else
              && reply.Returned? && s' == Departed(s, worker, ClosedWithCheckout)
              && (s'.Failed() <==> s.Failed() || worker in s.checkouts)
  {
    hide StateDict;
  }

  /** The same for a worker reported as failed, registered or not. */
  lemma ReportingExactly<S>(cfg: Config<S>, s: ActorState<S>, worker: string, cause: string, token: string)
    ensures var (s', reply) := Execute(cfg, s, WorkerFailed(VStr(worker), cause), token);
            && reply.Returned? && s' == Departed(s, worker, WorkerFailedWithCheckout(worker, cause))
            && (s'.Failed() <==> s.Failed() || worker in s.checkouts)
  {
    hide StateDict;
  }

  /** The reply to a worker that closes with a checkout says so. */
  lemma ClosingReported<S>(cfg: Config<S>, s: ActorState<S>, worker: string, token: string)
    requires !s.Failed() && worker in s.workers && worker in s.checkouts
    ensures var reply := Execute(cfg, s, CloseWorker(VStr(worker)), token).1;
            && reply.Returned?
            && var state := FromDict(Field(reply.value, "state"));
               && state.Some? && state.value.failed && !state.value.idle
               && state.value.reason == Some("InvalidStateError: worker closed with checked-out shared work")
  {
    hide ToDict;
    hide FromDict;
    hide Field;
    hide OkReply;
    var s' := Execute(cfg, s, CloseWorker(VStr(worker)), token).0;
    ReportedStateAccepted(cfg.store, s');
    OkReports(cfg, s');
  }

  lemma OkReports<S>(cfg: Config<S>, s: ActorState<S>)
    ensures OkReply(cfg, s).Returned? && Field(OkReply(cfg, s).value, "state") == ToDict(StateOf(cfg.store, s))
  {
    hide ToDict;
    hide StateOf;
    FindAt(OkReply(cfg, s).value.entries, 1, "state");
  }
}
