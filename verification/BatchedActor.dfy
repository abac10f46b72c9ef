/** The shared domain-list actor: each operation as a function on its state,
    and the actor itself, whose methods compute those functions in place. */
module BatchedActor {
  import opened Results
  import opened Values
  import opened Stores
  import opened SharedStates
  import opened ActorStates

  datatype Config<!S> = Config(store: Store<S>, jobId: string, validateAdd: (Value, Value) -> bool)

  /** A remote invocation; arguments are whatever the caller sent. */
  datatype Command =
    | Register(worker: Value, job: Value)
    | PickOut(worker: Value, size: Value)
    | Add(worker: Value, bounds: Value, data: Value, flag: Value)
    | Publish(worker: Value, checkout: Value, bounds: Value, data: Value, flag: Value)
    | Donate(worker: Value, bounds: Value, data: Value, flag: Value)
    | Complete(worker: Value, checkout: Value)
    | CompletePruned(worker: Value, checkout: Value)
    | CloseWorker(worker: Value)
    | WorkerFailed(worker: Value, reason: string)
    | Fail(reason: string)
    | GetState
    | GetSnapshot
    | Sort
    | GetItem(index: Value, version: Value)

  // ---------- Replies ----------

  function StateDict<S>(cfg: Config<S>, s: ActorState<S>): Value {
    ToDict(StateOf(cfg.store, s))
  }

  function SnapshotDict<S>(cfg: Config<S>, s: ActorState<S>): Value {
    SnapshotToDict(Snapshot(cfg.jobId, s.version, StateOf(cfg.store, s)))
  }

  function OkReply<S>(cfg: Config<S>, s: ActorState<S>): Reply {
    Returned(VDict([Entry(VStr("status"), VStr("ok")), Entry(VStr("state"), StateDict(cfg, s))]))
  }

  function EmptyReply<S>(cfg: Config<S>, s: ActorState<S>): Reply {
    Returned(VDict([Entry(VStr("status"), VStr("empty")), Entry(VStr("domains"), VNone),
                    Entry(VStr("state"), StateDict(cfg, s))]))
  }

  function DataReply<S>(cfg: Config<S>, s: ActorState<S>, domains: Value, token: string): Reply {
    Returned(VDict([Entry(VStr("status"), VStr("data")), Entry(VStr("domains"), domains),
                    Entry(VStr("checkout"), VStr(token)), Entry(VStr("state"), StateDict(cfg, s))]))
  }

  function AddedReply<S>(cfg: Config<S>, s: ActorState<S>, globalLb: Value): Reply {
    Returned(VDict([Entry(VStr("status"), VStr("ok")), Entry(VStr("global_lb"), globalLb),
                    Entry(VStr("state"), StateDict(cfg, s))]))
  }

  function SortedReply<S>(cfg: Config<S>, s: ActorState<S>): Reply {
    Returned(VDict([Entry(VStr("status"), VStr("ok")), Entry(VStr("snapshot"), SnapshotDict(cfg, s))]))
  }

  function RecordReply<S>(s: ActorState<S>, record: Value): Reply {
    Returned(VDict([Entry(VStr("record"), record), Entry(VStr("version"), VInt(s.version))]))
  }

  // ---------- Operations ----------

  function Initial<S>(domains: S): ActorState<S> {
    ActorState(domains, {}, map[], None, 0)
  }

  /** The first reason recorded is the one kept. */
  function RecordFailure<S>(s: ActorState<S>, reason: Reason): ActorState<S> {
    if s.Failed() then s else s.(failure := Some(reason))
  }

  predicate Registered<S>(s: ActorState<S>, worker: Value) {
    worker.VStr? && worker.s in s.workers
  }

  function RegisterStep<S>(cfg: Config<S>, s: ActorState<S>, worker: Value, job: Value): (ActorState<S>, Reply) {
    if s.Failed() then (s, Raised(ActorFailed))
    else if !worker.VStr? || worker.s == "" || job != VStr(cfg.jobId) then (s, Raised(InvalidState))
    else
      var s' := if worker.s in s.workers then s
                else s.(workers := s.workers + {worker.s}, version := s.version + 1);
      (s', OkReply(cfg, s'))
  }

  function PickOutStep<S>(cfg: Config<S>, s: ActorState<S>, worker: Value, size: Value, token: string)
    : (ActorState<S>, Reply)
  {
    if s.Failed() then (s, Raised(ActorFailed))
    else if !Registered(s, worker) then (s, Raised(InvalidState))
    else if !size.VInt? || size.i <= 0 then
      (RecordFailure(s, BadBatchSize), Raised(InvalidState))
    else if worker.s in s.checkouts then
      (RecordFailure(s, SecondPick),
       Raised(InvalidState))
    else
      var pending := cfg.store.length(s.domains);
      if pending == 0 then (s, EmptyReply(cfg, s))
      else
        match cfg.store.pickOut(s.domains, if size.i < pending then size.i else pending)
        case Raises(next, _) => (RecordFailure(s.(domains := next), PickRaised), Raised(DomainOperation))
        case Returns(next, domains) =>
          var s' := s.(domains := next, checkouts := s.checkouts[worker.s := token], version := s.version + 1);
          (s', DataReply(cfg, s', domains, token))
  }

  function Payload(bounds: Value, data: Value, flag: Value): Value {
    VTuple([bounds, data, flag])
  }

  /** Validation, then the storage's own `add`. */
  function StoreAdd<S>(cfg: Config<S>, domains: S, bounds: Value, data: Value, flag: Value): Outcome<S, Value> {
    if !cfg.validateAdd(bounds, data) then Raises(domains, Exn("InvalidObjectError", ""))
    else cfg.store.add(domains, Payload(bounds, data, flag))
  }

  function AddStep<S>(cfg: Config<S>, s: ActorState<S>, worker: Value, bounds: Value, data: Value, flag: Value)
    : (ActorState<S>, Reply)
  {
    if s.Failed() then (s, Raised(ActorFailed))
    else if !Registered(s, worker) then (s, Raised(InvalidState))
    else if !flag.VBool? then
      (RecordFailure(s, BadFlag), Raised(InvalidState))
    else AddOutcome(cfg, s, worker.s, StoreAdd(cfg, s.domains, bounds, data, flag))
  }

  /** A storage failure is recorded; otherwise the worker's checkout, if any, ends. */
  function AddOutcome<S>(cfg: Config<S>, s: ActorState<S>, worker: string, added: Outcome<S, Value>)
    : (ActorState<S>, Reply)
  {
    match added
    case Raises(next, _) => (RecordFailure(s.(domains := next), AddRaised), Raised(DomainOperation))
    case Returns(next, globalLb) =>
      var s' := s.(domains := next, checkouts := s.checkouts - {worker}, version := s.version + 1);
      (s', AddedReply(cfg, s', globalLb))
  }

  predicate HoldsCheckout<S>(s: ActorState<S>, worker: Value, checkout: Value) {
    && Registered(s, worker)
    && checkout.VStr? && worker.s in s.checkouts && s.checkouts[worker.s] == checkout.s
  }

  function PublishStep<S>(
    cfg: Config<S>, s: ActorState<S>, worker: Value, checkout: Value, bounds: Value, data: Value, flag: Value)
    : (ActorState<S>, Reply)
  {
    if s.Failed() then (s, Raised(ActorFailed))
    else if !HoldsCheckout(s, worker, checkout) || !flag.VBool? then (s, Raised(InvalidState))
    else
      match StoreAdd(cfg, s.domains, bounds, data, flag)
      case Raises(next, _) =>
        (RecordFailure(s.(domains := next), AddRaised).(version := s.version + 1), Raised(DomainOperation))
      case Returns(next, globalLb) =>
        var s' := s.(domains := next, checkouts := s.checkouts - {worker.s}, version := s.version + 1);
        (s', AddedReply(cfg, s', globalLb))
  }

  function DonateStep<S>(cfg: Config<S>, s: ActorState<S>, worker: Value, bounds: Value, data: Value, flag: Value)
    : (ActorState<S>, Reply)
  {
    if s.Failed() then (s, Raised(ActorFailed))
    else if !Registered(s, worker) || worker.s in s.checkouts then (s, Raised(InvalidState))
    else AddStep(cfg, s, worker, bounds, data, flag)
  }

  function CompleteStep<S>(cfg: Config<S>, s: ActorState<S>, worker: Value, checkout: Value): (ActorState<S>, Reply) {
    if s.Failed() then (s, Raised(ActorFailed))
    else if !Registered(s, worker) then (s, Raised(InvalidState))
    else if worker.s !in s.checkouts then
      (RecordFailure(s, NoActivePick), Raised(InvalidState))
    else if !checkout.VNone? && checkout != VStr(s.checkouts[worker.s]) then (s, Raised(InvalidState))
    else
      var s' := s.(checkouts := s.checkouts - {worker.s}, version := s.version + 1);
      (s', OkReply(cfg, s'))
  }

  function CloseWorkerStep<S>(cfg: Config<S>, s: ActorState<S>, worker: Value): (ActorState<S>, Reply) {
    if !Registered(s, worker) then (s, Raised(InvalidState))
    else
      var s1 := if worker.s in s.checkouts
                then RecordFailure(s, ClosedWithCheckout) else s;
      var s' := s1.(workers := s1.workers - {worker.s}, version := s1.version + 1);
      (s', OkReply(cfg, s'))
  }

  function WorkerFailedStep<S>(
    cfg: Config<S>, s: ActorState<S>, worker: Value, reason: string): (ActorState<S>, Reply) {
    if !Hashable(worker) then (s, Raised(TypeFault))
    else
      var s1 := if worker.VStr? && worker.s in s.checkouts
                then RecordFailure(s, WorkerFailedWithCheckout(worker.s, reason)) else s;
      var gone := if worker.VStr? then {worker.s} else {};
      var s' := s1.(workers := s1.workers - gone, version := s1.version + 1);
      (s', OkReply(cfg, s'))
  }

  function FailStep<S>(cfg: Config<S>, s: ActorState<S>, reason: string): (ActorState<S>, Reply) {
    var s' := if s.Failed() then s else s.(failure := Some(Declared(reason)), version := s.version + 1);
    (s', Returned(StateDict(cfg, s')))
  }

  function SortStep<S>(cfg: Config<S>, s: ActorState<S>): (ActorState<S>, Reply) {
    if s.Failed() then (s, Raised(ActorFailed))
    else
      match cfg.store.sort(s.domains)
      case Raises(next, exn) =>
        (RecordFailure(s.(domains := next), SortRaised(exn)).(version := s.version + 1), Raised(DomainOperation))
      case Returns(next, _) =>
        var s' := s.(domains := next, version := s.version + 1);
        (s', SortedReply(cfg, s'))
  }

  /** Python indexing: negative positions count from the end. */
  function Position(index: int, length: nat): Option<nat> {
    var i := if index < 0 then index + length else index;
    if 0 <= i < length then Some(i) else None
  }

  /** The record of the domain at a position, if it can be read as one. */
  function RecordAt<S>(cfg: Config<S>, s: ActorState<S>, i: nat): Option<Value> {
    var item := cfg.store.item(s.domains, i);
    if item.None? then None else RecordOf(item.value)
  }

  function GetItemReply<S>(cfg: Config<S>, s: ActorState<S>, index: Value, version: Value): Reply {
    if s.Failed() then Raised(ActorFailed)
    else if !index.VInt? then Raised(InvalidState)
    else if !version.VNone? && !SameKey(version, VInt(s.version)) then Raised(InvalidState)
    else
      var i := Position(index.i, cfg.store.length(s.domains));
      if i.None? then Raised(OutOfRange)
      else
        var record := RecordAt(cfg, s, i.value);
        if record.None? then Raised(StorageFault) else RecordReply(s, record.value)
  }

  /** One invocation; `token` is the fresh identity a successful pick uses. */
  function Execute<S>(cfg: Config<S>, s: ActorState<S>, cmd: Command, token: string): (ActorState<S>, Reply) {
    match cmd
    case Register(worker, job) => RegisterStep(cfg, s, worker, job)
    case PickOut(worker, size) => PickOutStep(cfg, s, worker, size, token)
    case Add(worker, bounds, data, flag) => AddStep(cfg, s, worker, bounds, data, flag)
    case Publish(worker, checkout, bounds, data, flag) => PublishStep(cfg, s, worker, checkout, bounds, data, flag)
    case Donate(worker, bounds, data, flag) => DonateStep(cfg, s, worker, bounds, data, flag)
    case Complete(worker, checkout) => CompleteStep(cfg, s, worker, checkout)
    case CompletePruned(worker, checkout) => CompleteStep(cfg, s, worker, checkout)
    case CloseWorker(worker) => CloseWorkerStep(cfg, s, worker)
    case WorkerFailed(worker, reason) => WorkerFailedStep(cfg, s, worker, reason)
    case Fail(reason) => FailStep(cfg, s, reason)
    case GetState => (s, Returned(StateDict(cfg, s)))
    case GetSnapshot => (s, Returned(SnapshotDict(cfg, s)))
    case Sort => SortStep(cfg, s)
    case GetItem(index, version) => (s, GetItemReply(cfg, s, index, version))
  }

  // ---------- The actor ----------

  class BatchedDomainListActor<S> {
    const cfg: Config<S>
    var domains: S
    var registeredWorkers: set<string>
    var checkouts: map<string, string>
    var failureReason: Option<Reason>
    var version: nat

    constructor (cfg: Config<S>, domains: S)
      ensures this.cfg == cfg && State() == Initial(domains)
    {
      this.cfg, this.domains := cfg, domains;
      registeredWorkers, checkouts, failureReason, version := {}, map[], None, 0;
    }

    function State(): ActorState<S>
      reads this
    {
      ActorState(domains, registeredWorkers, checkouts, failureReason, version)
    }

    method Fault(reason: Reason)
      modifies this
      ensures State() == RecordFailure(old(State()), reason)
    {
      if failureReason.None? {
        failureReason := Some(reason);
      }
    }

    method Register(worker: Value, job: Value) returns (reply: Reply)
      modifies this
      ensures (State(), reply) == RegisterStep(cfg, old(State()), worker, job)
    {
      if failureReason.Some? {
        return Raised(ActorFailed);
      }
      if !worker.VStr? || worker.s == "" {
        return Raised(InvalidState);
      }
      if job != VStr(cfg.jobId) {
        return Raised(InvalidState);
      }
      if worker.s !in registeredWorkers {
        registeredWorkers := registeredWorkers + {worker.s};
        version := version + 1;
      }
      return OkReply(cfg, State());
    }

    method PickOut(worker: Value, size: Value, token: string) returns (reply: Reply)
      modifies this
      ensures (State(), reply) == PickOutStep(cfg, old(State()), worker, size, token)
    {
      hide DataReply;
      hide EmptyReply;
      if failureReason.Some? {
        return Raised(ActorFailed);
      }
      if !Registered(State(), worker) {
        return Raised(InvalidState);
      }
      if !size.VInt? || size.i <= 0 {
        Fault(BadBatchSize);
        return Raised(InvalidState);
      }
      if worker.s in checkouts {
        Fault(SecondPick);
        return Raised(InvalidState);
      }
      var pending := cfg.store.length(domains);
      if pending == 0 {
        return EmptyReply(cfg, State());
      }
      var picked := cfg.store.pickOut(domains, if size.i < pending then size.i else pending);
      domains := picked.next;
      if picked.Raises? {
        Fault(PickRaised);
        return Raised(DomainOperation);
      }
      checkouts := checkouts[worker.s := token];
      version := version + 1;
      return DataReply(cfg, State(), picked.value, token);
    }

    method Add(worker: Value, bounds: Value, data: Value, flag: Value) returns (reply: Reply)
      modifies this
      ensures (State(), reply) == AddStep(cfg, old(State()), worker, bounds, data, flag)
    {
      hide AddedReply;
      hide StoreAdd;
      if failureReason.Some? {
        return Raised(ActorFailed);
      }
      if !Registered(State(), worker) {
        return Raised(InvalidState);
      }
      if !flag.VBool? {
        assert AddStep(cfg, State(), worker, bounds, data, flag)
               == (RecordFailure(State(), BadFlag), Raised(InvalidState));
        hide AddStep;
        Fault(BadFlag);
        return Raised(InvalidState);
      }
      var added := StoreAdd(cfg, domains, bounds, data, flag);
      domains := added.next;
      if added.Raises? {
        Fault(AddRaised);
        return Raised(DomainOperation);
      }
      checkouts := checkouts - {worker.s};
      version := version + 1;
      return AddedReply(cfg, State(), added.value);
    }

    method PublishChildren(worker: Value, checkout: Value, bounds: Value, data: Value, flag: Value)
      returns (reply: Reply)
      modifies this
      ensures (State(), reply) == PublishStep(cfg, old(State()), worker, checkout, bounds, data, flag)
    {
      hide AddedReply;
      hide StoreAdd;
      if failureReason.Some? {
        return Raised(ActorFailed);
      }
      if !HoldsCheckout(State(), worker, checkout) {
        return Raised(InvalidState);
      }
      if !flag.VBool? {
        return Raised(InvalidState);
      }
      var added := StoreAdd(cfg, domains, bounds, data, flag);
      domains := added.next;
      if added.Raises? {
        Fault(AddRaised);
        version := version + 1;
        return Raised(DomainOperation);
      }
      checkouts := checkouts - {worker.s};
      version := version + 1;
      return AddedReply(cfg, State(), added.value);
    }

    method Donate(worker: Value, bounds: Value, data: Value, flag: Value) returns (reply: Reply)
      modifies this
      ensures (State(), reply) == DonateStep(cfg, old(State()), worker, bounds, data, flag)
    {
      hide AddStep;
      if failureReason.Some? {
        return Raised(ActorFailed);
      }
      if !Registered(State(), worker) {
        return Raised(InvalidState);
      }
      if worker.s in checkouts {
        return Raised(InvalidState);
      }
      ghost var before := State();
      assert DonateStep(cfg, before, worker, bounds, data, flag) == AddStep(cfg, before, worker, bounds, data, flag);
      reply := Add(worker, bounds, data, flag);
    }

    method CompletePickToLocal(worker: Value, checkout: Value) returns (reply: Reply)
      modifies this
      ensures (State(), reply) == CompleteStep(cfg, old(State()), worker, checkout)
    {
      if failureReason.Some? {
        return Raised(ActorFailed);
      }
      if !Registered(State(), worker) {
        return Raised(InvalidState);
      }
      if worker.s !in checkouts {
        Fault(NoActivePick);
        return Raised(InvalidState);
      }
      if !checkout.VNone? && checkout != VStr(checkouts[worker.s]) {
        return Raised(InvalidState);
      }
      checkouts := checkouts - {worker.s};
      version := version + 1;
      return OkReply(cfg, State());
    }

    method CompletePruned(worker: Value, checkout: Value) returns (reply: Reply)
      modifies this
      ensures (State(), reply) == CompleteStep(cfg, old(State()), worker, checkout)
    {
      reply := CompletePickToLocal(worker, checkout);
    }

    method CloseWorker(worker: Value) returns (reply: Reply)
      modifies this
      ensures (State(), reply) == CloseWorkerStep(cfg, old(State()), worker)
    {
      if !Registered(State(), worker) {
        return Raised(InvalidState);
      }
      if worker.s in checkouts {
        Fault(ClosedWithCheckout);
      }
      registeredWorkers := registeredWorkers - {worker.s};
      version := version + 1;
      return OkReply(cfg, State());
    }

    method WorkerFailed(worker: Value, reason: string) returns (reply: Reply)
      modifies this
      ensures (State(), reply) == WorkerFailedStep(cfg, old(State()), worker, reason)
    {
      if !Hashable(worker) {
        return Raised(TypeFault);
      }
      if worker.VStr? && worker.s in checkouts {
        Fault(WorkerFailedWithCheckout(worker.s, reason));
      }
      registeredWorkers := registeredWorkers - (if worker.VStr? then {worker.s} else {});
      version := version + 1;
      return OkReply(cfg, State());
    }

    method Fail(reason: string) returns (reply: Reply)
      modifies this
      ensures (State(), reply) == FailStep(cfg, old(State()), reason)
    {
      if failureReason.None? {
        failureReason := Some(Declared(reason));
        version := version + 1;
      }
      return Returned(StateDict(cfg, State()));
    }

    method Sort() returns (reply: Reply)
      modifies this
      ensures (State(), reply) == SortStep(cfg, old(State()))
    {
      if failureReason.Some? {
        return Raised(ActorFailed);
      }
      var sorted := cfg.store.sort(domains);
      domains := sorted.next;
      if sorted.Raises? {
        Fault(SortRaised(sorted.exn));
        version := version + 1;
        return Raised(DomainOperation);
      }
      version := version + 1;
      return SortedReply(cfg, State());
    }

    method GetItem(index: Value, at: Value) returns (reply: Reply)
      ensures reply == GetItemReply(cfg, State(), index, at)
    {
      if failureReason.Some? {
        return Raised(ActorFailed);
      }
      if !index.VInt? {
        return Raised(InvalidState);
      }
      if !at.VNone? && !SameKey(at, VInt(version)) {
        return Raised(InvalidState);
      }
      var i := index.i;
      if i < 0 {
        i := i + cfg.store.length(domains);
      }
      if i < 0 || i >= cfg.store.length(domains) {
        return Raised(OutOfRange);
      }
      var record := RecordAt(cfg, State(), i);
      if record.None? {
        return Raised(StorageFault);
      }
      return RecordReply(State(), record.value);
    }

    /** Remote invocation by method name. */
    method Invoke(cmd: Command, token: string) returns (reply: Reply)
      modifies this
      ensures (State(), reply) == Execute(cfg, old(State()), cmd, token)
    {
      match cmd {
        case Register(worker, job) => reply := Register(worker, job);
        case PickOut(worker, size) => reply := PickOut(worker, size, token);
        case Add(worker, bounds, data, flag) => reply := Add(worker, bounds, data, flag);
        case Publish(worker, checkout, bounds, data, flag) =>
          reply := PublishChildren(worker, checkout, bounds, data, flag);
        case Donate(worker, bounds, data, flag) => reply := Donate(worker, bounds, data, flag);
        case Complete(worker, checkout) => reply := CompletePickToLocal(worker, checkout);
        case CompletePruned(worker, checkout) => reply := CompletePruned(worker, checkout);
        case CloseWorker(worker) => reply := CloseWorker(worker);
        case WorkerFailed(worker, reason) => reply := WorkerFailed(worker, reason);
        case Fail(reason) => reply := Fail(reason);
        case GetState => reply := Returned(StateDict(cfg, State()));
        case GetSnapshot => reply := Returned(SnapshotDict(cfg, State()));
        case Sort => reply := Sort();
        case GetItem(index, at) => reply := GetItem(index, at);
      }
    }
  }
}
