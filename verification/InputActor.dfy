/** The actor for input-split domain lists: the same checkout protocol with its
    own rules about failures and versions. */
module InputActor {
  import opened Results
  import opened Values
  import opened Stores
  import opened SharedStates
  import opened ActorStates

  datatype Config<!S> = Config(store: Store<S>, jobId: string)

  datatype Command =
    | Register(worker: Value, job: Value)
    | PickOutBatch(worker: Value, size: Value)
    | Publish(worker: Value, checkout: Value, payload: Value)
    | Donate(worker: Value, payload: Value)
    | Complete(worker: Value, checkout: Value)
    | Sort
    | GetSnapshot
    | CloseWorker(worker: Value)
    | WorkerFailed(worker: Value, reason: string)
    | Fail(reason: string)

  function SnapshotDict<S>(cfg: Config<S>, s: ActorState<S>): Value {
    SnapshotToDict(Snapshot(cfg.jobId, s.version, StateOf(cfg.store, s)))
  }

  function OkReply<S>(cfg: Config<S>, s: ActorState<S>): Reply {
    Returned(VDict([Entry(VStr("status"), VStr("ok")), Entry(VStr("state"), SnapshotDict(cfg, s))]))
  }

  function EmptyReply<S>(cfg: Config<S>, s: ActorState<S>): Reply {
    Returned(VDict([Entry(VStr("status"), VStr("empty")), Entry(VStr("data"), VNone),
                    Entry(VStr("state"), SnapshotDict(cfg, s))]))
  }

  function DataReply<S>(cfg: Config<S>, s: ActorState<S>, data: Value, token: string): Reply {
    Returned(VDict([Entry(VStr("status"), VStr("data")), Entry(VStr("data"), data),
                    Entry(VStr("checkout"), VStr(token)), Entry(VStr("state"), SnapshotDict(cfg, s))]))
  }

  function AddedReply<S>(cfg: Config<S>, s: ActorState<S>, result: Value): Reply {
    Returned(VDict([Entry(VStr("status"), VStr("ok")), Entry(VStr("result"), result),
                    Entry(VStr("state"), SnapshotDict(cfg, s))]))
  }

  /** `_worker`: looking up an unhashable id raises `TypeError`. */
  function Unknown<S>(s: ActorState<S>, worker: Value): Option<ActorError> {
    if !Hashable(worker) then Some(TypeFault)
    else if !worker.VStr? || worker.s !in s.workers then Some(InvalidState)
    else None
  }

  /** `self._checkouts.get(worker_id)` as a value: `None` when there is none. */
  function Active<S>(s: ActorState<S>, worker: string): Value {
    if worker in s.checkouts then VStr(s.checkouts[worker]) else VNone
  }

  function RegisterStep<S>(cfg: Config<S>, s: ActorState<S>, worker: Value, job: Value): (ActorState<S>, Reply) {
    if s.Failed() then (s, Raised(ActorFailed))
    else if !worker.VStr? || worker.s == "" || job != VStr(cfg.jobId) then (s, Raised(InvalidState))
    else
      var s' := if worker.s in s.workers then s
                else s.(workers := s.workers + {worker.s}, version := s.version + 1);
      (s', OkReply(cfg, s'))
  }

  function PickStep<S>(cfg: Config<S>, s: ActorState<S>, worker: Value, size: Value, token: string)
    : (ActorState<S>, Reply)
  {
    if s.Failed() then (s, Raised(ActorFailed))
    else if Unknown(s, worker).Some? then (s, Raised(Unknown(s, worker).value))
    else if !size.VInt? || size.i <= 0 || worker.s in s.checkouts then (s, Raised(InvalidState))
    else
      var pending := cfg.store.length(s.domains);
      if pending == 0 then (s, EmptyReply(cfg, s))
      else
        match cfg.store.pickOut(s.domains, if size.i < pending then size.i else pending)
        case Raises(next, exn) => (StorageFailed(s, next, exn), Raised(StorageFault))
        case Returns(next, data) =>
          var s' := s.(domains := next, checkouts := s.checkouts[worker.s := token], version := s.version + 1);
          (s', DataReply(cfg, s', data, token))
  }

  /** A storage call raised: the failure is written unconditionally. */
  function StorageFailed<S>(s: ActorState<S>, next: S, exn: Exn): ActorState<S> {
    s.(domains := next, failure := Some(InputStorageRaised(exn)), version := s.version + 1)
  }

  /** Publishing bumps the version twice: once in `_add`, once for the
      checkout. A checkout of `None` passes the comparison when the worker has
      none; the domains are then added before the missing entry raises. */
  function PublishStep<S>(cfg: Config<S>, s: ActorState<S>, worker: Value, checkout: Value, payload: Value)
    : (ActorState<S>, Reply)
  {
    if s.Failed() then (s, Raised(ActorFailed))
    else if Unknown(s, worker).Some? then (s, Raised(Unknown(s, worker).value))
    else if checkout != Active(s, worker.s) then (s, Raised(InvalidState))
    else
      match cfg.store.add(s.domains, payload)
      case Raises(next, exn) => (StorageFailed(s, next, exn), Raised(StorageFault))
      case Returns(next, result) =>
        var s1 := s.(domains := next, version := s.version + 1);
        if worker.s !in s.checkouts then (s1, Raised(MissingKey))
        else
          var s' := s1.(checkouts := s.checkouts - {worker.s}, version := s1.version + 1);
          (s', AddedReply(cfg, s', result))
  }

  function DonateStep<S>(cfg: Config<S>, s: ActorState<S>, worker: Value, payload: Value): (ActorState<S>, Reply) {
    if s.Failed() then (s, Raised(ActorFailed))
    else if Unknown(s, worker).Some? then (s, Raised(Unknown(s, worker).value))
    else if worker.s in s.checkouts then (s, Raised(InvalidState))
    else
      match cfg.store.add(s.domains, payload)
      case Raises(next, exn) => (StorageFailed(s, next, exn), Raised(StorageFault))
      case Returns(next, result) =>
        var s' := s.(domains := next, version := s.version + 1);
        (s', AddedReply(cfg, s', result))
  }

  function CompleteStep<S>(cfg: Config<S>, s: ActorState<S>, worker: Value, checkout: Value): (ActorState<S>, Reply) {
    if s.Failed() then (s, Raised(ActorFailed))
    else if Unknown(s, worker).Some? then (s, Raised(Unknown(s, worker).value))
    else if checkout != Active(s, worker.s) then (s, Raised(InvalidState))
    else if worker.s !in s.checkouts then (s, Raised(MissingKey))
    else
      var s' := s.(checkouts := s.checkouts - {worker.s}, version := s.version + 1);
      (s', OkReply(cfg, s'))
  }

  /** A raising sort is not recorded as a failure. */
  function SortStep<S>(cfg: Config<S>, s: ActorState<S>): (ActorState<S>, Reply) {
    if s.Failed() then (s, Raised(ActorFailed))
    else
      match cfg.store.sort(s.domains)
      case Raises(next, _) => (s.(domains := next), Raised(StorageFault))
      case Returns(next, _) =>
        (s.(domains := next, version := s.version + 1), Returned(VDict([Entry(VStr("status"), VStr("ok"))])))
  }

  function Leave<S>(s: ActorState<S>, worker: string, reason: Reason): ActorState<S> {
    var s1 := if worker in s.checkouts && !s.Failed() then s.(failure := Some(reason)) else s;
    s1.(workers := s1.workers - {worker}, version := s1.version + 1)
  }

  function LeaveStep<S>(cfg: Config<S>, s: ActorState<S>, worker: Value, reason: Reason): (ActorState<S>, Reply) {
    if Unknown(s, worker).Some? then (s, Raised(Unknown(s, worker).value))
    else
      var s' := Leave(s, worker.s, reason);
      (s', OkReply(cfg, s'))
  }

  function FailedReason(worker: Value, reason: string): Reason {
    InputWorkerFailed(if worker.VStr? then worker.s else "", reason)
  }

  function FailStep<S>(cfg: Config<S>, s: ActorState<S>, reason: string): (ActorState<S>, Reply) {
    var s' := if s.Failed() then s else s.(failure := Some(Declared(reason)), version := s.version + 1);
    (s', Returned(SnapshotDict(cfg, s')))
  }

  function Execute<S>(cfg: Config<S>, s: ActorState<S>, cmd: Command, token: string): (ActorState<S>, Reply) {
    match cmd
    case Register(worker, job) => RegisterStep(cfg, s, worker, job)
    case PickOutBatch(worker, size) => PickStep(cfg, s, worker, size, token)
    case Publish(worker, checkout, payload) => PublishStep(cfg, s, worker, checkout, payload)
    case Donate(worker, payload) => DonateStep(cfg, s, worker, payload)
    case Complete(worker, checkout) => CompleteStep(cfg, s, worker, checkout)
    case Sort => SortStep(cfg, s)
    case GetSnapshot => (s, Returned(SnapshotDict(cfg, s)))
    case CloseWorker(worker) => LeaveStep(cfg, s, worker, InputClosedWithCheckout)
    case WorkerFailed(worker, reason) => LeaveStep(cfg, s, worker, FailedReason(worker, reason))
    case Fail(reason) => FailStep(cfg, s, reason)
  }

  // ---------- The actor ----------

  class InputDomainListActor<S> {
    const cfg: Config<S>
    var domains: S
    var workers: set<string>
    var checkouts: map<string, string>
    var failure: Option<Reason>
    var version: nat

    constructor (cfg: Config<S>, domains: S)
      ensures this.cfg == cfg && State() == ActorState(domains, {}, map[], None, 0)
    {
      this.cfg, this.domains := cfg, domains;
      workers, checkouts, failure, version := {}, map[], None, 0;
    }

    function State(): ActorState<S>
      reads this
    {
      ActorState(domains, workers, checkouts, failure, version)
    }

    method RegisterWorker(worker: Value, job: Value) returns (reply: Reply)
      modifies this
      ensures (State(), reply) == RegisterStep(cfg, old(State()), worker, job)
    {
      if failure.Some? {
        return Raised(ActorFailed);
      }
      if !worker.VStr? || worker.s == "" || job != VStr(cfg.jobId) {
        return Raised(InvalidState);
      }
      if worker.s !in workers {
        workers := workers + {worker.s};
        version := version + 1;
      }
      return OkReply(cfg, State());
    }

    method PickOutBatch(worker: Value, size: Value, token: string) returns (reply: Reply)
      modifies this
      ensures (State(), reply) == PickStep(cfg, old(State()), worker, size, token)
    {
      hide SnapshotDict;
      if failure.Some? {
        return Raised(ActorFailed);
      }
      var unknown := Unknown(State(), worker);
      if unknown.Some? {
        return Raised(unknown.value);
      }
      if !size.VInt? || size.i <= 0 {
        return Raised(InvalidState);
      }
      if worker.s in checkouts {
        return Raised(InvalidState);
      }
      var pending := cfg.store.length(domains);
      if pending == 0 {
        return EmptyReply(cfg, State());
      }
      var picked := cfg.store.pickOut(domains, if size.i < pending then size.i else pending);
      domains := picked.next;
      version := version + 1;
      if picked.Raises? {
        failure := Some(InputStorageRaised(picked.exn));
        return Raised(StorageFault);
      }
      checkouts := checkouts[worker.s := token];
      return DataReply(cfg, State(), picked.value, token);
    }

    /** `_add`: the shared part of publishing and donating. */
    method StoreAdd(payload: Value) returns (result: Option<Value>)
      modifies this
      ensures match cfg.store.add(old(domains), payload)
              case Raises(next, exn) => result.None? && State() == StorageFailed(old(State()), next, exn)
              case Returns(next, value) =>
                result == Some(value)
                && State() == old(State()).(domains := next, version := old(version) + 1)
    {
      var added := cfg.store.add(domains, payload);
      domains := added.next;
      version := version + 1;
      if added.Raises? {
        failure := Some(InputStorageRaised(added.exn));
        return None;
      }
      return Some(added.value);
    }

    method Publish(worker: Value, checkout: Value, payload: Value) returns (reply: Reply)
      modifies this
      ensures (State(), reply) == PublishStep(cfg, old(State()), worker, checkout, payload)
    {
      hide SnapshotDict;
      if failure.Some? {
        return Raised(ActorFailed);
      }
      var unknown := Unknown(State(), worker);
      if unknown.Some? {
        return Raised(unknown.value);
      }
      if checkout != Active(State(), worker.s) {
        return Raised(InvalidState);
      }
      var result := StoreAdd(payload);
      if result.None? {
        return Raised(StorageFault);
      }
      if worker.s !in checkouts {
        return Raised(MissingKey);
      }
      checkouts := checkouts - {worker.s};
      version := version + 1;
      return AddedReply(cfg, State(), result.value);
    }

    method Donate(worker: Value, payload: Value) returns (reply: Reply)
      modifies this
      ensures (State(), reply) == DonateStep(cfg, old(State()), worker, payload)
    {
      hide SnapshotDict;
      if failure.Some? {
        return Raised(ActorFailed);
      }
      var unknown := Unknown(State(), worker);
      if unknown.Some? {
        return Raised(unknown.value);
      }
      if worker.s in checkouts {
        return Raised(InvalidState);
      }
      var result := StoreAdd(payload);
      if result.None? {
        return Raised(StorageFault);
      }
      return AddedReply(cfg, State(), result.value);
    }

    method Complete(worker: Value, checkout: Value) returns (reply: Reply)
      modifies this
      ensures (State(), reply) == CompleteStep(cfg, old(State()), worker, checkout)
    {
      hide SnapshotDict;
      if failure.Some? {
        return Raised(ActorFailed);
      }
      var unknown := Unknown(State(), worker);
      if unknown.Some? {
        return Raised(unknown.value);
      }
      if checkout != Active(State(), worker.s) {
        return Raised(InvalidState);
      }
      if worker.s !in checkouts {
        return Raised(MissingKey);
      }
      checkouts := checkouts - {worker.s};
      version := version + 1;
      return OkReply(cfg, State());
    }

    method Sort() returns (reply: Reply)
      modifies this
      ensures (State(), reply) == SortStep(cfg, old(State()))
    {
      if failure.Some? {
        return Raised(ActorFailed);
      }
      var sorted := cfg.store.sort(domains);
      domains := sorted.next;
      if sorted.Raises? {
        return Raised(StorageFault);
      }
      version := version + 1;
      return Returned(VDict([Entry(VStr("status"), VStr("ok"))]));
    }

    method CloseWorker(worker: Value) returns (reply: Reply)
      modifies this
      ensures (State(), reply) == LeaveStep(cfg, old(State()), worker, InputClosedWithCheckout)
    {
      hide SnapshotDict;
      var unknown := Unknown(State(), worker);
      if unknown.Some? {
        return Raised(unknown.value);
      }
      if worker.s in checkouts && failure.None? {
        failure := Some(InputClosedWithCheckout);
      }
      workers := workers - {worker.s};
      version := version + 1;
      return OkReply(cfg, State());
    }

    method WorkerFailed(worker: Value, reason: string) returns (reply: Reply)
      modifies this
      ensures (State(), reply) == LeaveStep(cfg, old(State()), worker, FailedReason(worker, reason))
    {
      hide SnapshotDict;
      var unknown := Unknown(State(), worker);
      if unknown.Some? {
        return Raised(unknown.value);
      }
      if worker.s in checkouts && failure.None? {
        failure := Some(InputWorkerFailed(worker.s, reason));
      }
      workers := workers - {worker.s};
      version := version + 1;
      return OkReply(cfg, State());
    }

    method Fail(reason: string) returns (reply: Reply)
      modifies this
      ensures (State(), reply) == FailStep(cfg, old(State()), reason)
    {
      if failure.None? {
        failure := Some(Declared(reason));
        version := version + 1;
      }
      return Returned(SnapshotDict(cfg, State()));
    }

    /** Remote invocation by method name. */
    method Invoke(cmd: Command, token: string) returns (reply: Reply)
      modifies this
      ensures (State(), reply) == Execute(cfg, old(State()), cmd, token)
    {
      match cmd {
        case Register(worker, job) => reply := RegisterWorker(worker, job);
        case PickOutBatch(worker, size) => reply := PickOutBatch(worker, size, token);
        case Publish(worker, checkout, payload) => reply := Publish(worker, checkout, payload);
        case Donate(worker, payload) => reply := Donate(worker, payload);
        case Complete(worker, checkout) => reply := Complete(worker, checkout);
        case Sort => reply := Sort();
        case GetSnapshot => reply := Returned(SnapshotDict(cfg, State()));
        case CloseWorker(worker) => reply := CloseWorker(worker);
        case WorkerFailed(worker, reason) => reply := WorkerFailed(worker, reason);
        case Fail(reason) => reply := Fail(reason);
      }
    }
  }
}
