/** The input-list actor told by outcome instead of by operation: which calls
    are taken, which fail the actor and why, and what becomes of the storage and
    of the set of workers. */
module InputOutcomes {
  import opened Results
  import opened Values
  import opened Stores
  import opened ActorStates
  import opened InputActor

  // ---------- What the storage is asked ----------

  function Picked<S>(cfg: Config<S>, s: ActorState<S>, size: Value): Option<Outcome<S, Value>> {
    var pending := cfg.store.length(s.domains);
    if size.VInt? && size.i > 0 && pending > 0 then
      Some(cfg.store.pickOut(s.domains, if size.i <= pending then size.i else pending))
    else None
  }

  /** The checkout given is the worker's, or none is given and there is none. */
  predicate Matching<S>(s: ActorState<S>, worker: Value, checkout: Value) {
    if Holding(s, worker) then checkout == VStr(s.checkouts[worker.s]) else checkout == VNone
  }

  /** The outcome of the call on the storage, if the call gets that far. */
  function OnStorage<S>(cfg: Config<S>, s: ActorState<S>, cmd: Command): Option<Outcome<S, Value>> {
    if s.Failed() then None
    else
      match cmd
      case PickOutBatch(w, size) => if Known(s, w) && !Holding(s, w) then Picked(cfg, s, size) else None
      case Publish(w, checkout, payload) =>
        if Known(s, w) && Matching(s, w, checkout) then Some(cfg.store.add(s.domains, payload)) else None
      case Donate(w, payload) =>
        if Known(s, w) && !Holding(s, w) then Some(cfg.store.add(s.domains, payload)) else None
      case Sort =>
        (match cfg.store.sort(s.domains)
         case Returns(next, _) => Some(Returns(next, VNone))
         case Raises(next, exn) => Some(Raises(next, exn)))
      case _ => None
  }

  // ---------- What becomes of the state ----------

  /** The storage is what its own operation left, and otherwise untouched. */
  lemma StorageExactly<S>(cfg: Config<S>, s: ActorState<S>, cmd: Command, token: string)
    ensures var outcome := OnStorage(cfg, s, cmd);
            Execute(cfg, s, cmd, token).0.domains == if outcome.Some? then outcome.value.next else s.domains
  {
    hide SnapshotDict;
  }

  /** The calls that return. */
  predicate Accepted<S>(cfg: Config<S>, s: ActorState<S>, cmd: Command) {
    match cmd
    case Register(w, job) => !s.Failed() && w.VStr? && w.s != "" && job == VStr(cfg.jobId)
    case PickOutBatch(w, size) =>
      && !s.Failed() && Known(s, w) && !Holding(s, w) && size.VInt? && size.i > 0
      && (cfg.store.length(s.domains) == 0 || Succeeds(Picked(cfg, s, size)))
    case Publish(w, _, _) => Holding(s, w) && Succeeds(OnStorage(cfg, s, cmd))
    case Donate(_, _) => Succeeds(OnStorage(cfg, s, cmd))
    case Complete(w, checkout) => !s.Failed() && Known(s, w) && Holding(s, w) && Matching(s, w, checkout)
    case Sort => Succeeds(OnStorage(cfg, s, cmd))
    case GetSnapshot => true
    case CloseWorker(w) => Known(s, w)
    case WorkerFailed(w, _) => Known(s, w)
    case Fail(_) => true
  }

  predicate NamesWorker(cmd: Command) {
    !(cmd.Register? || cmd.Sort? || cmd.GetSnapshot? || cmd.Fail?)
  }

  /** The error of a call that raises. */
  function Complaint<S>(cfg: Config<S>, s: ActorState<S>, cmd: Command): ActorError {
    var outcome := OnStorage(cfg, s, cmd);
    if s.Failed() && NeedsRunning(cmd) then ActorFailed
    else if NamesWorker(cmd) && !Hashable(cmd.worker) then TypeFault
    else if outcome.Some? && outcome.value.Raises? then StorageFault
    else if (cmd.Publish? || cmd.Complete?) && Known(s, cmd.worker) && Matching(s, cmd.worker, cmd.checkout) then
      MissingKey
    else InvalidState
  }

  /** Exactly which calls return, and with what error the others raise. */
  lemma AcceptsExactly<S>(cfg: Config<S>, s: ActorState<S>, cmd: Command, token: string)
    ensures var reply := Execute(cfg, s, cmd, token).1;
            && (reply.Returned? <==> Accepted(cfg, s, cmd))
            && (reply.Raised? ==> reply.error == Complaint(cfg, s, cmd))
  {
    hide SnapshotDict;
  }

  predicate NeedsRunning(cmd: Command) {
    !(cmd.CloseWorker? || cmd.WorkerFailed? || cmd.Fail? || cmd.GetSnapshot?)
  }

  /** Why a call on a running actor fails it, if it does. Misuse never does, nor
      does a sort that raises. */
  function Blame<S>(cfg: Config<S>, s: ActorState<S>, cmd: Command): Option<Reason> {
    var outcome := OnStorage(cfg, s, cmd);
    match cmd
    case CloseWorker(w) => if Known(s, w) && Holding(s, w) then Some(InputClosedWithCheckout) else None
    case WorkerFailed(w, cause) => if Known(s, w) && Holding(s, w) then Some(InputWorkerFailed(w.s, cause)) else None
    case Fail(cause) => Some(Declared(cause))
    case Sort => None
    case _ => if outcome.Some? && outcome.value.Raises? then Some(InputStorageRaised(outcome.value.exn)) else None
  }

  /** Exactly which calls fail the actor, and with what reason; a reason once
      recorded is never replaced. */
  lemma FailsExactly<S>(cfg: Config<S>, s: ActorState<S>, cmd: Command, token: string)
    ensures Execute(cfg, s, cmd, token).0.failure == if s.Failed() then s.failure else Blame(cfg, s, cmd)
  {
    hide SnapshotDict;
  }

  /** Checkouts open by an accepted pick that found something, under its token,
      and end by an accepted publish or completion of their worker. */
  lemma CheckoutsExactly<S>(cfg: Config<S>, s: ActorState<S>, cmd: Command, token: string)
    ensures Execute(cfg, s, cmd, token).0.checkouts
              == if !Accepted(cfg, s, cmd) then s.checkouts
                 else if cmd.PickOutBatch? && cfg.store.length(s.domains) > 0 then s.checkouts[cmd.worker.s := token]
                 else if cmd.Publish? || cmd.Complete? then s.checkouts - {cmd.worker.s}
                 else s.checkouts
  {
    hide SnapshotDict;
  }

  /** How far a call moves the version: one for a change, two for a publish,
      which adds domains and ends a checkout. A storage that raises counts, but
      not in a sort. */
  function Changes<S>(cfg: Config<S>, s: ActorState<S>, cmd: Command): nat {
    match cmd
    case Register(w, _) => if Accepted(cfg, s, cmd) && !Known(s, w) then 1 else 0
    case PickOutBatch(_, _) => if OnStorage(cfg, s, cmd).Some? then 1 else 0
    case Publish(w, _, _) =>
      if Accepted(cfg, s, cmd) then 2 else if OnStorage(cfg, s, cmd).Some? then 1 else 0
    case Donate(_, _) => if OnStorage(cfg, s, cmd).Some? then 1 else 0
    case GetSnapshot => 0
    case Fail(_) => if s.Failed() then 0 else 1
    case _ => if Accepted(cfg, s, cmd) then 1 else 0
  }

  lemma VersionExactly<S>(cfg: Config<S>, s: ActorState<S>, cmd: Command, token: string)
    ensures Execute(cfg, s, cmd, token).0.version == s.version + Changes(cfg, s, cmd)
  {
    hide SnapshotDict;
  }

  predicate Leaves(cmd: Command, x: string) {
    (cmd.CloseWorker? || cmd.WorkerFailed?) && cmd.worker == VStr(x)
  }

  /** Exactly who is registered after a call. */
  lemma WorkersExactly<S>(cfg: Config<S>, s: ActorState<S>, cmd: Command, token: string)
    ensures forall x ::
              x in Execute(cfg, s, cmd, token).0.workers <==>
                (x in s.workers && !Leaves(cmd, x)) || (cmd.Register? && Accepted(cfg, s, cmd) && x == cmd.worker.s)
  {
    hide SnapshotDict;
  }
}
