/** The worker's facade over the input-list actor. It has no broken flag, so it
    stays in agreement with the actor only over a transport that replies. */
module InputFacade {
  import opened Results
  import opened Tensors
  import opened Values
  import opened Packets
  import opened MapTensors
  import opened SharedStates
  import opened ActorStates
  import opened InputActor
  import opened InputRuns

  datatype Facade = Facade(checkout: Option<string>, registered: bool, closed: bool)

  datatype Operation =
    | PickOp(size: Value)
    | AddOp(payload: Value)
    | PublishOp(checkout: Value, payload: Value)
    | DonateOp(payload: Value)
    | CompleteOp(checkout: Value)
    | SortOp
    | SnapshotOp
    | WorkerFailedOp(reason: string)
    | CloseOp

  datatype Answer = Gives(value: Value) | Fails

  datatype Decision = Finished(facade: Facade, answer: Answer) | Sends(cmd: Command)

  /** How a call fares on its way: answered, executed without its reply arriving,
      or never executed. */
  datatype Delivery = Answered | ReplyLost | RequestLost

  datatype Worker = Worker(id: string, codec: Codec, transfer: Dense -> Dense)

  function Token(f: Facade, checkout: Value): Value {
    if checkout.VNone? then OptionalText(f.checkout) else checkout
  }

  function Send(f: Facade, cmd: Command): Decision {
    if f.closed then Finished(f, Fails) else Sends(cmd)
  }

  function Decide(w: string, f: Facade, op: Operation): Decision {
    var me := VStr(w);
    match op
    case PickOp(size) => if f.checkout.Some? then Finished(f, Fails) else Send(f, PickOutBatch(me, size))
    case AddOp(payload) =>
      if f.checkout.None? then Send(f, Donate(me, payload))
      else Send(f, Publish(me, VStr(f.checkout.value), payload))
    case PublishOp(checkout, payload) =>
      if checkout != OptionalText(f.checkout) then Finished(f, Fails) else Send(f, Publish(me, checkout, payload))
    case DonateOp(payload) => if f.checkout.Some? then Finished(f, Fails) else Send(f, Donate(me, payload))
    case CompleteOp(checkout) =>
      var token := Token(f, checkout);
      if token.VNone? || token != OptionalText(f.checkout) then Finished(f, Fails)
      else Send(f, Complete(me, token))
    case SortOp => Send(f, Sort)
    case SnapshotOp => Send(f, GetSnapshot)
    case WorkerFailedOp(reason) => Send(f, WorkerFailed(me, reason))
    case CloseOp =>
      if f.closed || !f.registered then Finished(f.(closed := true), Gives(VNone)) else Sends(CloseWorker(me))
  }

  function HearPick(w: Worker, f: Facade, v: Value): (Facade, Answer) {
    if !v.VDict? then (f, Fails)
    else if Field(v, "status") == VStr("empty") then (f, Gives(VNone))
    else if Field(v, "status") != VStr("data") || !Field(v, "checkout").VStr? then (f, Fails)
    else
      var moved := Map(w.codec, Field(v, "data"), w.transfer);
      (f.(checkout := Some(Field(v, "checkout").s)), if moved.Ok? then Gives(moved.value) else Fails)
  }

  function Hear(w: Worker, f: Facade, op: Operation, reply: Reply): (Facade, Answer) {
    if op.CloseOp? then (f.(closed := true), if reply.Raised? then Fails else Gives(VNone))
    else if reply.Raised? then (f, Fails)
    else
      var v := reply.value;
      match op
      case PickOp(_) => HearPick(w, f, v)
      case AddOp(_) => (f.(checkout := None), Gives(Field(v, "result")))
      case PublishOp(_, _) => (f.(checkout := None), Gives(Field(v, "result")))
      case DonateOp(_) => (f, Gives(Field(v, "result")))
      case CompleteOp(_) => (f.(checkout := None), Gives(VNone))
      case SortOp => (f, Gives(VNone))
      case SnapshotOp =>
        var snapshot := SnapshotFromDict(v);
        (f, if snapshot.None? then Fails else Gives(SnapshotToDict(snapshot.value)))
      case WorkerFailedOp(_) =>
        var snapshot := SnapshotFromDict(Field(v, "state"));
        (f.(registered := false, checkout := None),
         if snapshot.None? then Fails else Gives(SnapshotToDict(snapshot.value)))
      case CloseOp => (f.(closed := true), Gives(VNone))
  }

  /** A call whose reply never comes: an exception, and nothing remembered. */
  function Miss(f: Facade, op: Operation): (Facade, Answer) {
    if op.CloseOp? then (f.(closed := true), Fails) else (f, Fails)
  }

  function Step<S>(
    cfg: Config<S>, w: Worker, f: Facade, a: ActorState<S>, op: Operation, delivery: Delivery, token: string)
    : (Facade, ActorState<S>, Answer)
  {
    match Decide(w.id, f, op)
    case Finished(f', answer) => (f', a, answer)
    case Sends(cmd) =>
      var (a', reply) := if delivery.RequestLost? then (a, Raised(StorageFault)) else Execute(cfg, a, cmd, token);
      var (f', answer) := if delivery.Answered? then Hear(w, f, op, reply) else Miss(f, op);
      (f', a', answer)
  }

  // ---------- The facade ----------

  class RpcInputDomainList<S> {
    const me: Worker
    const actor: InputDomainListActor<S>
    var checkout: Option<string>
    var registered: bool
    var closed: bool

    constructor (me: Worker, actor: InputDomainListActor<S>)
      ensures this.me == me && this.actor == actor && View() == Facade(None, true, false)
    {
      this.me, this.actor := me, actor;
      checkout, registered, closed := None, true, false;
    }

    function View(): Facade
      reads this
    {
      Facade(checkout, registered, closed)
    }

    /** Send one request; `None` means an exception. */
    method Call(cmd: Command, delivery: Delivery, token: string) returns (response: Option<Value>)
      modifies actor
      ensures match Send(View(), cmd)
              case Finished(_, _) => response.None? && actor.State() == old(actor.State())
              case Sends(_) =>
                if delivery.RequestLost? then response.None? && actor.State() == old(actor.State())
                else
                  var (a, reply) := Execute(actor.cfg, old(actor.State()), cmd, token);
                  && actor.State() == a
                  && response == if delivery.ReplyLost? || reply.Raised? then None else Some(reply.value)
    {
      hide Execute;
      if closed || delivery.RequestLost? {
        return None;
      }
      var reply := actor.Invoke(cmd, token);
      return if delivery.ReplyLost? || reply.Raised? then None else Some(reply.value);
    }

    method PickOutBatch(size: Value, delivery: Delivery, token: string) returns (answer: Answer)
      modifies this, actor
      ensures (View(), actor.State(), answer)
                == Step(actor.cfg, me, old(View()), old(actor.State()), PickOp(size), delivery, token)
    {
      hide Execute;
      hide Field;
      hide Map;
      if checkout.Some? {
        return Fails;
      }
      var response := Call(InputActor.PickOutBatch(VStr(me.id), size), delivery, token);
      if response.None? || !response.value.VDict? {
        return Fails;
      }
      var v := response.value;
      if Field(v, "status") == VStr("empty") {
        return Gives(VNone);
      }
      if Field(v, "status") != VStr("data") || !Field(v, "checkout").VStr? {
        return Fails;
      }
      checkout := Some(Field(v, "checkout").s);
      var moved := Map(me.codec, Field(v, "data"), me.transfer);
      return if moved.Ok? then Gives(moved.value) else Fails;
    }

    method Add(payload: Value, delivery: Delivery, token: string) returns (answer: Answer)
      modifies this, actor
      ensures (View(), actor.State(), answer)
                == Step(actor.cfg, me, old(View()), old(actor.State()), AddOp(payload), delivery, token)
    {
      hide Execute;
      hide Field;
      var response: Option<Value>;
      if checkout.None? {
        response := Call(InputActor.Donate(VStr(me.id), payload), delivery, token);
      } else {
        response := Call(Publish(VStr(me.id), VStr(checkout.value), payload), delivery, token);
      }
      if response.None? {
        return Fails;
      }
      checkout := None;
      return Gives(Field(response.value, "result"));
    }

    method PublishChildren(given: Value, payload: Value, delivery: Delivery, token: string) returns (answer: Answer)
      modifies this, actor
      ensures (View(), actor.State(), answer)
                == Step(actor.cfg, me, old(View()), old(actor.State()), PublishOp(given, payload), delivery, token)
    {
      hide Execute;
      hide Field;
      if given != OptionalText(checkout) {
        return Fails;
      }
      var response := Call(Publish(VStr(me.id), given, payload), delivery, token);
      if response.None? {
        return Fails;
      }
      checkout := None;
      return Gives(Field(response.value, "result"));
    }

    method Donate(payload: Value, delivery: Delivery, token: string) returns (answer: Answer)
      modifies this, actor
      ensures (View(), actor.State(), answer)
                == Step(actor.cfg, me, old(View()), old(actor.State()), DonateOp(payload), delivery, token)
    {
      hide Execute;
      hide Field;
      if checkout.Some? {
        return Fails;
      }
      var response := Call(InputActor.Donate(VStr(me.id), payload), delivery, token);
      return if response.None? then Fails else Gives(Field(response.value, "result"));
    }

    method CompletePruned(given: Value, delivery: Delivery, token: string) returns (answer: Answer)
      modifies this, actor
      ensures (View(), actor.State(), answer)
                == Step(actor.cfg, me, old(View()), old(actor.State()), CompleteOp(given), delivery, token)
    {
      hide Execute;
      var mine := Token(View(), given);
      if mine.VNone? || mine != OptionalText(checkout) {
        return Fails;
      }
      var response := Call(Complete(VStr(me.id), mine), delivery, token);
      if response.None? {
        return Fails;
      }
      checkout := None;
      return Gives(VNone);
    }

    method Sort(delivery: Delivery, token: string) returns (answer: Answer)
      modifies this, actor
      ensures (View(), actor.State(), answer)
                == Step(actor.cfg, me, old(View()), old(actor.State()), SortOp, delivery, token)
    {
      hide Execute;
      var response := Call(InputActor.Sort, delivery, token);
      return if response.None? then Fails else Gives(VNone);
    }

    method Snapshot(delivery: Delivery, token: string) returns (answer: Answer)
      modifies this, actor
      ensures (View(), actor.State(), answer)
                == Step(actor.cfg, me, old(View()), old(actor.State()), SnapshotOp, delivery, token)
    {
      hide Execute;
      hide SnapshotFromDict;
      var response := Call(GetSnapshot, delivery, token);
      if response.None? {
        return Fails;
      }
      var snapshot := SnapshotFromDict(response.value);
      return if snapshot.None? then Fails else Gives(SnapshotToDict(snapshot.value));
    }

    method WorkerFailed(reason: string, delivery: Delivery, token: string) returns (answer: Answer)
      modifies this, actor
      ensures (View(), actor.State(), answer)
                == Step(actor.cfg, me, old(View()), old(actor.State()), WorkerFailedOp(reason), delivery, token)
    {
      hide Execute;
      hide Field;
      hide SnapshotFromDict;
      var response := Call(InputActor.WorkerFailed(VStr(me.id), reason), delivery, token);
      if response.None? {
        return Fails;
      }
      registered := false;
      checkout := None;
      var snapshot := SnapshotFromDict(Field(response.value, "state"));
      return if snapshot.None? then Fails else Gives(SnapshotToDict(snapshot.value));
    }

    method Close(delivery: Delivery, token: string) returns (answer: Answer)
      modifies this, actor
      ensures (View(), actor.State(), answer)
                == Step(actor.cfg, me, old(View()), old(actor.State()), CloseOp, delivery, token)
    {
      hide Execute;
      if closed {
        return Gives(VNone);
      }
      answer := Gives(VNone);
      if registered {
        var response := Call(CloseWorker(VStr(me.id)), delivery, token);
        answer := if response.None? then Fails else Gives(VNone);
      }
      closed := true;
    }
  }

  /** Closing always ends closed and forgets nothing else; it raises exactly when
      it has to ask the actor and the actor does not answer, or does not know the
      worker. */
  lemma CloseCloses<S>(cfg: Config<S>, w: Worker, f: Facade, a: ActorState<S>, delivery: Delivery, token: string)
    ensures var (f', _, answer) := Step(cfg, w, f, a, CloseOp, delivery, token);
            && f' == f.(closed := true)
            && (answer == Gives(VNone) <==> f.closed || !f.registered || (delivery.Answered? && w.id in a.workers))
  {
    hide SnapshotDict;
  }

  // ---------- Agreement when every call is answered ----------

  predicate Agrees<S>(f: Facade, a: ActorState<S>, worker: string) {
    !a.Failed() ==> f.checkout == Checkout(a, worker)
  }

  /** While the actor has not failed, answered calls keep the facade's checkout
      equal to the actor's entry for its worker. */
  lemma StepAgrees<S>(cfg: Config<S>, w: Worker, f: Facade, a: ActorState<S>, op: Operation, token: string)
    requires Agrees(f, a, w.id)
    ensures var (f', a', _) := Step(cfg, w, f, a, op, Answered, token); Agrees(f', a', w.id)
  {
    hide SnapshotDict;
    hide SnapshotFromDict;
    hide Map;
    hide Field;
    if op.PickOp? {
      PickAgrees(cfg, w, f, a, op, token);
    }
  }

  lemma PickAgrees<S>(cfg: Config<S>, w: Worker, f: Facade, a: ActorState<S>, op: Operation, token: string)
    requires Agrees(f, a, w.id) && op.PickOp?
    ensures var (f', a', _) := Step(cfg, w, f, a, op, Answered, token); Agrees(f', a', w.id)
  {
    hide DataReply;
    hide EmptyReply;
    hide Field;
    hide Map;
    var d := Decide(w.id, f, op);
    if d.Sends? {
      var (a', reply) := Execute(cfg, a, d.cmd, token);
      ReplyFields(cfg, a', VNone, token);
      var pending := cfg.store.length(a.domains);
      if pending != 0 && op.size.VInt? && op.size.i > 0 {
        var picked := cfg.store.pickOut(a.domains, if op.size.i < pending then op.size.i else pending);
        if picked.Returns? {
          ReplyFields(cfg, a', picked.value, token);
        }
      }
    }
  }

  datatype System<S> = System(actor: ActorState<S>, facades: map<string, Facade>)

  datatype Event =
    | Connect(worker: string, delivery: Delivery)
    | Use(worker: string, op: Operation, delivery: Delivery, token: string)
    | Control(cmd: Command)

  /** One facade per worker id; a facade whose registration was not answered is
      never built. */
  predicate Enabled<S>(sys: System<S>, ev: Event) {
    match ev
    case Connect(worker, _) => worker !in sys.facades
    case Use(worker, _, _, _) => worker in sys.facades
    case Control(cmd) => cmd.Fail? || cmd.GetSnapshot?
  }

  /** What the event has the actor execute, if anything. */
  function Executed<S>(jobId: string, sys: System<S>, ev: Event): Option<Command>
    requires Enabled(sys, ev)
  {
    match ev
    case Connect(w, delivery) => if delivery.RequestLost? then None else Some(Register(VStr(w), VStr(jobId)))
    case Use(w, op, delivery, _) =>
      var d := Decide(w, sys.facades[w], op);
      if d.Sends? && !delivery.RequestLost? then Some(d.cmd) else None
    case Control(cmd) => Some(cmd)
  }

  function TokenOf(ev: Event): string {
    if ev.Use? then ev.token else ""
  }

  function Next<S>(cfg: Config<S>, worker: string -> Worker, sys: System<S>, ev: Event): System<S>
    requires Enabled(sys, ev)
  {
    match ev
    case Connect(w, delivery) =>
      if delivery.RequestLost? then sys
      else
        var (a, reply) := Execute(cfg, sys.actor, Register(VStr(w), VStr(cfg.jobId)), "");
        System(a, if delivery.Answered? && reply.Returned? then sys.facades[w := Facade(None, true, false)]
                  else sys.facades)
    case Use(w, op, delivery, token) =>
      var (f, a, _) := Step(cfg, worker(w), sys.facades[w], sys.actor, op, delivery, token);
      System(a, sys.facades[w := f])
    case Control(cmd) => sys.(actor := Execute(cfg, sys.actor, cmd, "").0)
  }

  /** The actor moves by the executed command, if any. */
  lemma NextExecutes<S>(cfg: Config<S>, worker: string -> Worker, sys: System<S>, ev: Event)
    requires Enabled(sys, ev) && forall w :: worker(w).id == w
    ensures var cmd := Executed(cfg.jobId, sys, ev);
            Next(cfg, worker, sys, ev).actor
              == if cmd.Some? then Execute(cfg, sys.actor, cmd.value, TokenOf(ev)).0 else sys.actor
  {
    hide Execute;
    hide Decide;
    hide Hear;
  }

  /** What an event executes names the worker of its own facade or nobody. */
  lemma ExecutesOwn<S>(jobId: string, sys: System<S>, ev: Event)
    requires Enabled(sys, ev)
    ensures var cmd := Executed(jobId, sys, ev);
            cmd.Some? && Names(cmd.value).Some? ==> ev.Use? && Names(cmd.value).value == ev.worker
  {
  }

  /** Only a worker's own facade makes it leave. */
  lemma ExecutesOwnLeave<S>(jobId: string, sys: System<S>, ev: Event)
    requires Enabled(sys, ev)
    ensures var cmd := Executed(jobId, sys, ev);
            cmd.Some? && (cmd.value.CloseWorker? || cmd.value.WorkerFailed?) ==>
              ev.Use? && cmd.value.worker == VStr(ev.worker)
  {
  }

  predicate IsAnswered(ev: Event) {
    match ev
    case Connect(_, delivery) => delivery.Answered?
    case Use(_, _, delivery, _) => delivery.Answered?
    case Control(_) => true
  }

  predicate AllAgree<S>(sys: System<S>) {
    !sys.actor.Failed() ==>
      && (forall w | w in sys.actor.checkouts :: w in sys.facades)
      && (forall w | w in sys.facades :: Agrees(sys.facades[w], sys.actor, w))
  }

  lemma OthersSame<S>(cfg: Config<S>, worker: string -> Worker, sys: System<S>, ev: Event, w: string)
    requires Enabled(sys, ev) && (forall x :: worker(x).id == x) && (ev.Use? ==> ev.worker != w)
    ensures Checkout(Next(cfg, worker, sys, ev).actor, w) == Checkout(sys.actor, w)
  {
    hide Execute;
    hide Next;
    hide Names;
    hide Executed;
    NextExecutes(cfg, worker, sys, ev);
    ExecutesOwn(cfg.jobId, sys, ev);
    var cmd := Executed(cfg.jobId, sys, ev);
    if cmd.Some? {
      OthersUntouched(cfg, sys.actor, cmd.value, TokenOf(ev), w);
    }
  }

  lemma StaysFailed<S>(cfg: Config<S>, worker: string -> Worker, sys: System<S>, ev: Event)
    requires Enabled(sys, ev) && sys.actor.Failed() && forall x :: worker(x).id == x
    ensures Next(cfg, worker, sys, ev).actor.Failed()
  {
    hide Next;
    hide Executed;
    hide SnapshotDict;
    NextExecutes(cfg, worker, sys, ev);
  }

  lemma NextAgrees<S>(cfg: Config<S>, worker: string -> Worker, sys: System<S>, ev: Event)
    requires AllAgree(sys) && Enabled(sys, ev) && IsAnswered(ev) && forall w :: worker(w).id == w
    ensures AllAgree(Next(cfg, worker, sys, ev))
  {
    hide Execute;
    hide Step;
    var sys' := Next(cfg, worker, sys, ev);
    if sys.actor.Failed() {
      StaysFailed(cfg, worker, sys, ev);
    } else if !sys'.actor.Failed() {
      if ev.Use? {
        StepAgrees(cfg, worker(ev.worker), sys.facades[ev.worker], sys.actor, ev.op, ev.token);
      }
      forall w | (ev.Use? ==> ev.worker != w)
        ensures Checkout(sys'.actor, w) == Checkout(sys.actor, w)
      {
        OthersSame(cfg, worker, sys, ev, w);
      }
      forall w | w in sys'.actor.checkouts
        ensures w in sys'.facades
      {
        if !(ev.Use? && ev.worker == w) {
          assert Checkout(sys'.actor, w) == Checkout(sys.actor, w);
        }
      }
      forall w | w in sys'.facades
        ensures Agrees(sys'.facades[w], sys'.actor, w)
      {
        if !(ev.Use? && ev.worker == w) {
          assert Checkout(sys'.actor, w) == Checkout(sys.actor, w);
        }
      }
    }
  }

  predicate AllEnabled<S>(cfg: Config<S>, worker: string -> Worker, sys: System<S>, evs: seq<Event>)
    decreases |evs|
  {
    evs == [] || (Enabled(sys, evs[0]) && AllEnabled(cfg, worker, Next(cfg, worker, sys, evs[0]), evs[1..]))
  }

  function After<S>(cfg: Config<S>, worker: string -> Worker, sys: System<S>, evs: seq<Event>): System<S>
    requires AllEnabled(cfg, worker, sys, evs)
    decreases |evs|
  {
    if evs == [] then sys else After(cfg, worker, Next(cfg, worker, sys, evs[0]), evs[1..])
  }

  /** With one facade per worker id and every call answered, in every run and
      as long as the actor has not failed, all facades agree with it. */
  lemma {:induction false} ReliableRunsAgree<S>(
    cfg: Config<S>, worker: string -> Worker, sys: System<S>, evs: seq<Event>)
    requires AllAgree(sys) && AllEnabled(cfg, worker, sys, evs) && forall w :: worker(w).id == w
    requires forall ev | ev in evs :: IsAnswered(ev)
    ensures AllAgree(After(cfg, worker, sys, evs))
    decreases |evs|
  {
    hide Next;
    hide AllAgree;
    hide IsAnswered;
    if evs != [] {
      assert evs[0] in evs;
      NextAgrees(cfg, worker, sys, evs[0]);
      ReliableRunsAgree(cfg, worker, Next(cfg, worker, sys, evs[0]), evs[1..]);
    }
  }

  // ---------- One lost reply ----------

  /** The calls that open or end a checkout: a pick by a registered worker
      without a checkout, of a positive size, from a list that is not empty and
      hands it out; a publish of the active checkout that the list takes; a
      completion of the active checkout. */
  predicate OpensOrEnds<S>(cfg: Config<S>, a: ActorState<S>, cmd: Command) {
    match cmd
    case PickOutBatch(w, size) =>
      && w.VStr? && w.s in a.workers && w.s !in a.checkouts && size.VInt? && size.i > 0
      && var pending := cfg.store.length(a.domains);
         pending > 0 && cfg.store.pickOut(a.domains, if size.i < pending then size.i else pending).Returns?
    case Publish(w, checkout, payload) =>
      HoldsToken(a, w, checkout) && cfg.store.add(a.domains, payload).Returns?
    case Complete(w, checkout) => HoldsToken(a, w, checkout)
    case _ => false
  }

  predicate HoldsToken<S>(a: ActorState<S>, w: Value, checkout: Value) {
    && w.VStr? && w.s in a.workers && w.s in a.checkouts && checkout == VStr(a.checkouts[w.s])
  }

  /** After a call that was executed but never answered, facade and actor still
      agree exactly when the call was none of those. */
  lemma AgreementAfterLoss<S>(cfg: Config<S>, w: Worker, f: Facade, a: ActorState<S>, op: Operation, token: string)
    requires Agrees(f, a, w.id) && !a.Failed() && Decide(w.id, f, op).Sends?
    ensures var (f', a', _) := Step(cfg, w, f, a, op, ReplyLost, token);
            Agrees(f', a', w.id) <==> !OpensOrEnds(cfg, a, Decide(w.id, f, op).cmd)
  {
    hide SnapshotDict;
  }

  // ---------- A lost pick ----------

  /** The actor holds a checkout for a worker whose facade knows of none. */
  predicate Stranded<S>(sys: System<S>, w: string) {
    && w in sys.facades && sys.facades[w].checkout.None? && w in sys.actor.checkouts
    && (!sys.actor.Failed() ==> w in sys.actor.workers)
  }

  /** A pick that succeeds and whose reply is lost strands its batch. */
  lemma LostPickStrands<S>(
    cfg: Config<S>, worker: string -> Worker, sys: System<S>, w: string, size: Value, token: string)
    requires w in sys.facades && !sys.actor.Failed() && forall x :: worker(x).id == x
    requires Decide(w, sys.facades[w], PickOp(size)).Sends? && OpensOrEnds(cfg, sys.actor, PickOutBatch(VStr(w), size))
    ensures Stranded(Next(cfg, worker, sys, Use(w, PickOp(size), ReplyLost, token)), w)
  {
    hide SnapshotDict;
  }

  /** What a facade can still do about its stranded batch: nothing. Every call it
      sends, however it fares, leaves the entry; every pick is refused, whatever
      its size, and changes nothing. */
  lemma StrandedStep<S>(
    cfg: Config<S>, w: Worker, f: Facade, a: ActorState<S>, op: Operation, delivery: Delivery, token: string)
    requires f.checkout.None? && w.id in a.checkouts && (!a.Failed() ==> w.id in a.workers)
    ensures var (f', a', answer) := Step(cfg, w, f, a, op, delivery, token);
            && f'.checkout.None? && Checkout(a', w.id) == Checkout(a, w.id)
            && (!a'.Failed() ==> w.id in a'.workers)
            && (op.PickOp? ==> (f', a', answer) == (f, a, Fails))
            && (!a.Failed() ==>
                  (a'.Failed() <==> !delivery.RequestLost? && !f.closed
                                    && (op.WorkerFailedOp? || (op.CloseOp? && f.registered))))
  {
    hide SnapshotDict;
    hide SnapshotFromDict;
    hide Map;
    hide Field;
  }

  /** Leaving is a worker's own doing. */
  lemma WorkerStays<S>(cfg: Config<S>, a: ActorState<S>, cmd: Command, token: string, w: string)
    requires w in a.workers
    requires (cmd.CloseWorker? || cmd.WorkerFailed?) ==> cmd.worker != VStr(w)
    ensures w in Execute(cfg, a, cmd, token).0.workers
  {
    hide SnapshotDict;
  }

  lemma StrandedStays<S>(cfg: Config<S>, worker: string -> Worker, sys: System<S>, ev: Event, w: string)
    requires Stranded(sys, w) && Enabled(sys, ev) && forall x :: worker(x).id == x
    ensures Stranded(Next(cfg, worker, sys, ev), w)
    ensures Checkout(Next(cfg, worker, sys, ev).actor, w) == Checkout(sys.actor, w)
  {
    if ev.Use? && ev.worker == w {
      hide Step;
      StrandedStep(cfg, worker(w), sys.facades[w], sys.actor, ev.op, ev.delivery, ev.token);
    } else {
      hide Execute;
      hide Step;
      hide Decide;
      hide Executed;
      hide Names;
      OthersSame(cfg, worker, sys, ev, w);
      ExecutesOwnLeave(cfg.jobId, sys, ev);
      NextExecutes(cfg, worker, sys, ev);
      if sys.actor.Failed() {
        StaysFailed(cfg, worker, sys, ev);
      } else if Executed(cfg.jobId, sys, ev).Some? {
        WorkerStays(cfg, sys.actor, Executed(cfg.jobId, sys, ev).value, TokenOf(ev), w);
      }
    }
  }

  /** A lost pick is never noticed and never repaired. In every later state,
      whatever this and the other workers call and however their calls fare: the
      entry stays, so `shared_idle` is false; the facade knows of no checkout;
      and every further pick of any size is refused and changes nothing. */
  lemma {:induction false} LostPickForever<S>(
    cfg: Config<S>, worker: string -> Worker, sys: System<S>, evs: seq<Event>, w: string)
    requires Stranded(sys, w) && AllEnabled(cfg, worker, sys, evs) && forall x :: worker(x).id == x
    ensures var later := After(cfg, worker, sys, evs);
            && Stranded(later, w) && Checkout(later.actor, w) == Checkout(sys.actor, w)
            && !StateOf(cfg.store, later.actor).idle
            && forall size, delivery, token ::
                 Step(cfg, worker(w), later.facades[w], later.actor, PickOp(size), delivery, token)
                   == (later.facades[w], later.actor, Fails)
    decreases |evs|
  {
    hide Next;
    if evs != [] {
      hide Stranded;
      StrandedStays(cfg, worker, sys, evs[0], w);
      LostPickForever(cfg, worker, Next(cfg, worker, sys, evs[0]), evs[1..], w);
    } else {
      assert sys.actor.checkouts != map[];
      forall size, delivery, token
        ensures Step(cfg, worker(w), sys.facades[w], sys.actor, PickOp(size), delivery, token)
                  == (sys.facades[w], sys.actor, Fails)
      {
        StrandedStep(cfg, worker(w), sys.facades[w], sys.actor, PickOp(size), delivery, token);
      }
      hide Step;
    }
  }

  /** Only two calls bring a lost pick to light, by failing the actor: the
      stranded worker reporting its failure, and its facade closing while still
      registered. */
  lemma StrandedFailure<S>(
    cfg: Config<S>, worker: string -> Worker, sys: System<S>, w: string, op: Operation, delivery: Delivery,
    token: string)
    requires Stranded(sys, w) && !sys.actor.Failed() && forall x :: worker(x).id == x
    ensures Next(cfg, worker, sys, Use(w, op, delivery, token)).actor.Failed() <==>
              && !delivery.RequestLost? && !sys.facades[w].closed
              && (op.WorkerFailedOp? || (op.CloseOp? && sys.facades[w].registered))
  {
    hide Step;
    StrandedStep(cfg, worker(w), sys.facades[w], sys.actor, op, delivery, token);
  }
}
