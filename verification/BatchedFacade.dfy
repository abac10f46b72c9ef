/** The worker's facade over the shared actor: what each call decides locally,
    what it sends, and what it makes of the reply or of its absence. */
module BatchedFacade {
  import opened Results
  import opened Tensors
  import opened Values
  import opened Packets
  import opened MapTensors
  import opened SharedStates
  import opened ActorStates
  import opened BatchedActor

  datatype Facade = Facade(checkout: Option<string>, hasBatch: bool, broken: bool, closed: bool) {
    predicate Usable() {
      !broken && !closed
    }
  }

  const NEW_FACADE := Facade(None, false, false, false)

  datatype Operation =
    | PickOp(batch: Value)
    | AddOp(bounds: Value, data: Value, flag: Value)
    | CompleteOp(checkout: Value)
    | PublishOp(checkout: Value, bounds: Value, data: Value, flag: Value)
    | PrunedOp(checkout: Value)
    | DonateOp(bounds: Value, data: Value, flag: Value)
    | StateOp
    | SnapshotOp
    | SortOp
    | GetItemOp(index: Value, version: Value)
    | WorkerFailedOp(reason: string)
    | CloseOp

  /** What the caller gets: a value, or some exception. */
  datatype Answer = Gives(value: Value) | Fails

  datatype Decision = Finished(facade: Facade, answer: Answer) | Sends(cmd: Command)

  /** How one call fares: whether the stop event is set, whether the reply
      arrives, and the identity a pick would be given. */
  datatype Link = Link(stopped: bool, answered: bool, token: string)

  /** A worker's side: its id, its codec, and the move to its device. */
  datatype Worker = Worker(id: string, codec: Codec, transfer: Dense -> Dense)

  // ---------- Before the call ----------

  function Token(f: Facade, checkout: Value): Value {
    if checkout.VNone? then OptionalText(f.checkout) else checkout
  }

  /** `_call` raises before sending if the facade is closed, broken or stopped. */
  function Send(f: Facade, stopped: bool, cmd: Command): Decision {
    if !f.Usable() || stopped then Finished(f, Fails) else Sends(cmd)
  }

  function Decide(w: string, f: Facade, op: Operation, stopped: bool): Decision {
    var me := VStr(w);
    match op
    case PickOp(batch) =>
      if !batch.VInt? || batch.i <= 0 || f.hasBatch then Finished(f, Fails)
      else Send(f, stopped, PickOut(me, batch))
    case AddOp(bounds, data, flag) =>
      if !flag.VBool? then Finished(f, Fails) else Send(f, stopped, Add(me, bounds, data, flag))
    case CompleteOp(checkout) =>
      if !f.hasBatch || Token(f, checkout) != OptionalText(f.checkout) then Finished(f, Fails)
      else Send(f, stopped, Complete(me, Token(f, checkout)))
    case PublishOp(checkout, bounds, data, flag) =>
      if checkout != OptionalText(f.checkout) then Finished(f, Fails)
      else Send(f, stopped, Publish(me, checkout, bounds, data, flag))
    case PrunedOp(checkout) =>
      if Token(f, checkout).VNone? || Token(f, checkout) != OptionalText(f.checkout) then Finished(f, Fails)
      else Send(f, stopped, CompletePruned(me, Token(f, checkout)))
    case DonateOp(bounds, data, flag) =>
      if f.checkout.Some? then Finished(f, Fails) else Send(f, stopped, Donate(me, bounds, data, flag))
    case StateOp => Send(f, stopped, GetState)
    case SnapshotOp => Send(f, stopped, GetSnapshot)
    case SortOp => Send(f, stopped, Sort)
    case GetItemOp(index, version) => Send(f, stopped, GetItem(index, version))
    case WorkerFailedOp(reason) => Send(f, stopped, WorkerFailed(me, reason))
    case CloseOp =>
      if f.Usable() && !stopped then Sends(CloseWorker(me))
      else Finished(f.(closed := true), Gives(VNone))
  }

  // ---------- After the call ----------

  function Moved(w: Worker, v: Value): Answer {
    var moved := Map(w.codec, v, w.transfer);
    if moved.Ok? then Gives(moved.value) else Fails
  }

  predicate HasStatus(v: Value, status: string) {
    v.VDict? && Field(v, "status") == VStr(status)
  }

  function Released(f: Facade): Facade {
    f.(hasBatch := false, checkout := None)
  }

  function HearPick(w: Worker, f: Facade, v: Value): (Facade, Answer) {
    if !v.VDict? then (f.(broken := true), Fails)
    else if HasStatus(v, "empty") then (f, Gives(VNone))
    else if !HasStatus(v, "data") then (f, Fails)
    else if !Field(v, "domains").VDict? then (f.(broken := true), Fails)
    else
      var token := Field(v, "checkout");
      if !token.VStr? || token.s == "" then (f.(hasBatch := true, broken := true), Fails)
      else (f.(hasBatch := true, checkout := Some(token.s)), Moved(w, Field(v, "domains")))
  }

  function Hear(w: Worker, f: Facade, op: Operation, reply: Reply): (Facade, Answer) {
    if op.CloseOp? then (f.(broken := f.broken || reply.Raised?, closed := true), Gives(VNone))
    else if reply.Raised? then (f.(broken := true), Fails)
    else
      var v := reply.value;
      match op
      case PickOp(_) => HearPick(w, f, v)
      case AddOp(_, _, _) =>
        if !HasStatus(v, "ok") then (f, Fails) else (Released(f), Moved(w, Field(v, "global_lb")))
      case PublishOp(_, _, _, _) =>
        if !HasStatus(v, "ok") then (f, Fails) else (Released(f), Moved(w, Field(v, "global_lb")))
      case DonateOp(_, _, _) =>
        if !HasStatus(v, "ok") then (f, Fails) else (f, Moved(w, Field(v, "global_lb")))
      case CompleteOp(_) => if !HasStatus(v, "ok") then (f, Fails) else (Released(f), Gives(VNone))
      case PrunedOp(_) => if !HasStatus(v, "ok") then (f, Fails) else (Released(f), Gives(VNone))
      case StateOp =>
        var state := FromDict(v);
        (f, if state.None? then Fails else Gives(ToDict(state.value)))
      case SnapshotOp =>
        var snapshot := SnapshotFromDict(v);
        (f, if snapshot.None? then Fails else Gives(SnapshotToDict(snapshot.value)))
      case SortOp => (f, if HasStatus(v, "ok") then Gives(VNone) else Fails)
      case GetItemOp(_, _) =>
        (f, if !v.VDict? || Find(v.entries, "record").None? || RecordOf(Field(v, "record")).None? then Fails
            else Gives(RecordOf(Field(v, "record")).value))
      case WorkerFailedOp(_) =>
        if !HasStatus(v, "ok") then (f, Fails)
        else
          var state := FromDict(Field(v, "state"));
          (f, if state.None? then Fails else Gives(ToDict(state.value)))
      case CloseOp => (f.(closed := true), Gives(VNone))
  }

  /** No reply in time: the facade is broken from now on. */
  function Miss(f: Facade, op: Operation): (Facade, Answer) {
    if op.CloseOp? then (f.(broken := true, closed := true), Gives(VNone)) else (f.(broken := true), Fails)
  }

  /** One facade call against the actor. */
  function Step<S>(cfg: Config<S>, w: Worker, f: Facade, a: ActorState<S>, op: Operation, link: Link)
    : (Facade, ActorState<S>, Answer)
  {
    match Decide(w.id, f, op, link.stopped)
    case Finished(f', answer) => (f', a, answer)
    case Sends(cmd) =>
      if link.answered then
        var (a', reply) := Execute(cfg, a, cmd, link.token);
        var (f', answer) := Hear(w, f, op, reply);
        (f', a', answer)
      else
        var (f', answer) := Miss(f, op);
        (f', a, answer)
  }

  // ---------- The facade ----------

  class RpcBatchedDomainList<S> {
    const me: Worker
    const actor: BatchedDomainListActor<S>
    var hasCheckedOutBatch: bool
    var checkout: Option<string>
    var closed: bool
    var broken: bool

    constructor (me: Worker, actor: BatchedDomainListActor<S>)
      ensures this.me == me && this.actor == actor && View() == NEW_FACADE
    {
      this.me, this.actor := me, actor;
      hasCheckedOutBatch, checkout, closed, broken := false, None, false, false;
    }

    function View(): Facade
      reads this
    {
      Facade(checkout, hasCheckedOutBatch, broken, closed)
    }

    /** Send one request; `None` means an exception, after which the facade is
        broken unless nothing was sent. */
    method Call(cmd: Command, link: Link) returns (response: Option<Value>)
      modifies this, actor
      ensures match Send(old(View()), link.stopped, cmd)
              case Finished(_, _) => response.None? && View() == old(View()) && actor.State() == old(actor.State())
              case Sends(_) =>
                if link.answered then
                  var (a, reply) := Execute(actor.cfg, old(actor.State()), cmd, link.token);
                  && actor.State() == a
                  && View() == old(View()).(broken := reply.Raised?)
                  && response == if reply.Raised? then None else Some(reply.value)
                else
                  response.None? && View() == old(View()).(broken := true) && actor.State() == old(actor.State())
    {
      hide Execute;
      if closed || broken {
        return None;
      }
      if link.stopped {
        return None;
      }
      if !link.answered {
        broken := true;
        return None;
      }
      var reply := actor.Invoke(cmd, link.token);
      if reply.Raised? {
        broken := true;
        return None;
      }
      return Some(reply.value);
    }

    method PickOut(batch: Value, link: Link) returns (answer: Answer)
      modifies this, actor
      ensures (View(), actor.State(), answer)
                == Step(actor.cfg, me, old(View()), old(actor.State()), PickOp(batch), link)
    {
      hide Execute;
      hide Map;
      hide Field;
      if !batch.VInt? || batch.i <= 0 {
        return Fails;
      }
      if hasCheckedOutBatch {
        return Fails;
      }
      var response := Call(BatchedActor.PickOut(VStr(me.id), batch), link);
      if response.None? {
        return Fails;
      }
      var v := response.value;
      if !v.VDict? {
        broken := true;
        return Fails;
      }
      if HasStatus(v, "empty") {
        return Gives(VNone);
      }
      if !HasStatus(v, "data") {
        return Fails;
      }
      var domains := Field(v, "domains");
      if !domains.VDict? {
        broken := true;
        return Fails;
      }
      hasCheckedOutBatch := true;
      var token := Field(v, "checkout");
      if !token.VStr? || token.s == "" {
        broken := true;
        return Fails;
      }
      checkout := Some(token.s);
      return Moved(me, domains);
    }

    method Add(bounds: Value, data: Value, flag: Value, link: Link) returns (answer: Answer)
      modifies this, actor
      ensures (View(), actor.State(), answer)
                == Step(actor.cfg, me, old(View()), old(actor.State()), AddOp(bounds, data, flag), link)
    {
      hide Execute;
      hide Map;
      hide Field;
      if !flag.VBool? {
        return Fails;
      }
      var response := Call(BatchedActor.Add(VStr(me.id), bounds, data, flag), link);
      if response.None? || !HasStatus(response.value, "ok") {
        return Fails;
      }
      hasCheckedOutBatch := false;
      checkout := None;
      return Moved(me, Field(response.value, "global_lb"));
    }

    method CompletePickToLocal(given: Value, link: Link) returns (answer: Answer)
      modifies this, actor
      ensures (View(), actor.State(), answer)
                == Step(actor.cfg, me, old(View()), old(actor.State()), CompleteOp(given), link)
    {
      hide Execute;
      hide Field;
      if !hasCheckedOutBatch {
        return Fails;
      }
      var token := Token(View(), given);
      if token != OptionalText(checkout) {
        return Fails;
      }
      var response := Call(Complete(VStr(me.id), token), link);
      if response.None? || !HasStatus(response.value, "ok") {
        return Fails;
      }
      hasCheckedOutBatch := false;
      checkout := None;
      return Gives(VNone);
    }

    method PublishChildren(given: Value, bounds: Value, data: Value, flag: Value, link: Link) returns (answer: Answer)
      modifies this, actor
      ensures (View(), actor.State(), answer)
                == Step(actor.cfg, me, old(View()), old(actor.State()), PublishOp(given, bounds, data, flag), link)
    {
      hide Execute;
      hide Map;
      hide Field;
      if given != OptionalText(checkout) {
        return Fails;
      }
      var response := Call(Publish(VStr(me.id), given, bounds, data, flag), link);
      if response.None? || !HasStatus(response.value, "ok") {
        return Fails;
      }
      hasCheckedOutBatch := false;
      checkout := None;
      return Moved(me, Field(response.value, "global_lb"));
    }

    method CompletePruned(given: Value, link: Link) returns (answer: Answer)
      modifies this, actor
      ensures (View(), actor.State(), answer)
                == Step(actor.cfg, me, old(View()), old(actor.State()), PrunedOp(given), link)
    {
      hide Execute;
      hide Field;
      var token := Token(View(), given);
      if token.VNone? || token != OptionalText(checkout) {
        return Fails;
      }
      var response := Call(BatchedActor.CompletePruned(VStr(me.id), token), link);
      if response.None? || !HasStatus(response.value, "ok") {
        return Fails;
      }
      hasCheckedOutBatch := false;
      checkout := None;
      return Gives(VNone);
    }

    method Donate(bounds: Value, data: Value, flag: Value, link: Link) returns (answer: Answer)
      modifies this, actor
      ensures (View(), actor.State(), answer)
                == Step(actor.cfg, me, old(View()), old(actor.State()), DonateOp(bounds, data, flag), link)
    {
      hide Execute;
      hide Map;
      hide Field;
      if checkout.Some? {
        return Fails;
      }
      var response := Call(BatchedActor.Donate(VStr(me.id), bounds, data, flag), link);
      if response.None? || !HasStatus(response.value, "ok") {
        return Fails;
      }
      return Moved(me, Field(response.value, "global_lb"));
    }

    method State(link: Link) returns (answer: Answer)
      modifies this, actor
      ensures (View(), actor.State(), answer)
                == Step(actor.cfg, me, old(View()), old(actor.State()), StateOp, link)
    {
      hide Execute;
      hide FromDict;
      var response := Call(GetState, link);
      if response.None? {
        return Fails;
      }
      var state := FromDict(response.value);
      return if state.None? then Fails else Gives(ToDict(state.value));
    }

    method Snapshot(link: Link) returns (answer: Answer)
      modifies this, actor
      ensures (View(), actor.State(), answer)
                == Step(actor.cfg, me, old(View()), old(actor.State()), SnapshotOp, link)
    {
      hide Execute;
      hide SnapshotFromDict;
      var response := Call(GetSnapshot, link);
      if response.None? {
        return Fails;
      }
      var snapshot := SnapshotFromDict(response.value);
      return if snapshot.None? then Fails else Gives(SnapshotToDict(snapshot.value));
    }

    method Sort(link: Link) returns (answer: Answer)
      modifies this, actor
      ensures (View(), actor.State(), answer)
                == Step(actor.cfg, me, old(View()), old(actor.State()), SortOp, link)
    {
      hide Execute;
      var response := Call(BatchedActor.Sort, link);
      return if response.Some? && HasStatus(response.value, "ok") then Gives(VNone) else Fails;
    }

    method GetItem(index: Value, version: Value, link: Link) returns (answer: Answer)
      modifies this, actor
      ensures (View(), actor.State(), answer)
                == Step(actor.cfg, me, old(View()), old(actor.State()), GetItemOp(index, version), link)
    {
      hide Execute;
      hide Field;
      var response := Call(BatchedActor.GetItem(index, version), link);
      if response.None? || !response.value.VDict? || Find(response.value.entries, "record").None? {
        return Fails;
      }
      var record := RecordOf(Field(response.value, "record"));
      return if record.None? then Fails else Gives(record.value);
    }

    method WorkerFailed(reason: string, link: Link) returns (answer: Answer)
      modifies this, actor
      ensures (View(), actor.State(), answer)
                == Step(actor.cfg, me, old(View()), old(actor.State()), WorkerFailedOp(reason), link)
    {
      hide Execute;
      hide FromDict;
      hide Field;
      var response := Call(BatchedActor.WorkerFailed(VStr(me.id), reason), link);
      if response.None? || !HasStatus(response.value, "ok") {
        return Fails;
      }
      var state := FromDict(Field(response.value, "state"));
      return if state.None? then Fails else Gives(ToDict(state.value));
    }

    method Close(link: Link)
      modifies this, actor
      ensures (View(), actor.State(), Gives(VNone))
                == Step(actor.cfg, me, old(View()), old(actor.State()), CloseOp, link)
    {
      hide Execute;
      if closed {
        return;
      }
      if !broken {
        var response := Call(CloseWorker(VStr(me.id)), link);
      }
      closed := true;
    }
  }

  // ---------- Replies nobody vouches for ----------

  /** A reply that hands over a batch and names its checkout. */
  predicate HandsOver(v: Value) {
    && HasStatus(v, "data") && Field(v, "domains").VDict?
    && Field(v, "checkout").VStr? && Field(v, "checkout").s != ""
  }

  /** Whatever comes back for a pick: the facade holds a checkout exactly if the
      reply hands a batch over, and then its batch is the answer; a reply that
      claims a batch without handing it over, or is no dictionary, or an error,
      breaks the facade. */
  lemma AnyPickReply(w: Worker, f: Facade, size: Value, reply: Reply)
    requires f.Usable() && f.checkout.None? && !f.hasBatch
    ensures var (f', answer) := Hear(w, f, PickOp(size), reply);
            && !f'.closed
            && (f'.checkout.Some? <==> reply.Returned? && HandsOver(reply.value))
            && (f'.checkout.Some? ==>
                  && f' == Facade(Some(Field(reply.value, "checkout").s), true, false, false)
                  && answer == Moved(w, Field(reply.value, "domains")))
            && (f'.broken <==>
                  reply.Raised? || !reply.value.VDict? || (HasStatus(reply.value, "data") && !HandsOver(reply.value)))
            && (f'.checkout.None? && answer.Gives? <==> reply.Returned? && HasStatus(reply.value, "empty"))
  {
    hide Map;
    hide Field;
  }

  /** Whatever comes back for the other calls: an error breaks the facade and
      nothing else does; the checkout is given up exactly by an add, publish or
      completion that was answered ok, and never changed otherwise; closing
      always ends closed. */
  lemma AnyReply(w: Worker, f: Facade, op: Operation, reply: Reply)
    requires f.Usable() && !op.PickOp?
    ensures var (f', answer) := Hear(w, f, op, reply);
            && (f'.broken <==> reply.Raised?) && (f'.closed <==> op.CloseOp?)
            && (f'.checkout, f'.hasBatch)
               == (if reply.Returned? && HasStatus(reply.value, "ok")
                      && (op.AddOp? || op.PublishOp? || op.CompleteOp? || op.PrunedOp?)
                   then (None, false) else (f.checkout, f.hasBatch))
            && (answer.Gives? && !op.CloseOp? && !op.StateOp? && !op.SnapshotOp? && !op.GetItemOp? ==>
                  reply.Returned? && HasStatus(reply.value, "ok"))
  {
    hide Map;
    hide Field;
    hide FromDict;
    hide SnapshotFromDict;
    hide RecordOf;
  }
}
