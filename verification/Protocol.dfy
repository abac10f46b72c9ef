/** Many facades, one actor, and a transport that may lose or delay: every
    interleaving as a transition system, with the books kept alongside. */
module Protocol {
  import opened Results
  import opened Values
  import opened Stores
  import opened SharedStates
  import opened ActorStates
  import opened BatchedActor
  import opened BatchedOutcomes
  import opened BatchedRuns
  import opened BatchedFacade

  /** A request whose caller stopped waiting; it may still be executed later. */
  datatype Request = Request(worker: string, cmd: Command)

  datatype System<S> = System(
    actor: ActorState<S>, facades: map<string, Facade>, wire: seq<Request>, book: Ledger)

  datatype Setup<!S(!new)> = Setup(cfg: Config<S>, acct: Accounting<S>, worker: string -> Worker) {
    ghost predicate Valid() {
      acct.Balances(cfg.store) && forall w :: worker(w).id == w
    }
  }

  datatype Event =
    | Connect(worker: string, answered: bool)            // a facade is built and registers
    | Use(worker: string, op: Operation, link: Link)     // one facade call, under its lock
    | Deliver(i: nat, token: string)                     // a late request is executed
    | Control(cmd: Command)                              // the owner observes or fails the actor

  predicate IsControl(cmd: Command) {
    cmd.Fail? || cmd.WorkerFailed? || cmd.GetState? || cmd.GetSnapshot?
  }

  /** One facade per worker id; pick identities are fresh and not empty. */
  predicate Enabled<S>(sys: System<S>, ev: Event) {
    match ev
    case Connect(worker, _) => worker !in sys.facades
    case Use(worker, _, link) => worker in sys.facades && link.token != "" && Fresh(sys.book, link.token)
    case Deliver(i, token) => i < |sys.wire| && token != "" && Fresh(sys.book, token)
    case Control(cmd) => IsControl(cmd)
  }

  /** The actor executes one command; the books record what its reply tells. */
  ghost function Perform<S(!new)>(u: Setup<S>, sys: System<S>, cmd: Command, token: string): System<S> {
    var (a, reply) := Execute(u.cfg, sys.actor, cmd, token);
    sys.(actor := a, book := Record(sys.book, EffectOf(u.acct, sys.actor, cmd, reply)))
  }

  const DEAD_FACADE := Facade(None, false, true, true)

  ghost function Next<S(!new)>(u: Setup<S>, sys: System<S>, ev: Event): System<S>
    requires Enabled(sys, ev)
  {
    match ev
    case Connect(worker, answered) =>
      var cmd := Register(VStr(worker), VStr(u.cfg.jobId));
      if answered then
        var reply := Execute(u.cfg, sys.actor, cmd, "").1;
        var sys' := Perform(u, sys, cmd, "");
        sys'.(facades := sys'.facades[worker := if reply.Returned? then NEW_FACADE else DEAD_FACADE])
      else
        sys.(facades := sys.facades[worker := DEAD_FACADE], wire := sys.wire + [Request(worker, cmd)])
    case Use(worker, op, link) =>
      var f := sys.facades[worker];
      var f' := Step(u.cfg, u.worker(worker), f, sys.actor, op, link).0;
      var after := match Decide(u.worker(worker).id, f, op, link.stopped)
                   case Finished(_, _) => sys
                   case Sends(cmd) =>
                     if link.answered then Perform(u, sys, cmd, link.token)
                     else sys.(wire := sys.wire + [Request(worker, cmd)]);
      after.(facades := sys.facades[worker := f'])
    case Deliver(i, token) =>
      var sys' := Perform(u, sys, sys.wire[i].cmd, token);
      sys'.(wire := sys.wire[..i] + sys.wire[i + 1..])
    case Control(cmd) => Perform(u, sys, cmd, "")
  }

  ghost function Start<S(!new)>(u: Setup<S>, domains: S): System<S> {
    System(Initial(domains), map[], [], InitialBook(u.acct, domains))
  }

  // ---------- The invariant ----------

  /** The facade's view of its checkout is the actor's entry for its worker. */
  predicate Agrees<S>(f: Facade, a: ActorState<S>, worker: string) {
    f.checkout == Checkout(a, worker) && (f.hasBatch <==> f.checkout.Some?)
  }

  predicate Pending(wire: seq<Request>, worker: string) {
    exists r | r in wire :: r.worker == worker
  }

  ghost predicate WireOk<S>(sys: System<S>) {
    && (forall i, j | 0 <= i < j < |sys.wire| :: sys.wire[i].worker != sys.wire[j].worker)
    && (forall r | r in sys.wire ::
          && r.worker in sys.facades && sys.facades[r.worker].broken
          && (Names(r.cmd).Some? ==> Names(r.cmd).value == r.worker))
  }

  ghost predicate FacadesOk<S>(sys: System<S>) {
    && (forall w | w in sys.actor.checkouts :: w in sys.facades)
    && (forall w | w in sys.facades && sys.facades[w].Usable() :: Agrees(sys.facades[w], sys.actor, w))
  }

  ghost predicate Inv<S(!new)>(u: Setup<S>, sys: System<S>) {
    Balanced(u.acct, sys.actor, sys.book) && WireOk(sys) && FacadesOk(sys)
  }

  // ---------- Replies a facade can rely on ----------

  lemma ReplyFields<S>(cfg: Config<S>, s: ActorState<S>, v: Value)
    ensures HasStatus(OkReply(cfg, s).value, "ok") && HasStatus(AddedReply(cfg, s, v).value, "ok")
    ensures OkReply(cfg, s).Returned? && AddedReply(cfg, s, v).Returned?
    ensures Field(OkReply(cfg, s).value, "state") == StateDict(cfg, s)
    ensures Field(AddedReply(cfg, s, v).value, "global_lb") == v
  {
    hide StateDict;
    FindAt(OkReply(cfg, s).value.entries, 0, "status");
    FindAt(OkReply(cfg, s).value.entries, 1, "state");
    FindAt(AddedReply(cfg, s, v).value.entries, 0, "status");
    FindAt(AddedReply(cfg, s, v).value.entries, 1, "global_lb");
  }

  lemma CompletionAgrees<S>(
    cfg: Config<S>, w: Worker, f: Facade, a: ActorState<S>, op: Operation, cmd: Command, link: Link)
    requires f.Usable() && Agrees(f, a, w.id) && Decide(w.id, f, op, link.stopped) == Sends(cmd)
    requires op.AddOp? || op.PublishOp? || op.CompleteOp? || op.PrunedOp? || op.DonateOp?
    ensures var (a', reply) := Execute(cfg, a, cmd, link.token);
            var f' := Hear(w, f, op, reply).0;
            f'.Usable() ==> Agrees(f', a', w.id)
  {
    hide StateDict;
    hide OkReply;
    hide AddedReply;
    hide HasStatus;
    hide StoreAdd;
    hide Moved;
    var (a', reply) := Execute(cfg, a, cmd, link.token);
    ReplyFields(cfg, a', VNone);
    if cmd.Add? || cmd.Publish? || cmd.Donate? {
      var added := StoreAdd(cfg, a.domains, cmd.bounds, cmd.data, cmd.flag);
      if added.Returns? {
        ReplyFields(cfg, a', added.value);
      }
      if cmd.Donate? {
        DonateKeepsCheckouts(cfg, a, cmd.worker, cmd.bounds, cmd.data, cmd.flag);
      }
    }
  }

  lemma PickAgrees<S>(cfg: Config<S>, w: Worker, f: Facade, a: ActorState<S>, op: Operation, cmd: Command, link: Link)
    requires f.Usable() && Agrees(f, a, w.id) && Decide(w.id, f, op, link.stopped) == Sends(cmd)
    requires op.PickOp? && link.token != ""
    ensures var (a', reply) := Execute(cfg, a, cmd, link.token);
            var f' := Hear(w, f, op, reply).0;
            f'.Usable() ==> Agrees(f', a', w.id)
  {
    hide StateDict;
    hide DataReply;
    hide EmptyReply;
    hide Field;
    hide Moved;
    var (a', reply) := Execute(cfg, a, cmd, link.token);
    DataReplyFields(cfg, a', VNone, link.token);
    if reply.Returned? {
      var pending := cfg.store.length(a.domains);
      if pending != 0 {
        var picked := cfg.store.pickOut(a.domains, if cmd.size.i < pending then cmd.size.i else pending);
        if picked.Returns? {
          DataReplyFields(cfg, a', picked.value, link.token);
        }
      }
    }
  }

  /** One call keeps an unbroken facade and the actor in agreement, whatever
      the call and however it fares. */
  lemma StepAgrees<S>(cfg: Config<S>, w: Worker, f: Facade, a: ActorState<S>, op: Operation, link: Link)
    requires f.Usable() ==> Agrees(f, a, w.id)
    requires link.token != ""
    ensures var (f', a', _) := Step(cfg, w, f, a, op, link);
            f'.Usable() ==> f.Usable() && Agrees(f', a', w.id)
  {
    hide StateDict;
    hide Moved;
    var decision := Decide(w.id, f, op, link.stopped);
    if decision.Sends? && link.answered {
      if op.PickOp? {
        PickAgrees(cfg, w, f, a, op, decision.cmd, link);
      } else if op.AddOp? || op.PublishOp? || op.CompleteOp? || op.PrunedOp? || op.DonateOp? {
        CompletionAgrees(cfg, w, f, a, op, decision.cmd, link);
      } else {
        hide Field;
        hide FromDict;
        hide SnapshotFromDict;
      }
    }
  }

  /** What a facade sends names its own worker or nobody. */
  lemma SendsOwnName(w: string, f: Facade, op: Operation, stopped: bool)
    ensures var d := Decide(w, f, op, stopped);
            d.Sends? ==> f.Usable() && (Names(d.cmd).Some? ==> Names(d.cmd).value == w)
  {
  }

  // ---------- Preservation ----------

  lemma PerformKeeps<S(!new)>(u: Setup<S>, sys: System<S>, cmd: Command, token: string)
    requires u.Valid() && Balanced(u.acct, sys.actor, sys.book)
    requires cmd.PickOut? ==> Fresh(sys.book, token)
    ensures var sys' := Perform(u, sys, cmd, token);
            && Balanced(u.acct, sys'.actor, sys'.book)
            && sys'.facades == sys.facades && sys'.wire == sys.wire
            && forall w | Names(cmd) != Some(w) :: Checkout(sys'.actor, w) == Checkout(sys.actor, w)
  {
    hide Execute;
    hide Balanced;
    hide Names;
    var (a, reply) := Execute(u.cfg, sys.actor, cmd, token);
    var e := EffectOf(u.acct, sys.actor, cmd, reply);
    ExecuteHasEffect(u.cfg, u.acct, sys.actor, cmd, token);
    EffectBalances(u.acct, sys.actor, a, sys.book, e);
    forall w | Names(cmd) != Some(w)
      ensures Checkout(a, w) == Checkout(sys.actor, w)
    {
      OthersUntouched(u.cfg, sys.actor, cmd, token, w);
    }
  }

  /** After a command that touches at most `worker`'s entry, the other facades
      still agree. */
  lemma OthersAgree<S(!new)>(sys: System<S>, sys': System<S>, worker: string)
    requires FacadesOk(sys) && worker in sys'.facades
    requires sys'.facades.Keys == sys.facades.Keys + {worker}
    requires forall w | w in sys.facades && w != worker :: sys'.facades[w] == sys.facades[w]
    requires forall w | w != worker :: Checkout(sys'.actor, w) == Checkout(sys.actor, w)
    requires sys'.facades[worker].Usable() ==> Agrees(sys'.facades[worker], sys'.actor, worker)
    ensures FacadesOk(sys')
  {
    forall w | w in sys'.actor.checkouts
      ensures w in sys'.facades
    {
      if w != worker {
        assert Checkout(sys'.actor, w) == Checkout(sys.actor, w);
      }
    }
    forall w | w in sys'.facades && sys'.facades[w].Usable()
      ensures Agrees(sys'.facades[w], sys'.actor, w)
    {
      if w != worker {
        assert Checkout(sys'.actor, w) == Checkout(sys.actor, w);
      }
    }
  }

  lemma ConnectKeepsInv<S(!new)>(u: Setup<S>, sys: System<S>, ev: Event)
    requires u.Valid() && Inv(u, sys) && Enabled(sys, ev) && ev.Connect?
    ensures Inv(u, Next(u, sys, ev))
  {
    hide Execute;
    hide Balanced;
    var cmd := Register(VStr(ev.worker), VStr(u.cfg.jobId));
    var sys' := Next(u, sys, ev);
    PerformKeeps(u, sys, cmd, "");
    OthersAgree(sys, sys', ev.worker);
    assert sys'.facades[ev.worker].Usable() ==> Checkout(sys'.actor, ev.worker) == Checkout(sys.actor, ev.worker);
  }

  lemma UseKeepsInv<S(!new)>(u: Setup<S>, sys: System<S>, ev: Event)
    requires u.Valid() && Inv(u, sys) && Enabled(sys, ev) && ev.Use?
    ensures Inv(u, Next(u, sys, ev))
  {
    hide Execute;
    hide Balanced;
    hide Decide;
    hide Hear;
    hide Agrees;
    hide Names;
    var sys' := Next(u, sys, ev);
    var f, w := sys.facades[ev.worker], u.worker(ev.worker);
    var decision := Decide(w.id, f, ev.op, ev.link.stopped);
    SendsOwnName(w.id, f, ev.op, ev.link.stopped);
    StepAgrees(u.cfg, w, f, sys.actor, ev.op, ev.link);
    FinishedKeepsBroken(w.id, f, ev.op, ev.link.stopped);
    if decision.Sends? {
      PerformKeeps(u, sys, decision.cmd, ev.link.token);
      UsableNotPending(u, sys, ev.worker);
    }
    OthersAgree(sys, sys', ev.worker);
    assert WireOk(sys') by {
      forall r | r in sys'.wire
        ensures r.worker in sys'.facades && sys'.facades[r.worker].broken
        ensures Names(r.cmd).Some? ==> Names(r.cmd).value == r.worker
      {
        assert r in sys.wire || (decision.Sends? && r == Request(ev.worker, decision.cmd));
      }
    }
  }

  lemma FinishedKeepsBroken(w: string, f: Facade, op: Operation, stopped: bool)
    ensures var d := Decide(w, f, op, stopped);
            d.Finished? ==> d.facade.broken == f.broken && d.facade.checkout == f.checkout
  {
  }

  lemma UsableNotPending<S(!new)>(u: Setup<S>, sys: System<S>, worker: string)
    requires Inv(u, sys) && worker in sys.facades && sys.facades[worker].Usable()
    ensures forall r | r in sys.wire :: r.worker != worker
  {
  }

  lemma DeliverKeepsInv<S(!new)>(u: Setup<S>, sys: System<S>, ev: Event)
    requires u.Valid() && Inv(u, sys) && Enabled(sys, ev) && ev.Deliver?
    ensures Inv(u, Next(u, sys, ev))
  {
    hide Execute;
    hide Balanced;
    hide Agrees;
    hide Names;
    var sys' := Next(u, sys, ev);
    var r := sys.wire[ev.i];
    assert r in sys.wire;
    PerformKeeps(u, sys, r.cmd, ev.token);
    OthersAgree(sys, sys', r.worker);
    assert WireOk(sys') by {
      forall x | x in sys'.wire
        ensures x in sys.wire
      {
      }
    }
  }

  lemma ControlKeepsInv<S(!new)>(u: Setup<S>, sys: System<S>, ev: Event)
    requires u.Valid() && Inv(u, sys) && Enabled(sys, ev) && ev.Control?
    ensures Inv(u, Next(u, sys, ev))
  {
    hide Execute;
    hide Balanced;
    var sys' := Next(u, sys, ev);
    PerformKeeps(u, sys, ev.cmd, "");
    assert forall w :: Checkout(sys'.actor, w) == Checkout(sys.actor, w);
    assert forall w :: w in sys'.actor.checkouts ==> Checkout(sys.actor, w).Some?;
  }

  lemma NextKeepsInv<S(!new)>(u: Setup<S>, sys: System<S>, ev: Event)
    requires u.Valid() && Inv(u, sys) && Enabled(sys, ev)
    ensures Inv(u, Next(u, sys, ev))
  {
    hide Inv;
    hide Next;
    match ev
    case Connect(_, _) => ConnectKeepsInv(u, sys, ev);
    case Use(_, _, _) => UseKeepsInv(u, sys, ev);
    case Deliver(_, _) => DeliverKeepsInv(u, sys, ev);
    case Control(_) => ControlKeepsInv(u, sys, ev);
  }

  // ---------- Runs ----------

  ghost predicate AllEnabled<S(!new)>(u: Setup<S>, sys: System<S>, evs: seq<Event>)
    decreases |evs|
  {
    evs == [] || (Enabled(sys, evs[0]) && AllEnabled(u, Next(u, sys, evs[0]), evs[1..]))
  }

  ghost function After<S(!new)>(u: Setup<S>, sys: System<S>, evs: seq<Event>): System<S>
    requires AllEnabled(u, sys, evs)
    decreases |evs|
  {
    if evs == [] then sys else After(u, Next(u, sys, evs[0]), evs[1..])
  }

  lemma {:induction false} RunKeepsInv<S(!new)>(u: Setup<S>, sys: System<S>, evs: seq<Event>)
    requires u.Valid() && Inv(u, sys) && AllEnabled(u, sys, evs)
    ensures Inv(u, After(u, sys, evs))
    decreases |evs|
  {
    hide Next;
    hide Inv;
    if evs != [] {
      NextKeepsInv(u, sys, evs[0]);
      RunKeepsInv(u, Next(u, sys, evs[0]), evs[1..]);
    }
  }

  /** In every reachable state of every run over a transport that loses and
      delays: an unbroken, open facade agrees with the actor; the batches
      reported as out are those issued and not ended; idleness is reported only
      when no batch is owed; no domain is lost; and none is in two batches unless
      it entered twice. */
  lemma EveryRun<S(!new)>(u: Setup<S>, domains: S, evs: seq<Event>)
    requires u.Valid() && AllEnabled(u, Start(u, domains), evs)
    ensures var sys := After(u, Start(u, domains), evs);
            && (forall w | w in sys.facades && sys.facades[w].Usable() :: Agrees(sys.facades[w], sys.actor, w))
            && StateOf(u.cfg.store, sys.actor).checkedOut == OpenCount(sys.book.issues)
            && (StateOf(u.cfg.store, sys.actor).idle ==>
                  forall i | 0 <= i < |sys.book.issues| :: sys.book.issues[i].ended)
            && (!sys.actor.Failed() ==>
                  sys.book.entered == u.acct.contents(sys.actor.domains)
                                      + HandedIf(u.acct, sys.book.issues, false)
                                      + HandedIf(u.acct, sys.book.issues, true))
            && ((forall d :: sys.book.entered[d] <= 1) ==>
                  forall i, j | 0 <= i < j < |sys.book.issues| ::
                    u.acct.batch(sys.book.issues[i].batch) !! u.acct.batch(sys.book.issues[j].batch))
  {
    InitialBalanced(u.acct, domains);
    RunKeepsInv(u, Start(u, domains), evs);
    var sys := After(u, Start(u, domains), evs);
    ReportsOpen(u.cfg.store, sys.actor, sys.book);
    if StateOf(u.cfg.store, sys.actor).idle {
      IdleIsSound(u.acct, u.cfg.store, sys.actor, sys.book);
    }
    if !sys.actor.Failed() {
      NothingLost(u.acct, sys.actor, sys.book);
    }
    if forall d :: sys.book.entered[d] <= 1 {
      forall i, j | 0 <= i < j < |sys.book.issues|
        ensures u.acct.batch(sys.book.issues[i].batch) !! u.acct.batch(sys.book.issues[j].batch)
      {
        NothingHandedTwice(u.acct, sys.actor, sys.book, i, j);
      }
    }
  }

  // ---------- A lost reply ----------

  /** The actor holds a checkout for a worker whose facade is broken and has
      nothing under way. */
  ghost predicate Orphaned<S>(sys: System<S>, worker: string) {
    && worker in sys.facades && sys.facades[worker].broken
    && worker in sys.actor.checkouts && !Pending(sys.wire, worker)
  }

  lemma PickedOwn<S(!new)>(u: Setup<S>, sys: System<S>, cmd: Command, token: string)
    requires cmd.PickOut? && Perform(u, sys, cmd, token).actor.checkouts != sys.actor.checkouts
    ensures Names(cmd).Some? && Names(cmd).value in Perform(u, sys, cmd, token).actor.checkouts
  {
    hide StateDict;
    hide DataReply;
    hide EmptyReply;
  }

  /** If a pick whose caller gave up is executed and succeeds, its batch is
      orphaned from then on. */
  lemma LostPickOrphans<S(!new)>(u: Setup<S>, sys: System<S>, i: nat, token: string)
    requires u.Valid() && Inv(u, sys) && Enabled(sys, Deliver(i, token)) && sys.wire[i].cmd.PickOut?
    requires Perform(u, sys, sys.wire[i].cmd, token).actor.checkouts != sys.actor.checkouts
    ensures Orphaned(Next(u, sys, Deliver(i, token)), sys.wire[i].worker)
  {
    var r := sys.wire[i];
    assert r in sys.wire;
    var sys' := Next(u, sys, Deliver(i, token));
    PickedOwn(u, sys, r.cmd, token);
    hide Execute;
    hide Balanced;
    hide FacadesOk;
    OthersOnWire(sys, i);
  }

  lemma OthersOnWire<S>(sys: System<S>, i: nat)
    requires WireOk(sys) && i < |sys.wire|
    ensures !Pending(sys.wire[..i] + sys.wire[i + 1..], sys.wire[i].worker)
  {
    var rest := sys.wire[..i] + sys.wire[i + 1..];
    forall x | x in rest
      ensures x.worker != sys.wire[i].worker
    {
      var k :| 0 <= k < |rest| && rest[k] == x;
      assert x == sys.wire[if k < i then k else k + 1];
    }
  }

  /** The same in one breath: the facade calls, the request is executed at
      once, and the reply is lost. */
  lemma LostReplyOrphans<S(!new)>(u: Setup<S>, sys: System<S>, worker: string, batch: Value, link: Link, token: string)
    requires u.Valid() && Inv(u, sys) && worker in sys.facades
    requires Enabled(sys, Use(worker, PickOp(batch), link)) && !link.answered
    requires Decide(worker, sys.facades[worker], PickOp(batch), link.stopped).Sends?
    requires token != "" && Fresh(sys.book, token)
    ensures var sent := Next(u, sys, Use(worker, PickOp(batch), link));
            && |sent.wire| == |sys.wire| + 1 && Enabled(sent, Deliver(|sys.wire|, token))
            && var done := Next(u, sent, Deliver(|sys.wire|, token));
               done.actor.checkouts != sys.actor.checkouts ==> Orphaned(done, worker)
  {
    hide Execute;
    hide Balanced;
    var sent := Next(u, sys, Use(worker, PickOp(batch), link));
    UseKeepsInv(u, sys, Use(worker, PickOp(batch), link));
    var n := |sys.wire|;
    if Next(u, sent, Deliver(n, token)).actor.checkouts != sys.actor.checkouts {
      LostPickOrphans(u, sent, n, token);
    }
  }

  /** A facade that is broken, closed, or told to stop never calls the actor:
      its calls fail and change nothing, and closing only closes it. */
  lemma BrokenSendsNothing<S>(cfg: Config<S>, w: Worker, f: Facade, a: ActorState<S>, op: Operation, link: Link)
    requires f.broken || f.closed || link.stopped
    ensures Decide(w.id, f, op, link.stopped).Finished?
    ensures Step(cfg, w, f, a, op, link)
              == if op.CloseOp? then (f.(closed := true), a, Gives(VNone)) else (f, a, Fails)
  {
  }

  lemma OrphanStays<S(!new)>(u: Setup<S>, sys: System<S>, ev: Event, worker: string)
    requires u.Valid() && Inv(u, sys) && Enabled(sys, ev) && Orphaned(sys, worker)
    ensures Orphaned(Next(u, sys, ev), worker)
  {
    hide Execute;
    hide Balanced;
    hide Hear;
    match ev
    case Connect(other, answered) =>
      PerformKeeps(u, sys, Register(VStr(other), VStr(u.cfg.jobId)), "");
      assert Names(Register(VStr(other), VStr(u.cfg.jobId))).None?;
      assert Checkout(Next(u, sys, ev).actor, worker).Some?;
    case Use(other, op, link) =>
      hide Names;
      var f := sys.facades[other];
      var d := Decide(u.worker(other).id, f, op, link.stopped);
      SendsOwnName(u.worker(other).id, f, op, link.stopped);
      FinishedKeepsBroken(u.worker(other).id, f, op, link.stopped);
      if d.Sends? {
        PerformKeeps(u, sys, d.cmd, link.token);
      }
      hide Decide;
      assert Checkout(Next(u, sys, ev).actor, worker).Some?;
    case Deliver(i, token) =>
      hide Names;
      var r := sys.wire[i];
      assert r in sys.wire && r.worker != worker;
      PerformKeeps(u, sys, r.cmd, token);
      assert Checkout(Next(u, sys, ev).actor, worker).Some?;
    case Control(cmd) =>
      PerformKeeps(u, sys, cmd, "");
      assert Names(cmd).None?;
      assert Checkout(Next(u, sys, ev).actor, worker).Some?;
  }

  /** From a lost pick on, in every later state of every run: the facade stays
      broken, the checkout stays, and `shared_idle` is never reported. */
  lemma {:induction false} LostPickNeverIdle<S(!new)>(u: Setup<S>, sys: System<S>, evs: seq<Event>, worker: string)
    requires u.Valid() && Inv(u, sys) && AllEnabled(u, sys, evs) && Orphaned(sys, worker)
    ensures Orphaned(After(u, sys, evs), worker)
    ensures !StateOf(u.cfg.store, After(u, sys, evs).actor).idle
    decreases |evs|
  {
    hide Next;
    hide Inv;
    if evs != [] {
      NextKeepsInv(u, sys, evs[0]);
      OrphanStays(u, sys, evs[0], worker);
      LostPickNeverIdle(u, Next(u, sys, evs[0]), evs[1..], worker);
    } else {
      assert sys.actor.checkouts != map[];
    }
  }

  // ---------- Leaving with a checkout ----------

  /** An open, unbroken facade that closes and is answered takes its worker
      out; the actor has then failed if it had before or if the facade still had
      a checkout, and for no other reason. */
  lemma ClosingFacade<S(!new)>(u: Setup<S>, sys: System<S>, worker: string, link: Link)
    requires u.Valid() && Inv(u, sys) && Enabled(sys, Use(worker, CloseOp, link))
    requires sys.facades[worker].Usable() && link.answered && !link.stopped
    ensures var sys' := Next(u, sys, Use(worker, CloseOp, link));
            && sys'.facades[worker].closed && worker !in sys'.actor.workers
            && sys'.actor.checkouts == sys.actor.checkouts && sys'.actor.domains == sys.actor.domains
            && sys'.actor.failure == if sys.actor.failure.None? && sys.facades[worker].checkout.Some?
                                     then Some(ClosedWithCheckout) else sys.actor.failure
  {
    hide Execute;
    hide WireOk;
    hide Tracked;
    hide EffectOf;
    ClosingExactly(u.cfg, sys.actor, worker, link.token);
    assert Agrees(sys.facades[worker], sys.actor, worker);
  }

  lemma ActorMoves<S(!new)>(u: Setup<S>, sys: System<S>, ev: Event) returns (cmd: Option<Command>, token: string)
    requires Enabled(sys, ev)
    ensures Next(u, sys, ev).actor
              == if cmd.Some? then Execute(u.cfg, sys.actor, cmd.value, token).0 else sys.actor
  {
    hide Execute;
    hide EffectOf;
    hide Hear;
    hide Decide;
    match ev
    case Connect(worker, answered) =>
      cmd, token := if answered then Some(Register(VStr(worker), VStr(u.cfg.jobId))) else None, "";
    case Use(worker, op, link) =>
      var d := Decide(u.worker(worker).id, sys.facades[worker], op, link.stopped);
      cmd, token := if d.Sends? && link.answered then Some(d.cmd) else None, link.token;
    case Deliver(i, t) => cmd, token := Some(sys.wire[i].cmd), t;
    case Control(c) => cmd, token := Some(c), "";
  }

  /** Whatever workers, wire and owner do after a failure: the reason, the
      storage and the checkouts stay, and idleness is never reported. */
  lemma {:induction false} FailedForever<S(!new)>(u: Setup<S>, sys: System<S>, evs: seq<Event>)
    requires sys.actor.Failed() && AllEnabled(u, sys, evs)
    ensures Frozen(u.cfg, sys.actor, After(u, sys, evs).actor)
    decreases |evs|
  {
    hide Next;
    hide Execute;
    if evs != [] {
      var cmd, token := ActorMoves(u, sys, evs[0]);
      if cmd.Some? {
        FailureSticks(u.cfg, sys.actor, cmd.value, token);
      }
      FailedForever(u, Next(u, sys, evs[0]), evs[1..]);
    }
  }
}
