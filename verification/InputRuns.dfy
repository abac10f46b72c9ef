/** What holds in every run of the input-list actor, and exactly where it does
    not meet what is promised. */
module InputRuns {
  import opened Results
  import opened Values
  import opened Stores
  import opened SharedStates
  import opened ActorStates
  import opened InputActor

  function Names(cmd: Command): Option<string> {
    match cmd
    case PickOutBatch(w, _) => if w.VStr? then Some(w.s) else None
    case Publish(w, _, _) => if w.VStr? then Some(w.s) else None
    case Complete(w, _) => if w.VStr? then Some(w.s) else None
    case _ => None
  }

  lemma OthersUntouched<S>(cfg: Config<S>, s: ActorState<S>, cmd: Command, token: string, worker: string)
    requires Names(cmd) != Some(worker)
    ensures Checkout(Execute(cfg, s, cmd, token).0, worker) == Checkout(s, worker)
  {
    hide SnapshotDict;
  }

  // ---------- Failure ----------

  /** The reason never changes once set, although storage failures write it
      unconditionally: no call reaches those writes on a failed actor. */
  ghost predicate Frozen<S>(cfg: Config<S>, s: ActorState<S>, s': ActorState<S>) {
    && s'.failure == s.failure && s'.domains == s.domains && s'.checkouts == s.checkouts
    && s'.workers <= s.workers && !StateOf(cfg.store, s').idle
  }

  lemma {:induction false} FailureSticksForever<S>(cfg: Config<S>, s: ActorState<S>, calls: seq<Call>)
    requires s.Failed()
    ensures Frozen(cfg, s, Run(cfg, s, calls))
    decreases |calls|
  {
    hide SnapshotDict;
    if calls != [] {
      var s' := Execute(cfg, s, calls[0].cmd, calls[0].token).0;
      assert Frozen(cfg, s, s');
      hide Execute;
      FailureSticksForever(cfg, s', calls[1..]);
    }
  }

  // ---------- Versions ----------

  datatype Call = Call(cmd: Command, token: string)

  function Run<S>(cfg: Config<S>, s: ActorState<S>, calls: seq<Call>): ActorState<S>
    decreases |calls|
  {
    if calls == [] then s
    else Run(cfg, Execute(cfg, s, calls[0].cmd, calls[0].token).0, calls[1..])
  }

  /** A sort that raises after moving domains around. */
  ghost predicate SpoiledSort<S>(cfg: Config<S>, s: ActorState<S>, cmd: Command) {
    && cmd.Sort? && !s.Failed()
    && cfg.store.sort(s.domains).Raises? && cfg.store.sort(s.domains).next != s.domains
  }

  /** The version fails to tell a changed state apart exactly when a sort
      raised after changing the storage; failures always move it. */
  lemma VersionMisses<S>(cfg: Config<S>, s: ActorState<S>, cmd: Command, token: string)
    ensures var s' := Execute(cfg, s, cmd, token).0;
            && s'.version >= s.version
            && (s' != s && s'.version == s.version <==> SpoiledSort(cfg, s, cmd))
  {
    hide SnapshotDict;
  }

  ghost predicate NoSpoiledSort<S>(cfg: Config<S>, s: ActorState<S>, calls: seq<Call>)
    decreases |calls|
  {
    calls == [] ||
    (!SpoiledSort(cfg, s, calls[0].cmd)
     && NoSpoiledSort(cfg, Execute(cfg, s, calls[0].cmd, calls[0].token).0, calls[1..]))
  }

  /** Over whole runs without such a sort, equal versions mean equal states,
      failed ones included. */
  lemma {:induction false} VersionPinsState<S>(cfg: Config<S>, s: ActorState<S>, calls: seq<Call>)
    requires NoSpoiledSort(cfg, s, calls)
    ensures var later := Run(cfg, s, calls); later == s || later.version > s.version
    decreases |calls|
  {
    hide Execute;
    hide SpoiledSort;
    if calls != [] {
      VersionMisses(cfg, s, calls[0].cmd, calls[0].token);
      VersionPinsState(cfg, Execute(cfg, s, calls[0].cmd, calls[0].token).0, calls[1..]);
    }
  }

  /** A storage whose sort swaps its two domains and then raises. */
  function FaultySort(): Store<(int, int)> {
    Store(s => 2, (s, n) => Raises(s, Exn("", "")), (s, p) => Raises(s, Exn("", "")),
          (s: (int, int)) => Raises((s.1, s.0), Exn("", "")), (s, i) => None)
  }

  lemma VersionMissesExample()
    ensures var cfg, s := Config(FaultySort(), "job"), ActorState((1, 2), {}, map[], None, 0);
            var s' := Execute(cfg, s, Sort, "").0;
            s'.version == s.version && !s'.Failed() && s'.domains == (2, 1)
  {
  }

  // ---------- Strict tokens ----------

  /** The call with a missing token where none is active. */
  predicate NoneForNone<S>(s: ActorState<S>, worker: string, checkout: Value) {
    checkout.VNone? && !s.Failed() && worker in s.workers && worker !in s.checkouts
  }

  /** A publish whose checkout is not the worker's active token changes nothing,
      except when no token is given and none is active: then the storage takes
      the domains, and only afterwards the call raises. So "stale tokens fail
      before mutation" holds exactly outside that case. */
  lemma StalePublish<S>(
    cfg: Config<S>, s: ActorState<S>, worker: string, checkout: Value, payload: Value, token: string)
    requires !checkout.VStr? || Checkout(s, worker) != Some(checkout.s)
    ensures var (s', reply) := Execute(cfg, s, Publish(VStr(worker), checkout, payload), token);
            && reply.Raised?
            && (s' != s <==> NoneForNone(s, worker, checkout))
            && s'.checkouts == s.checkouts
            && (NoneForNone(s, worker, checkout) && cfg.store.add(s.domains, payload).Returns? ==>
                  !s'.Failed() && s'.domains == cfg.store.add(s.domains, payload).next)
  {
  }

  lemma StaleComplete<S>(cfg: Config<S>, s: ActorState<S>, worker: string, checkout: Value, token: string)
    requires !checkout.VStr? || Checkout(s, worker) != Some(checkout.s)
    ensures var (s', reply) := Execute(cfg, s, Complete(VStr(worker), checkout), token);
            reply.Raised? && s' == s
  {
  }

  /** Without failure, a raising call changes a running actor only in the two
      cases above. */
  lemma RaisedChangesNothing<S>(cfg: Config<S>, s: ActorState<S>, cmd: Command, token: string)
    ensures var (s', reply) := Execute(cfg, s, cmd, token);
            reply.Raised? && !s'.Failed() ==>
              (s' != s <==>
                 SpoiledSort(cfg, s, cmd)
                 || (cmd.Publish? && cmd.worker.VStr? && NoneForNone(s, cmd.worker.s, cmd.checkout)))
  {
    hide SnapshotDict;
  }

  // ---------- Conservation ----------

  /** The effect of a call, read off its arguments and its reply. A publish that
      raises `KeyError` has added its domains all the same. */
  ghost function EffectOf<S(!new)>(acct: Accounting<S>, s: ActorState<S>, cmd: Command, reply: Reply): Effect {
    if cmd.Publish? && reply == Raised(MissingKey) then Donated(acct.accepted(s.domains, cmd.payload))
    else if reply.Raised? then Quiet
    else
      match cmd
      case PickOutBatch(w, _) =>
        if Field(reply.value, "status") == VStr("data") then
          Issued(Text(w), Text(Field(reply.value, "checkout")), Field(reply.value, "data"))
        else Quiet
      case Publish(w, _, payload) => Ended(Text(w), acct.accepted(s.domains, payload))
      case Donate(_, payload) => Donated(acct.accepted(s.domains, payload))
      case Complete(w, _) => Ended(Text(w), multiset{})
      case _ => Quiet
  }

  lemma ReplyFields<S>(cfg: Config<S>, s: ActorState<S>, data: Value, token: string)
    ensures DataReply(cfg, s, data, token).Returned? && EmptyReply(cfg, s).Returned?
    ensures var v := DataReply(cfg, s, data, token).value;
            && v.VDict? && Field(v, "status") == VStr("data")
            && Field(v, "data") == data && Field(v, "checkout") == VStr(token)
    ensures Field(EmptyReply(cfg, s).value, "status") == VStr("empty")
  {
    hide SnapshotDict;
    var es := DataReply(cfg, s, data, token).value.entries;
    FindAt(es, 0, "status");
    FindAt(es, 1, "data");
    FindAt(es, 2, "checkout");
  }

  /** A pick issues its batch under the given token or does nothing. */
  lemma PickEffect<S(!new)>(cfg: Config<S>, acct: Accounting<S>, s: ActorState<S>, cmd: Command, token: string)
    requires cmd.PickOutBatch?
    ensures var (s', reply) := Execute(cfg, s, cmd, token);
            var e := EffectOf(acct, s, cmd, reply);
            && Moves(s, s', e) && (e.Quiet? || e.Issued?)
            && (e.Issued? ==>
                  && e.token == token && !s.Failed() && !s'.Failed() && s'.workers == s.workers && e.worker in s.workers
                  && exists n :: 0 < n <= cfg.store.length(s.domains)
                                 && cfg.store.pickOut(s.domains, n) == Returns(s'.domains, e.batch))
            && (e.Quiet? && !s'.Failed() ==> s' == s)
  {
    hide DataReply;
    hide EmptyReply;
    hide Field;
    var (s', reply) := Execute(cfg, s, cmd, token);
    ReplyFields(cfg, s', VNone, token);
    if !s.Failed() && Unknown(s, cmd.worker).None? && cmd.size.VInt? && cmd.size.i > 0
       && cmd.worker.s !in s.checkouts
    {
      var pending := cfg.store.length(s.domains);
      if pending != 0 {
        var n := if cmd.size.i < pending then cmd.size.i else pending;
        var picked := cfg.store.pickOut(s.domains, n);
        if picked.Returns? {
          ReplyFields(cfg, s', picked.value, token);
          assert EffectOf(acct, s, cmd, reply) == Issued(cmd.worker.s, token, picked.value);
          assert 0 < n <= cfg.store.length(s.domains);
        }
      }
    }
  }

  /** Every call moves the checkouts as its reply tells. */
  lemma ExecuteMoves<S(!new)>(cfg: Config<S>, acct: Accounting<S>, s: ActorState<S>, cmd: Command, token: string)
    ensures var (s', reply) := Execute(cfg, s, cmd, token);
            var e := EffectOf(acct, s, cmd, reply);
            Moves(s, s', e) && (e.Issued? ==> e.token == token)
  {
    hide SnapshotDict;
    if cmd.PickOutBatch? {
      PickEffect(cfg, acct, s, cmd, token);
    } else {
      hide Field;
    }
  }

  /** A sort that raises after losing or inventing domains. */
  ghost predicate LossySort<S(!new)>(cfg: Config<S>, acct: Accounting<S>, s: ActorState<S>, cmd: Command) {
    && cmd.Sort? && !s.Failed() && cfg.store.sort(s.domains).Raises?
    && acct.contents(cfg.store.sort(s.domains).next) != acct.contents(s.domains)
  }

  /** Every other call has the effect its reply tells. */
  lemma ExecuteHasEffect<S(!new)>(cfg: Config<S>, acct: Accounting<S>, s: ActorState<S>, cmd: Command, token: string)
    requires acct.Balances(cfg.store) && !LossySort(cfg, acct, s, cmd)
    ensures var (s', reply) := Execute(cfg, s, cmd, token);
            HasEffect(acct, s, s', EffectOf(acct, s, cmd, reply))
  {
    hide SnapshotDict;
    ExecuteMoves(cfg, acct, s, cmd, token);
    hide Moves;
    if cmd.PickOutBatch? {
      PickEffect(cfg, acct, s, cmd, token);
      var (s', reply) := Execute(cfg, s, cmd, token);
      assert s.Failed() ==> s'.Failed();
      hide Execute;
      hide EffectOf;
      if !s'.Failed() && s.checkouts.Keys <= s.workers {
        MovesPick(s, s', EffectOf(acct, s, cmd, reply));
      }
    } else {
      hide Field;
    }
  }

  lemma MovesPick<S>(s: ActorState<S>, s': ActorState<S>, e: Effect)
    requires Moves(s, s', e) && (e.Issued? || e.Quiet?) && s'.workers == s.workers
    requires (e.Issued? ==> e.worker in s.workers) && s.checkouts.Keys <= s.workers
    ensures s'.checkouts.Keys <= s'.workers
  {
  }

  /** The call that ends a checkout names the worker the token was issued to
      and carries exactly that token. */
  lemma OnlyOwnerEnds<S(!new)>(
    cfg: Config<S>, acct: Accounting<S>, s: ActorState<S>, book: Ledger, call: Call, i: nat)
    requires Tracked(s, book) && i < |book.issues| && !book.issues[i].ended
    requires var (_, reply) := Execute(cfg, s, call.cmd, call.token);
             Record(book, EffectOf(acct, s, call.cmd, reply)).issues[i].ended
    ensures call.cmd.Publish? || call.cmd.Complete?
    ensures Names(call.cmd) == Some(book.issues[i].worker) && call.cmd.checkout == VStr(book.issues[i].token)
    ensures Execute(cfg, s, call.cmd, call.token).0.checkouts == s.checkouts - {book.issues[i].worker}
  {
    hide SnapshotDict;
    var (s', reply) := Execute(cfg, s, call.cmd, call.token);
    var e := EffectOf(acct, s, call.cmd, reply);
    ExecuteMoves(cfg, acct, s, call.cmd, call.token);
    EndsItsOwn(s, s', book, e, i);
    hide Tracked;
  }

  ghost function Books<S(!new)>(
    cfg: Config<S>, acct: Accounting<S>, s: ActorState<S>, book: Ledger, calls: seq<Call>): Ledger
    decreases |calls|
  {
    if calls == [] then book
    else
      var (s', reply) := Execute(cfg, s, calls[0].cmd, calls[0].token);
      Books(cfg, acct, s', Record(book, EffectOf(acct, s, calls[0].cmd, reply)), calls[1..])
  }

  ghost predicate FreshTokens<S(!new)>(
    cfg: Config<S>, acct: Accounting<S>, s: ActorState<S>, book: Ledger, calls: seq<Call>)
    decreases |calls|
  {
    calls == [] ||
    (Fresh(book, calls[0].token) &&
     var (s', reply) := Execute(cfg, s, calls[0].cmd, calls[0].token);
     FreshTokens(cfg, acct, s', Record(book, EffectOf(acct, s, calls[0].cmd, reply)), calls[1..]))
  }

  ghost predicate NoLossySort<S(!new)>(cfg: Config<S>, acct: Accounting<S>, s: ActorState<S>, calls: seq<Call>)
    decreases |calls|
  {
    calls == [] ||
    (!LossySort(cfg, acct, s, calls[0].cmd)
     && NoLossySort(cfg, acct, Execute(cfg, s, calls[0].cmd, calls[0].token).0, calls[1..]))
  }

  /** In every run the open issues are exactly the actor's checkouts. */
  lemma {:induction false} RunTracks<S(!new)>(
    cfg: Config<S>, acct: Accounting<S>, s: ActorState<S>, book: Ledger, calls: seq<Call>)
    requires Tracked(s, book) && FreshTokens(cfg, acct, s, book, calls)
    ensures Tracked(Run(cfg, s, calls), Books(cfg, acct, s, book, calls))
    decreases |calls|
  {
    hide Execute;
    hide Tracked;
    hide Moves;
    hide EffectOf;
    if calls != [] {
      var (s', reply) := Execute(cfg, s, calls[0].cmd, calls[0].token);
      var e := EffectOf(acct, s, calls[0].cmd, reply);
      ExecuteMoves(cfg, acct, s, calls[0].cmd, calls[0].token);
      EffectTracks(s, s', book, e);
      RunTracks(cfg, acct, s', Record(book, e), calls[1..]);
    }
  }

  lemma {:induction false} RunBalances<S(!new)>(
    cfg: Config<S>, acct: Accounting<S>, s: ActorState<S>, book: Ledger, calls: seq<Call>)
    requires acct.Balances(cfg.store) && Balanced(acct, s, book)
    requires FreshTokens(cfg, acct, s, book, calls) && NoLossySort(cfg, acct, s, calls)
    ensures Balanced(acct, Run(cfg, s, calls), Books(cfg, acct, s, book, calls))
    decreases |calls|
  {
    hide Execute;
    hide Balanced;
    hide HasEffect;
    hide Moves;
    hide EffectOf;
    hide LossySort;
    if calls != [] {
      var (s', reply) := Execute(cfg, s, calls[0].cmd, calls[0].token);
      var e := EffectOf(acct, s, calls[0].cmd, reply);
      ExecuteHasEffect(cfg, acct, s, calls[0].cmd, calls[0].token);
      ExecuteMoves(cfg, acct, s, calls[0].cmd, calls[0].token);
      EffectBalances(acct, s, s', book, e);
      RunBalances(cfg, acct, s', Record(book, e), calls[1..]);
    }
  }

  function Initial<S>(domains: S): ActorState<S> {
    ActorState(domains, {}, map[], None, 0)
  }

  ghost function InitialBook<S(!new)>(acct: Accounting<S>, domains: S): Ledger {
    Ledger(acct.contents(domains), [])
  }

  /** Soundness of idleness, in every run from the start whatever the storage
      does: the batches reported as out are those issued and not ended,
      `shared_idle` is reported only when every checkout was ended, and a token
      is in somebody's entry exactly while its issue is open. */
  lemma IdleInEveryRun<S(!new)>(cfg: Config<S>, acct: Accounting<S>, domains: S, calls: seq<Call>)
    requires FreshTokens(cfg, acct, Initial(domains), InitialBook(acct, domains), calls)
    ensures var s0, book0 := Initial(domains), InitialBook(acct, domains);
            var s, issues := Run(cfg, s0, calls), Books(cfg, acct, s0, book0, calls).issues;
            && StateOf(cfg.store, s).checkedOut == OpenCount(issues)
            && (StateOf(cfg.store, s).idle ==> forall i | 0 <= i < |issues| :: issues[i].ended)
            && forall i | 0 <= i < |issues| :: issues[i].ended <==> forall w :: Checkout(s, w) != Some(issues[i].token)
  {
    var s0, book0 := Initial(domains), InitialBook(acct, domains);
    RunTracks(cfg, acct, s0, book0, calls);
    var s, book := Run(cfg, s0, calls), Books(cfg, acct, s0, book0, calls);
    hide Tracked;
    ReportsOpen(cfg.store, s, book);
    if StateOf(cfg.store, s).idle {
      IdleOwesNothing(cfg.store, s, book);
    }
    forall i | 0 <= i < |book.issues|
      ensures book.issues[i].ended <==> forall w :: Checkout(s, w) != Some(book.issues[i].token)
    {
      OpenIsHeld(s, book, i);
    }
  }

  /** Conservation, in every run from the start in which no raising sort changed
      which domains there are: while the actor runs, what entered is pending, out
      with a live checkout, or was out under an ended one. A publish that raises
      for want of a checkout counts as a donation. */
  lemma Conservation<S(!new)>(cfg: Config<S>, acct: Accounting<S>, domains: S, calls: seq<Call>)
    requires acct.Balances(cfg.store)
    requires FreshTokens(cfg, acct, Initial(domains), InitialBook(acct, domains), calls)
    requires NoLossySort(cfg, acct, Initial(domains), calls)
    ensures var s0, book0 := Initial(domains), InitialBook(acct, domains);
            var s, book := Run(cfg, s0, calls), Books(cfg, acct, s0, book0, calls);
            && (!s.Failed() ==>
                  book.entered == acct.contents(s.domains)
                                  + HandedIf(acct, book.issues, false) + HandedIf(acct, book.issues, true))
            && (StateOf(cfg.store, s).idle ==> book.entered == HandedIf(acct, book.issues, true))
  {
    var s0, book0 := Initial(domains), InitialBook(acct, domains);
    RunBalances(cfg, acct, s0, book0, calls);
    var s, book := Run(cfg, s0, calls), Books(cfg, acct, s0, book0, calls);
    if !s.Failed() {
      NothingLost(acct, s, book);
    }
    if StateOf(cfg.store, s).idle {
      IdleIsSound(acct, cfg.store, s, book);
    }
  }

  /** Over any stretch of a run no issue changes, except that it may be ended. */
  lemma {:induction false} IssuesOnlyEnd<S(!new)>(
    cfg: Config<S>, acct: Accounting<S>, s: ActorState<S>, book: Ledger, calls: seq<Call>)
    ensures Grows(book, Books(cfg, acct, s, book, calls))
    decreases |calls|
  {
    hide Execute;
    hide EffectOf;
    if calls != [] {
      var (s', reply) := Execute(cfg, s, calls[0].cmd, calls[0].token);
      var book' := Record(book, EffectOf(acct, s, calls[0].cmd, reply));
      RecordGrows(book, EffectOf(acct, s, calls[0].cmd, reply));
      IssuesOnlyEnd(cfg, acct, s', book', calls[1..]);
    }
  }

  lemma {:induction false} BooksInTwo<S(!new)>(
    cfg: Config<S>, acct: Accounting<S>, s: ActorState<S>, book: Ledger, before: seq<Call>, after: seq<Call>)
    ensures Books(cfg, acct, s, book, before + after)
              == Books(cfg, acct, Run(cfg, s, before), Books(cfg, acct, s, book, before), after)
    decreases |before|
  {
    hide Execute;
    hide EffectOf;
    if before == [] {
      assert before + after == after;
    } else {
      var all := before + after;
      assert all[0] == before[0] && all[1..] == before[1..] + after;
      var (s', reply) := Execute(cfg, s, all[0].cmd, all[0].token);
      BooksInTwo(cfg, acct, s', Record(book, EffectOf(acct, s, all[0].cmd, reply)), before[1..], after);
    }
  }

  /** The life of a token, over every run from the start, whatever the storage
      does: its worker's entry until the checkout is ended, and from then on in no
      later state anybody's. */
  lemma TokenLife<S(!new)>(
    cfg: Config<S>, acct: Accounting<S>, domains: S, before: seq<Call>, after: seq<Call>, i: nat)
    requires FreshTokens(cfg, acct, Initial(domains), InitialBook(acct, domains), before + after)
    requires i < |Books(cfg, acct, Initial(domains), InitialBook(acct, domains), before).issues|
    ensures var s0, book0 := Initial(domains), InitialBook(acct, domains);
            var issue := Books(cfg, acct, s0, book0, before).issues[i];
            var later, issues := Run(cfg, s0, before + after), Books(cfg, acct, s0, book0, before + after).issues;
            && i < |issues| && issues[i].token == issue.token && issues[i].worker == issue.worker
            && (issue.ended ==> issues[i].ended)
            && (issues[i].ended <==> Checkout(later, issue.worker) != Some(issue.token))
            && (issues[i].ended ==> forall w :: Checkout(later, w) != Some(issue.token))
  {
    var s0, book0 := Initial(domains), InitialBook(acct, domains);
    RunTracks(cfg, acct, s0, book0, before + after);
    BooksInTwo(cfg, acct, s0, book0, before, after);
    IssuesOnlyEnd(cfg, acct, Run(cfg, s0, before), Books(cfg, acct, s0, book0, before), after);
    OpenIsHeld(Run(cfg, s0, before + after), Books(cfg, acct, s0, book0, before + after), i);
    hide Tracked;
  }

  /** If no domain entered twice, then in every run without such a sort, failed or
      not, no domain is in two of the batches handed out. */
  lemma DisjointBatches<S(!new)>(cfg: Config<S>, acct: Accounting<S>, domains: S, calls: seq<Call>, i: nat, j: nat)
    requires acct.Balances(cfg.store)
    requires FreshTokens(cfg, acct, Initial(domains), InitialBook(acct, domains), calls)
    requires NoLossySort(cfg, acct, Initial(domains), calls)
    requires var book := Books(cfg, acct, Initial(domains), InitialBook(acct, domains), calls);
             i < j < |book.issues| && forall d :: book.entered[d] <= 1
    ensures var book := Books(cfg, acct, Initial(domains), InitialBook(acct, domains), calls);
            acct.batch(book.issues[i].batch) !! acct.batch(book.issues[j].batch)
  {
    var s0, book0 := Initial(domains), InitialBook(acct, domains);
    RunBalances(cfg, acct, s0, book0, calls);
    NothingHandedTwice(acct, Run(cfg, s0, calls), Books(cfg, acct, s0, book0, calls), i, j);
  }

  ghost predicate ReportAccepted<S>(cfg: Config<S>, cmd: Command, s: ActorState<S>, v: Value) {
    var snapshot := Snapshot(cfg.jobId, s.version, StateOf(cfg.store, s));
    match cmd
    case Sort => true
    case GetSnapshot => SnapshotFromDict(v) == Some(snapshot)
    case Fail(_) => SnapshotFromDict(v) == Some(snapshot)
    case _ => SnapshotFromDict(Field(v, "state")) == Some(snapshot)
  }

  lemma ReportFields<S>(cfg: Config<S>, s: ActorState<S>, v: Value, token: string)
    ensures OkReply(cfg, s).Returned? && Field(OkReply(cfg, s).value, "state") == SnapshotDict(cfg, s)
    ensures EmptyReply(cfg, s).Returned? && Field(EmptyReply(cfg, s).value, "state") == SnapshotDict(cfg, s)
    ensures DataReply(cfg, s, v, token).Returned?
    ensures Field(DataReply(cfg, s, v, token).value, "state") == SnapshotDict(cfg, s)
    ensures AddedReply(cfg, s, v).Returned? && Field(AddedReply(cfg, s, v).value, "state") == SnapshotDict(cfg, s)
  {
    hide SnapshotDict;
    FindAt(OkReply(cfg, s).value.entries, 1, "state");
    FindAt(EmptyReply(cfg, s).value.entries, 2, "state");
    FindAt(DataReply(cfg, s, v, token).value.entries, 3, "state");
    FindAt(AddedReply(cfg, s, v).value.entries, 2, "state");
  }

  /** Every snapshot in every reply, on failed actors too, is accepted by the
      receiver and is the actor's own. */
  lemma RepliesAccepted<S>(cfg: Config<S>, s: ActorState<S>, cmd: Command, token: string)
    requires cfg.jobId != ""
    ensures var (s', reply) := Execute(cfg, s, cmd, token);
            reply.Returned? ==> ReportAccepted(cfg, cmd, s', reply.value)
  {
    hide OkReply;
    hide EmptyReply;
    hide DataReply;
    hide AddedReply;
    hide Field;
    hide SnapshotFromDict;
    hide SnapshotToDict;
    hide StateOf;
    var s' := Execute(cfg, s, cmd, token).0;
    ReportedSnapshotAccepted(cfg.store, cfg.jobId, s');
    ReportFields(cfg, s', VNone, token);
    if cmd.PickOutBatch? && cmd.size.VInt? && cmd.size.i > 0 {
      var pending := cfg.store.length(s.domains);
      if pending != 0 {
        var picked := cfg.store.pickOut(s.domains, if cmd.size.i < pending then cmd.size.i else pending);
        if picked.Returns? {
          ReportFields(cfg, s', picked.value, token);
        }
      }
    } else if cmd.Publish? || cmd.Donate? {
      var added := cfg.store.add(s.domains, cmd.payload);
      if added.Returns? {
        ReportFields(cfg, s', added.value, token);
      }
    }
  }
}
