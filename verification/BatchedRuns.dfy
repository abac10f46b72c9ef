/** What holds in every run of the shared domain-list actor. */
module BatchedRuns {
  import opened Results
  import opened Values
  import opened Stores
  import opened SharedStates
  import opened ActorStates
  import opened BatchedActor
  import opened BatchedOutcomes

  // ---------- One step ----------

  /** Once failed, always failed for the same reason: storage and checkouts are
      frozen, workers can only leave, and idleness is never reported. */
  ghost predicate Frozen<S>(cfg: Config<S>, s: ActorState<S>, s': ActorState<S>) {
    && s'.failure == s.failure && s'.domains == s.domains && s'.checkouts == s.checkouts
    && s'.workers <= s.workers && !StateOf(cfg.store, s').idle
  }

  lemma FailureSticks<S>(cfg: Config<S>, s: ActorState<S>, cmd: Command, token: string)
    requires s.Failed()
    ensures Frozen(cfg, s, Execute(cfg, s, cmd, token).0)
  {
    hide StateDict;
    hide SnapshotDict;
    hide GetItemReply;
    hide AddOutcome;
  }

  /** A step that leaves the actor running either changes nothing or moves the
      version on. */
  lemma VersionMoves<S>(cfg: Config<S>, s: ActorState<S>, cmd: Command, token: string)
    ensures var s' := Execute(cfg, s, cmd, token).0;
            !s'.Failed() ==> !s.Failed() && (s' == s || s'.version > s.version)
    ensures Execute(cfg, s, cmd, token).0.version >= s.version
  {
    hide StateDict;
    hide SnapshotDict;
    hide StoreAdd;
    hide GetItemReply;
  }

  /** The calls that fail the actor without moving its version: misuse of
      `pick_out`, `add`, `donate` and the completions by a registered worker, and
      a storage that raises in `pick_out` or `add`. */
  ghost predicate FailsSilently<S>(cfg: Config<S>, s: ActorState<S>, cmd: Command) {
    !s.Failed() &&
    match cmd
    case PickOut(w, size) =>
      && Registered(s, w)
      && (!size.VInt? || size.i <= 0 || w.s in s.checkouts
          || (cfg.store.length(s.domains) > 0 && PickOf(cfg, s, size.i).Raises?))
    case Add(w, bounds, data, flag) => Registered(s, w) && AddFails(cfg, s, bounds, data, flag)
    case Donate(w, bounds, data, flag) =>
      Registered(s, w) && w.s !in s.checkouts && AddFails(cfg, s, bounds, data, flag)
    case Complete(w, _) => Registered(s, w) && w.s !in s.checkouts
    case CompletePruned(w, _) => Registered(s, w) && w.s !in s.checkouts
    case _ => false
  }

  function PickOf<S>(cfg: Config<S>, s: ActorState<S>, size: int): Outcome<S, Value>
    requires size > 0
  {
    var pending := cfg.store.length(s.domains);
    cfg.store.pickOut(s.domains, if size < pending then size else pending)
  }

  predicate AddFails<S>(cfg: Config<S>, s: ActorState<S>, bounds: Value, data: Value, flag: Value) {
    !flag.VBool? || StoreAdd(cfg, s.domains, bounds, data, flag).Raises?
  }

  /** The version fails to tell a changed state apart exactly for those calls. */
  lemma VersionMisses<S>(cfg: Config<S>, s: ActorState<S>, cmd: Command, token: string)
    ensures var s' := Execute(cfg, s, cmd, token).0;
            s' != s && s'.version == s.version <==> FailsSilently(cfg, s, cmd)
  {
    hide StateDict;
    hide SnapshotDict;
    hide StoreAdd;
    hide GetItemReply;
  }

  /** One such call: `add` with a flag that is no boolean. */
  lemma FailureMayKeepVersion<S>(cfg: Config<S>, s: ActorState<S>, worker: string, token: string)
    requires !s.Failed() && worker in s.workers
    ensures var s' := Execute(cfg, s, Add(VStr(worker), VDict([]), VDict([]), VNone), token).0;
            s'.Failed() && s'.version == s.version
  {
  }

  /** The worker whose checkout a call may open or end. */
  function Names(cmd: Command): Option<string> {
    match cmd
    case PickOut(w, _) => if w.VStr? then Some(w.s) else None
    case Add(w, _, _, _) => if w.VStr? then Some(w.s) else None
    case Publish(w, _, _, _, _) => if w.VStr? then Some(w.s) else None
    case Donate(w, _, _, _) => if w.VStr? then Some(w.s) else None
    case Complete(w, _) => if w.VStr? then Some(w.s) else None
    case CompletePruned(w, _) => if w.VStr? then Some(w.s) else None
    case _ => None
  }

  /** No step touches the checkout of a worker other than the one it names. */
  lemma OthersUntouched<S>(cfg: Config<S>, s: ActorState<S>, cmd: Command, token: string, worker: string)
    requires Names(cmd) != Some(worker)
    ensures Checkout(Execute(cfg, s, cmd, token).0, worker) == Checkout(s, worker)
  {
    hide OkReply;
    hide EmptyReply;
    hide DataReply;
    hide AddedReply;
    hide SortedReply;
    hide StateDict;
    hide SnapshotDict;
    hide GetItemReply;
  }

  /** A strict completion with a token that is not the worker's active one is
      refused before anything changes; with no active checkout at all, the
      compatible completions also record a failure and nothing else. */
  lemma StaleTokenRefused<S>(
    cfg: Config<S>, s: ActorState<S>, worker: string, stale: string, bounds: Value, data: Value, flag: Value,
    token: string)
    requires Checkout(s, worker) != Some(stale)
    ensures Execute(cfg, s, Publish(VStr(worker), VStr(stale), bounds, data, flag), token).0 == s
    ensures Execute(cfg, s, Publish(VStr(worker), VStr(stale), bounds, data, flag), token).1.Raised?
    ensures Execute(cfg, s, CompletePruned(VStr(worker), VStr(stale)), token)
              == Execute(cfg, s, Complete(VStr(worker), VStr(stale)), token)
    ensures var (s', reply) := Execute(cfg, s, Complete(VStr(worker), VStr(stale)), token);
            && reply.Raised?
            && s'.(failure := s.failure) == s
            && (s' != s <==> !s.Failed() && worker in s.workers && worker !in s.checkouts)
  {
    hide StateDict;
  }

  /** `donate` goes through `add`, which ends checkouts, yet never ends one. */
  lemma DonateKeepsCheckouts<S>(
    cfg: Config<S>, s: ActorState<S>, worker: Value, bounds: Value, data: Value, flag: Value)
    ensures DonateStep(cfg, s, worker, bounds, data, flag).0.checkouts == s.checkouts
  {
    hide AddedReply;
    hide StoreAdd;
    if worker.VStr? && worker.s !in s.checkouts {
      assert s.checkouts - {worker.s} == s.checkouts;
    }
  }

  // ---------- Effects ----------

  /** The effect of a call, read off its arguments and its reply. */
  ghost function EffectOf<S(!new)>(acct: Accounting<S>, s: ActorState<S>, cmd: Command, reply: Reply): Effect {
    if reply.Raised? then Quiet
    else
      match cmd
      case PickOut(w, _) =>
        if Field(reply.value, "status") == VStr("data") then
          Issued(Text(w), Text(Field(reply.value, "checkout")), Field(reply.value, "domains"))
        else Quiet
      case Add(w, bounds, data, flag) => Ended(Text(w), acct.accepted(s.domains, Payload(bounds, data, flag)))
      case Publish(w, _, bounds, data, flag) => Ended(Text(w), acct.accepted(s.domains, Payload(bounds, data, flag)))
      case Donate(_, bounds, data, flag) => Donated(acct.accepted(s.domains, Payload(bounds, data, flag)))
      case Complete(w, _) => Ended(Text(w), multiset{})
      case CompletePruned(w, _) => Ended(Text(w), multiset{})
      case _ => Quiet
  }

  lemma DataReplyFields<S>(cfg: Config<S>, s: ActorState<S>, domains: Value, token: string)
    ensures DataReply(cfg, s, domains, token).Returned? && EmptyReply(cfg, s).Returned?
    ensures var v := DataReply(cfg, s, domains, token).value;
            && Field(v, "status") == VStr("data") && Field(v, "domains") == domains
            && Field(v, "checkout") == VStr(token) && Field(v, "state") == StateDict(cfg, s)
    ensures Field(EmptyReply(cfg, s).value, "status") == VStr("empty")
  {
    var es := DataReply(cfg, s, domains, token).value.entries;
    FindAt(es, 0, "status");
    FindAt(es, 1, "domains");
    FindAt(es, 2, "checkout");
    FindAt(es, 3, "state");
  }

  lemma PickHasEffect<S(!new)>(cfg: Config<S>, acct: Accounting<S>, s: ActorState<S>, cmd: Command, token: string)
    requires acct.Balances(cfg.store) && cmd.PickOut?
    ensures var (s', reply) := Execute(cfg, s, cmd, token);
            HasEffect(acct, s, s', EffectOf(acct, s, cmd, reply))
    ensures var e := EffectOf(acct, s, cmd, Execute(cfg, s, cmd, token).1);
            e.Issued? ==> e.token == token
  {
    hide DataReply;
    hide EmptyReply;
    hide Field;
    var (s', reply) := Execute(cfg, s, cmd, token);
    DataReplyFields(cfg, s', VNone, token);
    if !s.Failed() && Registered(s, cmd.worker) && cmd.size.VInt? && cmd.size.i > 0 && cmd.worker.s !in s.checkouts {
      var pending := cfg.store.length(s.domains);
      if pending != 0 {
        var picked := cfg.store.pickOut(s.domains, if cmd.size.i < pending then cmd.size.i else pending);
        if picked.Returns? {
          DataReplyFields(cfg, s', picked.value, token);
          assert EffectOf(acct, s, cmd, reply) == Issued(cmd.worker.s, token, picked.value);
        }
      }
    }
  }

  /** Every call has the effect its reply tells. */
  lemma ExecuteHasEffect<S(!new)>(cfg: Config<S>, acct: Accounting<S>, s: ActorState<S>, cmd: Command, token: string)
    requires acct.Balances(cfg.store)
    ensures var (s', reply) := Execute(cfg, s, cmd, token);
            HasEffect(acct, s, s', EffectOf(acct, s, cmd, reply))
    ensures var e := EffectOf(acct, s, cmd, Execute(cfg, s, cmd, token).1);
            e.Issued? ==> e.token == token
  {
    hide StateDict;
    hide SnapshotDict;
    if cmd.PickOut? {
      PickHasEffect(cfg, acct, s, cmd, token);
    } else if cmd.Add? || cmd.Publish? || cmd.Donate? {
      AddHasEffect(cfg, acct, s, cmd, token);
    } else {
      hide Field;
    }
  }

  lemma AddHasEffect<S(!new)>(cfg: Config<S>, acct: Accounting<S>, s: ActorState<S>, cmd: Command, token: string)
    requires acct.Balances(cfg.store) && (cmd.Add? || cmd.Publish? || cmd.Donate?)
    ensures var (s', reply) := Execute(cfg, s, cmd, token);
            HasEffect(acct, s, s', EffectOf(acct, s, cmd, reply)) && !EffectOf(acct, s, cmd, reply).Issued?
  {
    hide StateDict;
    hide SnapshotDict;
    hide Field;
  }

  // ---------- Runs ----------

  datatype Call = Call(cmd: Command, token: string)

  /** The actor after a sequence of calls, executed one at a time. */
  function Run<S>(cfg: Config<S>, s: ActorState<S>, calls: seq<Call>): ActorState<S>
    decreases |calls|
  {
    if calls == [] then s
    else Run(cfg, Execute(cfg, s, calls[0].cmd, calls[0].token).0, calls[1..])
  }

  /** The books after the same calls. */
  ghost function Books<S(!new)>(
    cfg: Config<S>, acct: Accounting<S>, s: ActorState<S>, book: Ledger, calls: seq<Call>): Ledger
    decreases |calls|
  {
    if calls == [] then book
    else
      var (s', reply) := Execute(cfg, s, calls[0].cmd, calls[0].token);
      Books(cfg, acct, s', Record(book, EffectOf(acct, s, calls[0].cmd, reply)), calls[1..])
  }

  /** Tokens are never reused. */
  ghost predicate FreshTokens<S(!new)>(
    cfg: Config<S>, acct: Accounting<S>, s: ActorState<S>, book: Ledger, calls: seq<Call>)
    decreases |calls|
  {
    calls == [] ||
    (Fresh(book, calls[0].token) &&
     var (s', reply) := Execute(cfg, s, calls[0].cmd, calls[0].token);
     FreshTokens(cfg, acct, s', Record(book, EffectOf(acct, s, calls[0].cmd, reply)), calls[1..]))
  }

  /** Balanced books stay balanced over every run. */
  lemma {:induction false} RunBalances<S(!new)>(
    cfg: Config<S>, acct: Accounting<S>, s: ActorState<S>, book: Ledger, calls: seq<Call>)
    requires acct.Balances(cfg.store) && Balanced(acct, s, book) && FreshTokens(cfg, acct, s, book, calls)
    ensures Balanced(acct, Run(cfg, s, calls), Books(cfg, acct, s, book, calls))
    decreases |calls|
  {
    hide Execute;
    hide Balanced;
    hide HasEffect;
    hide EffectOf;
    if calls != [] {
      var (s', reply) := Execute(cfg, s, calls[0].cmd, calls[0].token);
      var e := EffectOf(acct, s, calls[0].cmd, reply);
      ExecuteHasEffect(cfg, acct, s, calls[0].cmd, calls[0].token);
      EffectBalances(acct, s, s', book, e);
      RunBalances(cfg, acct, s', Record(book, e), calls[1..]);
    }
  }

  ghost function InitialBook<S(!new)>(acct: Accounting<S>, domains: S): Ledger {
    Ledger(acct.contents(domains), [])
  }

  lemma InitialBalanced<S(!new)>(acct: Accounting<S>, domains: S)
    ensures Balanced(acct, Initial(domains), InitialBook(acct, domains))
  {
  }

  /** Conservation and soundness of idleness, in every run from the start:
      while the actor runs, the initial domains and everything accepted since
      are the pending ones, those of live checkouts and those of checkouts
      ended explicitly; every live checkout belongs to a registered worker; and
      idleness is reported only when no batch is owed. */
  lemma Conservation<S(!new)>(cfg: Config<S>, acct: Accounting<S>, domains: S, calls: seq<Call>)
    requires acct.Balances(cfg.store)
    requires FreshTokens(cfg, acct, Initial(domains), InitialBook(acct, domains), calls)
    ensures var s, book := Run(cfg, Initial(domains), calls),
                           Books(cfg, acct, Initial(domains), InitialBook(acct, domains), calls);
            && (!s.Failed() ==>
                  && book.entered == acct.contents(s.domains)
                                     + HandedIf(acct, book.issues, false) + HandedIf(acct, book.issues, true)
                  && s.checkouts.Keys <= s.workers)
            && (StateOf(cfg.store, s).idle ==>
                  && (forall i | 0 <= i < |book.issues| :: book.issues[i].ended)
                  && book.entered == HandedIf(acct, book.issues, true))
  {
    var s0, book0 := Initial(domains), InitialBook(acct, domains);
    InitialBalanced(acct, domains);
    RunBalances(cfg, acct, s0, book0, calls);
    var s, book := Run(cfg, s0, calls), Books(cfg, acct, s0, book0, calls);
    if !s.Failed() {
      NothingLost(acct, s, book);
    }
    if StateOf(cfg.store, s).idle {
      IdleIsSound(acct, cfg.store, s, book);
    }
  }

  /** If no domain entered twice, then in every run, failed or not, no domain
      is in two of the batches handed out. */
  lemma DisjointBatches<S(!new)>(cfg: Config<S>, acct: Accounting<S>, domains: S, calls: seq<Call>, i: nat, j: nat)
    requires acct.Balances(cfg.store)
    requires FreshTokens(cfg, acct, Initial(domains), InitialBook(acct, domains), calls)
    requires var book := Books(cfg, acct, Initial(domains), InitialBook(acct, domains), calls);
             i < j < |book.issues| && forall d :: book.entered[d] <= 1
    ensures var book := Books(cfg, acct, Initial(domains), InitialBook(acct, domains), calls);
            acct.batch(book.issues[i].batch) !! acct.batch(book.issues[j].batch)
  {
    var s0, book0 := Initial(domains), InitialBook(acct, domains);
    InitialBalanced(acct, domains);
    RunBalances(cfg, acct, s0, book0, calls);
    NothingHandedTwice(acct, Run(cfg, s0, calls), Books(cfg, acct, s0, book0, calls), i, j);
  }

  /** Over any stretch of a run no issue changes, except that it may be ended. */
  lemma {:induction false} IssuesOnlyEnd<S(!new)>(
    cfg: Config<S>, acct: Accounting<S>, s: ActorState<S>, book: Ledger, calls: seq<Call>)
    ensures Grows(book, Books(cfg, acct, s, book, calls))
    decreases |calls|
  {
    hide Execute;
    hide EffectOf;
    if calls != [] {
      var (s', reply) := Execute(cfg, s, calls[0].cmd, calls[0].token);
      var book' := Record(book, EffectOf(acct, s, calls[0].cmd, reply));
      RecordGrows(book, EffectOf(acct, s, calls[0].cmd, reply));
      IssuesOnlyEnd(cfg, acct, s', book', calls[1..]);
    }
  }

  lemma {:induction false} RunInTwo<S(!new)>(
    cfg: Config<S>, acct: Accounting<S>, s: ActorState<S>, book: Ledger, before: seq<Call>, after: seq<Call>)
    requires FreshTokens(cfg, acct, s, book, before + after)
    ensures var s1, book1 := Run(cfg, s, before), Books(cfg, acct, s, book, before);
            && FreshTokens(cfg, acct, s, book, before) && FreshTokens(cfg, acct, s1, book1, after)
            && Run(cfg, s, before + after) == Run(cfg, s1, after)
            && Books(cfg, acct, s, book, before + after) == Books(cfg, acct, s1, book1, after)
    decreases |before|
  {
    hide Execute;
    hide EffectOf;
    if before == [] {
      assert before + after == after;
    } else {
      var all := before + after;
      assert all[0] == before[0] && all[1..] == before[1..] + after;
      var (s', reply) := Execute(cfg, s, all[0].cmd, all[0].token);
      RunInTwo(cfg, acct, s', Record(book, EffectOf(acct, s, all[0].cmd, reply)), before[1..], after);
    }
  }

  /** The life of a token, over every run from the start: from the moment a batch
      is issued the actor holds its worker's entry under its token until the
      checkout is ended, and from then on, in every later state, the token is in
      nobody's entry again. */
  lemma TokenLife<S(!new)>(
    cfg: Config<S>, acct: Accounting<S>, domains: S, before: seq<Call>, after: seq<Call>, i: nat)
    requires acct.Balances(cfg.store)
    requires FreshTokens(cfg, acct, Initial(domains), InitialBook(acct, domains), before + after)
    requires i < |Books(cfg, acct, Initial(domains), InitialBook(acct, domains), before).issues|
    ensures var s0, book0 := Initial(domains), InitialBook(acct, domains);
            var issue := Books(cfg, acct, s0, book0, before).issues[i];
            var later, issues := Run(cfg, s0, before + after), Books(cfg, acct, s0, book0, before + after).issues;
            && i < |issues| && issues[i].token == issue.token && issues[i].worker == issue.worker
            && (issue.ended ==> issues[i].ended)
            && (issues[i].ended <==> Checkout(later, issue.worker) != Some(issue.token))
            && (issues[i].ended ==> forall w :: Checkout(later, w) != Some(issue.token))
  {
    hide Balanced;
    var s0, book0 := Initial(domains), InitialBook(acct, domains);
    InitialBalanced(acct, domains);
    RunInTwo(cfg, acct, s0, book0, before, after);
    RunBalances(cfg, acct, s0, book0, before + after);
    IssuesOnlyEnd(cfg, acct, Run(cfg, s0, before), Books(cfg, acct, s0, book0, before), after);
    BalancedTracks(acct, Run(cfg, s0, before + after), Books(cfg, acct, s0, book0, before + after));
    OpenIsHeld(Run(cfg, s0, before + after), Books(cfg, acct, s0, book0, before + after), i);
  }

  lemma BalancedTracks<S(!new)>(acct: Accounting<S>, s: ActorState<S>, book: Ledger)
    requires Balanced(acct, s, book)
    ensures Tracked(s, book)
  {
  }

  /** The call that ends a checkout names the worker the token was issued to;
      if it carries a token, it is that one. */
  lemma OnlyOwnerEnds<S(!new)>(
    cfg: Config<S>, acct: Accounting<S>, s: ActorState<S>, book: Ledger, call: Call, i: nat)
    requires acct.Balances(cfg.store) && Balanced(acct, s, book) && i < |book.issues| && !book.issues[i].ended
    requires var (_, reply) := Execute(cfg, s, call.cmd, call.token);
             Record(book, EffectOf(acct, s, call.cmd, reply)).issues[i].ended
    ensures Names(call.cmd) == Some(book.issues[i].worker)
    ensures Execute(cfg, s, call.cmd, call.token).0.checkouts == s.checkouts - {book.issues[i].worker}
    ensures call.cmd.Publish? ==> call.cmd.checkout == VStr(book.issues[i].token)
    ensures call.cmd.Complete? && !call.cmd.checkout.VNone? ==> call.cmd.checkout == VStr(book.issues[i].token)
    ensures call.cmd.CompletePruned? && !call.cmd.checkout.VNone? ==> call.cmd.checkout == VStr(book.issues[i].token)
  {
    var (s', reply) := Execute(cfg, s, call.cmd, call.token);
    var e := EffectOf(acct, s, call.cmd, reply);
    ExecuteHasEffect(cfg, acct, s, call.cmd, call.token);
    EndsItsOwn(s, s', book, e, i);
  }

  /** Failure over whole runs. */
  lemma {:induction false} FailureSticksForever<S>(cfg: Config<S>, s: ActorState<S>, calls: seq<Call>)
    requires s.Failed()
    ensures Frozen(cfg, s, Run(cfg, s, calls))
    decreases |calls|
  {
    hide Execute;
    if calls != [] {
      var s' := Execute(cfg, s, calls[0].cmd, calls[0].token).0;
      FailureSticks(cfg, s, calls[0].cmd, calls[0].token);
      FailureSticksForever(cfg, s', calls[1..]);
    }
  }

  /** Over whole runs, two running states with the same version are the same
      state: storage, checkouts and workers. */
  lemma {:induction false} VersionPinsState<S>(cfg: Config<S>, s: ActorState<S>, calls: seq<Call>)
    ensures var later := Run(cfg, s, calls);
            && later.version >= s.version
            && (!later.Failed() ==> !s.Failed() && (later == s || later.version > s.version))
    decreases |calls|
  {
    hide Execute;
    if calls != [] {
      VersionMoves(cfg, s, calls[0].cmd, calls[0].token);
      VersionPinsState(cfg, Execute(cfg, s, calls[0].cmd, calls[0].token).0, calls[1..]);
    }
  }

  /** A read pinned to the version at which a state was seen, accepted any
      number of calls later, shows the domain at that index in the state seen,
      counting negative positions from the end. */
  lemma PinnedRead<S>(
    cfg: Config<S>, seen: ActorState<S>, calls: seq<Call>, index: Value, version: Value, token: string)
    requires Number(version) == Some(seen.version as real)
    requires Execute(cfg, Run(cfg, seen, calls), GetItem(index, version), token).1.Returned?
    ensures Run(cfg, seen, calls) == seen && Readable(cfg, seen, index, VNone)
    ensures Reads(cfg, seen, index, Execute(cfg, Run(cfg, seen, calls), GetItem(index, version), token).1)
  {
    hide Execute;
    hide Run;
    hide Reads;
    hide Shown;
    hide DomainAt;
    VersionPinsState(cfg, seen, calls);
    ReadsExactly(cfg, Run(cfg, seen, calls), index, version, token);
  }

  /** What a reply says about the actor passes the receiver's check and is the
      actor's state after the call. */
  ghost predicate ReportAccepted<S>(cfg: Config<S>, cmd: Command, s: ActorState<S>, v: Value) {
    var state, snapshot := StateOf(cfg.store, s), Snapshot(cfg.jobId, s.version, StateOf(cfg.store, s));
    match cmd
    case GetItem(_, _) => RecordOf(Field(v, "record")) == Some(Field(v, "record"))
    case GetState => FromDict(v) == Some(state)
    case Fail(_) => FromDict(v) == Some(state)
    case GetSnapshot => SnapshotFromDict(v) == Some(snapshot)
    case Sort => SnapshotFromDict(Field(v, "snapshot")) == Some(snapshot)
    case _ => FromDict(Field(v, "state")) == Some(state)
  }

  lemma ReportFields<S>(cfg: Config<S>, s: ActorState<S>, v: Value, token: string)
    ensures OkReply(cfg, s).Returned? && Field(OkReply(cfg, s).value, "state") == StateDict(cfg, s)
    ensures EmptyReply(cfg, s).Returned? && Field(EmptyReply(cfg, s).value, "state") == StateDict(cfg, s)
    ensures DataReply(cfg, s, v, token).Returned?
    ensures Field(DataReply(cfg, s, v, token).value, "state") == StateDict(cfg, s)
    ensures AddedReply(cfg, s, v).Returned? && Field(AddedReply(cfg, s, v).value, "state") == StateDict(cfg, s)
    ensures SortedReply(cfg, s).Returned? && Field(SortedReply(cfg, s).value, "snapshot") == SnapshotDict(cfg, s)
    ensures RecordReply(s, v).Returned? && Field(RecordReply(s, v).value, "record") == v
  {
    hide StateDict;
    hide SnapshotDict;
    FindAt(OkReply(cfg, s).value.entries, 1, "state");
    FindAt(EmptyReply(cfg, s).value.entries, 2, "state");
    FindAt(DataReply(cfg, s, v, token).value.entries, 3, "state");
    FindAt(AddedReply(cfg, s, v).value.entries, 2, "state");
    FindAt(SortedReply(cfg, s).value.entries, 1, "snapshot");
    FindAt(RecordReply(s, v).value.entries, 0, "record");
  }

  /** Every state and snapshot in every reply of every call, on failed actors
      too, is accepted by the receiver and is the actor's own; so is every
      record. */
  lemma RepliesAccepted<S>(cfg: Config<S>, s: ActorState<S>, cmd: Command, token: string)
    requires cfg.jobId != ""
    ensures var (s', reply) := Execute(cfg, s, cmd, token);
            reply.Returned? ==> ReportAccepted(cfg, cmd, s', reply.value)
  {
    hide OkReply;
    hide EmptyReply;
    hide DataReply;
    hide AddedReply;
    hide SortedReply;
    hide Field;
    hide FromDict;
    hide SnapshotFromDict;
    hide ToDict;
    hide SnapshotToDict;
    hide StateOf;
    hide RecordOf;
    var s' := Execute(cfg, s, cmd, token).0;
    ReportedStateAccepted(cfg.store, s');
    ReportedSnapshotAccepted(cfg.store, cfg.jobId, s');
    ReportFields(cfg, s', VNone, token);
    if cmd.PickOut? && cmd.size.VInt? && cmd.size.i > 0 {
      var pending := cfg.store.length(s.domains);
      if pending != 0 {
        var picked := cfg.store.pickOut(s.domains, if cmd.size.i < pending then cmd.size.i else pending);
        if picked.Returns? {
          ReportFields(cfg, s', picked.value, token);
        }
      }
    } else if cmd.Add? || cmd.Publish? || cmd.Donate? {
      var added := StoreAdd(cfg, s.domains, cmd.bounds, cmd.data, cmd.flag);
      if added.Returns? {
        ReportFields(cfg, s', added.value, token);
      }
    } else if cmd.GetItem? && Execute(cfg, s, cmd, token).1.Returned? {
      var i := Position(cmd.index.i, cfg.store.length(s.domains)).value;
      ReportFields(cfg, s, RecordAt(cfg, s, i).value, token);
      RecordWireCheck(cfg.store.item(s.domains, i).value);
    }
  }
}
