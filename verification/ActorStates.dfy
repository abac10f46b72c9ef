/** The state both actors keep, and books kept on the side about every domain
    that entered, every batch handed out and every checkout ended. */
module ActorStates {
  import opened Results
  import opened Values
  import opened Stores
  import opened SharedStates

  /** Why an actor has failed; `Text` is what it reports. */
  datatype Reason =
    | BadBatchSize
    | SecondPick
    | PickRaised
    | BadFlag
    | AddRaised
    | NoActivePick
    | ClosedWithCheckout
    | WorkerFailedWithCheckout(worker: string, cause: string)
    | SortRaised(exn: Exn)
    | Declared(cause: string)
    | InputStorageRaised(exn: Exn)
    | InputClosedWithCheckout
    | InputWorkerFailed(worker: string, cause: string)
  {
    function Text(): string {
      match this
      case BadBatchSize => "InvalidStateError: batch_size must be a positive integer"
      case SecondPick => "InvalidStateError: complete the active shared checkout before another pick_out"
      case PickRaised => "DomainOperationError: BatchedDomainList.pick_out failed"
      case BadFlag => "InvalidStateError: check_infeasibility must be a boolean"
      case AddRaised => "DomainOperationError: BatchedDomainList.add failed"
      case NoActivePick => "InvalidStateError: no shared pick_out is active"
      case ClosedWithCheckout => "InvalidStateError: worker closed with checked-out shared work"
      case WorkerFailedWithCheckout(worker, cause) =>
        "InvalidStateError: " + Take("worker '" + worker + "' failed with checked-out work: " + Take(cause, 500), 800)
      case SortRaised(exn) => exn.typeName + ": " + Take(exn.message, 800)
      case Declared(cause) => Take(cause, 1000)
      case InputStorageRaised(exn) => Take(exn.typeName + ": " + exn.message, 1000)
      case InputClosedWithCheckout => "worker closed with checked-out input domains"
      case InputWorkerFailed(worker, cause) =>
        Take("worker " + worker + " failed with checked-out input domains: " + cause, 1000)
    }
  }

  datatype ActorState<S> = ActorState(
    domains: S, workers: set<string>, checkouts: map<string, string>, failure: Option<Reason>, version: nat)
  {
    predicate Failed() {
      failure.Some?
    }
  }

  datatype ActorError =
    | InvalidState | ActorFailed | DomainOperation | OutOfRange | TypeFault | MissingKey | StorageFault

  datatype Reply = Returned(value: Value) | Raised(error: ActorError)

  /** `reply.get(name)` of a dictionary reply. */
  function Field(v: Value, name: string): Value {
    if v.VDict? && Find(v.entries, name).Some? then Find(v.entries, name).value else VNone
  }

  function Text(v: Value): string {
    if v.VStr? then v.s else ""
  }

  function Checkout<S>(s: ActorState<S>, worker: string): Option<string> {
    if worker in s.checkouts then Some(s.checkouts[worker]) else None
  }

  predicate Known<S>(s: ActorState<S>, worker: Value) {
    worker.VStr? && worker.s in s.workers
  }

  predicate Holding<S>(s: ActorState<S>, worker: Value) {
    worker.VStr? && worker.s in s.checkouts
  }

  /** A worker leaves; if it still had a checkout, that is a failure. */
  function Departed<S>(s: ActorState<S>, worker: string, reason: Reason): ActorState<S> {
    ActorState(s.domains, s.workers - {worker}, s.checkouts,
               if s.failure.None? && worker in s.checkouts then Some(reason) else s.failure, s.version + 1)
  }

  function StateOf<S>(store: Store<S>, s: ActorState<S>): SharedState {
    var pending, checkedOut := store.length(s.domains), |s.checkouts|;
    SharedState(pending, checkedOut, pending == 0 && checkedOut == 0 && !s.Failed(), s.Failed(),
                if s.Failed() then Some(s.failure.value.Text()) else None)
  }

  /** Every state an actor can report passes the receiver's check unchanged. */
  lemma ReportedStateAccepted<S>(store: Store<S>, s: ActorState<S>)
    ensures FromDict(ToDict(StateOf(store, s))) == Some(StateOf(store, s))
  {
    StateWireCheck(StateOf(store, s));
  }

  /** The same for snapshots of an actor with a job id. */
  lemma ReportedSnapshotAccepted<S>(store: Store<S>, jobId: string, s: ActorState<S>)
    requires jobId != ""
    ensures var p := Snapshot(jobId, s.version, StateOf(store, s));
            SnapshotFromDict(SnapshotToDict(p)) == Some(p)
  {
    SnapshotWireCheck(Snapshot(jobId, s.version, StateOf(store, s)));
  }

  // ---------- Books ----------

  /** One batch handed out: its token, who got it, what it held, and whether
      the checkout was ended explicitly. */
  datatype Issue = Issue(token: string, worker: string, batch: Value, ended: bool)

  datatype Ledger = Ledger(entered: multiset<Value>, issues: seq<Issue>)

  /** What one actor step did, as its caller and reply tell. */
  datatype Effect =
    | Quiet
    | Issued(worker: string, token: string, batch: Value)
    | Ended(worker: string, accepted: multiset<Value>)
    | Donated(accepted: multiset<Value>)

  function EndOpen(issues: seq<Issue>, worker: string): (ended: seq<Issue>)
    ensures |ended| == |issues|
    ensures forall i | 0 <= i < |issues| ::
              ended[i] == if issues[i].worker == worker then issues[i].(ended := true) else issues[i]
  {
    seq(|issues|, i requires 0 <= i < |issues| =>
      if issues[i].worker == worker then issues[i].(ended := true) else issues[i])
  }

  function Record(book: Ledger, e: Effect): Ledger {
    match e
    case Quiet => book
    case Issued(worker, token, batch) => book.(issues := book.issues + [Issue(token, worker, batch, false)])
    case Ended(worker, accepted) => Ledger(book.entered + accepted, EndOpen(book.issues, worker))
    case Donated(accepted) => book.(entered := book.entered + accepted)
  }

  /** The effect is what really happened to the checkouts. */
  ghost predicate Moves<S>(s: ActorState<S>, s': ActorState<S>, e: Effect) {
    match e
    case Quiet => s'.checkouts == s.checkouts
    case Issued(worker, token, _) => worker !in s.checkouts && s'.checkouts == s.checkouts[worker := token]
    case Ended(worker, _) => s'.checkouts == s.checkouts - {worker}
    case Donated(_) => s'.checkouts == s.checkouts
  }

  /** The effect is what really happened to checkouts and domains; the domains of
      a failed actor are beyond account. */
  ghost predicate HasEffect<S(!new)>(acct: Accounting<S>, s: ActorState<S>, s': ActorState<S>, e: Effect) {
    && Moves(s, s', e)
    && (s.Failed() ==> s'.Failed())
    && (!e.Quiet? ==> !s'.Failed())
    && (!s'.Failed() && s.checkouts.Keys <= s.workers ==> s'.checkouts.Keys <= s'.workers)
    && (!s'.Failed() ==>
          match e
          case Quiet => acct.contents(s'.domains) == acct.contents(s.domains)
          case Issued(_, _, batch) =>
            acct.contents(s.domains) == acct.batch(batch) + acct.contents(s'.domains)
          case Ended(_, accepted) => acct.contents(s'.domains) == acct.contents(s.domains) + accepted
          case Donated(accepted) => acct.contents(s'.domains) == acct.contents(s.domains) + accepted)
  }

  ghost function Handed<S(!new)>(acct: Accounting<S>, issues: seq<Issue>): multiset<Value> {
    if issues == [] then multiset{}
    else Handed(acct, issues[..|issues| - 1]) + acct.batch(issues[|issues| - 1].batch)
  }

  /** The domains of the batches whose checkout has (not) been ended. */
  ghost function HandedIf<S(!new)>(acct: Accounting<S>, issues: seq<Issue>, ended: bool): multiset<Value> {
    if issues == [] then multiset{}
    else
      HandedIf(acct, issues[..|issues| - 1], ended)
      + (if issues[|issues| - 1].ended == ended then acct.batch(issues[|issues| - 1].batch) else multiset{})
  }

  ghost predicate DistinctTokens(issues: seq<Issue>) {
    forall i, j | 0 <= i < j < |issues| :: issues[i].token != issues[j].token
  }

  predicate Fresh(book: Ledger, token: string) {
    forall x | x in book.issues :: x.token != token
  }

  ghost predicate IsOpen(book: Ledger, worker: string, token: string) {
    exists i | 0 <= i < |book.issues| ::
      book.issues[i].worker == worker && book.issues[i].token == token && !book.issues[i].ended
  }

  /** The books agree with the actor's checkouts: tokens are unique and the open
      issues are exactly the entries. */
  ghost predicate Tracked<S>(s: ActorState<S>, book: Ledger) {
    && DistinctTokens(book.issues)
    && (forall i | 0 <= i < |book.issues| && !book.issues[i].ended ::
          book.issues[i].worker in s.checkouts && s.checkouts[book.issues[i].worker] == book.issues[i].token)
    && (forall w | w in s.checkouts :: IsOpen(book, w, s.checkouts[w]))
  }

  /** The books agree with the actor, and nothing is lost or handed out twice. */
  ghost predicate Balanced<S(!new)>(acct: Accounting<S>, s: ActorState<S>, book: Ledger) {
    && Tracked(s, book)
    && Handed(acct, book.issues) <= book.entered
    && (!s.Failed() ==> book.entered == acct.contents(s.domains) + Handed(acct, book.issues))
    && (!s.Failed() ==> s.checkouts.Keys <= s.workers)
  }

  lemma {:induction false} EndOpenHanded<S(!new)>(acct: Accounting<S>, issues: seq<Issue>, worker: string)
    ensures Handed(acct, EndOpen(issues, worker)) == Handed(acct, issues)
  {
    if issues != [] {
      var n := |issues| - 1;
      EndOpenHanded(acct, issues[..n], worker);
      assert EndOpen(issues, worker)[..n] == EndOpen(issues[..n], worker);
    }
  }

  lemma {:induction false} HandedSplits<S(!new)>(acct: Accounting<S>, issues: seq<Issue>)
    ensures Handed(acct, issues) == HandedIf(acct, issues, true) + HandedIf(acct, issues, false)
  {
    if issues != [] {
      HandedSplits(acct, issues[..|issues| - 1]);
    }
  }

  lemma {:induction false} NoneHanded<S(!new)>(acct: Accounting<S>, issues: seq<Issue>)
    requires forall i | 0 <= i < |issues| :: issues[i].ended
    ensures HandedIf(acct, issues, false) == multiset{}
  {
    if issues != [] {
      NoneHanded(acct, issues[..|issues| - 1]);
    }
  }

  lemma IssueTracks<S>(s: ActorState<S>, s': ActorState<S>, book: Ledger, e: Effect)
    requires Tracked(s, book) && Moves(s, s', e) && e.Issued? && Fresh(book, e.token)
    ensures Tracked(s', Record(book, e))
  {
    hide IsOpen;
    var book' := Record(book, e);
    OpenAfterIssue(book, e);
    forall i | 0 <= i < |book.issues|
      ensures book.issues[i].token != e.token && book'.issues[i] == book.issues[i]
    {
      assert book.issues[i] in book.issues;
    }
  }

  /** Every effect keeps the books in step with the checkouts, provided tokens
      are fresh. */
  lemma EffectTracks<S>(s: ActorState<S>, s': ActorState<S>, book: Ledger, e: Effect)
    requires Tracked(s, book) && Moves(s, s', e)
    requires e.Issued? ==> Fresh(book, e.token)
    ensures Tracked(s', Record(book, e))
  {
    match e
    case Issued(_, _, _) => IssueTracks(s, s', book, e);
    case Ended(_, _) =>
      hide IsOpen;
      OpenAfterEnd(book, e);
    case _ =>
      assert forall w, t :: IsOpen(book, w, t) ==> IsOpen(Record(book, e), w, t);
  }

  /** Every effect keeps the books balanced, provided tokens are fresh. */
  lemma EffectBalances<S(!new)>(acct: Accounting<S>, s: ActorState<S>, s': ActorState<S>, book: Ledger, e: Effect)
    requires Balanced(acct, s, book) && HasEffect(acct, s, s', e)
    requires e.Issued? ==> Fresh(book, e.token)
    ensures Balanced(acct, s', Record(book, e))
  {
    EffectTracks(s, s', book, e);
    hide Tracked;
    hide Moves;
    if e.Issued? {
      assert Record(book, e).issues[..|book.issues|] == book.issues;
    } else if e.Ended? {
      EndOpenHanded(acct, book.issues, e.worker);
    }
  }

  lemma OpenAfterIssue(book: Ledger, e: Effect)
    requires e.Issued?
    ensures IsOpen(Record(book, e), e.worker, e.token)
    ensures forall w, t | IsOpen(book, w, t) :: IsOpen(Record(book, e), w, t)
  {
    var book' := Record(book, e);
    assert book'.issues[|book.issues|] == Issue(e.token, e.worker, e.batch, false);
    forall w, t | IsOpen(book, w, t)
      ensures IsOpen(book', w, t)
    {
      var i :| && 0 <= i < |book.issues| && !book.issues[i].ended
               && book.issues[i].worker == w && book.issues[i].token == t;
      assert book'.issues[i] == book.issues[i];
    }
  }

  lemma OpenAfterEnd(book: Ledger, e: Effect)
    requires e.Ended?
    ensures forall w, t | IsOpen(book, w, t) && w != e.worker :: IsOpen(Record(book, e), w, t)
  {
    var book' := Record(book, e);
    forall w, t | IsOpen(book, w, t) && w != e.worker
      ensures IsOpen(book', w, t)
    {
      var i :| && 0 <= i < |book.issues| && !book.issues[i].ended
               && book.issues[i].worker == w && book.issues[i].token == t;
      assert book'.issues[i] == book.issues[i];
    }
  }

  // ---------- What balanced books mean ----------

  /** While the actor has not failed, everything that ever entered is pending,
      out with a live checkout, or was out under a checkout that was ended. */
  lemma NothingLost<S(!new)>(acct: Accounting<S>, s: ActorState<S>, book: Ledger)
    requires Balanced(acct, s, book) && !s.Failed()
    ensures book.entered == acct.contents(s.domains)
                            + HandedIf(acct, book.issues, false) + HandedIf(acct, book.issues, true)
  {
    HandedSplits(acct, book.issues);
  }

  /** `shared_idle` is never claimed while a batch is owed. */
  lemma IdleOwesNothing<S>(store: Store<S>, s: ActorState<S>, book: Ledger)
    requires Tracked(s, book) && StateOf(store, s).idle
    ensures forall i | 0 <= i < |book.issues| :: book.issues[i].ended
  {
    assert s.checkouts == map[];
  }

  /** An idle actor has accounted for everything: every checkout was ended, and
      all domains that ever entered were in ended batches. */
  lemma IdleIsSound<S(!new)>(acct: Accounting<S>, store: Store<S>, s: ActorState<S>, book: Ledger)
    requires acct.Balances(store) && Balanced(acct, s, book) && StateOf(store, s).idle
    ensures forall i | 0 <= i < |book.issues| :: book.issues[i].ended
    ensures book.entered == HandedIf(acct, book.issues, true)
  {
    IdleOwesNothing(store, s, book);
    NoneHanded(acct, book.issues);
    NothingLost(acct, s, book);
    assert |acct.contents(s.domains)| == 0;
  }

  /** An issue is open exactly as long as its worker holds its token, and the
      token of an ended issue is nobody's. */
  lemma OpenIsHeld<S>(s: ActorState<S>, book: Ledger, i: nat)
    requires Tracked(s, book) && i < |book.issues|
    ensures book.issues[i].ended <==> Checkout(s, book.issues[i].worker) != Some(book.issues[i].token)
    ensures book.issues[i].ended ==> forall w :: Checkout(s, w) != Some(book.issues[i].token)
  {
    forall w | Checkout(s, w) == Some(book.issues[i].token)
      ensures !book.issues[i].ended
    {
      assert IsOpen(book, w, s.checkouts[w]);
      var j :| 0 <= j < |book.issues| && book.issues[j].token == book.issues[i].token && !book.issues[j].ended;
      OneIssue(book.issues, i, j);
    }
  }

  lemma OneIssue(issues: seq<Issue>, i: nat, j: nat)
    requires DistinctTokens(issues) && i < |issues| && j < |issues| && issues[i].token == issues[j].token
    ensures i == j
  {
  }

  lemma {:induction false} TwoHanded<S(!new)>(acct: Accounting<S>, issues: seq<Issue>, i: nat, j: nat)
    requires i < |issues|
    ensures acct.batch(issues[i].batch) <= Handed(acct, issues)
    ensures i < j < |issues| ==> acct.batch(issues[i].batch) + acct.batch(issues[j].batch) <= Handed(acct, issues)
  {
    var n := |issues| - 1;
    if i < n {
      TwoHanded(acct, issues[..n], i, j);
    }
  }

  /** If no domain ever entered twice, no domain is ever in two batches,
      whatever happened since and whether or not the actor failed. */
  lemma NothingHandedTwice<S(!new)>(acct: Accounting<S>, s: ActorState<S>, book: Ledger, i: nat, j: nat)
    requires Balanced(acct, s, book) && i < j < |book.issues|
    requires forall d :: book.entered[d] <= 1
    ensures acct.batch(book.issues[i].batch) !! acct.batch(book.issues[j].batch)
  {
    TwoHanded(acct, book.issues, i, j);
    var a, b := acct.batch(book.issues[i].batch), acct.batch(book.issues[j].batch);
    forall d | d in a
      ensures d !in b
    {
      assert (a + b)[d] <= book.entered[d] <= 1;
    }
  }

  // ---------- What is reported ----------

  /** Batches out: issues not yet ended. */
  function OpenCount(issues: seq<Issue>): nat {
    if issues == [] then 0
    else OpenCount(issues[..|issues| - 1]) + if issues[|issues| - 1].ended then 0 else 1
  }

  function OpenWorkers(issues: seq<Issue>): set<string> {
    if issues == [] then {}
    else
      var last := issues[|issues| - 1];
      OpenWorkers(issues[..|issues| - 1]) + if last.ended then {} else {last.worker}
  }

  lemma {:induction false} WorkersOfOpen(issues: seq<Issue>)
    ensures forall w :: w in OpenWorkers(issues) <==>
              exists i | 0 <= i < |issues| :: !issues[i].ended && issues[i].worker == w
    decreases |issues|
  {
    if issues != [] {
      var n := |issues| - 1;
      WorkersOfOpen(issues[..n]);
      forall w
        ensures w in OpenWorkers(issues) <==>
                  exists i | 0 <= i < |issues| :: !issues[i].ended && issues[i].worker == w
      {
        if i :| 0 <= i < n && !issues[..n][i].ended && issues[..n][i].worker == w {
          assert issues[i] == issues[..n][i];
        }
        if i :| 0 <= i < |issues| && !issues[i].ended && issues[i].worker == w {
          assert i < n ==> issues[..n][i] == issues[i];
        }
      }
    }
  }

  ghost predicate OneEach(issues: seq<Issue>) {
    forall i, j | 0 <= i < j < |issues| && !issues[i].ended && !issues[j].ended ::
      issues[i].worker != issues[j].worker
  }

  lemma {:induction false} OpenCounted(issues: seq<Issue>)
    requires OneEach(issues)
    ensures |OpenWorkers(issues)| == OpenCount(issues)
    decreases |issues|
  {
    if issues != [] {
      OpenCounted(issues[..|issues| - 1]);
      WorkersOfOpen(issues[..|issues| - 1]);
    }
  }

  lemma OpenHolders<S>(s: ActorState<S>, book: Ledger)
    requires Tracked(s, book)
    ensures OpenWorkers(book.issues) == s.checkouts.Keys && OneEach(book.issues)
  {
    WorkersOfOpen(book.issues);
    forall w
      ensures w in OpenWorkers(book.issues) <==> w in s.checkouts.Keys
    {
      if w in s.checkouts {
        assert IsOpen(book, w, s.checkouts[w]);
      }
    }
  }

  /** `checked_out_shared_batches` is the number of batches issued whose
      checkout has not been ended. */
  lemma ReportsOpen<S>(store: Store<S>, s: ActorState<S>, book: Ledger)
    requires Tracked(s, book)
    ensures StateOf(store, s).checkedOut == OpenCount(book.issues)
  {
    hide Tracked;
    hide OneEach;
    OpenHolders(s, book);
    OpenCounted(book.issues);
    assert |s.checkouts| == |s.checkouts.Keys|;
  }

  // ---------- Tokens ----------

  /** Later books keep every issue; only `ended` may change, and only to true. */
  ghost predicate Grows(book: Ledger, later: Ledger) {
    && |book.issues| <= |later.issues|
    && forall i | 0 <= i < |book.issues| ::
         later.issues[i] == book.issues[i] || later.issues[i] == book.issues[i].(ended := true)
  }

  lemma RecordGrows(book: Ledger, e: Effect)
    ensures Grows(book, Record(book, e))
  {
  }

  /** A step that ends the checkout of a token removes exactly that token's
      entry, the one its worker held. */
  lemma EndsItsOwn<S>(s: ActorState<S>, s': ActorState<S>, book: Ledger, e: Effect, i: nat)
    requires Tracked(s, book) && Moves(s, s', e)
    requires i < |book.issues| && !book.issues[i].ended && Record(book, e).issues[i].ended
    ensures e.Ended? && e.worker == book.issues[i].worker
    ensures e.worker in s.checkouts && s.checkouts[e.worker] == book.issues[i].token
    ensures s'.checkouts == s.checkouts - {e.worker}
    ensures forall j | 0 <= j < |book.issues| && j != i :: Record(book, e).issues[j].ended == book.issues[j].ended
  {
    assert forall j | 0 <= j < |book.issues| && j != i :: book.issues[j].token != book.issues[i].token;
  }
}
