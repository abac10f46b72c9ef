/** The domain storage an actor wraps, and what is asked of it. */
module Stores {
  import opened Results
  import opened Values

  datatype Exn = Exn(typeName: string, message: string)

  /** A storage call returns or raises; either way it may leave a new state. */
  datatype Outcome<+S, +T> = Returns(next: S, value: T) | Raises(next: S, exn: Exn)

  /** The storage was called and did not raise. */
  predicate Succeeds<S, T>(outcome: Option<Outcome<S, T>>) {
    outcome.Some? && outcome.value.Returns?
  }

  /** The operations of a storage object with state `S`. The payload of `add`
      is everything the caller passed to it. */
  datatype Store<!S> = Store(
    length: S -> nat,
    pickOut: (S, nat) -> Outcome<S, Value>,
    add: (S, Value) -> Outcome<S, Value>,
    sort: S -> Outcome<S, ()>,
    item: (S, nat) -> Option<Value>)

  /** How the domains inside storages, batches and payloads are told: `accepted`
      is what `add` keeps of a payload after its own filtering. */
  datatype Accounting<!S(!new)> = Accounting(
    contents: S -> multiset<Value>,
    batch: Value -> multiset<Value>,
    accepted: (S, Value) -> multiset<Value>)
  {
    /** While it does not raise, the storage loses and invents nothing. */
    ghost predicate Balances(store: Store<S>) {
      && (forall s: S {:trigger store.length(s)} :: store.length(s) == |contents(s)|)
      && (forall s: S, n: nat | 0 < n <= store.length(s) && store.pickOut(s, n).Returns? ::
            contents(s) == batch(store.pickOut(s, n).value) + contents(store.pickOut(s, n).next))
      && (forall s: S, p: Value | store.add(s, p).Returns? ::
            contents(store.add(s, p).next) == contents(s) + accepted(s, p))
      && (forall s: S | store.sort(s).Returns? :: contents(store.sort(s).next) == contents(s))
    }
  }

  function Take(s: string, n: nat): string {
    if |s| <= n then s else s[..n]
  }
}
