/** State records survive the trip over the codec whatever they say. */
module StateTravel {
  import opened Values
  import opened Packets
  import opened RoundTrip
  import opened SharedStates

  /** A dictionary with different string keys travels if its values do. */
  lemma RecordTravels(c: Codec, es: seq<Entry>)
    requires forall i | 0 <= i < |es| :: es[i].key.VStr? && Faithful(c, es[i].val)
    requires forall i, j | 0 <= i < j < |es| :: es[i].key != es[j].key
    ensures Faithful(c, VDict(es))
  {
    forall i, j | 0 <= i < j < |es|
      ensures !SameKey(es[i].key, es[j].key)
    {
    }
  }

  lemma DifferentNames(es: seq<Entry>, names: seq<string>)
    requires |es| == |names| && forall i | 0 <= i < |es| :: es[i].key == VStr(names[i])
    requires forall i, j | 0 <= i < j < |names| :: names[i] != names[j]
    ensures forall i, j | 0 <= i < j < |es| :: es[i].key != es[j].key
  {
  }

  lemma StateTravels(c: Codec, p: Snapshot)
    ensures Faithful(c, ToDict(p.state)) && Faithful(c, SnapshotToDict(p))
  {
    var es := SnapshotToDict(p).entries;
    DifferentNames(es, ["pending_shared_domains", "checked_out_shared_batches", "shared_idle", "failed",
                        "failure_reason", "job_id", "version"]);
    RecordTravels(c, es);
    assert forall i | 0 <= i < 5 :: ToDict(p.state).entries[i] == es[i];
    RecordTravels(c, ToDict(p.state).entries);
  }
}
