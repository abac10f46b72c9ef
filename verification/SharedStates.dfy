/** The state records actors report and clients check on arrival. */
module SharedStates {
  import opened Results
  import opened Values

  datatype SharedState = SharedState(
    pending: int, checkedOut: int, idle: bool, failed: bool, reason: Option<string>)
  {
    /** `shared_idle` says exactly: nothing pending, nothing out, not failed. */
    predicate Consistent() {
      && pending >= 0 && checkedOut >= 0
      && (idle <==> pending == 0 && checkedOut == 0 && !failed)
    }
  }

  datatype Snapshot = Snapshot(jobId: string, version: int, state: SharedState)

  function OptionalText(reason: Option<string>): Value {
    if reason.Some? then VStr(reason.value) else VNone
  }

  function StateEntries(s: SharedState): seq<Entry> {
    [Entry(VStr("pending_shared_domains"), VInt(s.pending)),
     Entry(VStr("checked_out_shared_batches"), VInt(s.checkedOut)),
     Entry(VStr("shared_idle"), VBool(s.idle)),
     Entry(VStr("failed"), VBool(s.failed)),
     Entry(VStr("failure_reason"), OptionalText(s.reason))]
  }

  function ToDict(s: SharedState): Value {
    VDict(StateEntries(s))
  }

  function SnapshotToDict(p: Snapshot): Value {
    VDict(StateEntries(p.state) + [Entry(VStr("job_id"), VStr(p.jobId)), Entry(VStr("version"), VInt(p.version))])
  }

  /** `None` stands for the `ValueError`. */
  function FromDict(v: Value): Option<SharedState> {
    if !v.VDict? then None
    else
      var idle, failed := Find(v.entries, "shared_idle"), Find(v.entries, "failed");
      var pending, checkedOut :=
        Find(v.entries, "pending_shared_domains"), Find(v.entries, "checked_out_shared_batches");
      if idle.None? || failed.None? || !idle.value.VBool? || !failed.value.VBool? then None
      else if pending.None? || checkedOut.None? || !pending.value.VInt? || !checkedOut.value.VInt? then None
      else
        var reason := Find(v.entries, "failure_reason");
        if pending.value.i < 0 || checkedOut.value.i < 0 then None
        else if reason.Some? && !reason.value.VNone? && !reason.value.VStr? then None
        else if idle.value.b != (pending.value.i == 0 && checkedOut.value.i == 0 && !failed.value.b) then None
        else
          Some(SharedState(pending.value.i, checkedOut.value.i, idle.value.b, failed.value.b,
                           if reason.Some? && reason.value.VStr? then Some(reason.value.s) else None))
  }

  function SnapshotFromDict(v: Value): Option<Snapshot> {
    var state := FromDict(v);
    if state.None? then None
    else
      var job, version := Find(v.entries, "job_id"), Find(v.entries, "version");
      if job.None? || !job.value.VStr? || job.value.s == "" then None
      else if version.None? || !version.value.VInt? || version.value.i < 0 then None
      else Some(Snapshot(job.value.s, version.value.i, state.value))
  }

  lemma StateFields(s: SharedState, rest: seq<Entry>)
    ensures var es := StateEntries(s) + rest;
            && Find(es, "pending_shared_domains") == Some(VInt(s.pending))
            && Find(es, "checked_out_shared_batches") == Some(VInt(s.checkedOut))
            && Find(es, "shared_idle") == Some(VBool(s.idle))
            && Find(es, "failed") == Some(VBool(s.failed))
            && Find(es, "failure_reason") == Some(OptionalText(s.reason))
  {
    var es := StateEntries(s) + rest;
    FindAt(es, 0, "pending_shared_domains");
    FindAt(es, 1, "checked_out_shared_batches");
    FindAt(es, 2, "shared_idle");
    FindAt(es, 3, "failed");
    FindAt(es, 4, "failure_reason");
  }

  /** A record survives the trip exactly when it is consistent: a record that
      misreports idleness or a negative count is refused on arrival. */
  lemma StateWireCheck(s: SharedState)
    ensures FromDict(ToDict(s)) == if s.Consistent() then Some(s) else None
  {
    StateFields(s, []);
    assert StateEntries(s) + [] == StateEntries(s);
  }

  lemma SnapshotWireCheck(p: Snapshot)
    ensures SnapshotFromDict(SnapshotToDict(p))
              == if p.state.Consistent() && p.jobId != "" && p.version >= 0 then Some(p) else None
  {
    var rest := [Entry(VStr("job_id"), VStr(p.jobId)), Entry(VStr("version"), VInt(p.version))];
    StateFields(p.state, rest);
    FindAt(StateEntries(p.state) + rest, 5, "job_id");
    FindAt(StateEntries(p.state) + rest, 6, "version");
  }

  /** The dictionary says what the record says; the reason may be left out. */
  predicate Says(v: Value, s: SharedState) {
    && v.VDict?
    && Find(v.entries, "pending_shared_domains") == Some(VInt(s.pending))
    && Find(v.entries, "checked_out_shared_batches") == Some(VInt(s.checkedOut))
    && Find(v.entries, "shared_idle") == Some(VBool(s.idle))
    && Find(v.entries, "failed") == Some(VBool(s.failed))
    && (Find(v.entries, "failure_reason") == Some(OptionalText(s.reason))
        || (s.reason.None? && Find(v.entries, "failure_reason").None?))
  }

  /** Whatever arrives, extra keys allowed, is accepted as a record if and only if
      it says what the record says, in the right types, and that is consistent. */
  lemma FromDictExactly(v: Value, s: SharedState)
    ensures FromDict(v) == Some(s) <==> Says(v, s) && s.Consistent()
  {
    hide Find;
  }

  /** The same for snapshots. */
  lemma SnapshotFromDictExactly(v: Value, p: Snapshot)
    ensures SnapshotFromDict(v) == Some(p) <==>
              && v.VDict? && Says(v, p.state) && p.state.Consistent()
              && Find(v.entries, "job_id") == Some(VStr(p.jobId)) && p.jobId != ""
              && Find(v.entries, "version") == Some(VInt(p.version)) && p.version >= 0
  {
    hide Find;
    hide FromDict;
    hide Says;
    FromDictExactly(v, p.state);
    if Says(v, p.state) {
      SaysDict(v, p.state);
    }
    if SnapshotFromDict(v).Some? {
      FromDictExactly(v, SnapshotFromDict(v).value.state);
      SaysDict(v, SnapshotFromDict(v).value.state);
    }
  }

  lemma SaysDict(v: Value, s: SharedState)
    requires Says(v, s)
    ensures v.VDict?
  {
  }

  /** Whatever arrives, what is accepted is consistent. */
  lemma AcceptedConsistent(v: Value)
    requires FromDict(v).Some?
    ensures FromDict(v).value.Consistent()
  {
  }

  // ---------- Domain records ----------

  const RECORD_FIELDS: seq<string> :=
    ["lower_bound", "upper_bound", "threshold", "history", "split_history", "depth"]

  /** What a record can be read from: the keys of a dictionary or the attributes
      of an instance. */
  function Attributes(v: Value): seq<Entry> {
    if v.VDict? then v.entries
    else if v.VCustom? && v.fields.VDict? then v.fields.entries
    else []
  }

  /** `DomainRecord.from_value(v).to_dict()`; `None` stands for the `ValueError`. */
  function RecordOf(v: Value): Option<Value> {
    var es := Attributes(v);
    if exists name | name in RECORD_FIELDS :: Find(es, name).None? then None
    else
      Some(VDict(seq(|RECORD_FIELDS|, i requires 0 <= i < |RECORD_FIELDS| =>
        Entry(VStr(RECORD_FIELDS[i]), Find(es, RECORD_FIELDS[i]).value))))
  }

  /** A record sent as a dictionary is read back as the same record. */
  lemma RecordWireCheck(v: Value)
    requires RecordOf(v).Some?
    ensures RecordOf(RecordOf(v).value) == RecordOf(v)
  {
    var es := RecordOf(v).value.entries;
    forall i | 0 <= i < |RECORD_FIELDS|
      ensures Find(es, RECORD_FIELDS[i]) == Some(es[i].val)
    {
      RecordFieldsDiffer();
      FindAt(es, i, RECORD_FIELDS[i]);
    }
    assert RecordOf(VDict(es)).value.entries == es;
  }

  lemma RecordFieldsDiffer()
    ensures forall i, j | 0 <= i < j < |RECORD_FIELDS| :: RECORD_FIELDS[i] != RECORD_FIELDS[j]
  {
  }
}
