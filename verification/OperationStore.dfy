/** The install operation and its stored record. */
module OperationStore {
  import opened Wrappers
  import opened Phases

  datatype ErrorCode = UntrustedSource | DiskInsufficient | DigestMismatch | CancelledByContext | Internal

  datatype Warning = RestartedDownload(index: nat) | SizeOnly(index: nat)

  datatype Record = Record(phase: Phase, downloaded: seq<nat>, error: Option<ErrorCode>, warnings: seq<Warning>,
                           updatedAt: int)

  class Operation {
    var phase: Phase
    var downloaded: seq<nat>
    var error: Option<ErrorCode>
    var warnings: seq<Warning>
    var updatedAt: int

    constructor FromRecord(r: Record)
      ensures Snapshot() == r
    {
      phase, downloaded, error, warnings, updatedAt := r.phase, r.downloaded, r.error, r.warnings, r.updatedAt;
    }

    function Snapshot(): Record
      reads this
    {
      Record(phase, downloaded, error, warnings, updatedAt)
    }

    method TransitionTo(to: Phase, now: int) returns (ok: bool)
      modifies this
      ensures ok <==> CanTransition(old(phase), to)
      ensures Snapshot() == if ok then old(Snapshot()).(phase := to, updatedAt := now) else old(Snapshot())
    {
      ok := CanTransition(phase, to);
      if ok {
        phase, updatedAt := to, now;
      }
    }

    method Fail(code: ErrorCode, now: int) returns (ok: bool)
      modifies this
      ensures ok <==> !Terminal(old(phase))
      ensures Snapshot() == if ok then old(Snapshot()).(phase := Failed, updatedAt := now, error := Some(code))
                            else old(Snapshot())
    {
      ok := TransitionTo(Failed, now);
      if ok {
        error := Some(code);
      }
    }

    /** Cancelling a cancelled operation succeeds and changes nothing. */
    method Cancel(now: int) returns (ok: bool)
      modifies this
      ensures ok <==> old(phase).Cancelled? || !Terminal(old(phase))
      ensures ok ==> phase.Cancelled?
      ensures Snapshot() == if ok && !old(phase).Cancelled? then old(Snapshot()).(phase := Cancelled, updatedAt := now)
                            else old(Snapshot())
    {
      if phase.Cancelled? {
        return true;
      }
      ok := TransitionTo(Cancelled, now);
    }
  }

  datatype SaveOutcome = Saved | AlreadyTerminal | WriteFailed

  /** A stored terminal phase refuses every other phase. */
  predicate Blocked(stored: Option<Record>, to: Phase) {
    stored.Some? && Terminal(stored.value.phase) && stored.value.phase != to
  }

  /** The record file of one operation. Reads and writes may fail unless they are
      known to work; history is every phase ever written. */
  class Store {
    const readsWork: bool
    const writesWork: bool
    var record: Option<Record>
    ghost var history: seq<Phase>

    ghost predicate Valid()
      reads this
    {
      if record.None? then history == [] else history != [] && history[|history| - 1] == record.value.phase
    }

    constructor (readsWork: bool, writesWork: bool)
      ensures Valid() && record.None? && this.readsWork == readsWork && this.writesWork == writesWork
    {
      this.readsWork, this.writesWork := readsWork, writesWork;
      record, history := None, [];
    }

    method Load() returns (r: Option<Record>)
      ensures r.Some? ==> r == record
      ensures readsWork ==> r == record
    {
      var fails: bool := *;
      r := if fails && !readsWork then None else record;
    }

    method Save(r: Record) returns (outcome: SaveOutcome)
      requires Valid()
      modifies this
      ensures Valid()
      ensures outcome.Saved? ==> record == Some(r) && history == old(history) + [r.phase]
      ensures !outcome.Saved? ==> record == old(record) && history == old(history)
      ensures outcome.AlreadyTerminal? ==> Blocked(record, r.phase)
      ensures readsWork && Blocked(old(record), r.phase) ==> outcome.AlreadyTerminal?
      ensures writesWork ==> !outcome.WriteFailed?
    {
      var existing := Load();
      if Blocked(existing, r.phase) {
        return AlreadyTerminal;
      }
      var fails: bool := *;
      if fails && !writesWork {
        return WriteFailed;
      }
      record := Some(r);
      history := history + [r.phase];
      return Saved;
    }

    /** What a stretch of concurrent cancellations may do to the store: write
        cancelled records, and nothing over a terminal one while reads work. */
    twostate predicate OnlyCancelled()
      reads this
    {
      && old(history) <= history
      && (history == old(history) ==> record == old(record))
      && (history != old(history) ==> record.Some? && record.value.phase.Cancelled?)
      && (forall i :: |old(history)| <= i < |history| ==> history[i].Cancelled?)
      && (readsWork && Final(old(history)) ==> Final(history))
      && (readsWork && Legal(old(history)) ==> Legal(history))
    }

    /** Any number of cancellation requests save copies they loaded earlier. */
    method OtherRequests()
      requires Valid() && record.Some?
      modifies this
      ensures Valid() && record.Some? && OnlyCancelled()
    {
      var requests: nat :| 0 <= requests;
      for i := 0 to requests
        invariant Valid() && record.Some? && OnlyCancelled()
      {
        var copy: Record := *;
        var _ := Save(copy.(phase := Cancelled));
      }
    }
  }

  datatype CancelStatus = NotFound | Conflict | SaveFailed | Accepted

  /** One cancellation request: load, cancel the copy, save it. Meanwhile the
      executor and other requests may store any allowed step. */
  method CancelRequest(store: Store, now: int) returns (status: CancelStatus)
    requires store.Valid() && Legal(store.history) && store.readsWork
    modifies store
    ensures store.Valid() && Legal(store.history) && old(store.history) <= store.history
    ensures status.Accepted? ==> store.record.Some? && store.record.value.phase.Cancelled?
    ensures status.Conflict? ==>
      store.record.Some? && (store.record.value.phase.Succeeded? || store.record.value.phase.Failed?)
    ensures status.NotFound? ==> old(store.record).None?
    ensures old(store.record).Some? && old(store.record).value.phase.Cancelled? && store.writesWork ==> status.Accepted?
  {
    var loaded := store.Load();
    if loaded.None? {
      return NotFound;
    }
    var copy := new Operation.FromRecord(loaded.value);
    var ok := copy.Cancel(now);
    if !ok {
      return Conflict;
    }
    Meanwhile(store);
    ghost var before := store.history;
    var outcome := store.Save(copy.Snapshot());
    if outcome.Saved? {
      return Accepted;
    }
    LegalIsFinal(before);
    return SaveFailed;
  }

  /** Steps the executor and other requests may store. */
  method Meanwhile(store: Store)
    requires store.Valid() && store.record.Some? && Legal(store.history)
    modifies store
    ensures store.Valid() && store.record.Some? && Legal(store.history) && old(store.history) <= store.history
    ensures Terminal(old(store.record).value.phase) ==> store.record.value.phase == old(store.record).value.phase
  {
    var steps: nat :| 0 <= steps;
    for i := 0 to steps
      invariant store.Valid() && store.record.Some? && Legal(store.history) && old(store.history) <= store.history
      invariant Terminal(old(store.record).value.phase) ==> store.record.value.phase == old(store.record).value.phase
    {
      var r: Record := *;
      if r.phase == store.record.value.phase || CanTransition(store.record.value.phase, r.phase) {
        var outcome := store.Save(r);
      }
    }
  }
}
