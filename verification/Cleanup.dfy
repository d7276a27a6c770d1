/**
 Cleanup of a session's checkpoint files (src/checkpoint/cleanup.rs), and what it undoes of a run
 of the publisher.
 */
module Cleanup {
  import opened Common
  import opened StorePaths
  import opened Publisher
  import opened PublisherRuns
  import opened PublisherObjects

  datatype SessionState = Active | Completed | TimedOut | Cancelled

  datatype CleanupResult = Skipped | MarkedForCleanup(ttlDays: nat) | Deleted(deltasRemoved: nat)

  const TTL_COMPLETED_DAYS := 7
  const TTL_TIMED_OUT_DAYS := 30

  /** Paths of the deltas named by the first `n` entries. */
  function DeltaPaths(host: string, session: string, entries: seq<CheckpointEntry>, n: nat): set<string>
    requires n <= |entries|
  {
    set i | 0 <= i < n :: DeltaPath(host, session, entries[i].index)
  }

  /** What is left when every read and delete succeeds. */
  function DeleteAll(store: Store, host: string, session: string): Store {
    var entries := EntriesOf(IndexOf(store, host, session));
    store - DeltaPaths(ToLower(host), session, entries, |entries|) - {IndexPath(host, session)}
  }

  lemma MinusTwice(store: Store, a: set<string>, b: set<string>)
    ensures store - a - b == store - (a + b)
  {
  }

  /** Paths of the named deltas whose delete succeeds. */
  function DeletedPaths(host: string, session: string, entries: seq<CheckpointEntry>, n: nat, deletes: nat -> bool)
    : set<string>
    requires n <= |entries|
  {
    set i | 0 <= i < n && deletes(i) :: DeltaPath(host, session, entries[i].index)
  }

  /**
   `delete_all_checkpoints`: reads the index, deletes each delta it names, then the index. A failed delete
   is passed over, and the count is the number of entries, deleted or not.
   */
  method DeleteAllCheckpoints(s5: S5Storage, host: string, session: string, readable: bool, deletes: nat -> bool)
    returns (count: nat)
    modifies s5
    ensures var entries := if readable then EntriesOf(IndexOf(old(s5.objects), host, session)) else [];
            && count == |entries|
            && s5.objects == old(s5.objects) - DeletedPaths(ToLower(host), session, entries, count, deletes)
                             - if deletes(count) then {IndexPath(host, session)} else {}
  {
    hide IndexOf, ToLower, DeltaPath, IndexPath;
    var index := if readable then IndexOf(s5.objects, host, session) else None;
    count := 0;
    if index.Some? {
      var entries := index.value.checkpoints;
      count := |entries|;
      for i := 0 to |entries|
        invariant s5.objects == old(s5.objects) - DeletedPaths(ToLower(host), session, entries, i, deletes)
      {
        var path := DeltaPath(ToLower(host), session, entries[i].index);
        ghost var gone := if deletes(i) then {path} else {};
        assert DeletedPaths(ToLower(host), session, entries, i + 1, deletes) ==
               DeletedPaths(ToLower(host), session, entries, i, deletes) + gone;
        MinusTwice(old(s5.objects), DeletedPaths(ToLower(host), session, entries, i, deletes), gone);
        var ok := s5.Delete(path, deletes(i));
      }
    }
    var ok := s5.Delete(IndexPath(host, session), deletes(count));
  }

  lemma AllDeleted(store: Store, host: string, session: string, deletes: nat -> bool)
    requires forall i: nat :: deletes(i)
    ensures var entries := EntriesOf(IndexOf(store, host, session));
            DeleteAll(store, host, session) ==
            store - DeletedPaths(ToLower(host), session, entries, |entries|, deletes) - {IndexPath(host, session)}
  {
    hide IndexOf, ToLower, DeltaPath, IndexPath;
    var entries := EntriesOf(IndexOf(store, host, session));
    assert DeletedPaths(ToLower(host), session, entries, |entries|, deletes)
        == DeltaPaths(ToLower(host), session, entries, |entries|);
  }

  /** `cleanup_checkpoints`: only a cancelled session loses files. */
  method CleanupCheckpoints(s5: S5Storage, host: string, session: string, state: SessionState, readable: bool,
                            deletes: nat -> bool)
    returns (r: CleanupResult)
    modifies s5
    ensures state != Cancelled ==> s5.objects == old(s5.objects)
    ensures state == Cancelled ==>
              var entries := if readable then EntriesOf(IndexOf(old(s5.objects), host, session)) else [];
              && r == Deleted(|entries|)
              && s5.objects == old(s5.objects) - DeletedPaths(ToLower(host), session, entries, |entries|, deletes)
                               - if deletes(|entries|) then {IndexPath(host, session)} else {}
    ensures state == Cancelled && readable && (forall i: nat :: deletes(i)) ==>
              && s5.objects == DeleteAll(old(s5.objects), host, session)
              && r == Deleted(|EntriesOf(IndexOf(old(s5.objects), host, session))|)
    ensures r == Skipped <==> state == Active
    ensures state == Completed ==> r == MarkedForCleanup(7)
    ensures state == TimedOut ==> r == MarkedForCleanup(30)
  {
    hide IndexOf, DeleteAll;
    match state
    case Active =>
      r := Skipped;
    case Cancelled =>
      if forall i: nat :: deletes(i) {
        AllDeleted(s5.objects, host, session, deletes);
      }
      var count := DeleteAllCheckpoints(s5, host, session, readable, deletes);
      r := Deleted(count);
    case Completed =>
      r := MarkedForCleanup(TTL_COMPLETED_DAYS);
    case TimedOut =>
      r := MarkedForCleanup(TTL_TIMED_OUT_DAYS);
  }

  // ---------------------------------------------------------------- what cleanup undoes

  /** In every store: the session's index and the deltas it names are gone, every other file is as before. */
  lemma DeleteAllViews(store: Store, host: string, session: string)
    requires HostOk(host)
    ensures var store' := DeleteAll(store, host, session);
            var entries := EntriesOf(IndexOf(store, host, session));
            && (forall s :: IndexOf(store', host, s) == if s == session then None else IndexOf(store, host, s))
            && (forall s, n: nat :: DeltaOf(store', host, s, n) ==
                  if s == session && (exists i :: 0 <= i < |entries| && entries[i].index == n) then None
                  else DeltaOf(store, host, s, n))
  {
    hide IndexPath, DeltaPath, ToLower;
    var store' := DeleteAll(store, host, session);
    var entries := EntriesOf(IndexOf(store, host, session));
    forall s
      ensures IndexOf(store', host, s) == if s == session then None else IndexOf(store, host, s)
    {
      PathsApart(host, session, 0, s, 0);
      forall i | 0 <= i < |entries|
        ensures DeltaPath(host, session, entries[i].index) != IndexPath(host, s)
      {
        PathsApart(host, s, 0, session, entries[i].index);
      }
    }
    forall s, n: nat
      ensures DeltaOf(store', host, s, n) ==
              if s == session && (exists i :: 0 <= i < |entries| && entries[i].index == n) then None
              else DeltaOf(store, host, s, n)
    {
      PathsApart(host, session, 0, s, n);
      forall i | 0 <= i < |entries|
        ensures DeltaPath(host, session, entries[i].index) == DeltaPath(host, s, n) ==>
                s == session && entries[i].index == n
      {
        PathsApart(host, s, n, session, entries[i].index);
      }
    }
  }

  // ---------------------------------------------------------------- which deltas the index names

  predicate Indexed(entries: seq<CheckpointEntry>, n: nat) {
    exists i :: 0 <= i < |entries| && entries[i].index == n
  }

  /** The numbers whose last uploaded delta was followed by a failed index upload. */
  function Uncommitted(host: string, ops: seq<Op>, session: string): set<nat>
    decreases |ops|
  {
    if ops == [] then {}
    else
      var before, op := ops[..|ops| - 1], ops[|ops| - 1];
      UncommittedAfter(Run(Start(host), before), op, session, Uncommitted(host, before, session))
  }

  function UncommittedAfter(w: World, op: Op, session: string, before: set<nat>): set<nat> {
    var st := StateOf(w.sessions, session);
    if op.Publish? && op.session == session && DeltaUploaded(st, op.outcomes)
    then if IndexUploaded(op.outcomes) then before - {st.checkpointIndex} else before + {st.checkpointIndex}
    else before
  }

  /**
   Every stored delta is named by the stored index or uncommitted, and not both; the uncommitted
   numbers are not past the current one.
   */
  ghost predicate Accounted(w: World, session: string, uncommitted: set<nat>) {
    var stored := StoredEntries(w, session);
    && (forall n: nat :: DeltaOf(w.store, w.host, session, n).Some? <==> Indexed(stored, n) || n in uncommitted)
    && (forall n: nat :: n in uncommitted ==> !Indexed(stored, n) && n <= StateAt(w, session).checkpointIndex)
  }

  lemma AppendIndexes(stored: seq<CheckpointEntry>, entries: seq<CheckpointEntry>, current: nat, e: CheckpointEntry)
    requires NumberInv(stored, entries, current) && e.index == current
    ensures forall n: nat :: Indexed(entries + [e], n) <==> Indexed(stored, n) || n == current
  {
    var all := entries + [e];
    assert all[|entries|] == e;
    forall n: nat
      ensures Indexed(all, n) <==> Indexed(stored, n) || n == current
    {
      if Indexed(stored, n) {
        var i :| 0 <= i < |stored| && stored[i].index == n;
        assert all[i].index == n;
      }
      if Indexed(all, n) {
        var i :| 0 <= i < |all| && all[i].index == n;
        if i < |stored| { assert stored[i].index == n; }
      }
    }
  }

  lemma CurrentIsNotIndexed(w: World, session: string)
    requires SessionInv(w, session)
    ensures !Indexed(StoredEntries(w, session), StateAt(w, session).checkpointIndex)
    ensures StateAt(w, session).checkpointIndex <= |StoredEntries(w, session)|
  {
    hide IndexOf, DeltaOf, ProofInv, StateAt;
    var stored, entries := StoredEntries(w, session), EntriesOf(StateAt(w, session).index);
    assert forall i :: 0 <= i < |stored| ==> stored[i] == entries[i];
    if |entries| > |stored| { assert entries[|stored|].index == StateAt(w, session).checkpointIndex; }
  }

  lemma PublishAccounts(w: World, op: Op, session: string, uncommitted: set<nat>)
    requires Inv(w) && ResumedFirst(w, op) && op.Publish? && op.session == session && Accounted(w, session, uncommitted)
    ensures Accounted(Next(w, op), session, UncommittedAfter(w, op, session, uncommitted))
  {
    hide IndexOf, DeltaOf, PublishCheckpoint, NumberInv, ProofInv, DeltaUploaded, IndexUploaded, Describes, ToLower,
      Indexed;
    assert SessionInv(w, session);
    var st := StateOf(w.sessions, session);
    var e, obj := PublishEffect(w.host, session, st, w.store, op.proof, op.outcomes);
    CurrentIsNotIndexed(w, session);
    if DeltaUploaded(st, op.outcomes) {
      AppendIndexes(StoredEntries(w, session), EntriesOf(st.index), st.checkpointIndex, e);
    }
  }

  lemma NextAccounts(w: World, op: Op, session: string, uncommitted: set<nat>)
    requires Inv(w) && ResumedFirst(w, op) && Accounted(w, session, uncommitted)
    ensures Accounted(Next(w, op), session, UncommittedAfter(w, op, session, uncommitted))
  {
    hide IndexOf, DeltaOf, PublishCheckpoint, SessionInv, DeltaUploaded, IndexUploaded, Describes, ToLower, Indexed;
    if op.Publish? && op.session == session {
      PublishAccounts(w, op, session, uncommitted);
    } else {
      assert SessionInv(w, session);
      CurrentIsNotIndexed(w, session);
      if op.Publish? {
        var e, obj := PublishEffect(w.host, op.session, StateOf(w.sessions, op.session), w.store, op.proof,
            op.outcomes);
      }
    }
  }

  lemma {:induction false} EveryRunAccounts(host: string, ops: seq<Op>, session: string)
    requires HostOk(host) && Disciplined(Start(host), ops)
    ensures Accounted(Run(Start(host), ops), session, Uncommitted(host, ops, session))
    decreases |ops|
  {
    hide IndexOf, DeltaOf, Next, Inv, HostOk, Accounted, ResumedFirst, UncommittedAfter;
    if ops == [] {
      StartAccounts(host, session);
    } else {
      var before := ops[..|ops| - 1];
      EveryRunIsSafe(host, before);
      EveryRunAccounts(host, before, session);
      NextAccounts(Run(Start(host), before), ops[|ops| - 1], session, Uncommitted(host, before, session));
    }
  }

  lemma StartAccounts(host: string, session: string)
    ensures Accounted(Start(host), session, {})
  {
  }

  // ---------------------------------------------------------------- what cleanup leaves

  /**
   After every run, cleanup of the session leaves exactly the deltas whose index upload failed last,
   and no other session is touched.
   */
  lemma CleanupLeavesUncommitted(host: string, ops: seq<Op>, session: string)
    requires HostOk(host) && Disciplined(Start(host), ops)
    ensures var store := Run(Start(host), ops).store;
            var store' := DeleteAll(store, host, session);
            && IndexOf(store', host, session).None?
            && (forall n: nat :: DeltaOf(store', host, session, n).Some? <==> n in Uncommitted(host, ops, session))
            && (forall s :: s != session ==> IndexOf(store', host, s) == IndexOf(store, host, s))
            && (forall s, n: nat :: s != session ==> DeltaOf(store', host, s, n) == DeltaOf(store, host, s, n))
  {
    hide IndexOf, DeltaOf, Inv, HostOk, DeleteAll, Run, Uncommitted;
    EveryRunIsSafe(host, ops);
    EveryRunAccounts(host, ops, session);
    DeleteAllViews(Run(Start(host), ops).store, host, session);
  }

  /** So cancelled cleanup undoes publishing if and only if no number's last upload went uncommitted. */
  lemma CancelledCleanupUndoesPublishing(host: string, ops: seq<Op>, session: string)
    requires HostOk(host) && Disciplined(Start(host), ops)
    ensures var store' := DeleteAll(Run(Start(host), ops).store, host, session);
            IndexOf(store', host, session).None? && (forall n: nat :: DeltaOf(store', host, session, n).None?) <==>
            Uncommitted(host, ops, session) == {}
  {
    hide IndexOf, DeltaOf, HostOk, DeleteAll, Run, Uncommitted;
    CleanupLeavesUncommitted(host, ops, session);
  }

  /** Its report is the number of deltas it removed, numbered from 0, if and only if no commit found a leftover. */
  lemma ReportIsExactIffCleanCommits(host: string, ops: seq<Op>, session: string)
    requires HostOk(host) && Disciplined(Start(host), ops)
    ensures var entries := EntriesOf(IndexOf(Run(Start(host), ops).store, host, session));
            (forall n: nat :: Indexed(entries, n) <==> n < |entries|) <==> CleanCommits(host, ops, session)
  {
    hide IndexOf, DeltaOf, HostOk, Run, CleanCommits, Indexed, NumberedByPosition, ProofInv, StateAt;
    EveryRunIsSafe(host, ops);
    NumberedIffCleanCommits(host, ops, session);
    var w := Run(Start(host), ops);
    var entries, all := StoredEntries(w, session), EntriesOf(StateAt(w, session).index);
    assert SessionInv(w, session);
    assert forall i :: 0 <= i < |entries| ==> entries[i] == all[i];
    NumberedIffAllIndexed(entries);
  }

  lemma NumberedIffAllIndexed(entries: seq<CheckpointEntry>)
    requires forall i :: 0 <= i < |entries| ==> entries[i].index <= i
    ensures NumberedByPosition(entries) <==> forall n: nat :: Indexed(entries, n) <==> n < |entries|
  {
    if NumberedByPosition(entries) {
      forall n: nat ensures Indexed(entries, n) <==> n < |entries| {
        if n < |entries| { assert entries[n].index == n; }
      }
    } else if forall n: nat :: Indexed(entries, n) <==> n < |entries| {
      AllIndexedIsNumbered(entries, 0);
    }
  }

  lemma {:induction false} AllIndexedIsNumbered(entries: seq<CheckpointEntry>, k: nat)
    requires forall i :: 0 <= i < |entries| ==> entries[i].index <= i
    requires forall n: nat :: n < |entries| ==> Indexed(entries, n)
    requires k <= |entries|
    ensures forall i :: k <= i < |entries| ==> entries[i].index == i
    decreases |entries| - k
  {
    if k < |entries| {
      AllIndexedIsNumbered(entries, k + 1);
      assert Indexed(entries, k);
      var j :| 0 <= j < |entries| && entries[j].index == k;
      assert j == k;
    }
  }

  // ---------------------------------------------------------------- leftovers and orphans

  /** Nothing in the run resumes the session or loses its state. */
  predicate NeverResumed(ops: seq<Op>, session: string) {
    forall i :: 0 <= i < |ops| ==>
      !ops[i].Restart? && !((ops[i].Remove? || ops[i].Init?) && ops[i].session == session)
  }

  /** The current number, if memory holds a leftover. */
  ghost function Left(w: World, session: string): set<nat> {
    if HasLeftover(w, session) then {StateAt(w, session).checkpointIndex} else {}
  }

  /**
   In a run that never resumes the session, the current number is uncommitted if memory holds a
   leftover, and nothing else is.
   */
  lemma {:induction false} UncommittedIffLeftover(host: string, ops: seq<Op>, session: string)
    requires HostOk(host) && Disciplined(Start(host), ops) && NeverResumed(ops, session)
    ensures Uncommitted(host, ops, session) == Left(Run(Start(host), ops), session)
    decreases |ops|
  {
    hide IndexOf, DeltaOf, Next, HostOk, ResumedFirst, UncommittedAfter, ProofInv, HasLeftover, StateAt;
    if ops == [] {
      NothingLeft(host, session);
    } else {
      var before := ops[..|ops| - 1];
      EveryRunIsSafe(host, before);
      UncommittedIffLeftover(host, before, session);
      LeftoverAfter(Run(Start(host), before), ops[|ops| - 1], session);
    }
  }

  lemma NothingLeft(host: string, session: string)
    ensures !HasLeftover(Start(host), session)
  {
  }

  lemma LeftoverAfter(w: World, op: Op, session: string)
    requires Inv(w) && ResumedFirst(w, op) && NeverResumed([op], session)
    ensures Left(Next(w, op), session) == UncommittedAfter(w, op, session, Left(w, session))
  {
    hide IndexOf, DeltaOf, PublishCheckpoint, ProofInv, NumberInv, DeltaUploaded, IndexUploaded, Describes, ToLower;
    assert [op][0] == op && SessionInv(w, session);
    if op.Publish? {
      var st := StateOf(w.sessions, op.session);
      var e, obj := PublishEffect(w.host, op.session, st, w.store, op.proof, op.outcomes);
      if op.session == session { LongerThanStored(StoredEntries(w, session), EntriesOf(st.index), st.checkpointIndex); }
    }
  }

  lemma LongerThanStored(stored: seq<CheckpointEntry>, entries: seq<CheckpointEntry>, current: nat)
    requires NumberInv(stored, entries, current)
    ensures |stored| <= |entries|
  {
  }

  /**
   An uncommitted number below the current one is an orphan for good; the current one is cleared by
   the next commit.
   */
  lemma {:induction false} OrphansStay(host: string, ops: seq<Op>, n: nat, session: string, number: nat)
    requires HostOk(host) && Disciplined(Start(host), ops) && n <= |ops|
    requires number in Uncommitted(host, ops[..n], session)
    requires number < StateAt(Run(Start(host), ops[..n]), session).checkpointIndex
    ensures number in Uncommitted(host, ops, session)
          && number < StateAt(Run(Start(host), ops), session).checkpointIndex
    decreases |ops|
  {
    hide IndexOf, DeltaOf, Next, HostOk, ResumedFirst, UncommittedAfter, StateAt;
    if n == |ops| {
      assert ops[..n] == ops;
    } else {
      var before := ops[..|ops| - 1];
      assert before[..n] == ops[..n];
      OrphansStay(host, before, n, session, number);
      EveryRunIsSafe(host, before);
      OrphanStays(Run(Start(host), before), ops[|ops| - 1], session, Uncommitted(host, before, session), number);
    }
  }

  lemma OrphanStays(w: World, op: Op, session: string, uncommitted: set<nat>, number: nat)
    requires Inv(w) && ResumedFirst(w, op) && number in uncommitted && number < StateAt(w, session).checkpointIndex
    ensures number in UncommittedAfter(w, op, session, uncommitted)
    ensures number < StateAt(Next(w, op), session).checkpointIndex
  {
    hide IndexOf, DeltaOf, PublishCheckpoint, SessionInv, DeltaUploaded, IndexUploaded, Describes, ToLower;
    assert SessionInv(w, session);
    CurrentIsNotIndexed(w, session);
    if op.Publish? {
      var e, obj := PublishEffect(w.host, op.session, StateOf(w.sessions, op.session), w.store, op.proof, op.outcomes);
    }
  }

  /**
   Losing or resuming a state drops its leftover: the number becomes an orphan if and only if it is
   below the length of the stored index, and otherwise stays the current one.
   */
  lemma ResumeOrphansIffShorter(host: string, ops: seq<Op>, op: Op, session: string)
    requires HostOk(host) && Disciplined(Start(host), ops)
    requires || op.Restart? || (op.Remove? && op.session == session)
             || (op.Init? && op.session == session && op.read.Some? && ResumedFirst(Run(Start(host), ops), op))
    requires HasLeftover(Run(Start(host), ops), session)
    ensures var w := Run(Start(host), ops);
            var number := StateAt(w, session).checkpointIndex;
            var current := StateAt(Next(w, op), session).checkpointIndex;
            && !HasLeftover(Next(w, op), session)
            && (number < current <==> number < |StoredEntries(w, session)|)
            && number <= current == |StoredEntries(w, session)|
  {
    hide IndexOf, DeltaOf, HostOk, Run, ProofInv;
    EveryRunIsSafe(host, ops);
    var w := Run(Start(host), ops);
    assert SessionInv(w, session);
    CurrentIsNotIndexed(w, session);
  }

  /** Every index upload of the session succeeds. */
  predicate NoIndexFailure(ops: seq<Op>, session: string) {
    forall i :: 0 <= i < |ops| && ops[i].Publish? && ops[i].session == session ==> IndexUploaded(ops[i].outcomes)
  }

  /** Then cleanup is complete and its report exact. */
  lemma {:induction false} NoFailureLeavesNothing(host: string, ops: seq<Op>, session: string)
    requires HostOk(host) && Disciplined(Start(host), ops) && NoIndexFailure(ops, session)
    ensures Uncommitted(host, ops, session) == {} && CleanCommits(host, ops, session)
    ensures !HasLeftover(Run(Start(host), ops), session)
    decreases |ops|
  {
    hide IndexOf, DeltaOf, Next, HostOk, ResumedFirst, ProofInv, HasLeftover, IndexUploaded, DeltaUploaded;
    if ops == [] {
      NothingLeft(host, session);
    } else {
      var before, op := ops[..|ops| - 1], ops[|ops| - 1];
      EveryRunIsSafe(host, before);
      NoFailureLeavesNothing(host, before, session);
      NextHasNoLeftover(Run(Start(host), before), op, session);
    }
  }

  lemma NextHasNoLeftover(w: World, op: Op, session: string)
    requires Inv(w) && ResumedFirst(w, op) && !HasLeftover(w, session)
    requires op.Publish? && op.session == session ==> IndexUploaded(op.outcomes)
    ensures !HasLeftover(Next(w, op), session)
  {
    hide IndexOf, DeltaOf, PublishCheckpoint, ProofInv, NumberInv, DeltaUploaded, IndexUploaded, Describes, ToLower;
    assert SessionInv(w, session);
    if op.Publish? {
      var e, obj := PublishEffect(w.host, op.session, StateOf(w.sessions, op.session), w.store, op.proof, op.outcomes);
    }
  }

  // ---------------------------------------------------------------- an orphan

  /** A failed index upload, its retry, another failure and a restart: delta 1 is stored, not indexed, and behind. */
  function OrphaningRun(session: string, p: Proof): seq<Op> {
    [Publish(session, p, INDEX_FAILS), Publish(session, p, ALL_GOOD), Publish(session, p, INDEX_FAILS), Restart]
  }

  lemma OrphanOccurs(host: string, session: string, p: Proof)
    requires HostOk(host)
    ensures var ops := OrphaningRun(session, p);
            && Disciplined(Start(host), ops) && 1 in Uncommitted(host, ops, session)
            && StateAt(Run(Start(host), ops), session).checkpointIndex == 2
  {
    hide IndexOf, PublishCheckpoint, Run, Disciplined, Uncommitted, HostOk, DeltaUploaded, IndexUploaded;
    var fails, good := Publish(session, p, INDEX_FAILS), Publish(session, p, ALL_GOOD);
    NothingAtStart(host, session);
    var one := UncommittedMore(host, [], fails, session);
    PublishMoves(Run(Start(host), []), session, p, INDEX_FAILS);
    var two := UncommittedMore(host, one, good, session);
    PublishMoves(Run(Start(host), one), session, p, ALL_GOOD);
    var three := UncommittedMore(host, two, fails, session);
    PublishMoves(Run(Start(host), two), session, p, INDEX_FAILS);
    var four := UncommittedMore(host, three, Restart, session);
    assert four == OrphaningRun(session, p);
  }

  lemma UncommittedMore(host: string, ops: seq<Op>, op: Op, session: string) returns (longer: seq<Op>)
    ensures longer == ops + [op]
    ensures Run(Start(host), longer) == Next(Run(Start(host), ops), op)
    ensures Disciplined(Start(host), longer) <==>
       Disciplined(Start(host), ops) && ResumedFirst(Run(Start(host), ops), op)
    ensures Uncommitted(host, longer, session)
         == UncommittedAfter(Run(Start(host), ops), op, session, Uncommitted(host, ops, session))
  {
    hide ResumedFirst, Next, UncommittedAfter;
    longer := ops + [op];
    assert longer[..|ops|] == ops;
    RunMore(Start(host), ops, op);
  }

  // ---------------------------------------------------------------- publishing after cleanup

  function Cleaned(w: World, session: string): World {
    w.(store := DeleteAll(w.store, w.host, session))
  }

  lemma CleanedViews(w: World, session: string, s: string)
    requires HostOk(w.host)
    ensures var entries, w' := StoredEntries(w, session), Cleaned(w, session);
            && IndexOf(w'.store, w.host, s) == (if s == session then None else IndexOf(w.store, w.host, s))
            && forall n: nat :: DeltaOf(w'.store, w.host, s, n) ==
                 if s == session && Indexed(entries, n) then None else DeltaOf(w.store, w.host, s, n)
  {
    hide IndexOf, DeltaOf, DeleteAll, ToLower;
    DeleteAllViews(w.store, w.host, session);
  }

  /**
   Cleanup in the middle of a run keeps the invariant, and with it every later stored index backed,
   if and only if the session has no state or no stored entries.
   */
  lemma CleanupKeepsIffForgotten(host: string, ops: seq<Op>, session: string)
    requires HostOk(host) && Disciplined(Start(host), ops)
    ensures var w := Run(Start(host), ops);
            Inv(Cleaned(w, session)) <==> session !in w.sessions || StoredEntries(w, session) == []
  {
    hide IndexOf, DeltaOf, DeleteAll, Run, Disciplined, SessionInv, Cleaned, HostOk;
    EveryRunIsSafe(host, ops);
    var w := Run(Start(host), ops);
    var w' := Cleaned(w, session);
    CleanedHost(w, session);
    if session !in w.sessions || StoredEntries(w, session) == [] {
      forall s
        ensures SessionInv(w', s)
      {
        CleanupKeepsSession(w, session, s);
      }
    } else {
      CleanupBreaksSession(w, session);
    }
  }

  lemma CleanedHost(w: World, session: string)
    ensures Cleaned(w, session).host == w.host && Cleaned(w, session).sessions == w.sessions
  {
  }

  lemma CleanupKeepsSession(w: World, session: string, s: string)
    requires Inv(w) && (s == session ==> session !in w.sessions || StoredEntries(w, session) == [])
    ensures SessionInv(Cleaned(w, session), s)
  {
    hide IndexOf, DeltaOf, DeleteAll, ToLower, NumberInv, ProofInv, Describes;
    assert SessionInv(w, s);
    CleanedViews(w, session, s);
    if s == session && session !in w.sessions {
      NothingKept(Cleaned(w, session), session);
    } else {
      KeepsWithout(w, Cleaned(w, session), s);
    }
  }

  lemma NothingKept(w: World, session: string)
    requires session !in w.sessions && IndexOf(w.store, w.host, session).None?
    ensures SessionInv(w, session)
  {
    hide IndexOf, DeltaOf;
  }

  lemma KeepsWithout(w: World, w': World, s: string)
    requires SessionInv(w, s) && w'.host == w.host && w'.sessions == w.sessions
    requires StoredEntries(w', s) == StoredEntries(w, s)
    requires s in w.sessions || IndexOf(w'.store, w.host, s) == IndexOf(w.store, w.host, s)
    requires forall n: nat :: DeltaOf(w'.store, w.host, s, n) == DeltaOf(w.store, w.host, s, n)
    ensures SessionInv(w', s)
  {
    hide IndexOf, DeltaOf, NumberInv, Describes;
  }

  /** A state that outlives its files: its first entry is number 0, which is not stored. */
  ghost predicate Unbacked(w: World, session: string) {
    var st := StateOf(w.sessions, session);
    && session in w.sessions && EntriesOf(st.index) != [] && EntriesOf(st.index)[0].index == 0
    && st.checkpointIndex > 0 && DeltaOf(w.store, w.host, session, 0).None?
    && (StoredEntries(w, session) != [] ==> StoredEntries(w, session)[0].index == 0)
  }

  lemma CleanupUnbacks(w: World, session: string)
    requires Inv(w) && session in w.sessions && StoredEntries(w, session) != []
    ensures Unbacked(Cleaned(w, session), session)
  {
    hide IndexOf, DeltaOf, DeleteAll, ToLower, ProofInv;
    assert SessionInv(w, session);
    CleanedViews(w, session, session);
    var stored, entries := StoredEntries(w, session), EntriesOf(StateAt(w, session).index);
    assert stored[0] == entries[0] && entries[0].index == 0;
    assert Indexed(stored, 0);
  }

  lemma CleanupBreaksSession(w: World, session: string)
    requires Inv(w) && session in w.sessions && StoredEntries(w, session) != []
    ensures !SessionInv(Cleaned(w, session), session)
  {
    hide IndexOf, DeltaOf, NumberInv, Describes, Cleaned;
    CleanupUnbacks(w, session);
    CleanedHost(w, session);
  }

  lemma NextStaysUnbacked(w: World, op: Op, session: string)
    requires HostOk(w.host) && Unbacked(w, session) && GoesOnUnread([op], session)
    ensures Unbacked(Next(w, op), session)
  {
    hide IndexOf, DeltaOf, PublishCheckpoint, Describes, ToLower, DeltaUploaded, IndexUploaded;
    assert [op][0] == op;
    if op.Publish? {
      var e, obj := PublishEffect(w.host, op.session, StateOf(w.sessions, op.session), w.store, op.proof, op.outcomes);
    }
  }

  /**
   If the state is kept and goes on without being removed or resumed, every index it stores again
   begins with an entry whose delta is gone.
   */
  lemma {:induction false} KeptStateStaysUnbacked(host: string, ops: seq<Op>, session: string, after: seq<Op>)
    requires HostOk(host) && Disciplined(Start(host), ops) && GoesOnUnread(after, session)
    requires var w := Run(Start(host), ops); session in w.sessions && StoredEntries(w, session) != []
    ensures Unbacked(Run(Cleaned(Run(Start(host), ops), session), after), session)
    ensures Run(Cleaned(Run(Start(host), ops), session), after).host == host
    decreases |after|
  {
    hide IndexOf, DeltaOf, Next, HostOk, Unbacked, Cleaned, Disciplined, Inv;
    var w := Run(Start(host), ops);
    EveryRunIsSafe(host, ops);
    CleanedHost(w, session);
    if after == [] {
      CleanupUnbacks(w, session);
    } else {
      var before := after[..|after| - 1];
      KeptStateStaysUnbacked(host, ops, session, before);
      var w' := Run(Cleaned(w, session), before);
      NextStaysUnbacked(w', after[|after| - 1], session);
      NextKeepsHost(w', after[|after| - 1]);
    }
  }

  /** Otherwise, and always once the state is removed, every disciplined run that follows is safe. */
  lemma CleanupThenRunIsSafe(host: string, ops: seq<Op>, session: string, after: seq<Op>)
    requires HostOk(host) && Disciplined(Start(host), ops)
    ensures var w := Cleaned(Run(Start(host), ops), session);
            && (Inv(w) && Disciplined(w, after) ==> Inv(Run(w, after)))
            && Inv(Next(w, Remove(session)))
            && (Disciplined(Next(w, Remove(session)), after) ==> Inv(Run(Next(w, Remove(session)), after)))
  {
    hide IndexOf, DeltaOf, Run, Disciplined, SessionInv, HostOk, ResumedFirst;
    var before := Run(Start(host), ops);
    EveryRunIsSafe(host, ops);
    var w := Cleaned(before, session);
    var w' := Next(w, Remove(session));
    assert w' == Cleaned(Next(before, Remove(session)), session);
    NextKeeps(before, Remove(session)) by { RemovalIsFree(before, session); }
    forall s
      ensures SessionInv(w', s)
    {
      CleanupKeepsSession(Next(before, Remove(session)), session, s);
    }
    if Inv(w) && Disciplined(w, after) { RunKeeps(w, after); }
    if Disciplined(w', after) { RunKeeps(w', after); }
  }

  lemma RemovalIsFree(w: World, session: string)
    ensures ResumedFirst(w, Remove(session))
  {
  }
}
