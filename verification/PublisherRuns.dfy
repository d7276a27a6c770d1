/**
 Runs of the checkpoint publisher: any sequence of calls, failed uploads, removals and restarts
 over any number of sessions that share one store.
 */
module PublisherRuns {
  import opened Common
  import opened Delta
  import opened StorePaths
  import opened Publisher

  /**
   What a session has been given since its state was created: its first delta number, its messages,
   and how many commits closed a buffer that ended in a message marked partial.
   */
  datatype Life = Life(base: nat, log: seq<CheckpointMessage>, lost: nat)

  datatype World = World(host: string, sessions: map<string, Session>, lives: map<string, Life>, store: Store)

  /**
   A removal loses one session's state and a restart all of them. `Init` installs an index that was
   read before, outside the lock, or nothing if the read failed.
   */
  datatype Op =
    | Buffer(session: string, message: CheckpointMessage)
    | Stream(session: string, chunk: string)
    | ClearStream(session: string)
    | SetKey(session: string, key: string)
    | Publish(session: string, proof: Proof, outcomes: Outcomes)
    | Init(session: string, read: Option<CheckpointIndex>)
    | Remove(session: string)
    | Restart

  predicate HostOk(host: string) {
    '/' !in host && ToLower(host) == host
  }

  function Start(host: string): World {
    World(host, map[], map[], map[])
  }

  function LifeOf(w: World, session: string): Life {
    if session in w.lives then w.lives[session] else Life(0, [], 0)
  }

  function SetSession(w: World, session: string, st: Session): World {
    w.(sessions := w.sessions[session := st], lives := w.lives[session := LifeOf(w, session)])
  }

  function Next(w: World, op: Op): World {
    match op
    case Buffer(s, m) =>
      var life := LifeOf(w, s);
      w.(sessions := w.sessions[s := BufferMessage(StateOf(w.sessions, s), m)],
         lives := w.lives[s := life.(log := life.log + [m])])
    case Stream(s, chunk) => SetSession(w, s, UpdateStreamingResponse(StateOf(w.sessions, s), chunk))
    case ClearStream(s) => if s in w.sessions then SetSession(w, s, ClearStreamingResponse(w.sessions[s])) else w
    case SetKey(s, key) => SetSession(w, s, StateOf(w.sessions, s).(recoveryPublicKey := Some(key)))
    case Publish(s, p, o) =>
      var st, life := StateOf(w.sessions, s), LifeOf(w, s);
      var r := PublishCheckpoint(w.host, s, st, w.store, p, o);
      w.(sessions := w.sessions[s := r.st], store := r.store,
         lives := w.lives[s := if r.result.Some? && EndsInPartial(st) then life.(lost := life.lost + 1) else life])
    case Init(s, read) =>
      w.(sessions := InitSession(w.sessions, s, read),
         lives := if read.Some? then w.lives[s := Life(|read.value.checkpoints|, [], 0)] else w.lives)
    case Remove(s) => w.(sessions := w.sessions - {s}, lives := w.lives - {s})
    case Restart => w.(sessions := map[], lives := map[])
  }

  /** The delta's last message would be a buffered one that is marked partial, as only a streamed one should be. */
  predicate EndsInPartial(st: Session) {
    && st.messageBuffer != [] && st.messageBuffer[|st.messageBuffer| - 1].partial
    && (st.streamingResponse.None? || st.streamingResponse.value == "")
  }

  function Run(w: World, ops: seq<Op>): World
    decreases |ops|
  {
    if ops == [] then w else Next(Run(w, ops[..|ops| - 1]), ops[|ops| - 1])
  }

  /** The state a session has, or gets when it is resumed. */
  function StateAt(w: World, session: string): Session {
    var stored := IndexOf(w.store, w.host, session);
    if session in w.sessions then w.sessions[session] else if stored.Some? then FromIndex(stored.value) else FRESH
  }

  /**
   A session with a stored index and no state is resumed before it is used, and from the index that
   is stored then.
   */
  predicate ResumedFirst(w: World, op: Op) {
    && (op.Buffer? || op.Stream? || op.SetKey? || op.Publish? ==>
          op.session in w.sessions || IndexOf(w.store, w.host, op.session).None?)
    && (op.Init? && op.read.Some? ==> op.read == IndexOf(w.store, w.host, op.session))
  }

  predicate Disciplined(w: World, ops: seq<Op>)
    decreases |ops|
  {
    ops == [] ||
    (Disciplined(w, ops[..|ops| - 1]) && ResumedFirst(Run(w, ops[..|ops| - 1]), ops[|ops| - 1]))
  }

  lemma {:induction false} DisciplinedPrefix(w: World, ops: seq<Op>, n: nat)
    requires Disciplined(w, ops) && n <= |ops|
    ensures Disciplined(w, ops[..n])
    decreases |ops|
  {
    hide Run, ResumedFirst;
    if n < |ops| {
      DisciplinedPrefix(w, ops[..|ops| - 1], n);
      assert ops[..|ops| - 1][..n] == ops[..n];
    } else {
      assert ops[..n] == ops;
    }
  }

  /** One step more. */
  lemma RunMore(w: World, ops: seq<Op>, op: Op)
    ensures Run(w, ops + [op]) == Next(Run(w, ops), op)
    ensures Disciplined(w, ops + [op]) <==> Disciplined(w, ops) && ResumedFirst(Run(w, ops), op)
  {
    hide ResumedFirst, Next;
    assert (ops + [op])[..|ops|] == ops;
  }

  // ---------------------------------------------------------------- views of an updated store

  lemma PutDeltaViews(store: Store, host: string, session: string, n: nat, obj: Stored)
    requires HostOk(host) && obj.blob.DeltaBlob?
    ensures var store' := store[DeltaPath(host, session, n) := obj];
            && (forall s :: IndexOf(store', host, s) == IndexOf(store, host, s))
            && (forall s, m: nat :: DeltaOf(store', host, s, m) ==
                                    if s == session && m == n then Some(obj) else DeltaOf(store, host, s, m))
  {
    hide IndexPath, DeltaPath, ToLower;
    var store' := store[DeltaPath(host, session, n) := obj];
    forall s
      ensures IndexOf(store', host, s) == IndexOf(store, host, s)
    {
      PathsApart(host, s, 0, session, n);
    }
    forall s, m: nat
      ensures DeltaOf(store', host, s, m) == if s == session && m == n then Some(obj) else DeltaOf(store, host, s, m)
    {
      PathsApart(host, s, m, session, n);
    }
  }

  lemma PutIndexViews(store: Store, host: string, session: string, obj: Stored)
    requires HostOk(host) && obj.blob.IndexBlob?
    ensures var store' := store[IndexPath(host, session) := obj];
            && (forall s :: IndexOf(store', host, s) == if s == session then Some(obj.blob.index)
                else IndexOf(store, host, s))
            && (forall s, m: nat :: DeltaOf(store', host, s, m) == DeltaOf(store, host, s, m))
  {
    hide IndexPath, DeltaPath, ToLower;
    var store' := store[IndexPath(host, session) := obj];
    forall s
      ensures IndexOf(store', host, s) == if s == session then Some(obj.blob.index) else IndexOf(store, host, s)
    {
      PathsApart(host, session, 0, s, 0);
    }
    forall s, m: nat
      ensures DeltaOf(store', host, s, m) == DeltaOf(store, host, s, m)
    {
      PathsApart(host, session, 0, s, m);
    }
  }

  // ---------------------------------------------------------------- what one publish call does

  /** The entry describes the stored delta: its number, proof, token range, CID and encryption. */
  predicate Describes(session: string, e: CheckpointEntry, obj: Stored) {
    && obj.blob.DeltaBlob?
    && var d := obj.blob.delta;
    && d.sessionId == session && d.checkpointIndex == e.index && d.proofHash == e.proofHash
    && d.startToken == e.startToken && d.endToken == e.endToken
    && StripPrefix(obj.cid) == e.deltaCid && obj.blob.recoveryKey.Some? == e.encrypted
  }

  function DeltaUploaded(st: Session, o: Outcomes): bool {
    o.deltaSignature.Some? && (st.recoveryPublicKey.None? || o.encrypts) && UploadWithRetry(o.deltaPuts).Some?
  }

  function IndexUploaded(o: Outcomes): bool {
    o.indexSignature.Some? && UploadWithRetry(o.indexPuts).Some?
  }

  /** The state after a publish call whose delta went up, with the new entry, and after the index went up too. */
  ghost predicate Commits(st: Session, st': Session, e: CheckpointEntry, committed: bool) {
    && st'.index.Some? && EntriesOf(st'.index) == EntriesOf(st.index) + [e]
    && st'.checkpointIndex == st.checkpointIndex + (if committed then 1 else 0)
    && st'.messageBuffer == if committed then [] else st.messageBuffer
  }

  lemma PublishEffect(host: string, session: string, st: Session, store: Store, p: Proof, o: Outcomes)
    returns (e: CheckpointEntry, obj: Stored)
    requires HostOk(host)
    ensures var r := PublishCheckpoint(host, session, st, store, p, o);
            if !DeltaUploaded(st, o) then r == Published(st, store, None)
            else
              && e.index == st.checkpointIndex && Describes(session, e, obj)
              && e.proofHash == p.hash && e.startToken == p.startToken && e.endToken == p.endToken
              && obj.blob.delta.messages == DeltaMessages(st, o.now)
              && Commits(st, r.st, e, IndexUploaded(o))
              && (forall s, m: nat :: DeltaOf(r.store, host, s, m) ==
                    if s == session && m == st.checkpointIndex then Some(obj) else DeltaOf(store, host, s, m))
              && (forall s :: IndexOf(r.store, host, s) ==
                    if s == session && IndexUploaded(o) then r.st.index else IndexOf(store, host, s))
              && r.result == if IndexUploaded(o) then Some(e.deltaCid) else None
  {
    hide IndexOf, DeltaOf, IndexPath, DeltaPath, ToLower, UploadWithRetry, StripPrefix, DeltaMessages;
    if DeltaUploaded(st, o) {
      var cid := UploadWithRetry(o.deltaPuts).value;
      obj := Stored(DeltaBlobOf(session, st, p, o.now, o.deltaSignature.value), cid);
      e := EntryOf(st, p, StripPrefix(cid), o.now);
      PutDeltaViews(store, host, session, st.checkpointIndex, obj);
      var r := PublishCheckpoint(host, session, st, store, p, o);
      if IndexUploaded(o) {
        var store1 := store[DeltaPath(host, session, st.checkpointIndex) := obj];
        PutIndexViews(store1, host, session, Stored(IndexBlob(r.st.index.value), UploadWithRetry(o.indexPuts).value));
      }
    } else {
      obj := Stored(DeltaBlobOf(session, st, p, o.now, ""), "");
      e := EntryOf(st, p, "", o.now);
    }
  }

  /** The rest of it: what is signed and encrypted, when, and what stays as it was. */
  lemma PublishDetails(host: string, session: string, st: Session, store: Store, p: Proof, o: Outcomes)
    requires HostOk(host)
    ensures var r := PublishCheckpoint(host, session, st, store, p, o);
            && r.st.streamingResponse == st.streamingResponse && r.st.recoveryPublicKey == st.recoveryPublicKey
            && (DeltaUploaded(st, o) ==>
                  var obj, n := DeltaOf(r.store, host, session, st.checkpointIndex), |EntriesOf(st.index)|;
                  && obj.Some? && obj.value.blob.DeltaBlob? && Some(obj.value.cid) == UploadWithRetry(o.deltaPuts)
                  && obj.value.blob.recoveryKey == st.recoveryPublicKey
                  && obj.value.blob.delta.hostSignature == o.deltaSignature.value
                  && |EntriesOf(r.st.index)| == n + 1 && EntriesOf(r.st.index)[n].timestamp == o.now
                  && (EntriesOf(r.st.index)[n].encrypted <==> st.recoveryPublicKey.Some?)
                  && (IndexUploaded(o) ==> r.st.index.value.hostSignature == o.indexSignature.value))
  {
    hide IndexOf, DeltaOf, IndexPath, DeltaPath, ToLower, UploadWithRetry, StripPrefix, DeltaMessages;
    if DeltaUploaded(st, o) {
      var cid := UploadWithRetry(o.deltaPuts).value;
      var obj := Stored(DeltaBlobOf(session, st, p, o.now, o.deltaSignature.value), cid);
      PutDeltaViews(store, host, session, st.checkpointIndex, obj);
      if IndexUploaded(o) {
        var r := PublishCheckpoint(host, session, st, store, p, o);
        var store1 := store[DeltaPath(host, session, st.checkpointIndex) := obj];
        PutIndexViews(store1, host, session, Stored(IndexBlob(r.st.index.value), UploadWithRetry(o.indexPuts).value));
      }
    }
  }

  // ---------------------------------------------------------------- the response being streamed

  /** The operation begins the session's state anew. */
  predicate BeginsAnew(op: Op, session: string) {
    op.Restart? || (op.Remove? && op.session == session) || (op.Init? && op.session == session && op.read.Some?)
  }

  /** What was streamed to the session since its state began or its stream was last cleared. */
  function Streamed(ops: seq<Op>, session: string): string
    decreases |ops|
  {
    if ops == [] then ""
    else
      var before, op := ops[..|ops| - 1], ops[|ops| - 1];
      if BeginsAnew(op, session) || op == ClearStream(session) then ""
      else Streamed(before, session) + if op.Stream? && op.session == session then op.chunk else ""
  }

  /** The recovery key that was last set since then. */
  function KeySet(ops: seq<Op>, session: string): Option<string>
    decreases |ops|
  {
    if ops == [] then None
    else
      var op := ops[|ops| - 1];
      if BeginsAnew(op, session) then None
      else if op.SetKey? && op.session == session then Some(op.key)
      else KeySet(ops[..|ops| - 1], session)
  }

  function ValueOrEmpty(o: Option<string>): string {
    if o.Some? then o.value else ""
  }

  lemma {:induction false} StateHoldsStream(host: string, ops: seq<Op>, session: string)
    requires HostOk(host)
    ensures var st := StateOf(Run(Start(host), ops).sessions, session);
            ValueOrEmpty(st.streamingResponse) == Streamed(ops, session) && st.recoveryPublicKey == KeySet(ops, session)
    decreases |ops|
  {
    hide Next, HostOk;
    if ops != [] {
      var before, op := ops[..|ops| - 1], ops[|ops| - 1];
      StateHoldsStream(host, before, session);
      RunKeepsHost(Start(host), before);
      NextStreams(Run(Start(host), before), op, session);
    }
  }

  lemma NextStreams(w: World, op: Op, session: string)
    requires HostOk(w.host)
    ensures var st, st' := StateOf(w.sessions, session), StateOf(Next(w, op).sessions, session);
            && ValueOrEmpty(st'.streamingResponse) ==
               (if BeginsAnew(op, session) || op == ClearStream(session) then ""
                else ValueOrEmpty(st.streamingResponse) + if op.Stream? && op.session == session then op.chunk else "")
            && st'.recoveryPublicKey ==
               if BeginsAnew(op, session) then None
               else if op.SetKey? && op.session == session then Some(op.key) else st.recoveryPublicKey
  {
    hide IndexOf, DeltaOf, PublishCheckpoint, ToLower, DeltaUploaded, IndexUploaded;
    if op.Publish? {
      PublishDetails(w.host, op.session, StateOf(w.sessions, op.session), w.store, op.proof, op.outcomes);
    }
  }

  /**
   In every run whatsoever, a delta that goes up holds the buffered messages and then, if anything
   was streamed since, that text as one partial message of the assistant; it goes up encrypted for
   the key set since.
   */
  lemma DeltaHoldsStream(host: string, ops: seq<Op>, session: string, p: Proof, o: Outcomes)
    requires HostOk(host) && DeltaUploaded(StateOf(Run(Start(host), ops).sessions, session), o)
    ensures var w := Run(Start(host), ops);
            var st, streamed := StateOf(w.sessions, session), Streamed(ops, session);
            var stored := DeltaOf(Next(w, Publish(session, p, o)).store, host, session, st.checkpointIndex);
            && stored.Some? && stored.value.blob.DeltaBlob? && stored.value.blob.recoveryKey == KeySet(ops, session)
            && var d := stored.value.blob.delta;
            && d.sessionId == session && d.checkpointIndex == st.checkpointIndex && d.proofHash == p.hash
            && d.startToken == p.startToken && d.endToken == p.endToken && d.hostSignature == o.deltaSignature.value
            && var n := |st.messageBuffer|;
            && |d.messages| == n + (if streamed == "" then 0 else 1) && d.messages[..n] == st.messageBuffer
            && (streamed != "" ==>
                  && d.messages[n].role == Assistant && d.messages[n].content == streamed
                  && d.messages[n].timestamp == o.now && d.messages[n].partial)
  {
    hide IndexOf, DeltaOf, PublishCheckpoint, ToLower, IndexUploaded, Run, Streamed, KeySet;
    RunKeepsHost(Start(host), ops);
    StateHoldsStream(host, ops, session);
    var w := Run(Start(host), ops);
    var e, obj := PublishEffect(host, session, StateOf(w.sessions, session), w.store, p, o);
    PublishDetails(host, session, StateOf(w.sessions, session), w.store, p, o);
  }

  // ---------------------------------------------------------------- the invariant

  function StoredEntries(w: World, session: string): seq<CheckpointEntry> {
    EntriesOf(IndexOf(w.store, w.host, session))
  }

  /** Numbering: the stored index is a prefix of the one in memory, whose surplus is retries of the current number. */
  ghost predicate NumberInv(stored: seq<CheckpointEntry>, entries: seq<CheckpointEntry>, current: nat) {
    && stored <= entries && current <= |entries|
    && (forall i :: 0 <= i < |entries| ==> entries[i].index <= i)
    && (forall i :: 0 <= i < |stored| ==> entries[i].index < current)
    && (forall i :: |stored| <= i < |entries| ==> entries[i].index == current)
    && (forall i, j :: 0 <= i < j < |entries| ==> entries[i].index <= entries[j].index)
  }

  predicate LastFor(entries: seq<CheckpointEntry>, i: nat)
    requires i < |entries|
  {
    forall j :: i < j < |entries| ==> entries[j].index != entries[i].index
  }

  /** Proofs: every entry's delta is stored, and the last entry for a number describes the stored delta. */
  ghost predicate ProofInv(w: World, session: string, entries: seq<CheckpointEntry>) {
    forall i :: 0 <= i < |entries| ==>
                  && DeltaOf(w.store, w.host, session, entries[i].index).Some?
                  && (LastFor(entries, i) ==>
                        Describes(session, entries[i], DeltaOf(w.store, w.host, session, entries[i].index).value))
  }

  ghost predicate SessionInv(w: World, session: string) {
    var st := StateAt(w, session);
    && NumberInv(StoredEntries(w, session), EntriesOf(st.index), st.checkpointIndex)
    && ProofInv(w, session, EntriesOf(st.index))
  }

  /** All sessions at once. */
  ghost predicate Inv(w: World) {
    HostOk(w.host) && forall s :: SessionInv(w, s)
  }

  lemma AppendEntry(stored: seq<CheckpointEntry>, entries: seq<CheckpointEntry>, current: nat, e: CheckpointEntry,
                    committed: bool)
    requires NumberInv(stored, entries, current) && e.index == current
    ensures if committed then NumberInv(entries + [e], entries + [e], current + 1)
            else NumberInv(stored, entries + [e], current)
  {
  }

  lemma AppendProof(w: World, w': World, session: string, entries: seq<CheckpointEntry>, e: CheckpointEntry,
      obj: Stored)
    requires ProofInv(w, session, entries) && Describes(session, e, obj) && w'.host == w.host
    requires forall m: nat :: DeltaOf(w'.store, w.host, session, m) ==
                              if m == e.index then Some(obj) else DeltaOf(w.store, w.host, session, m)
    ensures ProofInv(w', session, entries + [e])
  {
    hide DeltaOf, Describes;
    var all := entries + [e];
    forall i | 0 <= i < |all|
      ensures DeltaOf(w'.store, w.host, session, all[i].index).Some?
      ensures LastFor(all, i) ==> Describes(session, all[i], DeltaOf(w'.store, w.host, session, all[i].index).value)
    {
      if i < |entries| && all[i].index != e.index {
        assert all[i] == entries[i];
        if LastFor(all, i) {
          assert forall j :: i < j < |entries| ==> all[j] == entries[j];
          assert LastFor(entries, i);
        }
      } else if i < |entries| {
        assert !LastFor(all, i) by { assert all[|entries|] == e; }
      }
    }
  }

  /** Publishing keeps the session's invariant, whatever fails. */
  lemma PublishKeepsOwn(w: World, session: string, p: Proof, o: Outcomes)
    requires Inv(w) && ResumedFirst(w, Publish(session, p, o))
    ensures SessionInv(Next(w, Publish(session, p, o)), session)
  {
    hide IndexOf, DeltaOf, PublishCheckpoint, NumberInv, ProofInv, DeltaUploaded, IndexUploaded, Describes, ToLower;
    var st := StateOf(w.sessions, session);
    assert SessionInv(w, session) && StateAt(w, session) == st;
    var w' := Next(w, Publish(session, p, o));
    var e, obj := PublishEffect(w.host, session, st, w.store, p, o);
    if DeltaUploaded(st, o) {
      AppendEntry(StoredEntries(w, session), EntriesOf(st.index), st.checkpointIndex, e, IndexUploaded(o));
      AppendProof(w, w', session, EntriesOf(st.index), e, obj);
    } else {
      SameViews(w, w', session);
    }
  }

  lemma SameViews(w: World, w': World, session: string)
    requires SessionInv(w, session) && w'.host == w.host
    requires IndexOf(w'.store, w.host, session) == IndexOf(w.store, w.host, session)
    requires forall m: nat :: DeltaOf(w'.store, w.host, session, m) == DeltaOf(w.store, w.host, session, m)
    requires EntriesOf(StateAt(w', session).index) == EntriesOf(StateAt(w, session).index)
    requires StateAt(w', session).checkpointIndex == StateAt(w, session).checkpointIndex
    ensures SessionInv(w', session)
  {
    hide IndexOf, DeltaOf, NumberInv, Describes;
  }

  /** Publishing for one session touches no other. */
  lemma PublishKeepsOthers(w: World, session: string, p: Proof, o: Outcomes, other: string)
    requires Inv(w) && other != session
    ensures SessionInv(Next(w, Publish(session, p, o)), other)
  {
    hide IndexOf, DeltaOf, PublishCheckpoint, NumberInv, ProofInv, DeltaUploaded, IndexUploaded, Describes, ToLower;
    assert SessionInv(w, other);
    var e, obj := PublishEffect(w.host, session, StateOf(w.sessions, session), w.store, p, o);
    SameViews(w, Next(w, Publish(session, p, o)), other);
  }

  /** The stored index is backed by stored deltas even while retries sit in memory only. */
  lemma StoredIndexIsBacked(w: World, session: string)
    requires SessionInv(w, session)
    ensures ProofInv(w, session, StoredEntries(w, session))
  {
    hide IndexOf, DeltaOf, Describes;
    var stored, entries := StoredEntries(w, session), EntriesOf(StateAt(w, session).index);
    assert forall i :: 0 <= i < |stored| ==> stored[i] == entries[i];
    forall i | 0 <= i < |stored| && LastFor(stored, i)
      ensures LastFor(entries, i)
    {
      assert forall j :: |stored| <= j < |entries| ==> entries[j].index != entries[i].index;
    }
  }

  /** A state made from the stored index, or none at all, satisfies the invariant: its number is past every entry's. */
  lemma ResumeKeeps(w: World, w': World, session: string)
    requires SessionInv(w, session) && w'.host == w.host && w'.store == w.store
    requires EntriesOf(StateAt(w', session).index) == StoredEntries(w, session)
    requires StateAt(w', session).checkpointIndex == |StoredEntries(w, session)|
    ensures SessionInv(w', session)
  {
    hide IndexOf, DeltaOf, Describes, LastFor, StateAt;
    StoredIndexIsBacked(w, session);
    var stored, entries := StoredEntries(w, session), EntriesOf(StateAt(w, session).index);
    assert forall i :: 0 <= i < |stored| ==> stored[i] == entries[i];
  }

  lemma {:induction false} NextKeeps(w: World, op: Op)
    requires Inv(w) && ResumedFirst(w, op)
    ensures Inv(Next(w, op))
  {
    hide IndexOf, DeltaOf, SessionInv, PublishCheckpoint, ToLower;
    var w' := Next(w, op);
    forall s
      ensures SessionInv(w', s)
    {
      if op.Publish? {
        if s == op.session { PublishKeepsOwn(w, s, op.proof, op.outcomes); }
        else { PublishKeepsOthers(w, op.session, op.proof, op.outcomes, s); }
      } else if op.Restart? || (op.Remove? && op.session == s) || (op.Init? && op.session == s && op.read.Some?) {
        ResumeKeeps(w, w', s);
      } else {
        SameViews(w, w', s);
      }
    }
  }

  lemma StartIsSafe(host: string)
    requires HostOk(host)
    ensures Inv(Start(host))
  {
  }

  /** From any state with the invariant, every run of publishes, failures, removals, restarts and resumes keeps it. */
  lemma {:induction false} RunKeeps(w: World, ops: seq<Op>)
    requires Inv(w) && Disciplined(w, ops)
    ensures Inv(Run(w, ops)) && Run(w, ops).host == w.host
    decreases |ops|
  {
    hide Inv, Next, ResumedFirst;
    if ops != [] {
      var prefix := ops[..|ops| - 1];
      RunKeeps(w, prefix);
      NextKeeps(Run(w, prefix), ops[|ops| - 1]);
      NextKeepsHost(Run(w, prefix), ops[|ops| - 1]);
    }
  }

  /** So every run from the start keeps the numbering and proof invariants of all sessions. */
  lemma EveryRunIsSafe(host: string, ops: seq<Op>)
    requires HostOk(host) && Disciplined(Start(host), ops)
    ensures Inv(Run(Start(host), ops)) && Run(Start(host), ops).host == host
  {
    hide Inv, Run, Disciplined;
    StartIsSafe(host);
    RunKeeps(Start(host), ops);
  }

  lemma NextKeepsHost(w: World, op: Op)
    ensures Next(w, op).host == w.host
  {
  }

  // ---------------------------------------------------------------- no indexed delta is overwritten

  /** One step keeps the stored entries, and the delta of each. */
  lemma StepKeepsIndexed(w: World, op: Op, session: string)
    requires Inv(w) && ResumedFirst(w, op)
    ensures StoredEntries(w, session) <= StoredEntries(Next(w, op), session)
    ensures forall i :: 0 <= i < |StoredEntries(w, session)| ==>
                          var n := StoredEntries(w, session)[i].index;
                          DeltaOf(Next(w, op).store, w.host, session, n) == DeltaOf(w.store, w.host, session, n)
  {
    hide IndexOf, DeltaOf, PublishCheckpoint, ProofInv, DeltaUploaded, IndexUploaded, Describes, ToLower;
    if op.Publish? {
      var st := StateOf(w.sessions, op.session);
      assert SessionInv(w, session);
      var e, obj := PublishEffect(w.host, op.session, st, w.store, op.proof, op.outcomes);
      var stored, entries := StoredEntries(w, session), EntriesOf(StateAt(w, session).index);
      assert forall i :: 0 <= i < |stored| ==> stored[i] == entries[i];
    }
  }

  /** A delta that has reached the stored index is never written again: not from any point of any run to its end. */
  lemma {:induction false} NoIndexedDeltaOverwritten(host: string, ops: seq<Op>, n: nat, session: string, i: nat)
    requires HostOk(host) && Disciplined(Start(host), ops) && n <= |ops|
    requires i < |StoredEntries(Run(Start(host), ops[..n]), session)|
    ensures var w, w' := Run(Start(host), ops[..n]), Run(Start(host), ops);
            var number := StoredEntries(w, session)[i].index;
            && StoredEntries(w, session) <= StoredEntries(w', session)
            && DeltaOf(w'.store, host, session, number) == DeltaOf(w.store, host, session, number)
    decreases |ops|
  {
    hide Inv, Next, IndexOf, DeltaOf, HostOk, StoredEntries, ResumedFirst;
    if n == |ops| {
      assert ops[..n] == ops;
    } else {
      var prefix := ops[..|ops| - 1];
      assert prefix[..n] == ops[..n];
      NoIndexedDeltaOverwritten(host, prefix, n, session, i);
      var w, mid := Run(Start(host), ops[..n]), Run(Start(host), prefix);
      EveryRunIsSafe(host, prefix);
      StepKeepsIndexed(mid, ops[|ops| - 1], session);
      assert StoredEntries(mid, session)[i] == StoredEntries(w, session)[i];
    }
  }

  /**
   Why a lost state must be resumed: after any such run, the number of the next delta uploaded for
   a session is one of its index exactly when the session has a nonempty index and no state.
   */
  lemma OverwriteIffUnread(host: string, ops: seq<Op>, session: string)
    requires HostOk(host) && Disciplined(Start(host), ops)
    ensures var w := Run(Start(host), ops);
            var entries := StoredEntries(w, session);
            (exists i :: 0 <= i < |entries| && entries[i].index == StateOf(w.sessions, session).checkpointIndex) <==>
            entries != [] && session !in w.sessions
  {
    hide IndexOf, DeltaOf, ProofInv, ToLower, Run, Disciplined;
    EveryRunIsSafe(host, ops);
    var w := Run(Start(host), ops);
    assert SessionInv(w, session);
    var entries, all := StoredEntries(w, session), EntriesOf(StateAt(w, session).index);
    assert forall i :: 0 <= i < |entries| ==> entries[i] == all[i];
    if entries != [] && session !in w.sessions {
      assert entries[0].index == 0;
    }
  }

  // ---------------------------------------------------------------- an index that was read too early

  /**
   The read of `init_session` happens before it takes the lock: installing an index that was stored
   at some earlier point of the run keeps the invariant if and only if the stored entries are still
   those.
   */
  lemma InstallKeepsIffStillStored(host: string, ops: seq<Op>, n: nat, session: string, read: CheckpointIndex)
    requires HostOk(host) && Disciplined(Start(host), ops) && n <= |ops|
    requires IndexOf(Run(Start(host), ops[..n]).store, host, session) == Some(read)
    ensures var w := Run(Start(host), ops);
            SessionInv(Next(w, Init(session, Some(read))), session) <==> StoredEntries(w, session) == read.checkpoints
  {
    hide IndexOf, DeltaOf, ProofInv, ToLower, Run, Disciplined;
    EveryRunIsSafe(host, ops);
    DisciplinedPrefix(Start(host), ops, n);
    EveryRunIsSafe(host, ops[..n]);
    var w, w' := Run(Start(host), ops), Next(Run(Start(host), ops), Init(session, Some(read)));
    if read.checkpoints != [] { NoIndexedDeltaOverwritten(host, ops, n, session, 0); }
    assert SessionInv(w, session);
    if StoredEntries(w, session) == read.checkpoints { ResumeKeeps(w, w', session); }
  }

  // ---------------------------------------------------------------- a session used without its index

  /** Nothing in `ops` gives the session its stored index back, or loses its state again. */
  predicate GoesOnUnread(ops: seq<Op>, session: string) {
    forall i :: 0 <= i < |ops| ==>
      !ops[i].Restart? && !(ops[i].Remove? && ops[i].session == session)
      && !(ops[i].Init? && ops[i].session == session && ops[i].read.Some?)
  }

  /**
   Against the store of `w`: until its first commit the session leaves the old index in place, and
   from then on the stored index holds only what was published since; deltas are replaced from
   number 0 up, and those past the current number are the old ones.
   */
  ghost predicate StartsOver(w: World, w': World, session: string) {
    var st := StateOf(w'.sessions, session);
    var stored := StoredEntries(w', session);
    && NumberInv(if st.checkpointIndex == 0 then [] else stored, EntriesOf(st.index), st.checkpointIndex)
    && ProofInv(w', session, EntriesOf(st.index))
    && (st.checkpointIndex == 0 ==> stored == StoredEntries(w, session))
    && (forall n: nat :: n > st.checkpointIndex || EntriesOf(st.index) == [] ==>
          DeltaOf(w'.store, w.host, session, n) == DeltaOf(w.store, w.host, session, n))
  }

  lemma NextStartsOver(w: World, w': World, op: Op, session: string)
    requires HostOk(w.host) && w'.host == w.host && StartsOver(w, w', session) && GoesOnUnread([op], session)
    ensures StartsOver(w, Next(w', op), session)
  {
    hide IndexOf, DeltaOf, PublishCheckpoint, StartsOver, ToLower;
    assert [op][0] == op;
    if op.Publish? {
      PublishStartsOver(w, w', op, session);
    } else {
      SameStartsOver(w, w', Next(w', op), session);
    }
  }

  lemma SameStartsOver(w: World, w': World, w2: World, session: string)
    requires StartsOver(w, w', session) && w'.host == w.host == w2.host
    requires IndexOf(w2.store, w.host, session) == IndexOf(w'.store, w.host, session)
    requires forall m: nat :: DeltaOf(w2.store, w.host, session, m) == DeltaOf(w'.store, w.host, session, m)
    requires StateOf(w2.sessions, session).index == StateOf(w'.sessions, session).index
    requires StateOf(w2.sessions, session).checkpointIndex == StateOf(w'.sessions, session).checkpointIndex
    ensures StartsOver(w, w2, session)
  {
    hide IndexOf, DeltaOf, NumberInv, ProofInv;
    ProofFrame(w', w2, session, EntriesOf(StateOf(w'.sessions, session).index));
  }

  lemma PublishStartsOver(w: World, w': World, op: Op, session: string)
    requires HostOk(w.host) && w'.host == w.host && StartsOver(w, w', session) && op.Publish?
    ensures StartsOver(w, Next(w', op), session)
  {
    hide IndexOf, DeltaOf, PublishCheckpoint, NumberInv, ProofInv, DeltaUploaded, IndexUploaded, Describes, ToLower;
    var w2, st := Next(w', op), StateOf(w'.sessions, session);
    var e, obj := PublishEffect(w.host, op.session, StateOf(w'.sessions, op.session), w'.store, op.proof, op.outcomes);
    if op.session == session && DeltaUploaded(st, op.outcomes) {
      var stored := if st.checkpointIndex == 0 then [] else StoredEntries(w', session);
      AppendEntry(stored, EntriesOf(st.index), st.checkpointIndex, e, IndexUploaded(op.outcomes));
      AppendProof(w', w2, session, EntriesOf(st.index), e, obj);
    } else {
      hide StartsOver;
      SameStartsOver(w, w', w2, session);
    }
  }

  lemma ProofFrame(w: World, w': World, session: string, entries: seq<CheckpointEntry>)
    requires ProofInv(w, session, entries) && w'.host == w.host
    requires forall m: nat :: DeltaOf(w'.store, w.host, session, m) == DeltaOf(w.store, w.host, session, m)
    ensures ProofInv(w', session, entries)
  {
    hide DeltaOf, Describes, LastFor;
  }

  /** What becomes of a session that is used after its state was lost without its index being read. */
  lemma {:induction false} UnreadSessionStartsOver(host: string, ops: seq<Op>, after: seq<Op>, session: string)
    requires HostOk(host) && session !in Run(Start(host), ops).sessions && GoesOnUnread(after, session)
    ensures StartsOver(Run(Start(host), ops), Run(Run(Start(host), ops), after), session)
    ensures Run(Run(Start(host), ops), after).host == host
    decreases |after|
  {
    hide Next, IndexOf, DeltaOf, HostOk, StartsOver;
    var w := Run(Start(host), ops);
    RunKeepsHost(Start(host), ops);
    if after == [] {
      NothingYet(w, session);
    } else {
      var prefix := after[..|after| - 1];
      UnreadSessionStartsOver(host, ops, prefix, session);
      var w' := Run(w, prefix);
      NextStartsOver(w, w', after[|after| - 1], session);
      NextKeepsHost(w', after[|after| - 1]);
    }
  }

  lemma NothingYet(w: World, session: string)
    requires session !in w.sessions
    ensures StartsOver(w, w, session)
  {
    hide IndexOf, DeltaOf;
  }

  lemma {:induction false} RunKeepsHost(w: World, ops: seq<Op>)
    ensures Run(w, ops).host == w.host
    decreases |ops|
  {
    hide Next;
    if ops != [] {
      RunKeepsHost(w, ops[..|ops| - 1]);
      NextKeepsHost(Run(w, ops[..|ops| - 1]), ops[|ops| - 1]);
    }
  }

  // ---------------------------------------------------------------- publish before proof

  /**
   When publishing succeeds, the store holds the delta, and an index whose last entry names it; all
   entries are backed.
   */
  lemma PublishBeforeProof(host: string, ops: seq<Op>, session: string, p: Proof, o: Outcomes)
    requires HostOk(host) && Disciplined(Start(host), ops + [Publish(session, p, o)])
    requires var w := Run(Start(host), ops);
             PublishCheckpoint(host, session, StateOf(w.sessions, session), w.store, p, o).result.Some?
    ensures var w := Run(Start(host), ops);
            var w' := Next(w, Publish(session, p, o));
            var cid := PublishCheckpoint(host, session, StateOf(w.sessions, session), w.store, p, o).result.value;
            var n := StateOf(w.sessions, session).checkpointIndex;
            var entries := StoredEntries(w', session);
            && entries != [] && DeltaOf(w'.store, host, session, n).Some?
            && var e := entries[|entries| - 1];
            && e.index == n && e.deltaCid == cid && e.proofHash == p.hash
            && e.startToken == p.startToken && e.endToken == p.endToken
            && Describes(session, e, DeltaOf(w'.store, host, session, n).value)
            && ProofInv(w', session, entries)
  {
    hide IndexOf, DeltaOf, PublishCheckpoint, NumberInv, ProofInv, Describes, ToLower, DeltaUploaded, IndexUploaded,
      Run;
    RunMore(Start(host), ops, Publish(session, p, o));
    EveryRunIsSafe(host, ops);
    var w := Run(Start(host), ops);
    var e, obj := PublishEffect(host, session, StateOf(w.sessions, session), w.store, p, o);
    PublishKeepsOwn(w, session, p, o);
    StoredIndexIsBacked(Next(w, Publish(session, p, o)), session);
  }

  // ---------------------------------------------------------------- labels and token counts

  ghost predicate NamesSession(w: World, session: string, index: Option<CheckpointIndex>) {
    index.Some? ==> index.value.sessionId == session && index.value.hostAddress == w.host
  }

  /** Indexes name their session and host, and the state's token count is that of the last stored entry. */
  ghost predicate Labelled(w: World, session: string) {
    var st, stored := StateAt(w, session), IndexOf(w.store, w.host, session);
    && NamesSession(w, session, st.index) && NamesSession(w, session, stored)
    && st.lastCheckpointTokens == if stored.Some? then LastCheckpointTokens(stored.value) else 0
  }

  lemma PublishLabels(host: string, session: string, st: Session, store: Store, p: Proof, o: Outcomes)
    requires HostOk(host) && (st.index.Some? ==>
            st.index.value.sessionId == session && st.index.value.hostAddress == host)
    ensures var t := PublishCheckpoint(host, session, st, store, p, o).st;
            && (t.index.Some? ==> t.index.value.sessionId == session && t.index.value.hostAddress == host)
            && t.lastCheckpointTokens == if DeltaUploaded(st, o) && IndexUploaded(o) then p.endToken
                else st.lastCheckpointTokens
  {
    hide IndexPath, DeltaPath, UploadWithRetry, StripPrefix, DeltaMessages;
  }

  lemma NextKeepsLabels(w: World, op: Op, session: string)
    requires HostOk(w.host) && ResumedFirst(w, op) && Labelled(w, session)
    ensures Labelled(Next(w, op), session)
  {
    hide IndexOf, DeltaOf, PublishCheckpoint, ToLower, DeltaUploaded, IndexUploaded, Describes;
    if op.Publish? {
      var st := StateOf(w.sessions, op.session);
      var e, obj := PublishEffect(w.host, op.session, st, w.store, op.proof, op.outcomes);
      if op.session == session {
        PublishLabels(w.host, session, st, w.store, op.proof, op.outcomes);
      }
    }
  }

  /** In every run, for every session. */
  lemma {:induction false} EveryRunIsLabelled(host: string, ops: seq<Op>, session: string)
    requires HostOk(host) && Disciplined(Start(host), ops)
    ensures Labelled(Run(Start(host), ops), session)
    decreases |ops|
  {
    hide Next, HostOk, IndexOf, Labelled, ResumedFirst;
    if ops == [] {
      StartIsLabelled(host, session);
    } else {
      var prefix := ops[..|ops| - 1];
      RunKeepsHost(Start(host), prefix);
      EveryRunIsLabelled(host, prefix, session);
      NextKeepsLabels(Run(Start(host), prefix), ops[|ops| - 1], session);
    }
  }

  lemma StartIsLabelled(host: string, session: string)
    ensures Labelled(Start(host), session)
  {
  }

  // ---------------------------------------------------------------- message conservation

  /** The messages of a delta without the trailing part of a response still being streamed. */
  function Whole(messages: seq<CheckpointMessage>): seq<CheckpointMessage> {
    if messages != [] && messages[|messages| - 1].partial then messages[..|messages| - 1] else messages
  }

  /** What the stored deltas from `base` up to `n` (exclusive) give back. */
  function Recovered(w: World, session: string, base: nat, n: nat): seq<CheckpointMessage> {
    if n <= base then []
    else
      var d := DeltaOf(w.store, w.host, session, n - 1);
      Recovered(w, session, base, n - 1) + if d.Some? then Whole(d.value.blob.delta.messages) else []
  }

  /** What the deltas give back, then the buffer, is the log but for one message for each lossy commit. */
  ghost predicate LogInv(w: World, session: string) {
    var st, life := StateOf(w.sessions, session), LifeOf(w, session);
    var all := Recovered(w, session, life.base, st.checkpointIndex) + st.messageBuffer;
    && life.base <= st.checkpointIndex
    && (forall n: nat :: life.base <= n < st.checkpointIndex ==> DeltaOf(w.store, w.host, session, n).Some?)
    && |all| + life.lost == |life.log| && (life.lost == 0 ==> all == life.log)
  }

  lemma {:induction false} RecoveredFrame(w: World, w': World, session: string, base: nat, n: nat)
    requires w'.host == w.host
    requires forall m: nat :: m < n ==> DeltaOf(w'.store, w.host, session, m) == DeltaOf(w.store, w.host, session, m)
    ensures Recovered(w', session, base, n) == Recovered(w, session, base, n)
  {
    hide DeltaOf, Whole;
    if n > base {
      RecoveredFrame(w, w', session, base, n - 1);
    }
  }

  lemma LogFrame(w: World, w': World, session: string)
    requires LogInv(w, session) && w'.host == w.host && LifeOf(w', session) == LifeOf(w, session)
    requires StateOf(w'.sessions, session).checkpointIndex == StateOf(w.sessions, session).checkpointIndex
    requires StateOf(w'.sessions, session).messageBuffer == StateOf(w.sessions, session).messageBuffer
    requires forall m: nat :: m < StateOf(w.sessions, session).checkpointIndex ==>
                                DeltaOf(w'.store, w.host, session, m) == DeltaOf(w.store, w.host, session, m)
    ensures LogInv(w', session)
  {
    hide DeltaOf, Recovered;
    RecoveredFrame(w, w', session, LifeOf(w, session).base, StateOf(w.sessions, session).checkpointIndex);
  }

  lemma WholeOfDelta(st: Session, now: nat)
    ensures Whole(DeltaMessages(st, now)) ==
      if EndsInPartial(st) then st.messageBuffer[..|st.messageBuffer| - 1] else st.messageBuffer
  {
    var all := DeltaMessages(st, now);
    if |all| > |st.messageBuffer| {
      assert all[..|all| - 1] == st.messageBuffer;
    } else {
      assert all == st.messageBuffer;
    }
  }

  /** Committing moves the buffer, but for a last message marked partial, from memory to the recovered messages. */
  lemma PublishKeepsLog(w: World, session: string, p: Proof, o: Outcomes)
    requires HostOk(w.host) && LogInv(w, session)
    ensures LogInv(Next(w, Publish(session, p, o)), session)
  {
    hide IndexOf, DeltaOf, PublishCheckpoint, DeltaUploaded, IndexUploaded, ToLower, Whole, DeltaMessages,
      EndsInPartial, LogInv, Recovered;
    var w' := Next(w, Publish(session, p, o));
    var st := StateOf(w.sessions, session);
    var e, obj := PublishEffect(w.host, session, st, w.store, p, o);
    if DeltaUploaded(st, o) && IndexUploaded(o) {
      CommitLog(w, w', session, obj, o.now);
    } else {
      LogFrame(w, w', session);
    }
  }

  lemma CommitLog(w: World, w': World, session: string, obj: Stored, now: nat)
    requires LogInv(w, session) && w'.host == w.host
    requires var st, life := StateOf(w.sessions, session), LifeOf(w, session);
      LifeOf(w', session) == if EndsInPartial(st) then life.(lost := life.lost + 1) else life
    requires obj.blob.DeltaBlob? && obj.blob.delta.messages == DeltaMessages(StateOf(w.sessions, session), now)
    requires StateOf(w'.sessions, session).checkpointIndex == StateOf(w.sessions, session).checkpointIndex + 1
    requires StateOf(w'.sessions, session).messageBuffer == []
    requires forall m: nat :: DeltaOf(w'.store, w.host, session, m) ==
               if m == StateOf(w.sessions, session).checkpointIndex then Some(obj)
                   else DeltaOf(w.store, w.host, session, m)
    ensures LogInv(w', session)
  {
    hide DeltaOf, Whole, DeltaMessages;
    var st, life := StateOf(w.sessions, session), LifeOf(w, session);
    RecoveredFrame(w, w', session, life.base, st.checkpointIndex);
    WholeOfDelta(st, now);
    var before := Recovered(w, session, life.base, st.checkpointIndex);
    assert Recovered(w', session, life.base, st.checkpointIndex + 1) == before + Whole(obj.blob.delta.messages);
  }

  lemma BufferKeepsLog(w: World, session: string, m: CheckpointMessage)
    requires LogInv(w, session)
    ensures LogInv(Next(w, Buffer(session, m)), session)
  {
    hide DeltaOf, Recovered, IndexOf;
    var w' := Next(w, Buffer(session, m));
    RecoveredFrame(w, w', session, LifeOf(w, session).base, StateOf(w.sessions, session).checkpointIndex);
  }

  lemma NewLife(w: World, session: string)
    requires var st, life := StateOf(w.sessions, session), LifeOf(w, session);
             st.messageBuffer == [] && life.log == [] && life.lost == 0 && life.base == st.checkpointIndex
    ensures LogInv(w, session)
  {
    hide DeltaOf;
  }

  lemma PublishKeepsOtherLog(w: World, session: string, p: Proof, o: Outcomes, other: string)
    requires HostOk(w.host) && LogInv(w, other) && other != session
    ensures LogInv(Next(w, Publish(session, p, o)), other)
  {
    hide IndexOf, DeltaOf, PublishCheckpoint, DeltaUploaded, IndexUploaded, Describes, ToLower, LogInv, EndsInPartial;
    var e, obj := PublishEffect(w.host, session, StateOf(w.sessions, session), w.store, p, o);
    LogFrame(w, Next(w, Publish(session, p, o)), other);
  }

  lemma NextKeepsLog(w: World, op: Op, s: string)
    requires HostOk(w.host) && LogInv(w, s)
    ensures LogInv(Next(w, op), s)
  {
    hide IndexOf, DeltaOf, PublishCheckpoint, ToLower, LogInv, HostOk, EndsInPartial;
    var w' := Next(w, op);
    if op.Buffer? && op.session == s {
      BufferKeepsLog(w, s, op.message);
    } else if op.Publish? {
      if op.session == s { PublishKeepsLog(w, s, op.proof, op.outcomes); }
      else { PublishKeepsOtherLog(w, op.session, op.proof, op.outcomes, s); }
    } else if op.Restart? || (op.Remove? && op.session == s)
              || (op.Init? && op.session == s && op.read.Some?) {
      NewLife(w', s);
    } else {
      LogFrame(w, w', s);
    }
  }

  lemma {:induction false} EveryRunKeepsLogs(host: string, ops: seq<Op>, session: string)
    requires HostOk(host)
    ensures LogInv(Run(Start(host), ops), session)
    decreases |ops|
  {
    hide IndexOf, DeltaOf, Next, HostOk, LogInv;
    if ops == [] {
      NewLife(Start(host), session);
    } else {
      var prefix := ops[..|ops| - 1];
      RunKeepsHost(Start(host), prefix);
      EveryRunKeepsLogs(host, prefix, session);
      NextKeepsLog(Run(Start(host), prefix), ops[|ops| - 1], session);
    }
  }

  /**
   Every run whatsoever: what a life's committed deltas give back, then the buffer, is what was
   buffered, in order, if and only if no commit closed a buffer that ended in a partial message;
   each that did lost one message.
   */
  lemma MessagesAreConserved(host: string, ops: seq<Op>, session: string)
    requires HostOk(host)
    ensures var w := Run(Start(host), ops);
            var st, life := StateOf(w.sessions, session), LifeOf(w, session);
            var all := Recovered(w, session, life.base, st.checkpointIndex) + st.messageBuffer;
            (all == life.log <==> life.lost == 0) && |all| + life.lost == |life.log|
  {
    hide Recovered, DeltaOf, Run;
    EveryRunKeepsLogs(host, ops, session);
  }

  /** Nothing is lost where only whole messages are buffered. */
  lemma {:induction false} NothingIsLost(host: string, ops: seq<Op>, session: string)
    requires HostOk(host) && WholeMessages(ops)
    ensures LifeOf(Run(Start(host), ops), session).lost == 0
    ensures forall m :: m in StateOf(Run(Start(host), ops).sessions, session).messageBuffer ==> !m.partial
    decreases |ops|
  {
    hide Next, HostOk;
    if ops != [] {
      var before, op := ops[..|ops| - 1], ops[|ops| - 1];
      RunKeepsHost(Start(host), before);
      NothingIsLost(host, before, session);
      NextLosesNothing(Run(Start(host), before), op, session);
    }
  }

  lemma NextLosesNothing(w: World, op: Op, session: string)
    requires HostOk(w.host) && (op.Buffer? ==> !op.message.partial) && LifeOf(w, session).lost == 0
    requires forall m :: m in StateOf(w.sessions, session).messageBuffer ==> !m.partial
    ensures LifeOf(Next(w, op), session).lost == 0
    ensures forall m :: m in StateOf(Next(w, op).sessions, session).messageBuffer ==> !m.partial
  {
    hide IndexOf, DeltaOf, PublishCheckpoint, Describes, ToLower, DeltaUploaded, IndexUploaded;
    if op.Publish? {
      var e, obj := PublishEffect(w.host, op.session, StateOf(w.sessions, op.session), w.store, op.proof, op.outcomes);
    }
  }

  /** Only whole messages are buffered; partial ones come from the response being streamed. */
  predicate WholeMessages(ops: seq<Op>) {
    forall i :: 0 <= i < |ops| && ops[i].Buffer? ==> !ops[i].message.partial
  }

  // ---------------------------------------------------------------- duplicates in the index

  ghost predicate NumberedByPosition(entries: seq<CheckpointEntry>) {
    forall i :: 0 <= i < |entries| ==> entries[i].index == i
  }

  /** The call uploads the delta and the index. */
  predicate Committed(w: World, op: Op, session: string) {
    op.Publish? && op.session == session && DeltaUploaded(StateOf(w.sessions, session), op.outcomes)
        && IndexUploaded(op.outcomes)
  }

  /** Memory holds an entry that a failed index upload left. */
  predicate HasLeftover(w: World, session: string) {
    |EntriesOf(StateAt(w, session).index)| != |StoredEntries(w, session)|
  }

  /** No commit of the session found a leftover. */
  predicate CleanCommits(host: string, ops: seq<Op>, session: string)
    decreases |ops|
  {
    ops == [] ||
    (var before, op := ops[..|ops| - 1], ops[|ops| - 1];
     var w := Run(Start(host), before);
     CleanCommits(host, before, session) && (Committed(w, op, session) ==> !HasLeftover(w, session)))
  }

  /** One step: only a commit changes the stored entries, and it appends to those in memory. */
  lemma StoredAfter(w: World, op: Op, session: string)
    returns (e: CheckpointEntry)
    requires HostOk(w.host) && ResumedFirst(w, op)
    ensures StoredEntries(Next(w, op), session) ==
      if Committed(w, op, session) then EntriesOf(StateAt(w, session).index) + [e] else StoredEntries(w, session)
    ensures Committed(w, op, session) ==> e.index == StateAt(w, session).checkpointIndex
  {
    hide IndexOf, DeltaOf, PublishCheckpoint, Describes, ToLower, DeltaUploaded, IndexUploaded;
    e := CheckpointEntry(0, "", "", 0, 0, 0, false);
    if op.Publish? {
      var entry, obj := PublishEffect(w.host, op.session, StateOf(w.sessions, op.session), w.store, op.proof,
          op.outcomes);
      e := entry;
    }
  }

  /**
   Over every run: the stored entries are numbered by position if and only if no publish committed
   while memory held an entry left by a failed index upload.
   */
  lemma {:induction false} NumberedIffCleanCommits(host: string, ops: seq<Op>, session: string)
    requires HostOk(host) && Disciplined(Start(host), ops)
    ensures NumberedByPosition(StoredEntries(Run(Start(host), ops), session)) <==> CleanCommits(host, ops, session)
    decreases |ops|
  {
    hide IndexOf, Next, HostOk, ResumedFirst, NumberedByPosition, Committed, NumberInv, ProofInv;
    if ops == [] {
      NothingNumbered(host, session);
    } else {
      var before, op := ops[..|ops| - 1], ops[|ops| - 1];
      var w := Run(Start(host), before);
      NumberedIffCleanCommits(host, before, session);
      EveryRunIsSafe(host, before);
      assert SessionInv(w, session);
      var e := StoredAfter(w, op, session);
      if Committed(w, op, session) {
        CommitNumbers(StoredEntries(w, session), EntriesOf(StateAt(w, session).index),
            StateAt(w, session).checkpointIndex, e);
      }
    }
  }

  lemma NothingNumbered(host: string, session: string)
    ensures NumberedByPosition(StoredEntries(Start(host), session))
  {
  }

  lemma CommitNumbers(stored: seq<CheckpointEntry>, entries: seq<CheckpointEntry>, current: nat, e: CheckpointEntry)
    requires NumberInv(stored, entries, current) && e.index == current
    ensures NumberedByPosition(entries + [e]) <==> NumberedByPosition(stored) && |entries| == |stored|
  {
    var all := entries + [e];
    assert forall i :: 0 <= i < |stored| ==> all[i] == stored[i];
    assert all[|entries|] == e;
    if |entries| > |stored| {
      assert all[|stored|].index == all[|entries|].index == current;
    } else if |stored| > 0 {
      assert entries[|stored| - 1].index < current;
    }
  }

  /** One failed index upload and a successful retry leave two entries for number 0. */
  lemma RetryLeavesTwoEntries(host: string, session: string, p: Proof, q: Proof, o: Outcomes, o': Outcomes)
    requires HostOk(host)
    requires DeltaUploaded(FRESH, o) && !IndexUploaded(o) && DeltaUploaded(FRESH, o') && IndexUploaded(o')
    ensures var entries := StoredEntries(Run(Start(host), [Publish(session, p, o), Publish(session, q, o')]), session);
            |entries| == 2 && entries[0].index == entries[1].index == 0
  {
    hide IndexOf, DeltaOf, PublishCheckpoint, Describes, ToLower, IndexUploaded, UploadWithRetry;
    var ops := [Publish(session, p, o), Publish(session, q, o')];
    var w0 := Start(host);
    assert ops[..1] == [ops[0]] && ops[..1][..0] == [];
    assert Run(w0, ops[..1]) == Next(w0, ops[0]);
    var w1 := Next(w0, ops[0]);
    assert Run(w0, ops) == Next(w1, ops[1]);
    var e, obj := PublishEffect(host, session, FRESH, w0.store, p, o);
    var st := StateOf(w1.sessions, session);
    assert st.recoveryPublicKey.None? by { KeyStays(host, session, FRESH, w0.store, p, o); }
    var e', obj' := PublishEffect(host, session, st, w1.store, q, o');
  }

  lemma KeyStays(host: string, session: string, st: Session, store: Store, p: Proof, o: Outcomes)
    ensures PublishCheckpoint(host, session, st, store, p, o).st.recoveryPublicKey == st.recoveryPublicKey
  {
  }

  // ---------------------------------------------------------------- every run whatsoever

  /** The index was the session's stored one at some point of the run. */
  ghost predicate WasStored(host: string, ops: seq<Op>, session: string, read: Option<CheckpointIndex>) {
    exists n :: 0 <= n <= |ops| && IndexOf(Run(Start(host), ops[..n]).store, host, session) == read
  }

  /** Every index that is installed was stored at some earlier point. */
  ghost predicate Genuine(host: string, ops: seq<Op>)
    decreases |ops|
  {
    ops == [] ||
    (var before, op := ops[..|ops| - 1], ops[|ops| - 1];
     Genuine(host, before) && (op.Init? && op.read.Some? ==> WasStored(host, before, op.session, op.read)))
  }

  lemma {:induction false} GenuinePrefix(host: string, ops: seq<Op>, n: nat)
    requires Genuine(host, ops) && n <= |ops|
    ensures Genuine(host, ops[..n])
    decreases |ops|
  {
    hide WasStored;
    if n < |ops| {
      GenuinePrefix(host, ops[..|ops| - 1], n);
      assert ops[..|ops| - 1][..n] == ops[..n];
    } else {
      assert ops[..n] == ops;
    }
  }

  /** Stored deltas are replaced but never removed. */
  lemma {:induction false} DeltasStay(host: string, ops: seq<Op>, n: nat, session: string, number: nat)
    requires HostOk(host) && n <= |ops| && DeltaOf(Run(Start(host), ops[..n]).store, host, session, number).Some?
    ensures DeltaOf(Run(Start(host), ops).store, host, session, number).Some?
    decreases |ops|
  {
    hide DeltaOf, Next, HostOk;
    if n == |ops| {
      assert ops[..n] == ops;
    } else {
      var before := ops[..|ops| - 1];
      assert before[..n] == ops[..n];
      DeltasStay(host, before, n, session, number);
      RunKeepsHost(Start(host), before);
      NextKeepsDelta(Run(Start(host), before), ops[|ops| - 1], session, number);
    }
  }

  lemma NextKeepsDelta(w: World, op: Op, session: string, number: nat)
    requires HostOk(w.host) && DeltaOf(w.store, w.host, session, number).Some?
    ensures DeltaOf(Next(w, op).store, w.host, session, number).Some?
  {
    hide IndexOf, DeltaOf, PublishCheckpoint, Describes, ToLower, DeltaUploaded, IndexUploaded;
    if op.Publish? {
      var st := StateOf(w.sessions, op.session);
      var e, obj := PublishEffect(w.host, op.session, st, w.store, op.proof, op.outcomes);
    }
  }

  /** No entry is numbered past its position, and each has a stored delta under its number. */
  ghost predicate ListBacked(w: World, session: string, entries: seq<CheckpointEntry>) {
    forall i :: 0 <= i < |entries| ==>
                  entries[i].index <= i && DeltaOf(w.store, w.host, session, entries[i].index).Some?
  }

  ghost predicate Backed(w: World, session: string) {
    var st := StateOf(w.sessions, session);
    && ListBacked(w, session, EntriesOf(st.index)) && ListBacked(w, session, StoredEntries(w, session))
    && st.checkpointIndex <= |EntriesOf(st.index)|
  }

  lemma NextKeepsList(w: World, op: Op, session: string, entries: seq<CheckpointEntry>)
    requires HostOk(w.host) && ListBacked(w, session, entries)
    ensures ListBacked(Next(w, op), session, entries)
  {
    hide DeltaOf, Next;
    NextKeepsHost(w, op);
    forall i | 0 <= i < |entries|
      ensures DeltaOf(Next(w, op).store, w.host, session, entries[i].index).Some?
    {
      NextKeepsDelta(w, op, session, entries[i].index);
    }
  }

  lemma NextKeepsBacked(w: World, op: Op, session: string)
    requires HostOk(w.host) && Backed(w, session)
    requires op.Init? && op.session == session && op.read.Some? ==> ListBacked(w, session, op.read.value.checkpoints)
    ensures Backed(Next(w, op), session)
  {
    hide IndexOf, DeltaOf, PublishCheckpoint, Describes, ToLower, DeltaUploaded, IndexUploaded, ListBacked;
    var w', st := Next(w, op), StateOf(w.sessions, session);
    NextKeepsList(w, op, session, EntriesOf(st.index));
    NextKeepsList(w, op, session, StoredEntries(w, session));
    NextKeepsList(w, op, session, []) by { NothingListed(w, session); }
    if op.Publish? {
      var e, obj := PublishEffect(w.host, op.session, StateOf(w.sessions, op.session), w.store, op.proof, op.outcomes);
      if op.session == session && DeltaUploaded(st, op.outcomes) { ListMore(w', session, EntriesOf(st.index), e); }
    } else if op.Init? && op.session == session && op.read.Some? {
      NextKeepsList(w, op, session, op.read.value.checkpoints);
    }
  }

  lemma NothingListed(w: World, session: string)
    ensures ListBacked(w, session, [])
  {
  }

  lemma ListMore(w: World, session: string, entries: seq<CheckpointEntry>, e: CheckpointEntry)
    requires ListBacked(w, session, entries) && e.index <= |entries|
    requires DeltaOf(w.store, w.host, session, e.index).Some?
    ensures ListBacked(w, session, entries + [e])
  {
    hide DeltaOf;
  }

  /**
   Every run whatsoever, with sessions used unread and indexes read too early: every entry of the
   stored index has a stored delta, entries[i].index <= i, and checkpoint_index <= entries.
   */
  lemma {:induction false} EveryRunIsBacked(host: string, ops: seq<Op>, session: string)
    requires HostOk(host) && Genuine(host, ops)
    ensures Backed(Run(Start(host), ops), session)
    decreases |ops|
  {
    hide IndexOf, DeltaOf, Next, HostOk, Backed, ListBacked, WasStored;
    if ops == [] {
      StartIsBacked(host, session);
    } else {
      var before, op := ops[..|ops| - 1], ops[|ops| - 1];
      EveryRunIsBacked(host, before, session);
      RunKeepsHost(Start(host), before);
      if op.Init? && op.session == session && op.read.Some? {
        var n := PointOfRead(host, before, session, op.read);
        GenuinePrefix(host, before, n);
        EveryRunIsBacked(host, before[..n], session);
        ReadIsBacked(host, before, n, session, op.read.value);
      }
      NextKeepsBacked(Run(Start(host), before), op, session);
    }
  }

  lemma StartIsBacked(host: string, session: string)
    ensures Backed(Start(host), session)
  {
  }

  lemma PointOfRead(host: string, ops: seq<Op>, session: string, read: Option<CheckpointIndex>) returns (n: nat)
    requires WasStored(host, ops, session, read)
    ensures n <= |ops| && IndexOf(Run(Start(host), ops[..n]).store, host, session) == read
  {
    n :| 0 <= n <= |ops| && IndexOf(Run(Start(host), ops[..n]).store, host, session) == read;
  }

  lemma ReadIsBacked(host: string, ops: seq<Op>, n: nat, session: string, read: CheckpointIndex)
    requires HostOk(host) && n <= |ops| && IndexOf(Run(Start(host), ops[..n]).store, host, session) == Some(read)
    requires Backed(Run(Start(host), ops[..n]), session)
    ensures ListBacked(Run(Start(host), ops), session, read.checkpoints)
  {
    hide IndexOf, DeltaOf, Run, HostOk;
    RunKeepsHost(Start(host), ops);
    RunKeepsHost(Start(host), ops[..n]);
    forall i | 0 <= i < |read.checkpoints|
      ensures DeltaOf(Run(Start(host), ops).store, host, session, read.checkpoints[i].index).Some?
    {
      DeltasStay(host, ops, n, session, read.checkpoints[i].index);
    }
  }

  /** And a publish that succeeds leaves an index that names its delta last and whose entries all have one. */
  lemma PublishIsAlwaysBacked(host: string, ops: seq<Op>, session: string, p: Proof, o: Outcomes)
    requires HostOk(host) && Genuine(host, ops)
    requires var w := Run(Start(host), ops);
             PublishCheckpoint(host, session, StateOf(w.sessions, session), w.store, p, o).result.Some?
    ensures var w := Run(Start(host), ops);
            var w' := Next(w, Publish(session, p, o));
            var n := StateOf(w.sessions, session).checkpointIndex;
            var entries := StoredEntries(w', session);
            && entries != [] && DeltaOf(w'.store, host, session, n).Some? && ListBacked(w', session, entries)
            && var e := entries[|entries| - 1];
            && e.index == n && e.proofHash == p.hash && e.startToken == p.startToken && e.endToken == p.endToken
            && Describes(session, e, DeltaOf(w'.store, host, session, n).value)
  {
    hide IndexOf, DeltaOf, PublishCheckpoint, Describes, ToLower, DeltaUploaded, IndexUploaded, Run, Genuine,
      ListBacked;
    RunKeepsHost(Start(host), ops);
    EveryRunIsBacked(host, ops, session);
    var w := Run(Start(host), ops);
    NextKeepsBacked(w, Publish(session, p, o), session);
    var e, obj := PublishEffect(host, session, StateOf(w.sessions, session), w.store, p, o);
  }

  // ---------------------------------------------------------------- runs in which these things happen

  const ALL_GOOD := Outcomes(0, Some("signature"), true, [PutOk("cid")], Some("signature"), [PutOk("cid")])

  const INDEX_FAILS := ALL_GOOD.(indexPuts := [])

  /** A publish whose delta goes up, and whose index does or does not. */
  lemma PublishMoves(w: World, session: string, p: Proof, o: Outcomes)
    requires HostOk(w.host) && StateOf(w.sessions, session).recoveryPublicKey.None?
    requires o == ALL_GOOD || o == INDEX_FAILS
    ensures var st, w' := StateOf(w.sessions, session), Next(w, Publish(session, p, o));
            var st' := StateOf(w'.sessions, session);
            var n := |EntriesOf(st.index)|;
            && w'.host == w.host && session in w'.sessions && st'.recoveryPublicKey.None?
            && DeltaUploaded(st, o) && (IndexUploaded(o) <==> o == ALL_GOOD)
            && |EntriesOf(st'.index)| == n + 1 && EntriesOf(st'.index)[n].index == st.checkpointIndex
            && st'.checkpointIndex == st.checkpointIndex + (if o == ALL_GOOD then 1 else 0)
            && IndexOf(w'.store, w.host, session)
               == if o == ALL_GOOD then st'.index else IndexOf(w.store, w.host, session)
  {
    hide IndexOf, DeltaOf, PublishCheckpoint, Describes, ToLower;
    OutcomesAreAsNamed();
    var e, obj := PublishEffect(w.host, session, StateOf(w.sessions, session), w.store, p, o);
    KeyStays(w.host, session, StateOf(w.sessions, session), w.store, p, o);
  }

  lemma OutcomesAreAsNamed()
    ensures UploadWithRetry(ALL_GOOD.deltaPuts).Some? && UploadWithRetry(ALL_GOOD.indexPuts).Some?
    ensures UploadWithRetry(INDEX_FAILS.deltaPuts).Some? && UploadWithRetry(INDEX_FAILS.indexPuts).None?
  {
  }

  lemma NothingAtStart(host: string, session: string)
    ensures IndexOf(Start(host).store, host, session).None? && Run(Start(host), []) == Start(host)
    ensures Disciplined(Start(host), [])
  {
  }

  /** One publish: a disciplined run with one entry, numbered 0, in memory and stored. */
  lemma OnePublish(host: string, session: string, p: Proof)
    requires HostOk(host)
    ensures var ops := [Publish(session, p, ALL_GOOD)];
            var w := Run(Start(host), ops);
            var st := StateOf(w.sessions, session);
            && Disciplined(Start(host), ops) && session in w.sessions && st.recoveryPublicKey.None?
            && w.host == host && st.checkpointIndex == 1
            && st.index.Some? && IndexOf(w.store, host, session) == st.index && |EntriesOf(st.index)| == 1
  {
    hide IndexOf, PublishCheckpoint, Run, Disciplined, HostOk, DeltaUploaded, IndexUploaded;
    NothingAtStart(host, session);
    RunMore(Start(host), [], Publish(session, p, ALL_GOOD));
    assert [] + [Publish(session, p, ALL_GOOD)] == [Publish(session, p, ALL_GOOD)];
    PublishMoves(Start(host), session, p, ALL_GOOD);
  }

  /** A publish and a restart leave a nonempty index and no state: the next delta uploaded would hit number 0. */
  lemma UnreadStateOccurs(host: string, session: string, p: Proof)
    requires HostOk(host)
    ensures var ops := [Publish(session, p, ALL_GOOD), Restart];
            var w := Run(Start(host), ops);
            Disciplined(Start(host), ops) && StoredEntries(w, session) != [] && session !in w.sessions
  {
    hide IndexOf, Run, Disciplined, HostOk;
    OnePublish(host, session, p);
    RunMore(Start(host), [Publish(session, p, ALL_GOOD)], Restart);
    assert [Publish(session, p, ALL_GOOD)] + [Restart] == [Publish(session, p, ALL_GOOD), Restart];
  }

  /** A buffered message marked partial is lost by the commit that closes its buffer. */
  lemma PartialMessageIsLost(host: string, session: string, p: Proof, m: CheckpointMessage)
    requires HostOk(host) && m.partial
    ensures var w := Run(Start(host), [Buffer(session, m), Publish(session, p, ALL_GOOD)]);
            var st, life := StateOf(w.sessions, session), LifeOf(w, session);
            && life.lost == 1 && life.log == [m] && st.messageBuffer == []
            && Recovered(w, session, life.base, st.checkpointIndex) == []
  {
    hide IndexOf, DeltaOf, PublishCheckpoint, Run, Recovered, HostOk;
    NothingAtStart(host, session);
    var buffer, publish := Buffer(session, m), Publish(session, p, ALL_GOOD);
    RunMore(Start(host), [], buffer);
    RunMore(Start(host), [buffer], publish);
    assert [] + [buffer] == [buffer] && [buffer] + [publish] == [buffer, publish];
    LossyCommit(Next(Start(host), buffer), session, p);
    MessagesAreConserved(host, [buffer, publish], session);
  }

  lemma LossyCommit(w: World, session: string, p: Proof)
    requires HostOk(w.host) && StateOf(w.sessions, session).recoveryPublicKey.None?
    requires EndsInPartial(StateOf(w.sessions, session))
    ensures var w' := Next(w, Publish(session, p, ALL_GOOD));
            && LifeOf(w', session) == LifeOf(w, session).(lost := LifeOf(w, session).lost + 1)
            && StateOf(w'.sessions, session).messageBuffer == []
  {
    hide IndexOf, DeltaOf, PublishCheckpoint, Describes, ToLower, EndsInPartial;
    OutcomesAreAsNamed();
    var e, obj := PublishEffect(w.host, session, StateOf(w.sessions, session), w.store, p, ALL_GOOD);
  }

  /** An index read before a commit and installed after it: the next delta uploaded hits number 1 of the index. */
  lemma EarlyReadMisnumbers(host: string, session: string, p: Proof)
    requires HostOk(host)
    ensures var publish := Publish(session, p, ALL_GOOD);
            var read := IndexOf(Run(Start(host), [publish]).store, host, session);
            var w := Run(Start(host), [publish, publish]);
            && Disciplined(Start(host), [publish, publish]) && read.Some?
            && StateOf(Next(w, Init(session, read)).sessions, session).checkpointIndex == 1
            && |StoredEntries(w, session)| == 2 && StoredEntries(w, session)[1].index == 1
  {
    hide IndexOf, PublishCheckpoint, Run, Disciplined, HostOk, DeltaUploaded, IndexUploaded;
    var publish := Publish(session, p, ALL_GOOD);
    OnePublish(host, session, p);
    RunMore(Start(host), [publish], publish);
    assert [publish] + [publish] == [publish, publish];
    PublishMoves(Run(Start(host), [publish]), session, p, ALL_GOOD);
  }
}
