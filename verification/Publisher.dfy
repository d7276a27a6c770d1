/**
 The checkpoint publisher (src/checkpoint/publisher.rs, src/checkpoint/index.rs): what each call
 does to the session states and to the store, with every outcome of the store, the signer and the
 encryption left to the environment.
 */
module Publisher {
  import opened Common
  import opened Delta
  import opened StorePaths

  const MAX_S5_RETRIES := 3

  datatype CheckpointEntry = CheckpointEntry(
    index: nat, proofHash: string, deltaCid: string, startToken: nat, endToken: nat, timestamp: nat, encrypted: bool)

  datatype CheckpointIndex = CheckpointIndex(
    sessionId: string, hostAddress: string, checkpoints: seq<CheckpointEntry>, hostSignature: string)

  /** Stored bytes, by what they decode to; an encrypted delta decodes with its recovery key. */
  datatype Blob = DeltaBlob(delta: CheckpointDelta, recoveryKey: Option<string>) | IndexBlob(index: CheckpointIndex)

  datatype Stored = Stored(blob: Blob, cid: string)

  type Store = map<string, Stored>

  datatype Session = Session(
    checkpointIndex: nat, messageBuffer: seq<CheckpointMessage>, lastCheckpointTokens: nat,
    index: Option<CheckpointIndex>, streamingResponse: Option<string>, recoveryPublicKey: Option<string>)

  const FRESH := Session(0, [], 0, None, None, None)

  // ---------------------------------------------------------------- the index

  function NextCheckpointIndex(index: CheckpointIndex): nat {
    |index.checkpoints|
  }

  function LastCheckpointTokens(index: CheckpointIndex): nat {
    if index.checkpoints == [] then 0 else index.checkpoints[|index.checkpoints| - 1].endToken
  }

  function FromIndex(index: CheckpointIndex): Session {
    Session(NextCheckpointIndex(index), [], LastCheckpointTokens(index), Some(index), None, None)
  }

  /** What a resumed session starts from. */
  lemma ResumedState(index: CheckpointIndex)
    ensures var st, n := FromIndex(index), |index.checkpoints|;
            && st.checkpointIndex == n && st.index == Some(index) && st.messageBuffer == []
            && st.lastCheckpointTokens == (if n == 0 then 0 else index.checkpoints[n - 1].endToken)
            && st.streamingResponse == None && st.recoveryPublicKey == None
  {
  }

  function EntriesOf(index: Option<CheckpointIndex>): seq<CheckpointEntry> {
    if index.None? then [] else index.value.checkpoints
  }

  // ---------------------------------------------------------------- the store, seen per session

  function IndexOf(store: Store, host: string, session: string): Option<CheckpointIndex> {
    var path := IndexPath(host, session);
    if path in store && store[path].blob.IndexBlob? then Some(store[path].blob.index) else None
  }

  function DeltaOf(store: Store, host: string, session: string, n: nat): Option<Stored> {
    var path := DeltaPath(host, session, n);
    if path in store && store[path].blob.DeltaBlob? then Some(store[path]) else None
  }

  // ---------------------------------------------------------------- uploading

  datatype PutOutcome = PutOk(cid: string) | PutErr

  /** The first success among the first `n` attempts from attempt `i` on. */
  function FirstSuccess(outcomes: seq<PutOutcome>, i: nat, n: nat): Option<string>
    decreases n - i
  {
    if i >= n || i >= |outcomes| then None
    else if outcomes[i].PutOk? then Some(outcomes[i].cid)
    else FirstSuccess(outcomes, i + 1, n)
  }

  function UploadWithRetry(outcomes: seq<PutOutcome>): Option<string> {
    FirstSuccess(outcomes, 0, MAX_S5_RETRIES)
  }

  /** The attempt at `i` is the first to succeed. */
  predicate FirstOk(outcomes: seq<PutOutcome>, i: nat) {
    i < |outcomes| && outcomes[i].PutOk? && forall j :: 0 <= j < i ==> outcomes[j].PutErr?
  }

  /** An upload succeeds with the first success, if and only if that is among the first three attempts. */
  lemma UploadIsFirstOfThree(outcomes: seq<PutOutcome>)
    ensures UploadWithRetry(outcomes).Some? <==> exists i: nat :: i < 3 && FirstOk(outcomes, i)
    ensures forall i: nat :: i < 3 && FirstOk(outcomes, i) ==> UploadWithRetry(outcomes) == Some(outcomes[i].cid)
  {
    forall i: nat | i < 3 && FirstOk(outcomes, i)
      ensures UploadWithRetry(outcomes) == Some(outcomes[i].cid)
    {
      for k := 0 to i
        invariant UploadWithRetry(outcomes) == FirstSuccess(outcomes, k, MAX_S5_RETRIES)
      {
      }
    }
    if UploadWithRetry(outcomes).Some? {
      var k := 0;
      while k < |outcomes| && outcomes[k].PutErr? && k < 3
        invariant k <= 3 && k <= |outcomes| && forall j :: 0 <= j < k ==> outcomes[j].PutErr?
        invariant UploadWithRetry(outcomes) == FirstSuccess(outcomes, k, MAX_S5_RETRIES)
      {
        k := k + 1;
      }
      assert FirstOk(outcomes, k);
    }
  }

  function StripPrefix(cid: string): string {
    if "s5://" <= cid then cid[5..] else cid
  }

  /** The CID without its scheme, if it has one. */
  lemma StrippedCid(cid: string, rest: string)
    ensures StripPrefix("s5://" + rest) == rest
    ensures (forall x :: cid != "s5://" + x) ==> StripPrefix(cid) == cid
  {
    assert ("s5://" + rest)[5..] == rest;
    if "s5://" <= cid { assert cid == "s5://" + cid[5..]; }
  }

  // ---------------------------------------------------------------- publishing

  datatype Proof = Proof(hash: string, startToken: nat, endToken: nat)

  /** What the outside world answers during one publish call. */
  datatype Outcomes = Outcomes(
    now: nat, deltaSignature: Option<string>, encrypts: bool, deltaPuts: seq<PutOutcome>,
    indexSignature: Option<string>, indexPuts: seq<PutOutcome>)

  /** The buffered messages, and the response being streamed as a partial message. */
  function DeltaMessages(st: Session, now: nat): seq<CheckpointMessage> {
    st.messageBuffer +
    if st.streamingResponse.Some? && st.streamingResponse.value != ""
    then [NewAssistant(st.streamingResponse.value, now, true)] else []
  }

  function DeltaBlobOf(session: string, st: Session, p: Proof, now: nat, signature: string): Blob {
    DeltaBlob(CheckpointDelta(session, st.checkpointIndex, p.hash, p.startToken, p.endToken,
                              DeltaMessages(st, now), signature),
              st.recoveryPublicKey)
  }

  function EntryOf(st: Session, p: Proof, cid: string, now: nat): CheckpointEntry {
    CheckpointEntry(st.checkpointIndex, p.hash, cid, p.startToken, p.endToken, now, st.recoveryPublicKey.Some?)
  }

  function IndexOrNew(host: string, session: string, st: Session): CheckpointIndex {
    if st.index.Some? then st.index.value else CheckpointIndex(session, ToLower(host), [], "")
  }

  /** The new session state, the new store, and the delta's CID if the call succeeds. */
  datatype Published = Published(st: Session, store: Store, result: Option<string>)

  function PublishCheckpoint(host: string, session: string, st: Session, store: Store, p: Proof,
      o: Outcomes): Published {
    var cid := UploadWithRetry(o.deltaPuts);
    if o.deltaSignature.None? || (st.recoveryPublicKey.Some? && !o.encrypts) || cid.None?
        then Published(st, store, None)
    else
      var blob := DeltaBlobOf(session, st, p, o.now, o.deltaSignature.value);
      PublishIndex(host, session, st, store[DeltaPath(host, session, st.checkpointIndex) := Stored(blob, cid.value)],
          p, o,
                   StripPrefix(cid.value))
  }

  /** The second half: the entry joins the index in memory first, and stays there if signing or uploading fails. */
  function PublishIndex(host: string, session: string, st: Session, store: Store, p: Proof, o: Outcomes, cid: string)
    : Published
  {
    var index := IndexOrNew(host, session, st);
    var added := index.(checkpoints := index.checkpoints + [EntryOf(st, p, cid, o.now)]);
    if o.indexSignature.None? then Published(st.(index := Some(added)), store, None)
    else
      var signed := added.(hostSignature := o.indexSignature.value);
      var indexCid := UploadWithRetry(o.indexPuts);
      if indexCid.None? then Published(st.(index := Some(signed)), store, None)
      else
        Published(
          st.(index := Some(signed), messageBuffer := [], checkpointIndex := st.checkpointIndex + 1,
              lastCheckpointTokens := p.endToken),
          store[IndexPath(host, session) := Stored(IndexBlob(signed), indexCid.value)],
          Some(cid))
  }

  // ---------------------------------------------------------------- the other calls

  function StateOf(sessions: map<string, Session>, session: string): Session {
    if session in sessions then sessions[session] else FRESH
  }

  function BufferMessage(st: Session, m: CheckpointMessage): Session {
    st.(messageBuffer := st.messageBuffer + [m])
  }

  function UpdateStreamingResponse(st: Session, chunk: string): Session {
    st.(streamingResponse := Some((if st.streamingResponse.Some? then st.streamingResponse.value else "") + chunk))
  }

  function ClearStreamingResponse(st: Session): Session {
    st.(streamingResponse := None)
  }

  /** `init_session`: an index that is read replaces the state; otherwise the state in memory, if any, stays. */
  function InitSession(sessions: map<string, Session>, session: string, read: Option<CheckpointIndex>)
    : map<string, Session>
  {
    if read.Some? then sessions[session := FromIndex(read.value)] else sessions
  }
}
