/**
 The publisher as the object it is: session states that its methods update in place, and a store
 that it shares with everyone else. Each method does what the functions of `Publisher` say.
 */
module PublisherObjects {
  import opened Common
  import opened Delta
  import opened StorePaths
  import opened Publisher

  /** The S5 backend; a failed call changes nothing. */
  class S5Storage {
    var objects: Store

    constructor (objects: Store)
      ensures this.objects == objects
    {
      this.objects := objects;
    }

    method Put(path: string, data: Blob, outcome: PutOutcome) returns (cid: Option<string>)
      modifies this
      ensures outcome == PutErr ==> cid == None && objects == old(objects)
      ensures outcome.PutOk? ==> cid == Some(outcome.cid) && objects == old(objects)[path := Stored(data, outcome.cid)]
    {
      if outcome.PutOk? {
        objects := objects[path := Stored(data, outcome.cid)];
        cid := Some(outcome.cid);
      } else {
        cid := None;
      }
    }

    method Delete(path: string, succeeds: bool) returns (ok: bool)
      modifies this
      ensures ok == succeeds
      ensures objects == if succeeds then old(objects) - {path} else old(objects)
    {
      ok := succeeds;
      if succeeds {
        objects := objects - {path};
      }
    }
  }

  /** `upload_with_retry`: at most three attempts, and the first success ends them. */
  method Upload(s5: S5Storage, path: string, data: Blob, outcomes: seq<PutOutcome>) returns (cid: Option<string>)
    modifies s5
    ensures cid == UploadWithRetry(outcomes)
    ensures s5.objects == if cid.Some? then old(s5.objects)[path := Stored(data, cid.value)] else old(s5.objects)
  {
    for attempt := 0 to MAX_S5_RETRIES
      invariant s5.objects == old(s5.objects)
      invariant UploadWithRetry(outcomes) == FirstSuccess(outcomes, attempt, MAX_S5_RETRIES)
    {
      var outcome := if attempt < |outcomes| then outcomes[attempt] else PutErr;
      cid := s5.Put(path, data, outcome);
      if cid.Some? {
        return;
      }
    }
    cid := None;
  }

  class CheckpointPublisher {
    const hostAddress: string
    var sessions: map<string, Session>

    constructor (hostAddress: string)
      ensures this.hostAddress == ToLower(hostAddress) == ToLower(this.hostAddress) && sessions == map[]
    {
      ToLowerIdempotent(hostAddress);
      this.hostAddress := ToLower(hostAddress);
      sessions := map[];
    }

    method BufferMessage(session: string, message: CheckpointMessage)
      modifies this
      ensures sessions == old(sessions)[session := Publisher.BufferMessage(StateOf(old(sessions), session), message)]
    {
      var st := StateOf(sessions, session);
      sessions := sessions[session := st.(messageBuffer := st.messageBuffer + [message])];
    }

    method UpdateStreamingResponse(session: string, chunk: string)
      modifies this
      ensures sessions ==
              old(sessions)[session := Publisher.UpdateStreamingResponse(StateOf(old(sessions), session), chunk)]
    {
      var st := StateOf(sessions, session);
      match st.streamingResponse
      case Some(buffer) =>
        sessions := sessions[session := st.(streamingResponse := Some(buffer + chunk))];
      case None =>
        sessions := sessions[session := st.(streamingResponse := Some(chunk))];
        assert "" + chunk == chunk;
    }

    method ClearStreamingResponse(session: string)
      modifies this
      ensures sessions ==
              if session in old(sessions) then
                old(sessions)[session := Publisher.ClearStreamingResponse(old(sessions)[session])]
              else old(sessions)
    {
      if session in sessions {
        sessions := sessions[session := sessions[session].(streamingResponse := None)];
      }
    }

    method SetRecoveryPublicKey(session: string, key: string)
      modifies this
      ensures sessions == old(sessions)[session := StateOf(old(sessions), session).(recoveryPublicKey := Some(key))]
    {
      sessions := sessions[session := StateOf(sessions, session).(recoveryPublicKey := Some(key))];
    }

    /** Upload the delta, add its entry to the index in memory, upload the index, and only then commit. */
    method PublishCheckpoint(session: string, p: Proof, o: Outcomes, s5: S5Storage) returns (result: Option<string>)
      modifies this, s5
      ensures var r := Publisher.PublishCheckpoint(hostAddress, session, StateOf(old(sessions), session),
                                                   old(s5.objects), p, o);
              sessions == old(sessions)[session := r.st] && s5.objects == r.store && result == r.result
    {
      hide DeltaPath, IndexPath, UploadWithRetry, StripPrefix, ToLower, PublishIndex;
      var st := StateOf(sessions, session);
      sessions := sessions[session := st];
      result := None;
      if o.deltaSignature.None? || (st.recoveryPublicKey.Some? && !o.encrypts) {
        return;
      }
      var data := DeltaBlobOf(session, st, p, o.now, o.deltaSignature.value);
      var deltaCid := Upload(s5, DeltaPath(hostAddress, session, st.checkpointIndex), data, o.deltaPuts);
      if deltaCid.Some? {
        result := AddToIndex(session, p, o, s5, StripPrefix(deltaCid.value));
      }
    }

    /** The second half of publishing: the entry stays in memory whether or not the index goes up. */
    method AddToIndex(session: string, p: Proof, o: Outcomes, s5: S5Storage, cid: string)
        returns (result: Option<string>)
      requires session in sessions
      modifies this, s5
      ensures var r := PublishIndex(hostAddress, session, old(sessions)[session], old(s5.objects), p, o, cid);
              sessions == old(sessions)[session := r.st] && s5.objects == r.store && result == r.result
    {
      hide IndexPath, UploadWithRetry, ToLower;
      var st := sessions[session];
      var index := IndexOrNew(hostAddress, session, st);
      index := index.(checkpoints := index.checkpoints + [EntryOf(st, p, cid, o.now)]);
      sessions := sessions[session := st.(index := Some(index))];
      result := None;
      if o.indexSignature.None? {
        return;
      }
      index := index.(hostSignature := o.indexSignature.value);
      sessions := sessions[session := st.(index := Some(index))];
      var indexCid := Upload(s5, IndexPath(hostAddress, session), IndexBlob(index), o.indexPuts);
      if indexCid.Some? {
        sessions := sessions[session := st.(index := Some(index), messageBuffer := [],
                                            checkpointIndex := st.checkpointIndex + 1,
                                            lastCheckpointTokens := p.endToken)];
        result := Some(cid);
      }
    }

    method RemoveSession(session: string)
      modifies this
      ensures sessions == old(sessions) - {session}
    {
      sessions := sessions - {session};
    }

    /** The read of `init_session`, outside the lock: an index, none, or an error if the file is no index. */
    method FetchIndex(session: string, s5: S5Storage, readable: bool)
        returns (r: Result<Option<CheckpointIndex>, string>)
      ensures var path := IndexPath(hostAddress, session);
              if !readable || path !in s5.objects then r == Ok(None)
              else if s5.objects[path].blob.IndexBlob? then r == Ok(IndexOf(s5.objects, hostAddress, session))
              else r.Err?
    {
      var path := IndexPath(hostAddress, session);
      if !readable || path !in s5.objects {
        return Ok(None);
      }
      match s5.objects[path].blob
      case IndexBlob(index) => r := Ok(Some(index));
      case DeltaBlob(_, _) => r := Err("Failed to parse existing index");
    }

    /** What `init_session` does once it holds the lock: an index that was read replaces the session's state. */
    method Install(session: string, read: Option<CheckpointIndex>)
      modifies this
      ensures sessions == Publisher.InitSession(old(sessions), session, read)
    {
      if read.Some? {
        sessions := sessions[session := FromIndex(read.value)];
      }
    }

    /**
     A readable index replaces the session's state; otherwise nothing changes, and a file that is no
     index is an error.
     */
    method InitSession(session: string, s5: S5Storage, readable: bool) returns (ok: bool)
      modifies this
      ensures var path := IndexPath(hostAddress, session);
              ok <==> !(readable && path in s5.objects && !s5.objects[path].blob.IndexBlob?)
      ensures sessions == Publisher.InitSession(old(sessions), session,
                            if readable then IndexOf(s5.objects, hostAddress, session) else None)
    {
      hide IndexPath;
      var read := FetchIndex(session, s5, readable);
      ok := read.Ok?;
      if ok {
        Install(session, read.value);
      }
    }
  }
}
