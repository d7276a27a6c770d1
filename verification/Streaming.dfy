/**
 The streaming billing protocol (src/api/server.rs): the forwarder that bills tokens and pushes them
 into a channel of 100 slots, and the WebSocket loop that reads the channel while listening for
 `stream_cancel`. Both are processes of one step system; a run is any sequence of steps.
 */
module Streaming {
  import opened Common

  const CAPACITY := 100

  datatype Response = Response(content: string, tokens: nat, finish: Option<string>)

  /** The forwarder: pulling from the token stream, or waiting in one of its `send` calls, or gone. */
  datatype Producer = Pulling | SendingToken(held: Response) | SendingError(held: Response) | SendingFinal | Exited

  datatype Mode = Encrypted | Plaintext

  datatype Reason = Complete | Cancelled | Failed

  datatype WsMessage =
    | EncryptedChunk(index: nat, content: string, tokens: nat, final: bool)
    | PlainChunk(content: string, tokens: nat)
    | EncryptedResponse(finish: string)
    | ErrorMessage
    | StreamEnd(reason: Reason, tokensUsed: nat)

  /**
   `pushed`, `consumed` and `dropped` record the responses that entered the channel, that the loop
   took out of it, and that were left in it when the loop ended; `lost` counts refused tokens.
   */
  datatype State = State(
    mode: Mode, hasJob: bool,
    producer: Producer, accumulated: string, totalTokens: nat, billed: nat, lost: nat,
    queue: seq<Response>, open: bool, pushed: seq<Response>, consumed: seq<Response>, dropped: seq<Response>,
    clientTokens: nat, chunkIndex: nat, sent: seq<WsMessage>)

  function Init(mode: Mode, hasJob: bool): State {
    State(mode, hasJob, Pulling, "", 0, 0, 0, [], true, [], [], [], 0, 0, [])
  }

  /** One step of either process; the flags say which of the calls it makes succeed. */
  datatype Step =
    | PullToken(text: string)
    | PullError(message: string)
    | PullEnd
    | Send
    | Receive(encrypts: bool, chunkArrives: bool, finalEncrypts: bool, finalArrives: bool, errorArrives: bool,
              endArrives: bool)
    | ReceiveClosed
    | ClientCancels(endArrives: bool)
    | ClientCloses
    | ClientSendsOther

  // ---------------------------------------------------------------- the forwarder

  function Pull(s: State, text: string): State {
    var total := s.totalTokens + 1;
    var s' := s.(accumulated := s.accumulated + text, totalTokens := total);
    if text == "" && total > 1 then s'
    else s'.(billed := if s.hasJob then s.billed + 1 else s.billed, producer := SendingToken(Response(text, 1, None)))
  }

  function Push(s: State, r: Response, next: Producer): State {
    s.(queue := s.queue + [r], pushed := s.pushed + [r], producer := next)
  }

  const STOP := Response("", 0, Some("stop"))

  /** The pending `send`: waits for a free slot, or fails when the receiver is gone. */
  function SendStep(s: State): State {
    if s.open && |s.queue| >= CAPACITY then s
    else
      match s.producer
      case SendingToken(r) => if s.open then Push(s, r, Pulling) else s.(lost := s.lost + 1, producer := SendingFinal)
      case SendingError(r) => if s.open then Push(s, r, SendingFinal) else s.(producer := SendingFinal)
      case SendingFinal => if s.open then Push(s, STOP, Exited) else s.(producer := Exited)
      case Pulling => s
      case Exited => s
  }

  // ---------------------------------------------------------------- the WebSocket loop

  function MakeChunk(mode: Mode, index: nat, r: Response): WsMessage {
    if mode == Encrypted then EncryptedChunk(index, r.content, r.tokens, r.finish.Some?)
    else PlainChunk(r.content, r.tokens)
  }

  /** Leaving the loop drops the receiver, and with it what is still queued. */
  function Stop(s: State): State {
    s.(open := false, dropped := s.queue, queue := [])
  }

  function Tell(s: State, arrives: bool, m: WsMessage): State {
    s.(sent := s.sent + Sending(arrives, m))
  }

  /** What handling one response comes to: whether its chunk went out, what was sent after it, whether the loop ends. */
  datatype Handling = Handling(delivered: bool, tail: seq<WsMessage>, ends: bool)

  function Sending(arrives: bool, m: WsMessage): seq<WsMessage> {
    if arrives then [m] else []
  }

  function Handle(mode: Mode, r: Response, total: nat, step: Step): Handling
    requires step.Receive?
  {
    var end := Sending(step.endArrives, StreamEnd(Complete, total));
    if mode == Encrypted && !step.encrypts then
      Handling(false, Sending(step.errorArrives, ErrorMessage) + Sending(step.endArrives, StreamEnd(Failed, total)),
          true)
    else if !step.chunkArrives then Handling(false, [], true)
    else if r.finish.None? then Handling(true, [], false)
    else if mode == Plaintext then Handling(true, end, true)
    else if !step.finalEncrypts || !step.finalArrives then Handling(true, [], true)
    else Handling(true, [EncryptedResponse(r.finish.value)] + end, true)
  }

  function ReceiveStep(s: State, step: Step): State
    requires step.Receive? && s.queue != []
  {
    var r := s.queue[0];
    var total := s.clientTokens + r.tokens;
    var h := Handle(s.mode, r, total, step);
    var chunks := if h.delivered then [MakeChunk(s.mode, s.chunkIndex, r)] else [];
    var t := s.(queue := s.queue[1..], consumed := s.consumed + [r], clientTokens := total,
                chunkIndex := s.chunkIndex + |chunks|, sent := s.sent + chunks + h.tail);
    if h.ends then Stop(t) else t
  }

  /** A step that is not enabled leaves the state alone. */
  function Next(s: State, step: Step): State {
    match step
    case PullToken(text) => if s.producer.Pulling? then Pull(s, text) else s
    case PullError(e) =>
      if s.producer.Pulling? then s.(producer := SendingError(Response("Error: " + e, 0, Some("error")))) else s
    case PullEnd => if s.producer.Pulling? then s.(producer := SendingFinal) else s
    case Send => SendStep(s)
    case Receive(_, _, _, _, _, _) => if s.open && s.queue != [] then ReceiveStep(s, step) else s
    case ReceiveClosed => if s.open && s.queue == [] && s.producer.Exited? then Stop(s) else s
    case ClientCancels(arrives) =>
      if s.open then Stop(Tell(s, arrives, StreamEnd(Cancelled, s.clientTokens))) else s
    case ClientCloses => if s.open then Stop(s) else s
    case ClientSendsOther => s
  }

  function Run(s: State, steps: seq<Step>): State
    decreases |steps|
  {
    if steps == [] then s else Next(Run(s, steps[..|steps| - 1]), steps[|steps| - 1])
  }

  // ---------------------------------------------------------------- measures

  function Tokens(rs: seq<Response>): nat {
    if rs == [] then 0 else Tokens(rs[..|rs| - 1]) + rs[|rs| - 1].tokens
  }

  function TextOf(rs: seq<Response>): string {
    if rs == [] then "" else TextOf(rs[..|rs| - 1]) + rs[|rs| - 1].content
  }

  lemma {:induction false} TokensAppend(a: seq<Response>, b: seq<Response>)
    ensures Tokens(a + b) == Tokens(a) + Tokens(b)
  {
    if b == [] {
      assert a + b == a;
    } else {
      var n := |b| - 1;
      assert (a + b)[..|a| + n] == a + b[..n];
      TokensAppend(a, b[..n]);
    }
  }

  lemma TokensSnoc(a: seq<Response>, r: Response)
    ensures Tokens(a + [r]) == Tokens(a) + r.tokens && TextOf(a + [r]) == TextOf(a) + r.content
  {
    assert (a + [r])[..|a|] == a;
  }

  lemma {:induction false} TokensBounded(a: seq<Response>)
    requires forall i :: 0 <= i < |a| ==> a[i].tokens <= 1
    ensures Tokens(a) <= |a|
  {
    if a != [] {
      TokensBounded(a[..|a| - 1]);
    }
  }

  lemma {:induction false} NoTokens(a: seq<Response>)
    requires forall i :: 0 <= i < |a| ==> a[i].tokens == 0
    ensures Tokens(a) == 0
  {
    if a != [] {
      NoTokens(a[..|a| - 1]);
    }
  }

  // ---------------------------------------------------------------- the invariant

  ghost predicate NoFinish(rs: seq<Response>) {
    forall i :: 0 <= i < |rs| ==> rs[i].finish.None?
  }

  /** Everything that entered the channel is consumed, queued or dropped, in that order; tokens weigh 0 or 1. */
  ghost predicate ChannelInv(s: State) {
    && s.pushed == s.consumed + s.queue + s.dropped
    && (s.open ==> s.dropped == []) && (!s.open ==> s.queue == [])
    && |s.queue| + |s.dropped| <= CAPACITY
    && (forall i :: 0 <= i < |s.pushed| ==> s.pushed[i].tokens == if s.pushed[i].finish.None? then 1 else 0)
    && (forall i, j :: 0 <= i < j < |s.pushed| && s.pushed[i].finish.Some? ==> s.pushed[j].finish.Some?)
    && s.clientTokens == Tokens(s.consumed)
    && (s.open ==> NoFinish(s.consumed))
  }

  /** Billing: each billed token was pushed, is being pushed, or was refused; only a stopped producer refused one. */
  ghost predicate BillingInv(s: State) {
    && (s.hasJob ==> s.billed == Tokens(s.pushed) + (if s.producer.SendingToken? then 1 else 0) + s.lost)
    && (!s.hasJob ==> s.billed == 0)
    && s.lost <= 1 && (s.lost == 1 ==>
        (s.producer.SendingFinal? || s.producer.Exited?) && !s.open && NoFinish(s.pushed))
    && (s.producer.SendingToken? ==> s.producer.held.tokens == 1 && s.producer.held.finish.None?)
    && (s.producer.SendingError? ==> s.producer.held.tokens == 0 && s.producer.held.finish.Some?)
    && (s.producer.Pulling? || s.producer.SendingToken? || s.producer.SendingError? ==> NoFinish(s.pushed))
  }

  /** Text: what is pushed before the first finishing response is all the generated text. */
  ghost predicate TextInv(s: State) {
    && (s.producer.Pulling? || s.producer.SendingError? ==> s.accumulated == TextOf(s.pushed))
    && (s.producer.SendingToken? ==> s.accumulated == TextOf(s.pushed) + s.producer.held.content)
    && (s.producer.SendingFinal? && s.open && NoFinish(s.pushed) ==> s.accumulated == TextOf(s.pushed))
    && (forall i :: 0 <= i < |s.pushed| && s.pushed[i].finish.Some? && NoFinish(s.pushed[..i]) ==>
                      s.accumulated == TextOf(s.pushed[..i]))
  }

  /**
   Messages: the chunks in order, then at most a closing pair; a stream end is last and carries the
   client's count.
   */
  ghost predicate SentInv(s: State) {
    && s.chunkIndex <= |s.consumed| && s.chunkIndex <= |s.sent| <= s.chunkIndex + 2
    && (s.open ==> s.chunkIndex == |s.consumed| && |s.sent| == s.chunkIndex)
    && (forall i :: 0 <= i < s.chunkIndex ==> s.sent[i] == MakeChunk(s.mode, i, s.consumed[i]))
    && (forall i :: s.chunkIndex <= i < |s.sent| ==> !s.sent[i].EncryptedChunk? && !s.sent[i].PlainChunk?)
    && (forall i :: s.chunkIndex <= i < |s.sent| && s.sent[i].StreamEnd? ==>
                      i == |s.sent| - 1 && s.sent[i].tokensUsed == s.clientTokens)
    && (
        forall i :: s.chunkIndex <= i < |s.sent| && s.sent[i].StreamEnd? && s.sent[i].reason == Complete ==>
          Completed(s))
  }

  /** A complete stream: every taken response went out, and the last one taken was the first finishing one. */
  ghost predicate Completed(s: State) {
    && s.chunkIndex == |s.consumed| > 0
    && s.consumed[|s.consumed| - 1].finish.Some? && NoFinish(s.consumed[..|s.consumed| - 1])
  }

  ghost predicate Inv(s: State) {
    ChannelInv(s) && BillingInv(s) && TextInv(s) && SentInv(s)
  }

  lemma PullKeeps(s: State, text: string)
    requires Inv(s) && s.producer.Pulling?
    ensures Inv(Pull(s, text))
  {
    hide Tokens, TextOf, NoFinish, Completed;
    var t := Pull(s, text);
    assert s.accumulated + "" == s.accumulated;
    assert TextInv(t) by {
      hide ChannelInv, SentInv;
      PulledText(s, t);
    }
    assert ChannelInv(t) && BillingInv(t) by { hide SentInv, TextInv; }
    assert SentInv(t) by { hide ChannelInv, BillingInv, TextInv; StillCompleted(s, t); }
  }

  lemma PulledText(s: State, t: State)
    requires TextInv(s) && s.producer.Pulling? && NoFinish(s.pushed)
    requires t.pushed == s.pushed && (t.producer.Pulling? || t.producer.SendingToken?)
    requires t.accumulated == s.accumulated + if t.producer.Pulling? then "" else t.producer.held.content
    ensures TextInv(t)
  {
    hide TextOf;
    assert s.accumulated + "" == s.accumulated;
  }

  lemma StillCompleted(s: State, t: State)
    requires t.consumed == s.consumed && t.chunkIndex == s.chunkIndex
    ensures Completed(s) == Completed(t)
  {
  }

  /**
   Queueing a response keeps the invariant if it is the one that was held and the text before a
   finish is complete.
   */
  lemma PushKeepsChannel(s: State, r: Response, next: Producer)
    requires ChannelInv(s) && s.open && |s.queue| < CAPACITY
    requires r.tokens == if r.finish.None? then 1 else 0
    requires r.finish.None? ==> NoFinish(s.pushed)
    ensures ChannelInv(Push(s, r, next))
  {
    hide Tokens;
    var t := Push(s, r, next);
    assert t.pushed == t.consumed + t.queue + t.dropped;
  }

  lemma PushKeepsText(s: State, r: Response, next: Producer)
    requires TextInv(s) && s.open
    requires r.finish.Some? && NoFinish(s.pushed) ==> s.accumulated == TextOf(s.pushed)
    requires next.Pulling? ==> s.accumulated == TextOf(s.pushed) + r.content
    requires next.Exited? || next.SendingFinal? ==> r.finish.Some?
    requires !next.SendingToken? && !next.SendingError?
    ensures TextInv(Push(s, r, next))
  {
    hide TextOf;
    var t := Push(s, r, next);
    TokensSnoc(s.pushed, r);
    assert t.pushed[|s.pushed|] == r;
    forall i | 0 <= i < |t.pushed| && t.pushed[i].finish.Some? && NoFinish(t.pushed[..i])
      ensures t.accumulated == TextOf(t.pushed[..i])
    {
      assert t.pushed[..i] == s.pushed[..i];
      assert s.pushed[..|s.pushed|] == s.pushed;
    }
  }

  lemma SendKeeps(s: State)
    requires Inv(s)
    ensures Inv(SendStep(s))
  {
    hide Tokens, TextOf, ChannelInv, TextInv;
    if s.open && |s.queue| < CAPACITY && !s.producer.Pulling? && !s.producer.Exited? {
      var r := if s.producer.SendingFinal? then STOP else s.producer.held;
      var next := if s.producer.SendingToken? then Pulling else if s.producer.SendingError? then SendingFinal
          else Exited;
      TokensSnoc(s.pushed, r);
      PushKeepsChannel(s, r, next);
      HeldText(s, r);
      PushKeepsText(s, r, next);
    } else {
      UnsentKeeps(s);
    }
  }

  lemma HeldText(s: State, r: Response)
    requires TextInv(s) && s.open
    requires s.producer.SendingToken? || s.producer.SendingError? || s.producer.SendingFinal?
    requires r == if s.producer.SendingFinal? then STOP else s.producer.held
    ensures !s.producer.SendingToken? && NoFinish(s.pushed) ==> s.accumulated == TextOf(s.pushed)
    ensures s.producer.SendingToken? ==> s.accumulated == TextOf(s.pushed) + r.content
  {
  }

  lemma UnsentKeeps(s: State)
    requires ChannelInv(s) && TextInv(s)
    requires s.producer.Pulling? || s.producer.Exited? || !s.open || |s.queue| >= CAPACITY
    ensures ChannelInv(SendStep(s)) && TextInv(SendStep(s))
  {
    hide Tokens, TextOf;
  }

  // ---------------------------------------------------------------- the loop keeps it

  /** What one reception does to the channel: the head is consumed, and the rest stays queued or is dropped. */
  lemma ReceiveMoves(s: State, step: Step)
    requires s.queue != [] && s.open && step.Receive? && s.dropped == []
    ensures var r, t := s.queue[0], ReceiveStep(s, step);
            && t == s.(queue := t.queue, consumed := t.consumed, dropped := t.dropped, open := t.open,
                       clientTokens := t.clientTokens, chunkIndex := t.chunkIndex, sent := t.sent)
            && t.consumed == s.consumed + [r] && t.clientTokens == s.clientTokens + r.tokens
            && t.queue + t.dropped == s.queue[1..]
            && (t.open ==> r.finish.None? && t.dropped == []) && (!t.open ==> t.queue == [])
  {
  }

  lemma ReceiveKeepsChannel(s: State, step: Step)
    requires ChannelInv(s) && s.open && s.queue != [] && step.Receive?
    ensures ChannelInv(ReceiveStep(s, step))
  {
    hide Tokens, ReceiveStep;
    var r, t := s.queue[0], ReceiveStep(s, step);
    ReceiveMoves(s, step);
    TokensSnoc(s.consumed, r);
    assert s.pushed == t.consumed + t.queue + t.dropped by {
      assert s.queue == [r] + s.queue[1..];
      assert t.consumed + t.queue + t.dropped == s.consumed + ([r] + (t.queue + t.dropped));
    }
  }

  lemma ReceiveKeepsOthers(s: State, step: Step)
    requires BillingInv(s) && TextInv(s) && s.open && s.queue != [] && step.Receive? && s.dropped == []
    ensures BillingInv(ReceiveStep(s, step)) && TextInv(ReceiveStep(s, step))
  {
    hide Tokens, TextOf, ReceiveStep, NoFinish;
    ReceiveMoves(s, step);
  }

  /** The messages after a chunk: never a chunk, a stream end only as the last, and "complete" only after a finish. */
  lemma TailShape(mode: Mode, r: Response, total: nat, step: Step)
    requires step.Receive?
    ensures var h := Handle(mode, r, total, step);
            && |h.tail| <= 2 && (!h.ends ==> h.delivered && h.tail == [])
            && (forall m :: m in h.tail ==> !m.EncryptedChunk? && !m.PlainChunk?)
            && (forall i :: 0 <= i < |h.tail| && h.tail[i].StreamEnd? ==>
                i == |h.tail| - 1 && h.tail[i].tokensUsed == total)
            && (forall m :: m in h.tail && m.StreamEnd? && m.reason == Complete ==> h.delivered && r.finish.Some?)
  {
  }

  lemma ReceiveKeepsSent(s: State, step: Step)
    requires SentInv(s) && s.open && s.queue != [] && step.Receive? && NoFinish(s.consumed)
    ensures SentInv(ReceiveStep(s, step))
  {
    hide Handle, MakeChunk, NoFinish, Completed;
    var r, t := s.queue[0], ReceiveStep(s, step);
    var h := Handle(s.mode, r, t.clientTokens, step);
    TailShape(s.mode, r, t.clientTokens, step);
    if h.delivered && r.finish.Some? {
      ConsumedLast(s, t, r);
    }
    hide ReceiveStep;
    SentExtends(s, t, r, h);
  }

  lemma SentExtends(s: State, t: State, r: Response, h: Handling)
    requires SentInv(s) && s.open && t.mode == s.mode && t.consumed == s.consumed + [r]
          && (t.open ==> h.tail == [] && h.delivered)
    requires t.chunkIndex == s.chunkIndex + if h.delivered then 1 else 0
    requires t.sent == s.sent + (if h.delivered then [MakeChunk(s.mode, s.chunkIndex, r)] else []) + h.tail
    requires |h.tail| <= 2 && forall m :: m in h.tail ==> !m.EncryptedChunk? && !m.PlainChunk?
    requires forall i :: 0 <= i < |h.tail| && h.tail[i].StreamEnd? ==>
            i == |h.tail| - 1 && h.tail[i].tokensUsed == t.clientTokens
    requires forall m :: m in h.tail && m.StreamEnd? && m.reason == Complete ==> Completed(t)
    ensures SentInv(t)
  {
    hide MakeChunk, Completed;
    forall i | t.chunkIndex <= i < |t.sent|
      ensures t.sent[i] == h.tail[i - t.chunkIndex] && t.sent[i] in h.tail
    {
    }
  }

  lemma ConsumedLast(s: State, t: State, r: Response)
    requires NoFinish(s.consumed) && r.finish.Some? && t.consumed == s.consumed + [r] && t.chunkIndex == |t.consumed|
    ensures Completed(t)
  {
    assert t.consumed[..|s.consumed|] == s.consumed;
  }

  lemma StopKeeps(s: State, arrives: bool, m: WsMessage)
    requires Inv(s) && s.open
    requires m == StreamEnd(Cancelled, s.clientTokens)
    ensures Inv(Stop(Tell(s, arrives, m)))
  {
    hide Tokens, TextOf;
    var t := Stop(Tell(s, arrives, m));
    assert t.pushed == t.consumed + t.queue + t.dropped;
  }

  lemma SilentStopKeeps(s: State)
    requires Inv(s) && s.open
    ensures Inv(Stop(s))
  {
    hide Inv;
    var m := StreamEnd(Cancelled, s.clientTokens);
    StopKeeps(s, false, m);
    assert Tell(s, false, m) == s;
  }

  lemma {:induction false} NextKeeps(s: State, step: Step)
    requires Inv(s)
    ensures Inv(Next(s, step))
  {
    hide Tokens, TextOf, Inv;
    match step
    case PullToken(text) =>
      if s.producer.Pulling? { PullKeeps(s, text); }
    case Send =>
      SendKeeps(s);
    case Receive(_, _, _, _, _, _) =>
      if s.open && s.queue != [] {
        hide *;
        ReceiveCase(s, step);
      }
    case ClientCancels(arrives) =>
      if s.open { StopKeeps(s, arrives, StreamEnd(Cancelled, s.clientTokens)); }
    case ClientCloses =>
      if s.open { SilentStopKeeps(s); }
    case ReceiveClosed =>
      if s.open { SilentStopKeeps(s); }
    case PullError(_) => PullStops(s, step);
    case PullEnd => PullStops(s, step);
    case ClientSendsOther =>
  }

  lemma PullStops(s: State, step: Step)
    requires Inv(s) && (step.PullError? || step.PullEnd?)
    ensures Inv(Next(s, step))
  {
    hide Tokens, TextOf;
  }

  lemma ReceiveCase(s: State, step: Step)
    requires Inv(s) && s.open && s.queue != [] && step.Receive?
    ensures Inv(Next(s, step))
  {
    hide Tokens, TextOf, BillingInv, TextInv, SentInv, ReceiveStep;
    ReceiveKeepsChannel(s, step);
    ReceiveKeepsOthers(s, step);
    ReceiveKeepsSent(s, step);
  }

  /** Safety of every interleaving: the invariant holds after any run. */
  lemma {:induction false} EveryRunIsSafe(mode: Mode, hasJob: bool, steps: seq<Step>)
    ensures var s := Run(Init(mode, hasJob), steps); Inv(s) && s.mode == mode && s.hasJob == hasJob
    decreases |steps|
  {
    hide Inv, Next;
    if steps == [] {
      InitIsSafe(mode, hasJob);
    } else {
      var prefix := steps[..|steps| - 1];
      EveryRunIsSafe(mode, hasJob, prefix);
      NextKeeps(Run(Init(mode, hasJob), prefix), steps[|steps| - 1]);
      NextKeepsRequest(Run(Init(mode, hasJob), prefix), steps[|steps| - 1]);
    }
  }

  lemma NextKeepsRequest(s: State, step: Step)
    ensures Next(s, step).mode == s.mode && Next(s, step).hasJob == s.hasJob
  {
    hide Handle;
  }

  lemma InitIsSafe(mode: Mode, hasJob: bool)
    ensures Inv(Init(mode, hasJob))
  {
  }

  // ---------------------------------------------------------------- what the client and the biller can rely on

  /** At every moment of every run the bill is ahead of the client's count by at most the channel and one token. */
  lemma BillIsAheadByAtMost101(mode: Mode, hasJob: bool, steps: seq<Step>)
    ensures var s := Run(Init(mode, hasJob), steps);
            if hasJob then 0 <= s.billed - s.clientTokens <= 101 else s.billed == 0
  {
    hide Run, Tokens, TextInv, SentInv, NoFinish, ChannelInv;
    EveryRunIsSafe(mode, hasJob, steps);
    ChannelHolds(Run(Init(mode, hasJob), steps));
  }

  /** What was pushed and has not reached the client is at most the channel. */
  lemma ChannelHolds(s: State)
    requires ChannelInv(s)
    ensures s.clientTokens <= Tokens(s.pushed) <= s.clientTokens + CAPACITY
  {
    hide Tokens, NoFinish;
    TokensAppend(s.consumed, s.queue);
    TokensAppend(s.consumed + s.queue, s.dropped);
    UnitTokens(s.pushed, s.consumed, s.queue, s.dropped);
    TokensBounded(s.queue);
    TokensBounded(s.dropped);
  }

  lemma UnitTokens(all: seq<Response>, a: seq<Response>, b: seq<Response>, c: seq<Response>)
    requires all == a + b + c && forall i :: 0 <= i < |all| ==> all[i].tokens <= 1
    ensures forall i :: 0 <= i < |b| ==> b[i].tokens <= 1
    ensures forall i :: 0 <= i < |c| ==> c[i].tokens <= 1
  {
    assert forall i :: 0 <= i < |b| ==> b[i] == all[|a| + i];
    assert forall i :: 0 <= i < |c| ==> c[i] == all[|a| + |b| + i];
  }

  /** The message is the chunk with this number for this response: its text, its tokens and whether it is the last. */
  ghost predicate IsChunkOf(m: WsMessage, mode: Mode, index: nat, r: Response) {
    if mode == Encrypted then
      && m.EncryptedChunk? && m.index == index && m.content == r.content && m.tokens == r.tokens
      && (m.final <==> r.finish.Some?)
    else m.PlainChunk? && m.content == r.content && m.tokens == r.tokens
  }

  /**
   Message order: numbered chunks carrying the pushed responses in order, then at most one stream
   end, which is last.
   */
  lemma SentInOrder(mode: Mode, hasJob: bool, steps: seq<Step>)
    ensures var s := Run(Init(mode, hasJob), steps);
            && s.chunkIndex <= |s.sent| && s.chunkIndex <= |s.pushed|
            && (forall i :: 0 <= i < s.chunkIndex ==> IsChunkOf(s.sent[i], mode, i, s.pushed[i]))
            && (forall i :: s.chunkIndex <= i < |s.sent| ==> !s.sent[i].EncryptedChunk? && !s.sent[i].PlainChunk?)
            && (forall i :: 0 <= i < |s.sent| && s.sent[i].StreamEnd? ==> i == |s.sent| - 1)
            && (forall i :: 0 <= i < |s.sent| && s.sent[i].StreamEnd? ==> s.sent[i].tokensUsed == s.clientTokens)
            && s.clientTokens == Tokens(s.consumed) && s.consumed <= s.pushed
  {
    hide Run, Tokens, BillingInv, TextInv;
    var s := Run(Init(mode, hasJob), steps);
    EveryRunIsSafe(mode, hasJob, steps);
    assert forall i :: 0 <= i < |s.consumed| ==> s.consumed[i] == s.pushed[i];
  }

  /** The texts of the chunks among the messages, joined. */
  function SentText(sent: seq<WsMessage>): string {
    if sent == [] then ""
    else
      var m := sent[|sent| - 1];
      SentText(sent[..|sent| - 1]) + if m.EncryptedChunk? || m.PlainChunk? then m.content else ""
  }

  lemma {:induction false} SentTextIs(sent: seq<WsMessage>, mode: Mode, rs: seq<Response>)
    requires |rs| <= |sent| && forall i :: 0 <= i < |rs| ==> IsChunkOf(sent[i], mode, i, rs[i])
    requires forall i :: |rs| <= i < |sent| ==> !sent[i].EncryptedChunk? && !sent[i].PlainChunk?
    ensures SentText(sent) == TextOf(rs)
    decreases |sent|
  {
    if sent != [] {
      var n := |sent| - 1;
      if |rs| <= n {
        SentTextIs(sent[..n], mode, rs);
      } else {
        assert IsChunkOf(sent[n], mode, n, rs[n]);
        SentTextIs(sent[..n], mode, rs[..n]);
      }
    }
  }

  /** A "complete" end names exactly the tokens billed, and the chunks before it spell out the whole generated text. */
  lemma CompleteEndIsExact(mode: Mode, hasJob: bool, steps: seq<Step>)
    requires var s := Run(Init(mode, hasJob), steps);
             |s.sent| > 0 && s.sent[|s.sent| - 1].StreamEnd? && s.sent[|s.sent| - 1].reason == Complete
    ensures var s := Run(Init(mode, hasJob), steps);
            var n := s.chunkIndex;
            && (hasJob ==> s.sent[|s.sent| - 1].tokensUsed == s.billed)
            && 0 < n <= |s.pushed| && s.pushed[n - 1].finish.Some? && NoFinish(s.pushed[..n - 1])
            && SentText(s.sent) == s.accumulated + s.pushed[n - 1].content
  {
    hide Run, Tokens, TextOf;
    var s := Run(Init(mode, hasJob), steps);
    EveryRunIsSafe(mode, hasJob, steps);
    CompletedIsExact(s);
    SentInOrder(mode, hasJob, steps);
    var n := |s.consumed|;
    assert s.pushed[..n] == s.consumed;
    assert s.pushed[..n - 1] == s.consumed[..n - 1];
    SentTextIs(s.sent, mode, s.consumed);
  }

  // ---------------------------------------------------------------- what the steps put in

  /** The texts taken from the token stream. */
  function Pulled(s: State, steps: seq<Step>): seq<string> {
    if steps == [] then []
    else
      var before, step := steps[..|steps| - 1], steps[|steps| - 1];
      Pulled(s, before) + if step.PullToken? && Run(s, before).producer.Pulling? then [step.text] else []
  }

  function Joined(texts: seq<string>): string {
    if texts == [] then "" else Joined(texts[..|texts| - 1]) + texts[|texts| - 1]
  }

  /** How many of the texts are tokens to bill: the first, and every one that is not empty. */
  function Billable(texts: seq<string>): nat {
    if texts == [] then 0
    else Billable(texts[..|texts| - 1]) + if |texts| == 1 || texts[|texts| - 1] != "" then 1 else 0
  }

  /** In every run the generated text is what was pulled, and each of its tokens is billed once if there is a job id. */
  lemma {:induction false} BillIsWhatWasPulled(mode: Mode, hasJob: bool, steps: seq<Step>)
    ensures var s, texts := Run(Init(mode, hasJob), steps), Pulled(Init(mode, hasJob), steps);
            && s.accumulated == Joined(texts) && s.totalTokens == |texts| && s.hasJob == hasJob
            && s.billed == if hasJob then Billable(texts) else 0
    decreases |steps|
  {
    hide Next;
    if steps != [] {
      var before, step := steps[..|steps| - 1], steps[|steps| - 1];
      BillIsWhatWasPulled(mode, hasJob, before);
      NextPulls(Run(Init(mode, hasJob), before), step, Pulled(Init(mode, hasJob), before));
    }
  }

  lemma NextPulls(s: State, step: Step, texts: seq<string>)
    requires s.accumulated == Joined(texts) && s.totalTokens == |texts|
    requires s.billed == if s.hasJob then Billable(texts) else 0
    ensures var t := Next(s, step);
            var now := texts + if step.PullToken? && s.producer.Pulling? then [step.text] else [];
            && t.accumulated == Joined(now) && t.totalTokens == |now| && t.hasJob == s.hasJob
            && t.billed == if s.hasJob then Billable(now) else 0
  {
    hide Handle;
    if step.PullToken? && s.producer.Pulling? {
      assert (texts + [step.text])[..|texts|] == texts;
    } else {
      assert texts + [] == texts;
    }
  }

  /** The messages of the errors taken from the token stream. */
  function Failures(s: State, steps: seq<Step>): seq<string> {
    if steps == [] then []
    else
      var before, step := steps[..|steps| - 1], steps[|steps| - 1];
      Failures(s, before) + if step.PullError? && Run(s, before).producer.Pulling? then [step.message] else []
  }

  /** A finishing response says "stop" and nothing else, or carries one of the errors. */
  ghost predicate IsFinish(r: Response, failures: seq<string>) {
    || r == Response("", 0, Some("stop"))
    || exists i :: 0 <= i < |failures| && r == Response("Error: " + failures[i], 0, Some("error"))
  }

  ghost predicate FinishInv(s: State, failures: seq<string>) {
    && (s.producer.SendingError? ==> IsFinish(s.producer.held, failures) && s.producer.held.finish == Some("error"))
    && (s.producer.SendingToken? ==> s.producer.held.finish.None?)
    && (forall i :: 0 <= i < |s.pushed| && s.pushed[i].finish.Some? ==> IsFinish(s.pushed[i], failures))
  }

  lemma NextFinishes(s: State, step: Step, failures: seq<string>)
    requires FinishInv(s, failures)
    ensures FinishInv(Next(s, step), failures + if step.PullError? && s.producer.Pulling? then [step.message] else [])
  {
    hide Handle, IsFinish;
    var more := failures + if step.PullError? && s.producer.Pulling? then [step.message] else [];
    forall r | IsFinish(r, failures)
      ensures IsFinish(r, more)
    {
      FinishStays(r, failures, more);
    }
    StopIsFinish(more);
    if step.PullError? && s.producer.Pulling? { ErrorIsFinish(failures, step.message); }
  }

  lemma FinishStays(r: Response, failures: seq<string>, more: seq<string>)
    requires IsFinish(r, failures) && failures <= more
    ensures IsFinish(r, more)
  {
    if r != Response("", 0, Some("stop")) {
      var i :| 0 <= i < |failures| && r == Response("Error: " + failures[i], 0, Some("error"));
      assert more[i] == failures[i];
    }
  }

  lemma StopIsFinish(failures: seq<string>)
    ensures IsFinish(STOP, failures)
  {
  }

  lemma ErrorIsFinish(failures: seq<string>, message: string)
    ensures IsFinish(Response("Error: " + message, 0, Some("error")), failures + [message])
  {
    assert (failures + [message])[|failures|] == message;
  }

  /** In every run the finishing responses say "stop", or carry an error that the token stream gave. */
  lemma {:induction false} FinishesAreStopsOrErrors(mode: Mode, hasJob: bool, steps: seq<Step>)
    ensures FinishInv(Run(Init(mode, hasJob), steps), Failures(Init(mode, hasJob), steps))
    decreases |steps|
  {
    hide Next, FinishInv;
    if steps == [] {
      NothingFinished(mode, hasJob);
    } else {
      var before := steps[..|steps| - 1];
      FinishesAreStopsOrErrors(mode, hasJob, before);
      NextFinishes(Run(Init(mode, hasJob), before), steps[|steps| - 1], Failures(Init(mode, hasJob), before));
    }
  }

  lemma NothingFinished(mode: Mode, hasJob: bool)
    ensures FinishInv(Init(mode, hasJob), [])
  {
  }

  /** The chunk of this response goes out. */
  predicate Delivers(s: State, step: Step) {
    step.Receive? && s.open && s.queue != [] && (s.mode == Plaintext || step.encrypts) && step.chunkArrives
  }

  /** Its last response goes out whole, so that the stream is complete. */
  predicate Finishes(s: State, step: Step) {
    && Delivers(s, step) && s.queue[0].finish.Some?
    && (s.mode == Plaintext || (step.finalEncrypts && step.finalArrives))
  }

  /** A response that cannot be encrypted: nothing but an error and a failed end goes out. */
  predicate Breaks(s: State, step: Step) {
    step.Receive? && s.open && s.queue != [] && s.mode == Encrypted && !step.encrypts
  }

  /** What each step sends after the chunk, if any: the end of a stream and its reason. */
  lemma EndsHaveReasons(s: State, step: Step)
    requires s.open && step.Receive? && s.queue != []
    ensures var sent, t := s.sent, Next(s, step);
            var r, told := s.queue[0], s.clientTokens + s.queue[0].tokens;
            var end := if step.endArrives then [StreamEnd(if Finishes(s, step) then Complete else Failed, told)]
                else [];
            if Breaks(s, step) then t.sent == sent + (if step.errorArrives then [ErrorMessage] else []) + end
            else if !Delivers(s, step) then t.sent == sent
            else
              && |t.sent| > |sent| && t.sent[..|sent|] == sent
              && t.sent[|sent| + 1..] ==
                 if !Finishes(s, step) then []
                 else (if s.mode == Encrypted then [EncryptedResponse(r.finish.value)] else []) + end
  {
  }

  /**
   A cancelled stream says so, with the client's count, and nothing else is sent by the client's or
   the forwarder's steps.
   */
  lemma OtherStepsSend(s: State, step: Step)
    requires !(step.Receive? && s.open && s.queue != [])
    ensures Next(s, step).sent
         == s.sent + if s.open && step == ClientCancels(true) then [StreamEnd(Cancelled, s.clientTokens)] else []
  {
    hide Handle;
  }

  /** The loop is left by a cancel, a close, the end of the channel, or a response that is the last or cannot go out. */
  lemma LoopEndsWhen(s: State, step: Step)
    ensures var ends :=
              || step.ClientCancels? || step.ClientCloses?
              || (step.ReceiveClosed? && s.queue == [] && s.producer.Exited?)
              || (step.Receive? && s.queue != [] && !(Delivers(s, step) && s.queue[0].finish.None?));
            Next(s, step).open <==> s.open && !ends
  {
  }

  lemma CompletedIsExact(s: State)
    requires Inv(s) && Completed(s)
    ensures var n := |s.consumed|;
            && (s.hasJob ==> s.clientTokens == s.billed)
            && TextOf(s.consumed) == s.accumulated + s.consumed[n - 1].content
  {
    hide Tokens, TextOf, SentInv;
    var n := |s.consumed|;
    var rest := s.queue + s.dropped;
    assert s.pushed == s.consumed + rest;
    TokensAppend(s.consumed, rest);
    assert s.pushed[n - 1] == s.consumed[n - 1];
    forall i | 0 <= i < |rest|
      ensures rest[i].tokens == 0
    {
      assert rest[i] == s.pushed[n + i];
    }
    NoTokens(rest);
    assert s.pushed[..n - 1] == s.consumed[..n - 1];
    assert s.consumed == s.consumed[..n - 1] + [s.consumed[n - 1]];
    TokensSnoc(s.consumed[..n - 1], s.consumed[n - 1]);
    assert !NoFinish(s.pushed);
  }

  /** Whatever ended the stream, the bill and the count in its end message differ by 0 to 101. */
  lemma EndIsWithin101(mode: Mode, steps: seq<Step>)
    requires var s := Run(Init(mode, true), steps); |s.sent| > 0 && s.sent[|s.sent| - 1].StreamEnd?
    ensures var s := Run(Init(mode, true), steps); 0 <= s.billed - s.sent[|s.sent| - 1].tokensUsed <= 101
  {
    hide Run;
    BillIsAheadByAtMost101(mode, true, steps);
    SentInOrder(mode, true, steps);
  }

  // ---------------------------------------------------------------- the bound is reached

  lemma RunSnoc(s: State, steps: seq<Step>, step: Step)
    ensures Run(s, steps + [step]) == Next(Run(s, steps), step)
  {
    assert (steps + [step])[..|steps|] == steps;
  }

  function FillSteps(n: nat): seq<Step> {
    if n == 0 then [] else FillSteps(n - 1) + [PullToken("a")] + [Send]
  }

  lemma {:induction false} Fill(mode: Mode, n: nat)
    requires n <= CAPACITY
    ensures var s := Run(Init(mode, true), FillSteps(n));
            s.producer.Pulling? && s.open && s.hasJob && s.billed == |s.queue| == n && s.clientTokens == 0 && s.sent
                == []
  {
    hide Run;
    if n == 0 {
      RunOfNothing(Init(mode, true));
    } else {
      Fill(mode, n - 1);
      RunSnoc(Init(mode, true), FillSteps(n - 1), PullToken("a"));
      RunSnoc(Init(mode, true), FillSteps(n - 1) + [PullToken("a")], Send);
    }
  }

  lemma RunOfNothing(s: State)
    ensures Run(s, []) == s
  {
  }

  /** A client that cancels before reading anything can be billed 101 tokens and told 0. */
  lemma BoundIsReached(mode: Mode)
    ensures exists steps ::
            var s := Run(Init(mode, true), steps); s.billed == 101 && s.sent == [StreamEnd(Cancelled, 0)]
  {
    hide Run, FillSteps;
    Fill(mode, CAPACITY);
    var filled := FillSteps(CAPACITY);
    var pulled := filled + [PullToken("a")];
    RunSnoc(Init(mode, true), filled, PullToken("a"));
    RunSnoc(Init(mode, true), pulled, ClientCancels(true));
    var s := Run(Init(mode, true), pulled + [ClientCancels(true)]);
    assert s.billed == 101 && s.sent == [StreamEnd(Cancelled, 0)];
  }
}
