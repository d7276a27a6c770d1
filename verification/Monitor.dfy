/**
 Event polling (src/contracts/monitor.rs): a block cursor, and a poll that sends the events of the
 blocks after it and only then moves it. The chain is append-only, so a block's logs are a
 function of its number; the head a poll is told may be any. The receiver stays open.
 */
module Monitor {
  /** A log that parses to an event, one of no interest, and one whose parsing fails. */
  datatype Log = Event(payload: string) | Ignored | Malformed

  type Chain = nat -> seq<Log>

  datatype Poll =
    | SimulatedError
    | HeadUnavailable
    | LogsUnavailable(head: nat)
    | Answered(head: nat)

  datatype State = State(cursor: nat, delivered: seq<string>, eventsProcessed: nat, retryCount: nat, errorCount: nat)

  function Start(block: nat): State { State(block, [], 0, 0, 0) }

  /** The logs of the blocks after `from`, up to `to`. */
  function LogsIn(chain: Chain, from: nat, to: nat): seq<Log> {
    if to <= from then [] else LogsIn(chain, from, to - 1) + chain(to)
  }

  /** The events that parse, in order. */
  function Events(logs: seq<Log>): seq<string> {
    if logs == [] then []
    else
      var last := logs[|logs| - 1];
      Events(logs[..|logs| - 1]) + if last.Event? then [last.payload] else []
  }

  function EventsIn(chain: Chain, from: nat, to: nat): seq<string> {
    Events(LogsIn(chain, from, to))
  }

  /** How many logs parse before the first that does not. */
  function ParsedPrefix(logs: seq<Log>): (n: nat)
    ensures n <= |logs| && (n < |logs| ==> logs[n].Malformed?) && forall i :: 0 <= i < n ==> !logs[i].Malformed?
  {
    if logs == [] || logs[0].Malformed? then 0 else 1 + ParsedPrefix(logs[1..])
  }

  predicate AllParse(logs: seq<Log>) { Malformed !in logs }

  /** What a poll finds to look at. */
  function Fetched(chain: Chain, s: State, poll: Poll): seq<Log> {
    if poll.Answered? && poll.head > s.cursor then LogsIn(chain, s.cursor, poll.head) else []
  }

  predicate Fails(chain: Chain, s: State, poll: Poll) {
    match poll
    case SimulatedError => true
    case HeadUnavailable => true
    case LogsUnavailable(head) => head > s.cursor
    case Answered(_) => !AllParse(Fetched(chain, s, poll))
  }

  function Sent(chain: Chain, s: State, poll: Poll): seq<string> {
    var logs := Fetched(chain, s, poll);
    Events(logs[..ParsedPrefix(logs)])
  }

  /** The state after one turn of the monitoring loop. */
  function Next(chain: Chain, s: State, poll: Poll): State {
    var sent := Sent(chain, s, poll);
    State(
      if poll.Answered? && poll.head > s.cursor && !Fails(chain, s, poll) then poll.head else s.cursor,
      s.delivered + sent,
      s.eventsProcessed + |sent|,
      s.retryCount + (if poll.SimulatedError? then 1 else 0),
      s.errorCount + (if Fails(chain, s, poll) then 1 else 0))
  }

  function Run(chain: Chain, s: State, polls: seq<Poll>): State {
    if polls == [] then s else Next(chain, Run(chain, s, polls[..|polls| - 1]), polls[|polls| - 1])
  }

  /** How many events the run sent in polls that then failed. */
  function SentInVain(chain: Chain, s: State, polls: seq<Poll>): nat {
    if polls == [] then 0
    else
      var before, poll := polls[..|polls| - 1], polls[|polls| - 1];
      SentInVain(chain, s, before) +
      if Fails(chain, Run(chain, s, before), poll) then |Sent(chain, Run(chain, s, before), poll)| else 0
  }

  // ---------------------------------------------------------------- subsequences

  predicate IsSubsequence(a: seq<string>, b: seq<string>) {
    a == [] ||
    (b != [] &&
     ((a[|a| - 1] == b[|b| - 1] && IsSubsequence(a[..|a| - 1], b[..|b| - 1])) || IsSubsequence(a, b[..|b| - 1])))
  }

  /** What it means: the elements of `a` stand in `b` at rising positions. */
  ghost predicate StandsAt(a: seq<string>, b: seq<string>, at: seq<nat>) {
    && |at| == |a| && (forall i :: 0 <= i < |a| ==> at[i] < |b| && b[at[i]] == a[i])
    && (forall i, j :: 0 <= i < j < |a| ==> at[i] < at[j])
  }

  lemma {:induction false} SubsequenceStands(a: seq<string>, b: seq<string>) returns (at: seq<nat>)
    requires IsSubsequence(a, b)
    ensures StandsAt(a, b, at)
    decreases |b|
  {
    if a == [] {
      at := [];
    } else {
      var m, n := |a| - 1, |b| - 1;
      if a[m] == b[n] && IsSubsequence(a[..m], b[..n]) {
        var before := SubsequenceStands(a[..m], b[..n]);
        at := before + [n];
      } else {
        at := SubsequenceStands(a, b[..n]);
      }
    }
  }

  lemma {:induction false} SubsequenceOfLonger(a: seq<string>, b: seq<string>, c: seq<string>)
    requires IsSubsequence(a, b)
    ensures IsSubsequence(a, b + c)
  {
    if c == [] {
      assert b + c == b;
    } else {
      SubsequenceOfLonger(a, b, c[..|c| - 1]);
      assert (b + c)[..|b + c| - 1] == b + c[..|c| - 1];
    }
  }

  lemma {:induction false} SubsequenceExtends(a: seq<string>, b: seq<string>, c: seq<string>)
    requires IsSubsequence(a, b)
    ensures IsSubsequence(a + c, b + c)
  {
    if c == [] {
      assert a + c == a && b + c == b;
    } else {
      SubsequenceExtends(a, b, c[..|c| - 1]);
      assert (a + c)[..|a + c| - 1] == a + c[..|c| - 1];
      assert (b + c)[..|b + c| - 1] == b + c[..|c| - 1];
    }
  }

  // ---------------------------------------------------------------- logs and events

  lemma {:induction false} LogsSplit(chain: Chain, from: nat, mid: nat, to: nat)
    requires from <= mid <= to
    ensures LogsIn(chain, from, to) == LogsIn(chain, from, mid) + LogsIn(chain, mid, to)
  {
    if mid < to {
      LogsSplit(chain, from, mid, to - 1);
    }
  }

  lemma {:induction false} EventsSplit(xs: seq<Log>, ys: seq<Log>)
    ensures Events(xs + ys) == Events(xs) + Events(ys)
  {
    if ys == [] {
      assert xs + ys == xs;
    } else {
      EventsSplit(xs, ys[..|ys| - 1]);
      assert (xs + ys)[..|xs + ys| - 1] == xs + ys[..|ys| - 1];
    }
  }

  lemma NextEvent(logs: seq<Log>, i: nat)
    requires i < |logs|
    ensures Events(logs[..i + 1]) == Events(logs[..i]) + if logs[i].Event? then [logs[i].payload] else []
  {
    assert logs[..i + 1][..i] == logs[..i];
  }

  lemma EventsInSplit(chain: Chain, from: nat, mid: nat, to: nat)
    requires from <= mid <= to
    ensures EventsIn(chain, from, to) == EventsIn(chain, from, mid) + EventsIn(chain, mid, to)
  {
    LogsSplit(chain, from, mid, to);
    EventsSplit(LogsIn(chain, from, mid), LogsIn(chain, mid, to));
  }

  lemma {:induction false} LogInBlock(chain: Chain, from: nat, to: nat, log: Log)
    ensures log in LogsIn(chain, from, to) <==> exists b: nat :: from < b <= to && log in chain(b)
  {
    if to > from {
      LogInBlock(chain, from, to - 1, log);
    }
  }

  /** A poll that does not fail sends exactly the events between the old cursor and the new. */
  lemma GoodPollSendsAll(chain: Chain, s: State, poll: Poll)
    requires !Fails(chain, s, poll)
    ensures s.cursor <= Next(chain, s, poll).cursor
    ensures Sent(chain, s, poll) == EventsIn(chain, s.cursor, Next(chain, s, poll).cursor)
  {
    hide Events, LogsIn;
    var logs := Fetched(chain, s, poll);
    assert ParsedPrefix(logs) == |logs|;
    assert logs[..|logs|] == logs;
    NoLogs(chain, s.cursor);
  }

  lemma NoLogs(chain: Chain, block: nat)
    ensures LogsIn(chain, block, block) == [] && Events([]) == []
  {
  }

  // ---------------------------------------------------------------- delivery

  /**
   What every run keeps: the events behind the cursor were delivered, in order, and the rest of the
   count is repeats.
   */
  ghost predicate Delivers(chain: Chain, from: nat, s: State, vain: nat) {
    && from <= s.cursor
    && IsSubsequence(EventsIn(chain, from, s.cursor), s.delivered)
    && |s.delivered| == |EventsIn(chain, from, s.cursor)| + vain
    && (vain == 0 ==> s.delivered == EventsIn(chain, from, s.cursor))
    && s.eventsProcessed == |s.delivered|
    && Malformed !in LogsIn(chain, from, s.cursor)
  }

  lemma NextDelivers(chain: Chain, from: nat, s: State, poll: Poll, vain: nat)
    requires Delivers(chain, from, s, vain)
    ensures Delivers(chain, from, Next(chain, s, poll),
                     vain + if Fails(chain, s, poll) then |Sent(chain, s, poll)| else 0)
  {
    hide Events, LogsIn, IsSubsequence, Fetched;
    var sent := Sent(chain, s, poll);
    if Fails(chain, s, poll) {
      SubsequenceOfLonger(EventsIn(chain, from, s.cursor), s.delivered, sent);
    } else {
      var to := Next(chain, s, poll).cursor;
      GoodPollSendsAll(chain, s, poll);
      EventsInSplit(chain, from, s.cursor, to);
      SubsequenceExtends(EventsIn(chain, from, s.cursor), s.delivered, sent);
      LogsSplit(chain, from, s.cursor, to);
      GoodPollParses(chain, s, poll);
    }
  }

  lemma GoodPollParses(chain: Chain, s: State, poll: Poll)
    requires !Fails(chain, s, poll)
    ensures Malformed !in LogsIn(chain, s.cursor, Next(chain, s, poll).cursor)
  {
  }

  lemma {:induction false} EveryRunDelivers(chain: Chain, from: nat, polls: seq<Poll>)
    ensures Delivers(chain, from, Run(chain, Start(from), polls), SentInVain(chain, Start(from), polls))
  {
    hide Delivers, Next, Fails, Sent;
    if polls == [] {
      StartDelivers(chain, from);
    } else {
      var before := polls[..|polls| - 1];
      EveryRunDelivers(chain, from, before);
      NextDelivers(chain, from, Run(chain, Start(from), before), polls[|polls| - 1],
          SentInVain(chain, Start(from), before));
    }
  }

  lemma StartDelivers(chain: Chain, from: nat)
    ensures Delivers(chain, from, Start(from), 0)
  {
  }

  /**
   At least once: whatever the polls, every event of the blocks behind the cursor has been
   delivered, in chain order; every delivery beyond those is one of a poll that then failed.
   */
  lemma AtLeastOnce(chain: Chain, from: nat, polls: seq<Poll>) returns (at: seq<nat>)
    ensures var s := Run(chain, Start(from), polls);
      && StandsAt(EventsIn(chain, from, s.cursor), s.delivered, at)
      && |s.delivered| == |EventsIn(chain, from, s.cursor)| + SentInVain(chain, Start(from), polls)
      && s.eventsProcessed == |s.delivered|
  {
    hide Events, LogsIn, IsSubsequence, Run, SentInVain, StandsAt;
    EveryRunDelivers(chain, from, polls);
    var s := Run(chain, Start(from), polls);
    at := SubsequenceStands(EventsIn(chain, from, s.cursor), s.delivered);
  }

  /** Exactly once, in chain order, if and only if no poll failed after sending. */
  lemma ExactlyOnceIffNothingInVain(chain: Chain, from: nat, polls: seq<Poll>)
    ensures var s := Run(chain, Start(from), polls);
      s.delivered == EventsIn(chain, from, s.cursor) <==> SentInVain(chain, Start(from), polls) == 0
  {
    hide Events, LogsIn, IsSubsequence, Run, SentInVain;
    EveryRunDelivers(chain, from, polls);
  }

  /** The cursor never moves back. */
  lemma {:induction false} CursorNeverMovesBack(chain: Chain, s: State, polls: seq<Poll>)
    ensures s.cursor <= Run(chain, s, polls).cursor
  {
    hide Fails, Sent;
    if polls != [] {
      CursorNeverMovesBack(chain, s, polls[..|polls| - 1]);
    }
  }

  // ---------------------------------------------------------------- a log that never parses

  /** The cursor never reaches a block that holds a malformed log. */
  lemma MalformedBlocksTheCursor(chain: Chain, from: nat, block: nat, polls: seq<Poll>)
    requires from < block && Malformed in chain(block)
    ensures Run(chain, Start(from), polls).cursor < block
  {
    hide Events, LogsIn, IsSubsequence, Run, SentInVain;
    EveryRunDelivers(chain, from, polls);
    LogInBlock(chain, from, Run(chain, Start(from), polls).cursor, Malformed);
  }

  /** A poll that is answered with a later head moves the cursor to it if and only if every log up to it parses. */
  lemma CursorMovesIffAllParse(chain: Chain, s: State, head: nat)
    requires head > s.cursor
    ensures Next(chain, s, Answered(head)).cursor == head <==>
      forall b: nat :: s.cursor < b <= head ==> Malformed !in chain(b)
    ensures Fails(chain, s, Answered(head)) <==> Next(chain, s, Answered(head)).cursor == s.cursor
  {
    hide Events, LogsIn;
    LogInBlock(chain, s.cursor, head, Malformed);
  }

  /** From then on every poll that sees the block fails, and sends again all that parses before the log. */
  lemma MalformedRepeats(chain: Chain, from: nat, block: nat, polls: seq<Poll>, head: nat)
    requires from < block <= head && Malformed in chain(block)
    ensures var s := Run(chain, Start(from), polls);
      var logs := LogsIn(chain, s.cursor, head);
      && Fails(chain, s, Answered(head))
      && Next(chain, s, Answered(head)).cursor == s.cursor
      && ParsedPrefix(logs) < |logs|
      && Next(chain, s, Answered(head)).delivered == s.delivered + Events(logs[..ParsedPrefix(logs)])
  {
    hide Events, LogsIn, IsSubsequence, Run;
    MalformedBlocksTheCursor(chain, from, block, polls);
    LogInBlock(chain, Run(chain, Start(from), polls).cursor, head, Malformed);
  }

  // ---------------------------------------------------------------- the monitor object

  class JobMonitor {
    const chain: Chain
    var lastProcessedBlock: nat
    var delivered: seq<string>
    var eventsProcessed: nat
    var retryCount: nat
    var errorCount: nat

    constructor (chain: Chain, startBlock: nat)
      ensures this.chain == chain && View() == Start(startBlock)
    {
      this.chain, lastProcessedBlock, delivered := chain, startBlock, [];
      eventsProcessed, retryCount, errorCount := 0, 0, 0;
    }

    ghost function View(): State
      reads this
    {
      State(lastProcessedBlock, delivered, eventsProcessed, retryCount, errorCount)
    }

    /** `get_logs` for the blocks after the cursor. */
    method GetLogs(from: nat, to: nat) returns (logs: seq<Log>)
      requires from <= to
      ensures logs == LogsIn(chain, from, to)
    {
      logs := [];
      for block := from to to
        invariant logs == LogsIn(chain, from, block)
      {
        logs := logs + chain(block + 1);
      }
    }

    /** `process_events`; false stands for an error. */
    method ProcessEvents(poll: Poll) returns (ok: bool)
      modifies this
      ensures ok == !Fails(chain, old(View()), poll)
      ensures View() == Next(chain, old(View()), poll).(errorCount := old(errorCount))
    {
      hide LogsIn, Events;
      NoLogs(chain, lastProcessedBlock);
      if poll.SimulatedError? {
        retryCount := retryCount + 1;
        return false;
      }
      if poll.HeadUnavailable? {
        return false;
      }
      if poll.head <= lastProcessedBlock {
        return true;
      }
      if poll.LogsUnavailable? {
        return false;
      }
      var logs := GetLogs(lastProcessedBlock, poll.head);
      for i := 0 to |logs|
        invariant i <= ParsedPrefix(logs)
        invariant delivered == old(delivered) + Events(logs[..i])
        invariant eventsProcessed == old(eventsProcessed) + |Events(logs[..i])|
        invariant lastProcessedBlock == old(lastProcessedBlock)
        invariant retryCount == old(retryCount) && errorCount == old(errorCount)
      {
        NextEvent(logs, i);
        if logs[i].Malformed? {
          return false;
        }
        if logs[i].Event? {
          delivered := delivered + [logs[i].payload];
          eventsProcessed := eventsProcessed + 1;
        }
      }
      assert logs[..|logs|] == logs;
      lastProcessedBlock := poll.head;
      ok := true;
    }

    /** `monitoring_loop`, for as long as it is left running. */
    method MonitoringLoop(polls: seq<Poll>)
      modifies this
      ensures View() == Run(chain, old(View()), polls)
    {
      for i := 0 to |polls|
        invariant View() == Run(chain, old(View()), polls[..i])
      {
        hide Next, Fails;
        assert polls[..i + 1][..i] == polls[..i];
        var ok := ProcessEvents(polls[i]);
        PollCounts(chain, Run(chain, old(View()), polls[..i]), polls[i]);
        if !ok {
          errorCount := errorCount + 1;
        }
      }
      assert polls[..|polls|] == polls;
    }
  }

  lemma PollCounts(chain: Chain, s: State, poll: Poll)
    ensures Next(chain, s, poll).errorCount == s.errorCount + if Fails(chain, s, poll) then 1 else 0
  {
  }
}
