/**
 What the parser of src/checkpoint/harmony.rs promises about messages: parsing undoes printing,
 and parsing normalises any text.
 */
module HarmonyMessages {
  import opened Common
  import opened Delta
  import opened Text
  import opened Harmony

  // ---------------------------------------------------------------- parsing undoes printing

  /** Who said what. */
  datatype Said = Said(role: Role, content: string)

  /** The messages of the turns: role, content, one time stamp, none of them partial. */
  ghost predicate Reads(out: seq<CheckpointMessage>, said: seq<Said>, timestamp: nat) {
    && |out| == |said|
    && forall i :: 0 <= i < |out| ==>
                     && out[i].role == said[i].role && out[i].content == said[i].content
                     && out[i].timestamp == timestamp && !out[i].partial
  }

  function SaidBy(role: Role, body: string): seq<Said> {
    if Trim(body) == "" then [] else [Said(role, Trim(body))]
  }

  /** The user and assistant turns of a transcript that are not blank, trimmed. */
  function Turns(t: Transcript): seq<Said> {
    match t
    case Plain(_) => []
    case OpenSystem(_, _) => []
    case OpenTurn(_, role, _, body) => SaidBy(role, body)
    case System(_, _, rest) => Turns(rest)
    case Turn(_, role, _, body, rest) => SaidBy(role, body) + Turns(rest)
    case StrayStart(_, rest) => Turns(rest)
    case StrayRole(_, _, rest) => Turns(rest)
  }

  lemma {:induction false} MessagesAreTurns(t: Transcript, timestamp: nat)
    ensures Reads(Messages(t, timestamp), Turns(t), timestamp)
  {
    hide Trim;
    match t
    case System(_, _, rest) => MessagesAreTurns(rest, timestamp);
    case StrayStart(_, rest) => MessagesAreTurns(rest, timestamp);
    case StrayRole(_, _, rest) => MessagesAreTurns(rest, timestamp);
    case Turn(_, _, _, _, rest) => MessagesAreTurns(rest, timestamp);
    case _ =>
  }

  /** The scanner reads off a printed transcript exactly its turns; system blocks and strays are skipped. */
  lemma ParseOfPrint(k: Markers, t: Transcript, timestamp: nat)
    requires Separated(k) && WellFormed(k, t)
    ensures Reads(Parse(k, Print(k, t), timestamp), Turns(t), timestamp)
    ensures Parse(k, Print(k, t), timestamp) == Messages(t, timestamp)
  {
    hide Print, WellFormed, Messages, Decompose, Separated, Turns;
    PrintDecomposes(k, t);
    MessagesAreTurns(t, timestamp);
  }

  /** Messages as a transcript, each turn after the same separator. */
  function FromMessages(msgs: seq<CheckpointMessage>, gap: string): Transcript {
    if msgs == [] then Plain("") else Turn(gap, msgs[0].role, "", msgs[0].content, FromMessages(msgs[1..], gap))
  }

  predicate Printable(k: Markers, m: CheckpointMessage) {
    m.content != "" && Trimmed(m.content) && !Contains(m.content, k.end)
  }

  predicate AllPrintable(k: Markers, msgs: seq<CheckpointMessage>) {
    forall i :: 0 <= i < |msgs| ==> Printable(k, msgs[i])
  }

  lemma {:induction false} FromMessagesReads(k: Markers, msgs: seq<CheckpointMessage>, gap: string)
    requires Separated(k) && AllPrintable(k, msgs) && !Contains(gap, k.start)
    ensures WellFormed(k, FromMessages(msgs, gap)) && |Turns(FromMessages(msgs, gap))| == |msgs|
    ensures forall i :: 0 <= i < |msgs| ==> Turns(FromMessages(msgs, gap))[i] == Said(msgs[i].role, msgs[i].content)
  {
    hide Find, Trim, Trimmed;
    if msgs != [] {
      FromMessagesReads(k, msgs[1..], gap);
      assert Printable(k, msgs[0]);
      TrimKeepsTrimmed(msgs[0].content);
    } else {
      NothingIn(k.start);
    }
  }

  lemma NothingIn(p: string)
    requires p != ""
    ensures !Contains("", p)
  {
  }

  /** Round trip: trimmed, non-empty contents without the end marker come back, in order, newly stamped. */
  lemma RoundTrip(k: Markers, msgs: seq<CheckpointMessage>, gap: string, timestamp: nat)
    requires Separated(k) && AllPrintable(k, msgs) && !Contains(gap, k.start)
    ensures var out := Parse(k, Print(k, FromMessages(msgs, gap)), timestamp);
            && |out| == |msgs|
            && forall i :: 0 <= i < |msgs| ==>
                             && out[i].role == msgs[i].role && out[i].content == msgs[i].content
                             && out[i].timestamp == timestamp && !out[i].partial
  {
    hide Parse, Print, FromMessages, Turns;
    FromMessagesReads(k, msgs, gap);
    ParseOfPrint(k, FromMessages(msgs, gap), timestamp);
  }

  // ---------------------------------------------------------------- parsing normalises every text

  lemma {:induction false} TurnsArePrintable(k: Markers, t: Transcript)
    requires WellFormed(k, t)
    ensures forall said :: said in Turns(t) ==>
                             said.content != "" && Trimmed(said.content) && !Contains(said.content, k.end)
  {
    hide Find, Trim, Trimmed;
    match t
    case Plain(_) =>
    case OpenSystem(_, _) =>
    case OpenTurn(_, _, _, body) => BodyIsPrintable(k, body);
    case System(_, _, rest) => TurnsArePrintable(k, rest);
    case StrayStart(_, rest) => TurnsArePrintable(k, rest);
    case StrayRole(_, _, rest) => TurnsArePrintable(k, rest);
    case Turn(_, _, _, body, rest) =>
      BodyIsPrintable(k, body);
      TurnsArePrintable(k, rest);
  }

  lemma BodyIsPrintable(k: Markers, body: string)
    requires !Contains(body, k.end)
    ensures Trimmed(Trim(body)) && !Contains(Trim(body), k.end)
  {
    hide Find, Trim, Trimmed;
    TrimHasNone(body, k.end);
    var i, j := TrimIsSlice(body);
  }

  /** Normal form: whatever the prompt, printing what was parsed and parsing again changes only the clock reading. */
  lemma ParseNormalises(k: Markers, prompt: string, gap: string, timestamp: nat, later: nat)
    requires Separated(k) && !Contains(gap, k.start)
    ensures var msgs := Parse(k, prompt, timestamp);
            var again := Parse(k, Print(k, FromMessages(msgs, gap)), later);
            && AllPrintable(k, msgs) && |again| == |msgs|
            && forall i :: 0 <= i < |msgs| ==>
                             && again[i].role == msgs[i].role && again[i].content == msgs[i].content
                             && again[i].timestamp == later && !again[i].partial
  {
    hide Decompose, Print, WellFormed, Messages, FromMessages, Turns, Find, Trimmed;
    var t := Decompose(k, prompt);
    DecomposePrints(k, prompt);
    TurnsArePrintable(k, t);
    MessagesAreTurns(t, timestamp);
    assert forall i :: 0 <= i < |Turns(t)| ==> Turns(t)[i] in Turns(t);
    RoundTrip(k, Parse(k, prompt, timestamp), gap, later);
  }

  // ---------------------------------------------------------------- the scanner as a loop

  lemma RestOfRest(s: string, i: nat, j: nat)
    requires i + j <= |s|
    ensures s[i..][j..] == s[i + j..]
  {
  }

  lemma FrontOfRest(s: string, i: nat, n: nat)
    requires i + n <= |s|
    ensures s[i..][..n] == s[i..i + n]
  {
  }

  // The exits of one round of the parsing loop, as equations on what is left to parse.

  lemma ReadStart(k: Markers, s: string, timestamp: nat)
    requires Separated(k)
    ensures Find(s, k.start).None? ==> Parse(k, s, timestamp) == []
    ensures Find(s, k.start).Some? ==>
              var i := Find(s, k.start).value;
              Parse(k, s, timestamp) == Messages(AfterStart(k, s[..i], s[i + |k.start|..]), timestamp)
  {
    hide Find, AfterStart;
  }

  /** The role a message start names, if it is one that is kept. */
  function RoleAt(k: Markers, r: string): (role: Option<Role>)
    ensures role.Some? ==> |Name(k, role.value)| <= |r|
  {
    if StartsWith(r, k.user) then Some(User)
    else if StartsWith(r, k.assistant) then Some(Assistant)
    else None
  }

  lemma ReadRole(k: Markers, gap: string, r: string, timestamp: nat)
    requires Separated(k)
    ensures var msgs, role, end := Messages(AfterStart(k, gap, r), timestamp), RoleAt(k, r), Find(r, k.end);
            if role.Some? then msgs == Messages(AfterRole(k, gap, role.value, r[|Name(k, role.value)|..]), timestamp)
            else if !StartsWith(r, k.system) then msgs == Parse(k, r, timestamp)
            else if end.None? then msgs == []
            else msgs == Parse(k, r[end.value + |k.end|..], timestamp)
  {
    hide Find, Decompose, AfterRole, StartsWith, Separated, MessageOf;
  }

  lemma ReadChannel(k: Markers, gap: string, role: Role, r: string, timestamp: nat)
    requires Separated(k) && StartsWith(r, k.channel)
    ensures var msgs, m := Messages(AfterRole(k, gap, role, r), timestamp), Find(r, k.message);
            if m.None? then msgs == Parse(k, r, timestamp)
            else msgs == Messages(AfterHeader(k, gap, role, r[..m.value], r[m.value + |k.message|..]), timestamp)
  {
    hide Find, Decompose, AfterHeader, Separated, StartsWith;
  }

  lemma ReadMessageMarker(k: Markers, gap: string, role: Role, r: string, timestamp: nat)
    requires Separated(k) && !StartsWith(r, k.channel)
    ensures var msgs := Messages(AfterRole(k, gap, role, r), timestamp);
            if StartsWith(r, k.message) then msgs
                == Messages(AfterHeader(k, gap, role, "", r[|k.message|..]), timestamp)
            else msgs == Parse(k, r, timestamp)
  {
    hide Find, Decompose, AfterHeader, Separated, StartsWith;
  }

  lemma ReadBody(k: Markers, gap: string, role: Role, channel: string, c: string, timestamp: nat)
    requires Separated(k)
    ensures var msgs, end := Messages(AfterHeader(k, gap, role, channel, c), timestamp), Find(c, k.end);
            if end.None? then msgs == MessageOf(role, c, timestamp)
            else msgs == MessageOf(role, c[..end.value], timestamp) + Parse(k, c[end.value + |k.end|..], timestamp)
  {
    hide Find, Decompose, MessageOf;
  }

  // The same by absolute position in the prompt.

  lemma ReadStartAt(k: Markers, prompt: string, pos: nat, timestamp: nat) returns (gap: string)
    requires Separated(k) && pos <= |prompt|
    ensures var start := Find(prompt[pos..], k.start);
            Parse(k, prompt[pos..], timestamp) ==
            if start.None? then []
            else Messages(AfterStart(k, gap, prompt[pos + start.value + |k.start|..]), timestamp)
  {
    hide Find, Parse, Messages, AfterStart, Separated;
    ReadStart(k, prompt[pos..], timestamp);
    var start := Find(prompt[pos..], k.start);
    gap := "";
    if start.Some? {
      gap := prompt[pos..][..start.value];
      RestOfRest(prompt, pos, start.value + |k.start|);
    }
  }

  lemma ReadRoleAt(k: Markers, prompt: string, pos: nat, gap: string, timestamp: nat)
    requires Separated(k) && pos <= |prompt|
    ensures var r := prompt[pos..];
            var end := Find(r, k.end);
            var role := RoleAt(k, r);
            Messages(AfterStart(k, gap, r), timestamp) ==
            if role.Some? then
              Messages(AfterRole(k, gap, role.value, prompt[pos + |Name(k, role.value)|..]), timestamp)
            else if !StartsWith(r, k.system) then Parse(k, r, timestamp)
            else if end.None? then []
            else Parse(k, prompt[pos + end.value + |k.end|..], timestamp)
  {
    hide Find, Parse, Messages, AfterStart, AfterRole, Separated, StartsWith, RoleAt, Name;
    ReadRole(k, gap, prompt[pos..], timestamp);
    var end := Find(prompt[pos..], k.end);
    var role := RoleAt(k, prompt[pos..]);
    if role.Some? {
      RestOfRest(prompt, pos, |Name(k, role.value)|);
    } else if end.Some? {
      RestOfRest(prompt, pos, end.value + |k.end|);
    }
  }

  /** Length of the optional channel and the message marker after a role, if a message follows at all. */
  function HeaderLength(k: Markers, r: string): (n: Option<nat>)
    ensures n.Some? ==> n.value <= |r|
  {
    if StartsWith(r, k.channel) then
      match Find(r, k.message)
      case None => None
      case Some(m) => Some(m + |k.message|)
    else if StartsWith(r, k.message) then Some(|k.message|)
    else None
  }

  lemma ReadHeaderAt(k: Markers, prompt: string, pos: nat, gap: string, role: Role, timestamp: nat)
    returns (channel: string)
    requires Separated(k) && pos <= |prompt|
    ensures var r := prompt[pos..];
            var header := HeaderLength(k, r);
            Messages(AfterRole(k, gap, role, r), timestamp) ==
            if header.None? then Parse(k, r, timestamp)
            else Messages(AfterHeader(k, gap, role, channel, prompt[pos + header.value..]), timestamp)
  {
    hide Find, Parse, Messages, AfterRole, AfterHeader, Separated, StartsWith;
    var r := prompt[pos..];
    channel := "";
    if StartsWith(r, k.channel) {
      ReadChannel(k, gap, role, r, timestamp);
      if Find(r, k.message).Some? {
        channel := r[..Find(r, k.message).value];
      }
    } else {
      ReadMessageMarker(k, gap, role, r, timestamp);
    }
    if HeaderLength(k, r).Some? {
      RestOfRest(prompt, pos, HeaderLength(k, r).value);
    }
  }

  lemma ReadBodyAt(k: Markers, prompt: string, pos: nat, gap: string, role: Role, channel: string, timestamp: nat)
    requires Separated(k) && pos <= |prompt|
    ensures var c := prompt[pos..];
            var end := Find(c, k.end);
            Messages(AfterHeader(k, gap, role, channel, c), timestamp) ==
            if end.None? then MessageOf(role, c, timestamp)
            else MessageOf(role, prompt[pos..pos + end.value], timestamp)
                 + Parse(k, prompt[pos + end.value + |k.end|..], timestamp)
  {
    hide Find, Parse, Messages, AfterHeader, MessageOf, Separated;
    ReadBody(k, gap, role, channel, prompt[pos..], timestamp);
    var end := Find(prompt[pos..], k.end);
    if end.Some? {
      RestOfRest(prompt, pos, end.value + |k.end|);
      FrontOfRest(prompt, pos, end.value);
    }
  }

  /** The loop invariant: the messages so far, then those of the rest of the prompt, are all of them. */
  ghost predicate Progress(k: Markers, prompt: string, timestamp: nat, messages: seq<CheckpointMessage>, pos: nat)
    requires Separated(k) && pos <= |prompt|
  {
    messages + Parse(k, prompt[pos..], timestamp) == Parse(k, prompt, timestamp)
  }

  ghost predicate Finished(k: Markers, prompt: string, timestamp: nat, messages: seq<CheckpointMessage>)
    requires Separated(k)
  {
    messages == Parse(k, prompt, timestamp)
  }

  /** No further start, or only white space to go: done. */
  lemma StopWithoutStart(k: Markers, prompt: string, timestamp: nat, messages: seq<CheckpointMessage>, pos: nat)
    requires Separated(k) && pos <= |prompt| && Progress(k, prompt, timestamp, messages, pos)
    requires pos == |prompt| || Find(prompt[pos..], k.start).None?
    ensures Finished(k, prompt, timestamp, messages)
  {
    hide Find, Parse, Separated;
    if pos == |prompt| {
      ParseOfNothing(k, prompt, timestamp);
    }
    var gap := ReadStartAt(k, prompt, pos, timestamp);
  }

  /** A start with an unknown role is passed over. */
  lemma PassOverStart(k: Markers, prompt: string, timestamp: nat, messages: seq<CheckpointMessage>, pos: nat, abs: nat)
    requires Separated(k) && pos <= abs <= |prompt| && Progress(k, prompt, timestamp, messages, pos)
    requires Find(prompt[pos..], k.start).Some? && abs == pos + Find(prompt[pos..], k.start).value + |k.start|
    requires RoleAt(k, prompt[abs..]).None? && !StartsWith(prompt[abs..], k.system)
    ensures Progress(k, prompt, timestamp, messages, abs)
  {
    hide Find, Parse, Separated, StartsWith, RoleAt, Messages, AfterStart;
    var gap := ReadStartAt(k, prompt, pos, timestamp);
    ReadRoleAt(k, prompt, abs, gap, timestamp);
  }

  /** A closed system block is skipped, an open one ends the scan. */
  lemma PassOverSystem(k: Markers, prompt: string, timestamp: nat, messages: seq<CheckpointMessage>, pos: nat, abs: nat,
                       next: nat)
    requires Separated(k) && pos <= abs <= next <= |prompt| && Progress(k, prompt, timestamp, messages, pos)
    requires Find(prompt[pos..], k.start).Some? && abs == pos + Find(prompt[pos..], k.start).value + |k.start|
    requires RoleAt(k, prompt[abs..]).None? && StartsWith(prompt[abs..], k.system)
    ensures Find(prompt[abs..], k.end).None? ==> Finished(k, prompt, timestamp, messages)
    ensures Find(prompt[abs..], k.end).Some? && next == abs + Find(prompt[abs..], k.end).value + |k.end| ==>
              Progress(k, prompt, timestamp, messages, next)
  {
    hide Find, Parse, Separated, StartsWith, RoleAt, Messages, AfterStart;
    var gap := ReadStartAt(k, prompt, pos, timestamp);
    ReadRoleAt(k, prompt, abs, gap, timestamp);
  }

  /** What is found at a start, up to the content: its position, role and where the role and the header end. */
  ghost predicate TurnAt(k: Markers, prompt: string, pos: nat, role: Role, roleEnd: nat)
    requires pos <= |prompt|
  {
    && Find(prompt[pos..], k.start).Some?
    && var abs := pos + Find(prompt[pos..], k.start).value + |k.start|;
    RoleAt(k, prompt[abs..]) == Some(role) && roleEnd == abs + |Name(k, role)|
  }

  lemma FoundTurn(k: Markers, prompt: string, pos: nat, abs: nat, role: Role, roleEnd: nat)
    requires pos <= abs <= |prompt| && Find(prompt[pos..], k.start).Some?
    requires abs == pos + Find(prompt[pos..], k.start).value + |k.start|
    requires RoleAt(k, prompt[abs..]) == Some(role) && roleEnd == abs + |Name(k, role)|
    ensures TurnAt(k, prompt, pos, role, roleEnd)
  {
    hide Find, RoleAt, Name;
  }

  lemma ReadTurnAt(k: Markers, prompt: string, timestamp: nat, pos: nat, role: Role, roleEnd: nat) returns (gap: string)
    requires Separated(k) && pos <= roleEnd <= |prompt| && TurnAt(k, prompt, pos, role, roleEnd)
    ensures Parse(k, prompt[pos..], timestamp) == Messages(AfterRole(k, gap, role, prompt[roleEnd..]), timestamp)
  {
    hide Find, Parse, Separated, StartsWith, RoleAt, Name, Messages, AfterStart, AfterRole;
    gap := ReadStartAt(k, prompt, pos, timestamp);
    ReadRoleAt(k, prompt, pos + Find(prompt[pos..], k.start).value + |k.start|, gap, timestamp);
  }

  /** A role that leads to no message is passed over. */
  lemma PassOverRole(k: Markers, prompt: string, timestamp: nat, messages: seq<CheckpointMessage>, pos: nat, role: Role,
                     roleEnd: nat)
    requires Separated(k) && pos <= roleEnd <= |prompt| && Progress(k, prompt, timestamp, messages, pos)
    requires TurnAt(k, prompt, pos, role, roleEnd) && HeaderLength(k, prompt[roleEnd..]).None?
    ensures Progress(k, prompt, timestamp, messages, roleEnd)
  {
    hide Find, Parse, Separated, Messages, AfterRole, HeaderLength, TurnAt;
    var gap := ReadTurnAt(k, prompt, timestamp, pos, role, roleEnd);
    var channel := ReadHeaderAt(k, prompt, roleEnd, gap, role, timestamp);
  }

  /** A turn left open gives the last message. */
  lemma TakeOpenTurn(k: Markers, prompt: string, timestamp: nat, messages: seq<CheckpointMessage>, pos: nat, role: Role,
                     roleEnd: nat, content: nat)
    requires Separated(k) && pos <= roleEnd <= content <= |prompt| && Progress(k, prompt, timestamp, messages, pos)
    requires TurnAt(k, prompt, pos, role, roleEnd)
    requires HeaderLength(k, prompt[roleEnd..]).Some? && content == roleEnd + HeaderLength(k, prompt[roleEnd..]).value
    requires Find(prompt[content..], k.end).None?
    ensures Finished(k, prompt, timestamp, messages + MessageOf(role, prompt[content..], timestamp))
  {
    hide Find, Parse, Separated, Messages, MessageOf, AfterRole, AfterHeader, HeaderLength, TurnAt;
    var gap := ReadTurnAt(k, prompt, timestamp, pos, role, roleEnd);
    var channel := ReadHeaderAt(k, prompt, roleEnd, gap, role, timestamp);
    ReadBodyAt(k, prompt, content, gap, role, channel, timestamp);
  }

  /** A closed turn gives a message, and the scan goes on after the end marker. */
  lemma TakeTurn(k: Markers, prompt: string, timestamp: nat, messages: seq<CheckpointMessage>, pos: nat, role: Role,
                 roleEnd: nat, content: nat, end: nat, next: nat)
    requires Separated(k) && pos <= roleEnd <= content <= end <= next <= |prompt|
    requires Progress(k, prompt, timestamp, messages, pos) && TurnAt(k, prompt, pos, role, roleEnd)
    requires HeaderLength(k, prompt[roleEnd..]).Some? && content == roleEnd + HeaderLength(k, prompt[roleEnd..]).value
    requires Find(prompt[content..], k.end).Some? && end == content + Find(prompt[content..], k.end).value
    requires next == end + |k.end|
    ensures Progress(k, prompt, timestamp, messages + MessageOf(role, prompt[content..end], timestamp), next)
  {
    hide Find, Parse, Separated, Messages, MessageOf, AfterRole, AfterHeader, HeaderLength, TurnAt;
    var gap := ReadTurnAt(k, prompt, timestamp, pos, role, roleEnd);
    var channel := ReadHeaderAt(k, prompt, roleEnd, gap, role, timestamp);
    ReadBodyAt(k, prompt, content, gap, role, channel, timestamp);
  }

  lemma ParseOfNothing(k: Markers, prompt: string, timestamp: nat)
    requires Separated(k)
    ensures Parse(k, prompt[|prompt|..], timestamp) == []
    ensures Progress(k, prompt, timestamp, [], 0)
  {
    hide Decompose;
    NothingIn(k.start);
    assert prompt[|prompt|..] == "" && prompt[0..] == prompt;
    var gap := ReadStartAt(k, prompt, |prompt|, timestamp);
    assert [] + Parse(k, prompt, timestamp) == Parse(k, prompt, timestamp);
  }

  /** Push the trimmed body as a message, unless nothing is left of it (both arms of the end-marker test do this). */
  method PushContent(messages: seq<CheckpointMessage>, role: Role, body: string, timestamp: nat)
    returns (r: seq<CheckpointMessage>)
    ensures r == messages + MessageOf(role, body, timestamp)
  {
    var content := Trim(body);
    r := messages;
    if content != "" {
      r := r + [NewMessage(role, content, timestamp)];
    }
  }

  /** `parse_harmony_messages`: the loop pushes one message per readable turn and skips the rest. */
  method ParseHarmonyMessages(k: Markers, prompt: string, timestamp: nat) returns (messages: seq<CheckpointMessage>)
    requires Separated(k)
    ensures messages == Parse(k, prompt, timestamp)
    ensures Reads(messages, Turns(Decompose(k, prompt)), timestamp)
  {
    messages := ScanMessages(k, prompt, timestamp);
    MessagesAreTurns(Decompose(k, prompt), timestamp);
  }

  method ScanMessages(k: Markers, prompt: string, timestamp: nat) returns (messages: seq<CheckpointMessage>)
    requires Separated(k)
    ensures Finished(k, prompt, timestamp, messages)
  {
    assert |k.start| > 0;
    hide Find, Progress, Finished, Separated, MessageOf, StartsWith, RoleAt, Name, HeaderLength, TurnAt;
    messages := [];
    var searchPos := 0;
    ParseOfNothing(k, prompt, timestamp);
    while searchPos < |prompt|
      invariant 0 <= searchPos <= |prompt|
      invariant Progress(k, prompt, timestamp, messages, searchPos)
      decreases |prompt| - searchPos
    {
      var start := Find(prompt[searchPos..], k.start);
      if start.None? {
        break;
      }
      var absStart := searchPos + start.value + |k.start|;

      var role := RoleAt(k, prompt[absStart..]);
      if role.None? {
        if StartsWith(prompt[absStart..], k.system) {
          var end := Find(prompt[absStart..], k.end);
          if end.None? {
            PassOverSystem(k, prompt, timestamp, messages, searchPos, absStart, absStart);
            return;
          }
          var next := absStart + end.value + |k.end|;
          PassOverSystem(k, prompt, timestamp, messages, searchPos, absStart, next);
          searchPos := next;
        } else {
          PassOverStart(k, prompt, timestamp, messages, searchPos, absStart);
          searchPos := absStart;
        }
        continue;
      }
      var roleEnd := absStart + |Name(k, role.value)|;
      FoundTurn(k, prompt, searchPos, absStart, role.value, roleEnd);

      var header := HeaderLength(k, prompt[roleEnd..]);
      if header.None? {
        PassOverRole(k, prompt, timestamp, messages, searchPos, role.value, roleEnd);
        searchPos := roleEnd;
        continue;
      }
      var contentStart := roleEnd + header.value;

      var end := Find(prompt[contentStart..], k.end);
      if end.None? {
        TakeOpenTurn(k, prompt, timestamp, messages, searchPos, role.value, roleEnd, contentStart);
        messages := PushContent(messages, role.value, prompt[contentStart..], timestamp);
        return;
      }
      var contentEnd := contentStart + end.value;
      var next := contentEnd + |k.end|;
      TakeTurn(k, prompt, timestamp, messages, searchPos, role.value, roleEnd, contentStart, contentEnd, next);
      messages := PushContent(messages, role.value, prompt[contentStart..contentEnd], timestamp);
      searchPos := next;
    }
    StopWithoutStart(k, prompt, timestamp, messages, searchPos);
  }
}
