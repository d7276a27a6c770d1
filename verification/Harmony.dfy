/**
 The Harmony transcript scanner (src/checkpoint/harmony.rs).

 `Transcript` is a grammar for ALL texts: complete turns, system blocks, stray starts that the
 scanner skips, and the open ends it stops at. `Decompose` reads a text into the grammar and
 `Print` writes it back; the two are inverse to each other. The messages the scanner extracts
 are the `Messages` of the decomposition.
 */
module Harmony {
  import opened Common
  import opened Delta
  import opened Text

  /** The fixed texts the scanner looks for. */
  datatype Markers = Markers(start: string, channel: string, message: string, end: string,
                             user: string, assistant: string, system: string)

  const HARMONY: Markers :=
    Markers("<|start|>", "<|channel|>", "<|message|>", "<|end|>", "user", "assistant", "system")

  /** What the proofs use of the markers: none overlaps itself or another where one is searched for. */
  predicate Separated(k: Markers) {
    && Sharp(k.start) && Sharp(k.message) && Sharp(k.end)
    && k.channel != "" && Apart(k.channel, k.message) && Apart(k.system, k.end)
    && Mismatch(k.message, k.channel, 0)
    && Mismatch(k.assistant, k.user, 0)
    && Mismatch(k.system, k.user, 0) && Mismatch(k.system, k.assistant, 0)
  }

  function Name(k: Markers, role: Role): string {
    match role
    case User => k.user
    case Assistant => k.assistant
  }

  function NewMessage(role: Role, content: string, timestamp: nat): CheckpointMessage {
    if role == User then NewUser(content, timestamp) else NewAssistant(content, timestamp, false)
  }

  // ---------------------------------------------------------------- the grammar

  /** `channel` is the text from the role to the message marker: empty, or the channel marker and its label. */
  datatype Transcript =
    | Plain(text: string)
    | OpenSystem(gap: string, text: string)
    | OpenTurn(gap: string, role: Role, channel: string, body: string)
    | System(gap: string, text: string, rest: Transcript)
    | Turn(gap: string, role: Role, channel: string, body: string, rest: Transcript)
    | StrayStart(gap: string, rest: Transcript)
    | StrayRole(gap: string, role: Role, rest: Transcript)

  function Print(k: Markers, t: Transcript): string {
    match t
    case Plain(text) => text
    case OpenSystem(gap, text) => gap + (k.start + text)
    case OpenTurn(gap, role, channel, body) => gap + (k.start + (Name(k, role) + (channel + (k.message + body))))
    case System(gap, text, rest) => gap + (k.start + (text + (k.end + Print(k, rest))))
    case Turn(gap, role, channel, body, rest) =>
      gap + (k.start + (Name(k, role) + (channel + (k.message + (body + (k.end + Print(k, rest)))))))
    case StrayStart(gap, rest) => gap + (k.start + Print(k, rest))
    case StrayRole(gap, role, rest) => gap + (k.start + (Name(k, role) + Print(k, rest)))
  }

  predicate ChannelOk(k: Markers, channel: string) {
    channel == "" || (k.channel <= channel && !Contains(channel, k.message))
  }

  predicate StartsWithRole(k: Markers, s: string) {
    k.user <= s || k.assistant <= s || k.system <= s
  }

  /** After a role, text that leads to no message: no message marker, or a channel marker with none after it. */
  predicate NoMessageFollows(k: Markers, s: string) {
    !(k.message <= s) && (k.channel <= s ==> !Contains(s, k.message))
  }

  predicate WellFormed(k: Markers, t: Transcript) {
    match t
    case Plain(text) => !Contains(text, k.start)
    case OpenSystem(gap, text) => !Contains(gap, k.start) && k.system <= text && !Contains(text, k.end)
    case OpenTurn(gap, role, channel, body) => !Contains(gap, k.start) && ChannelOk(k, channel)
        && !Contains(body, k.end)
    case System(gap, text, rest) =>
      !Contains(gap, k.start) && k.system <= text && !Contains(text, k.end) && WellFormed(k, rest)
    case Turn(gap, role, channel, body, rest) =>
      !Contains(gap, k.start) && ChannelOk(k, channel) && !Contains(body, k.end) && WellFormed(k, rest)
    case StrayStart(gap, rest) => !Contains(gap, k.start) && !StartsWithRole(k, Print(k, rest)) && WellFormed(k, rest)
    case StrayRole(gap, role, rest) =>
        !Contains(gap, k.start) && NoMessageFollows(k, Print(k, rest)) && WellFormed(k, rest)
  }

  function MessageOf(role: Role, body: string, timestamp: nat): seq<CheckpointMessage> {
    var content := Trim(body);
    if content == "" then [] else [NewMessage(role, content, timestamp)]
  }

  /** The messages of a transcript: every turn whose body is more than white space; system blocks and strays none. */
  function Messages(t: Transcript, timestamp: nat): seq<CheckpointMessage> {
    match t
    case Plain(_) => []
    case OpenSystem(_, _) => []
    case OpenTurn(_, role, _, body) => MessageOf(role, body, timestamp)
    case System(_, _, rest) => Messages(rest, timestamp)
    case Turn(_, role, _, body, rest) => MessageOf(role, body, timestamp) + Messages(rest, timestamp)
    case StrayStart(_, rest) => Messages(rest, timestamp)
    case StrayRole(_, _, rest) => Messages(rest, timestamp)
  }

  // ---------------------------------------------------------------- reading a text into the grammar

  function Decompose(k: Markers, s: string): Transcript
    requires Separated(k)
    decreases |s|, 1
  {
    match Find(s, k.start)
    case None => Plain(s)
    case Some(i) => AfterStart(k, s[..i], s[i + |k.start|..])
  }

  function AfterStart(k: Markers, gap: string, r: string): Transcript
    requires Separated(k)
    decreases |r|, 4
  {
    if StartsWith(r, k.user) then AfterRole(k, gap, User, r[|k.user|..])
    else if StartsWith(r, k.assistant) then AfterRole(k, gap, Assistant, r[|k.assistant|..])
    else if StartsWith(r, k.system) then AfterSystem(k, gap, r)
    else StrayStart(gap, Decompose(k, r))
  }

  function AfterSystem(k: Markers, gap: string, r: string): Transcript
    requires Separated(k)
    decreases |r|, 3
  {
    match Find(r, k.end)
    case None => OpenSystem(gap, r)
    case Some(e) => System(gap, r[..e], Decompose(k, r[e + |k.end|..]))
  }

  function AfterRole(k: Markers, gap: string, role: Role, r: string): Transcript
    requires Separated(k)
    decreases |r|, 2
  {
    if StartsWith(r, k.channel) then
      match Find(r, k.message)
      case None => StrayRole(gap, role, Decompose(k, r))
      case Some(m) => AfterHeader(k, gap, role, r[..m], r[m + |k.message|..])
    else if StartsWith(r, k.message) then AfterHeader(k, gap, role, "", r[|k.message|..])
    else StrayRole(gap, role, Decompose(k, r))
  }

  function AfterHeader(k: Markers, gap: string, role: Role, channel: string, c: string): Transcript
    requires Separated(k)
    decreases |c|, 3
  {
    match Find(c, k.end)
    case None => OpenTurn(gap, role, channel, c)
    case Some(e) => Turn(gap, role, channel, c[..e], Decompose(k, c[e + |k.end|..]))
  }

  /** The scanner's result, on a text and the clock reading of the call. */
  function Parse(k: Markers, prompt: string, timestamp: nat): seq<CheckpointMessage>
    requires Separated(k)
  {
    Messages(Decompose(k, prompt), timestamp)
  }

  lemma HarmonyIsSeparated()
    ensures Separated(HARMONY)
  {
    var k := HARMONY;
    forall d: nat | d < |k.channel|
      ensures Mismatch(k.channel, k.message, d)
    {
      var x: nat := if d == 0 then 2 else 0;
      assert k.channel[d + x] != k.message[x];
    }
    forall d: nat | d < |k.system|
      ensures Mismatch(k.system, k.end, d)
    {
      assert k.system[d + 0] != k.end[0];
    }
    assert k.message[0 + 2] != k.channel[2];
    assert k.assistant[0 + 0] != k.user[0];
    assert k.system[0 + 0] != k.user[0] && k.system[0 + 0] != k.assistant[0];
  }

  /** After a channel marker the message marker starts no earlier than the marker's end. */
  lemma MessageAfterChannel(k: Markers, r: string)
    requires Separated(k) && k.channel <= r && Find(r, k.message).Some?
    ensures |k.channel| <= Find(r, k.message).value
  {
    forall j: nat | j < |k.channel|
      ensures !(k.message <= r[j..])
    {
      assert r[0..] == r;
      MismatchRulesOut(r, k.channel, k.message, 0, j);
    }
    FindNotBefore(r, k.message, |k.channel|);
  }

  lemma Split(s: string, i: nat, p: string)
    requires i <= |s| && p <= s[i..]
    ensures s == s[..i] + (p + s[i + |p|..])
  {
    assert s[i..] == p + s[i..][|p|..];
    assert s[i..][|p|..] == s[i + |p|..];
  }

  /** Every text is a well-formed transcript: nothing is lost or moved by reading it. */
  lemma {:induction false} DecomposePrints(k: Markers, s: string)
    requires Separated(k)
    ensures WellFormed(k, Decompose(k, s)) && Print(k, Decompose(k, s)) == s
    decreases |s|, 1
  {
    hide Find, AfterStart;
    if Find(s, k.start).Some? {
      hide Print, WellFormed, Contains, Separated;
      var i := Find(s, k.start).value;
      BeforeFirstHasNone(s, k.start);
      Split(s, i, k.start);
      AfterStartPrints(k, s[..i], s[i + |k.start|..]);
    }
  }

  lemma {:induction false} AfterStartPrints(k: Markers, gap: string, r: string)
    requires Separated(k)
    requires !Contains(gap, k.start)
    ensures var t := AfterStart(k, gap, r); WellFormed(k, t) && Print(k, t) == gap + (k.start + r)
    decreases |r|, 4
  {
    hide Find, AfterRole, AfterSystem, Separated, Contains;
    if k.user <= r {
      AfterRolePrints(k, gap, User, r[|k.user|..]);
      assert r == k.user + r[|k.user|..];
    } else if k.assistant <= r {
      AfterRolePrints(k, gap, Assistant, r[|k.assistant|..]);
      assert r == k.assistant + r[|k.assistant|..];
    } else if k.system <= r {
      AfterSystemPrints(k, gap, r);
    } else {
      DecomposePrints(k, r);
    }
  }

  lemma {:induction false} AfterSystemPrints(k: Markers, gap: string, r: string)
    requires Separated(k)
    requires !Contains(gap, k.start) && k.system <= r
    ensures var t := AfterSystem(k, gap, r); WellFormed(k, t) && Print(k, t) == gap + (k.start + r)
    decreases |r|, 3
  {
    hide Find, Decompose;
    if Find(r, k.end).Some? {
      EndSplit(k, r);
      SystemBeforeEnd(k, r);
      DecomposePrints(k, r[Find(r, k.end).value + |k.end|..]);
    }
  }

  lemma SystemBeforeEnd(k: Markers, r: string)
    requires Separated(k) && k.system <= r && Find(r, k.end).Some?
    ensures k.system <= r[..Find(r, k.end).value]
  {
    forall j: nat | j < |k.system|
      ensures !(k.end <= r[j..])
    {
      assert r[0..] == r;
      MismatchRulesOut(r, k.system, k.end, 0, j);
    }
    var e := Find(r, k.end).value;
    FindNotBefore(r, k.end, |k.system|);
    assert r[..e][..|k.system|] == r[..|k.system|];
  }

  lemma NoChannelIsOk(k: Markers)
    ensures ChannelOk(k, "")
  {
  }

  lemma {:induction false} AfterRolePrints(k: Markers, gap: string, role: Role, r: string)
    requires Separated(k)
    requires !Contains(gap, k.start)
    ensures var t := AfterRole(k, gap, role, r);
            WellFormed(k, t) && Print(k, t) == gap + (k.start + (Name(k, role) + r))
    decreases |r|, 2
  {
    hide Find, AfterHeader, Decompose, ChannelOk;
    if k.channel <= r {
      if Find(r, k.message).Some? {
        var m := Find(r, k.message).value;
        ChannelSplit(k, r);
        AfterHeaderPrints(k, gap, role, r[..m], r[m + |k.message|..]);
      } else {
        NoneBefore(r, k.message, 0);
        assert r[0..] == r;
        DecomposePrints(k, r);
      }
    } else if k.message <= r {
      NoChannelIsOk(k);
      AfterHeaderPrints(k, gap, role, "", r[|k.message|..]);
      assert "" + (k.message + r[|k.message|..]) == r;
    } else {
      DecomposePrints(k, r);
    }
  }

  lemma MarkersAreNotEmpty(k: Markers)
    requires Separated(k)
    ensures |k.end| > 0 && |k.message| > 0
  {
    hide Mismatch, Apart;
  }

  lemma EndSplit(k: Markers, c: string)
    requires Separated(k)
    requires Find(c, k.end).Some?
    ensures var e := Find(c, k.end).value; !Contains(c[..e], k.end) && c == c[..e] + (k.end + c[e + |k.end|..])
  {
    hide Find, Separated, Contains;
    MarkersAreNotEmpty(k);
    BeforeFirstHasNone(c, k.end);
    Split(c, Find(c, k.end).value, k.end);
  }

  lemma ChannelSplit(k: Markers, r: string)
    requires Separated(k)
    requires k.channel <= r && Find(r, k.message).Some?
    ensures var m := Find(r, k.message).value; ChannelOk(k, r[..m]) && r == r[..m] + (k.message + r[m + |k.message|..])
  {
    hide Find, Separated, Contains;
    MarkersAreNotEmpty(k);
    var m := Find(r, k.message).value;
    MessageAfterChannel(k, r);
    BeforeFirstHasNone(r, k.message);
    Split(r, m, k.message);
    assert r[..m][..|k.channel|] == r[..|k.channel|];
  }

  lemma {:induction false} AfterHeaderPrints(k: Markers, gap: string, role: Role, channel: string, c: string)
    requires Separated(k)
    requires !Contains(gap, k.start) && ChannelOk(k, channel)
    ensures var t := AfterHeader(k, gap, role, channel, c);
            WellFormed(k, t) && Print(k, t) == gap + (k.start + (Name(k, role) + (channel + (k.message + c))))
    decreases |c|, 3
  {
    hide Find, Decompose, ChannelOk;
    if Find(c, k.end).Some? {
      EndSplit(k, c);
      DecomposePrints(k, c[Find(c, k.end).value + |k.end|..]);
    }
  }

  // ---------------------------------------------------------------- and back: each transcript is read as itself

  lemma AfterGap(k: Markers, gap: string, r: string)
    requires Separated(k) && !Contains(gap, k.start)
    ensures Decompose(k, gap + (k.start + r)) == AfterStart(k, gap, r)
  {
    hide Find, AfterStart;
    FindMarker(gap, k.start, r);
    Drop(gap, k.start + r);
    Drop(k.start, r);
    var s := gap + (k.start + r);
    assert s[|gap| + |k.start|..] == s[|gap|..][|k.start|..];
  }

  lemma NotPrefix(k: Markers, p: string, r: string, q: string)
    requires Mismatch(p, q, 0)
    ensures !(q <= p + r)
  {
    var s := p + r;
    assert s[0..] == s;
    MismatchRulesOut(s, p, q, 0, 0);
  }

  lemma AfterStartTurn(k: Markers, gap: string, role: Role, r: string)
    requires Separated(k)
    ensures AfterStart(k, gap, Name(k, role) + r) == AfterRole(k, gap, role, r)
  {
    hide AfterRole, AfterSystem, Decompose;
    Drop(Name(k, role), r);
    if role == Assistant {
      NotPrefix(k, k.assistant, r, k.user);
    }
  }

  lemma AfterStartSystem(k: Markers, gap: string, text: string, r: string)
    requires Separated(k) && k.system <= text
    ensures AfterStart(k, gap, text + r) == AfterSystem(k, gap, text + r)
  {
    hide AfterRole, AfterSystem, Decompose;
    var tail := text[|k.system|..] + r;
    assert text + r == k.system + tail;
    NotPrefix(k, k.system, tail, k.user);
    NotPrefix(k, k.system, tail, k.assistant);
  }

  lemma AfterRoleHeader(k: Markers, gap: string, role: Role, channel: string, c: string)
    requires Separated(k) && ChannelOk(k, channel)
    ensures AfterRole(k, gap, role, channel + (k.message + c)) == AfterHeader(k, gap, role, channel, c)
  {
    hide Find, AfterHeader, Decompose;
    var r := channel + (k.message + c);
    Drop(channel, k.message + c);
    Drop(k.message, c);
    if channel == "" {
      assert r == k.message + c;
      NotPrefix(k, k.message, c, k.channel);
    } else {
      FindMarker(channel, k.message, c);
      assert r[|channel| + |k.message|..] == r[|channel|..][|k.message|..];
    }
  }

  lemma UntilEnd(k: Markers, body: string, r: string)
    requires Separated(k) && !Contains(body, k.end)
    ensures var c := body + (k.end + r);
            Find(c, k.end) == Some(|body|) && c[..|body|] == body && c[|body| + |k.end|..] == r
  {
    FindMarker(body, k.end, r);
    var c := body + (k.end + r);
    Drop(body, k.end + r);
    Drop(k.end, r);
    assert c[|body| + |k.end|..] == c[|body|..][|k.end|..];
  }

  /** Reading what a well-formed transcript prints gives that transcript: the grammar is unambiguous. */
  lemma {:induction false} PrintDecomposes(k: Markers, t: Transcript)
    requires Separated(k) && WellFormed(k, t)
    ensures Decompose(k, Print(k, t)) == t
  {
    hide Find, AfterRole, AfterHeader, AfterStart, AfterSystem;
    match t
    case Plain(text) =>
    case OpenSystem(gap, text) =>
      AfterGap(k, gap, text);
      OpenSystemDecomposes(k, gap, text);
    case OpenTurn(gap, role, channel, body) =>
      var c := channel + (k.message + body);
      AfterGap(k, gap, Name(k, role) + c);
      AfterStartTurn(k, gap, role, c);
      AfterRoleHeader(k, gap, role, channel, body);
      OpenTurnDecomposes(k, gap, role, channel, body);
    case System(gap, text, rest) =>
      var r := text + (k.end + Print(k, rest));
      AfterGap(k, gap, r);
      SystemDecomposes(k, gap, text, Print(k, rest));
      PrintDecomposes(k, rest);
    case Turn(gap, role, channel, body, rest) =>
      var b := body + (k.end + Print(k, rest));
      var c := channel + (k.message + b);
      AfterGap(k, gap, Name(k, role) + c);
      AfterStartTurn(k, gap, role, c);
      AfterRoleHeader(k, gap, role, channel, b);
      TurnDecomposes(k, gap, role, channel, body, Print(k, rest));
      PrintDecomposes(k, rest);
    case StrayStart(gap, rest) =>
      AfterGap(k, gap, Print(k, rest));
      StrayStartDecomposes(k, gap, Print(k, rest));
      PrintDecomposes(k, rest);
    case StrayRole(gap, role, rest) =>
      var r := Print(k, rest);
      AfterGap(k, gap, Name(k, role) + r);
      AfterStartTurn(k, gap, role, r);
      StrayRoleDecomposes(k, gap, role, r);
      PrintDecomposes(k, rest);
  }

  lemma OpenSystemDecomposes(k: Markers, gap: string, text: string)
    requires Separated(k) && k.system <= text && !Contains(text, k.end)
    ensures AfterStart(k, gap, text) == OpenSystem(gap, text)
  {
    hide Find;
    AfterStartSystem(k, gap, text, "");
    assert text + "" == text;
  }

  lemma OpenTurnDecomposes(k: Markers, gap: string, role: Role, channel: string, body: string)
    requires Separated(k) && !Contains(body, k.end)
    ensures AfterHeader(k, gap, role, channel, body) == OpenTurn(gap, role, channel, body)
  {
    hide Find;
  }

  lemma SystemDecomposes(k: Markers, gap: string, text: string, r: string)
    requires Separated(k) && k.system <= text && !Contains(text, k.end)
    ensures AfterStart(k, gap, text + (k.end + r)) == System(gap, text, Decompose(k, r))
  {
    hide Find, Decompose;
    AfterStartSystem(k, gap, text, k.end + r);
    UntilEnd(k, text, r);
  }

  lemma TurnDecomposes(k: Markers, gap: string, role: Role, channel: string, body: string, r: string)
    requires Separated(k) && !Contains(body, k.end)
    ensures AfterHeader(k, gap, role, channel, body + (k.end + r)) == Turn(gap, role, channel, body, Decompose(k, r))
  {
    hide Find, Decompose;
    UntilEnd(k, body, r);
  }

  lemma StrayStartDecomposes(k: Markers, gap: string, r: string)
    requires Separated(k) && !StartsWithRole(k, r)
    ensures AfterStart(k, gap, r) == StrayStart(gap, Decompose(k, r))
  {
  }

  lemma StrayRoleDecomposes(k: Markers, gap: string, role: Role, r: string)
    requires Separated(k) && NoMessageFollows(k, r)
    ensures AfterRole(k, gap, role, r) == StrayRole(gap, role, Decompose(k, r))
  {
    hide Find, Decompose;
  }
}
