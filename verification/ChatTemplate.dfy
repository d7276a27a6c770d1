/**
 The prompts the node writes itself (src/inference/chat_template.rs) against the scanners that read
 them back: a system block first, one block or turn for each message, and an open turn last.
 */
module ChatTemplate {
  import opened Common
  import opened Delta
  import opened Text
  import opened Harmony
  import opened HarmonyMessages
  import opened LastUserMessages

  datatype ChatMessage = ChatMessage(role: string, content: string)

  /** What one message adds to the prompt; other roles add nothing. */
  function Written(k: Markers, m: ChatMessage): string {
    if m.role == "system" || m.role == "user" || m.role == "assistant"
    then k.start + (RoleName(k, m.role) + (k.message + (m.content + (k.end + "\n"))))
    else ""
  }

  function RoleName(k: Markers, role: string): string {
    if role == "system" then k.system else if role == "user" then k.user else k.assistant
  }

  function FinalChannel(k: Markers): string { k.channel + "final" }

  function WrittenAll(k: Markers, messages: seq<ChatMessage>): string {
    if messages == [] then k.start + (k.assistant + (FinalChannel(k) + k.message))
    else Written(k, messages[0]) + WrittenAll(k, messages[1..])
  }

  /** A standard system message comes first unless the conversation has one of its own. */
  function WithSystem(messages: seq<ChatMessage>, standard: string): seq<ChatMessage> {
    if exists i :: 0 <= i < |messages| && messages[i].role == "system" then messages
    else [ChatMessage("system", standard)] + messages
  }

  /** `format_harmony`. */
  method FormatHarmony(k: Markers, messages: seq<ChatMessage>, standard: string) returns (prompt: string)
    ensures prompt == WrittenAll(k, WithSystem(messages, standard))
  {
    hide Written, WrittenAll;
    prompt := "";
    var hasSystem := exists i :: 0 <= i < |messages| && messages[i].role == "system";
    ghost var all := WithSystem(messages, standard);
    WrittenNext(k, all, 0);
    assert all[0..] == all && messages[0..] == messages;
    if !hasSystem {
      prompt := Written(k, ChatMessage("system", standard));
      assert all[1..] == messages;
    }
    for i := 0 to |messages|
      invariant prompt + WrittenAll(k, messages[i..]) == WrittenAll(k, all)
    {
      WrittenNext(k, messages, i);
      prompt := prompt + Written(k, messages[i]);
    }
    WrittenNext(k, messages, |messages|);
    prompt := prompt + (k.start + (k.assistant + (FinalChannel(k) + k.message)));
  }

  lemma WrittenNext(k: Markers, messages: seq<ChatMessage>, i: nat)
    requires i <= |messages|
    ensures WrittenAll(k, messages[i..]) ==
      if i < |messages| then Written(k, messages[i]) + WrittenAll(k, messages[i + 1..])
      else k.start + (k.assistant + (FinalChannel(k) + k.message))
  {
    hide Written;
    if i < |messages| { assert messages[i..][1..] == messages[i + 1..]; }
  }

  // ---------------------------------------------------------------- the transcript that is written

  function TranscriptOf(k: Markers, messages: seq<ChatMessage>, gap: string): Transcript {
    if messages == [] then OpenTurn(gap, Assistant, FinalChannel(k), "")
    else
      var m, rest := messages[0], messages[1..];
      if m.role == "system" then System(gap, k.system + (k.message + m.content), TranscriptOf(k, rest, "\n"))
      else if m.role == "user" then Turn(gap, User, "", m.content, TranscriptOf(k, rest, "\n"))
      else if m.role == "assistant" then Turn(gap, Assistant, "", m.content, TranscriptOf(k, rest, "\n"))
      else TranscriptOf(k, rest, gap)
  }

  lemma {:induction false} PromptIsPrinted(k: Markers, messages: seq<ChatMessage>, gap: string)
    ensures gap + WrittenAll(k, messages) == Print(k, TranscriptOf(k, messages, gap))
  {
    if messages == [] {
      assert k.message + "" == k.message;
    } else {
      var m, rest := messages[0], messages[1..];
      var t := TranscriptOf(k, messages, gap);
      if m.role == "system" || m.role == "user" || m.role == "assistant" {
        PromptIsPrinted(k, rest, "\n");
        Regroup(gap, k.start, RoleName(k, m.role), k.message, m.content, k.end, WrittenAll(k, rest));
      } else {
        PromptIsPrinted(k, rest, gap);
        assert "" + WrittenAll(k, rest) == WrittenAll(k, rest);
      }
    }
  }

  lemma Regroup(a: string, b: string, c: string, d: string, e: string, f: string, x: string)
    ensures a + ((b + (c + (d + (e + (f + "\n"))))) + x) == a + (b + (c + ("" + (d + (e + (f + ("\n" + x)))))))
    ensures a + ((b + (c + (d + (e + (f + "\n"))))) + x) == a + (b + ((c + (d + e)) + (f + ("\n" + x))))
  {
  }

  /** What the proofs use of the markers here. */
  predicate TemplateMarkers(k: Markers) {
    && Separated(k) && HeadersSeparated(k)
    && Apart(k.message, k.end) && !Contains("\n", k.start) && !Contains("", k.start)
    && ChannelOk(k, FinalChannel(k)) && !EndsWith(FinalChannel(k), UserStart(k))
  }

  predicate EndFree(k: Markers, messages: seq<ChatMessage>) {
    forall i :: 0 <= i < |messages| ==> !Contains(messages[i].content, k.end)
  }

  lemma SystemTextIsOpen(k: Markers, content: string)
    requires Separated(k) && Apart(k.message, k.end) && !Contains(content, k.end)
    ensures !Contains(k.system + (k.message + content), k.end)
  {
    hide Find, Contains;
    assert k.end != "" by { MarkersAreNotEmpty(k); }
    assert !Contains(k.message + content, k.end) by { PrefixHasNone(k.message, content, k.end); }
    PrefixHasNone(k.system, k.message + content, k.end);
  }

  lemma PrefixHasNone(p: string, s: string, q: string)
    requires Apart(p, q) && !Contains(s, q)
    ensures !Contains(p + s, q)
  {
    hide Find;
    var t := p + s;
    assert t[0..] == t;
    forall j: nat | j < |p|
      ensures !(q <= t[j..])
    {
      MismatchRulesOut(t, p, q, 0, j);
    }
    FindSkips(p, s, q);
  }

  lemma {:induction false} TranscriptIsWellFormed(k: Markers, messages: seq<ChatMessage>, gap: string)
    requires TemplateMarkers(k) && EndFree(k, messages) && !Contains(gap, k.start)
    ensures WellFormed(k, TranscriptOf(k, messages, gap))
  {
    hide Find, Separated, HeadersSeparated, Apart, Contains, EndsWith, ChannelOk;
    NoChannelIsOk(k);
    if messages == [] {
      NothingBeforeEnd(k);
    } else {
      var m := messages[0];
      TranscriptIsWellFormed(k, messages[1..], "\n");
      TranscriptIsWellFormed(k, messages[1..], gap);
      SystemTextIsOpen(k, m.content);
    }
  }

  lemma NothingBeforeEnd(k: Markers)
    requires Separated(k)
    ensures !Contains("", k.end)
  {
    MarkersAreNotEmpty(k);
    NothingIn(k.end);
  }

  // ---------------------------------------------------------------- reading it back

  /** The user and assistant messages that are not blank, trimmed. */
  function Conversation(messages: seq<ChatMessage>): seq<Said> {
    if messages == [] then []
    else
      var m, rest := messages[0], Conversation(messages[1..]);
      if Trim(m.content) == "" then rest
      else if m.role == "user" then [Said(User, Trim(m.content))] + rest
      else if m.role == "assistant" then [Said(Assistant, Trim(m.content))] + rest
      else rest
  }

  lemma {:induction false} TurnsOfTranscript(k: Markers, messages: seq<ChatMessage>, gap: string)
    ensures Turns(TranscriptOf(k, messages, gap)) == Conversation(messages)
  {
    hide Trim;
    if messages == [] {
      BlankIsNothing();
    } else {
      TurnsOfTranscript(k, messages[1..], "\n");
      TurnsOfTranscript(k, messages[1..], gap);
    }
  }

  lemma BlankIsNothing()
    ensures Trim("") == ""
  {
  }

  /** Parsing a written prompt gives back its conversation, in order. */
  lemma WrittenPromptIsRead(k: Markers, messages: seq<ChatMessage>, timestamp: nat)
    requires TemplateMarkers(k) && EndFree(k, messages)
    ensures Reads(Parse(k, WrittenAll(k, messages), timestamp), Conversation(messages), timestamp)
  {
    hide Parse, Print, TranscriptOf, WellFormed, Messages, Conversation, Contains, Separated, HeadersSeparated, Apart,
      ChannelOk, EndsWith, WrittenAll, Turns, Reads;
    var t := TranscriptOf(k, messages, "");
    PromptIsPrinted(k, messages, "");
    assert "" + WrittenAll(k, messages) == WrittenAll(k, messages);
    TranscriptIsWellFormed(k, messages, "");
    ParseOfPrint(k, t, timestamp);
    TurnsOfTranscript(k, messages, "");
  }

  /** What the user said last. */
  function LastSaidByUser(messages: seq<ChatMessage>): Option<string> {
    if messages == [] then None
    else
      var m := messages[|messages| - 1];
      if m.role == "user" && Trim(m.content) != "" then Some(Trim(m.content))
      else LastSaidByUser(messages[..|messages| - 1])
  }

  function UserSaid(m: ChatMessage): Option<string> {
    if m.role == "user" && Trim(m.content) != "" then Some(Trim(m.content)) else None
  }

  lemma {:induction false} LastSaidFromFront(messages: seq<ChatMessage>)
    requires messages != []
    ensures LastSaidByUser(messages) == Later(LastSaidByUser(messages[1..]), UserSaid(messages[0]))
  {
    hide Trim;
    if |messages| > 1 {
      LastSaidFromFront(messages[..|messages| - 1]);
      assert messages[..|messages| - 1][1..] == messages[1..][..|messages| - 2];
    }
  }

  lemma {:induction false} LastTurnOfTranscript(k: Markers, messages: seq<ChatMessage>, gap: string)
    ensures LastUserTurn(TranscriptOf(k, messages, gap)) == LastSaidByUser(messages)
  {
    hide Trim, LastSaidByUser;
    if messages == [] {
      NobodySaid();
    } else {
      LastTurnOfTranscript(k, messages[1..], "\n");
      LastTurnOfTranscript(k, messages[1..], gap);
      LastSaidFromFront(messages);
    }
  }

  lemma NobodySaid()
    ensures LastSaidByUser([]) == None
  {
  }

  /** No message but a user's carries a user header, and no user message is blank. */
  predicate QuoteFree(k: Markers, messages: seq<ChatMessage>) {
    forall i :: 0 <= i < |messages| ==>
      && (messages[i].role == "user" ==> Trim(messages[i].content) != "")
      && (messages[i].role == "assistant" ==> !Contains(messages[i].content, UserHeader(k)))
      && (messages[i].role == "system" ==> !Contains(k.system + (k.message + messages[i].content), UserHeader(k)))
  }

  lemma {:induction false} TranscriptIsPlain(k: Markers, messages: seq<ChatMessage>, gap: string)
    requires TemplateMarkers(k) && QuoteFree(k, messages)
    ensures IsPlain(k, TranscriptOf(k, messages, gap))
  {
    hide Find, Separated, HeadersSeparated, Apart, Contains, EndsWith, ChannelOk, UserHeader, Trim;
    if messages == [] {
      FinalIsPlain(k);
    } else {
      TranscriptIsPlain(k, messages[1..], "\n");
      TranscriptIsPlain(k, messages[1..], gap);
    }
  }

  lemma FinalIsPlain(k: Markers)
    requires TemplateMarkers(k)
    ensures PlainTurn(k, Assistant, FinalChannel(k), "")
  {
    hide Find, Separated, HeadersSeparated, Apart, EndsWith, ChannelOk, UserHeader;
    assert UserHeader(k) != "" by { HeaderIsNotEmpty(k); }
    NothingIn(UserHeader(k));
    assert FinalChannel(k) != "" by { assert FinalChannel(k)[|k.channel|] == 'f'; }
  }

  lemma HeaderIsNotEmpty(k: Markers)
    requires TemplateMarkers(k)
    ensures UserHeader(k) != ""
  {
    hide Apart, Find, EndsWith, ChannelOk;
  }

  /** And the scan gives the last user message, if no other message carries a user header. */
  lemma WrittenPromptShowsLastUser(k: Markers, messages: seq<ChatMessage>)
    requires TemplateMarkers(k) && EndFree(k, messages) && QuoteFree(k, messages)
    ensures LastSaidByUser(messages).Some? ==>
              LastUserMessage(k, WrittenAll(k, messages)) == LastSaidByUser(messages).value
  {
    hide Parse, Print, TranscriptOf, WellFormed, Messages, Conversation, Contains, Separated, HeadersSeparated, Apart,
      ChannelOk, EndsWith, WrittenAll, IsPlain, LastUserContent, LastUserMessage, UserHeader, Decompose, LastSaidByUser,
      LastUserTurn;
    var t := TranscriptOf(k, messages, "");
    PromptIsPrinted(k, messages, "");
    assert "" + WrittenAll(k, messages) == WrittenAll(k, messages);
    TranscriptIsWellFormed(k, messages, "");
    PrintDecomposes(k, t);
    TranscriptIsPlain(k, messages, "");
    ParseOfPrint(k, t, 0);
    LastUserOfMessages(t, 0);
    LastTurnOfTranscript(k, messages, "");
    PlainTextsAgree(k, WrittenAll(k, messages), 0);
  }

  /** A standard system block comes first exactly when the conversation has none, and the conversation follows whole. */
  lemma SystemComesFirst(k: Markers, messages: seq<ChatMessage>, standard: string)
    ensures var all := WrittenAll(k, WithSystem(messages, standard));
            if exists m :: m in messages && m.role == "system" then all == WrittenAll(k, messages)
            else all == k.start + k.system + k.message + standard + k.end + "\n" + WrittenAll(k, messages)
  {
    if exists m :: m in messages && m.role == "system" {
      var m :| m in messages && m.role == "system";
      var i :| 0 <= i < |messages| && messages[i] == m;
      assert messages[i].role == "system";
    } else {
      var all := WithSystem(messages, standard);
      assert forall i :: 0 <= i < |messages| ==> messages[i] in messages;
      assert all[1..] == messages && all[0] == ChatMessage("system", standard);
      hide WrittenAll, WithSystem;
      WrittenNext(k, all, 0);
      assert all[0..] == all;
    }
  }

  lemma HarmonyTemplate()
    ensures TemplateMarkers(HARMONY)
  {
    hide Find, Separated, HeadersSeparated, EndsWith, ChannelOk, Apart;
    HarmonyHeadersAreSeparated();
    NothingIn("<|start|>");
    Shorter("\n", "<|start|>");
    SharpApart("<|message|>", "<|end|>");
    FinalIsOk();
  }

  lemma FinalIsOk()
    ensures ChannelOk(HARMONY, FinalChannel(HARMONY)) && !EndsWith(FinalChannel(HARMONY), UserStart(HARMONY))
  {
    hide Find;
    var c, m := "<|channel|>final", "<|message|>";
    assert c == FinalChannel(HARMONY);
    forall j: nat | j <= |c|
      ensures !(m <= c[j..])
    {
      if j == 0 { CharRulesOut(c, m, 0, 2); } else if j < |c| { CharRulesOut(c, m, j, 0); }
    }
    HasNone(c, m);
    assert c[|c| - 1] == 'l' && UserStart(HARMONY)[|UserStart(HARMONY)| - 1] == 'r';
  }
}
