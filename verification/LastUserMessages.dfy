/**
 The scan of src/checkpoint/harmony.rs for the last user message, on every text: what it reports
 piece by piece of the transcript, and exactly when that is the parser's last user message.
 */
module LastUserMessages {
  import opened Common
  import opened Delta
  import opened Text
  import opened Harmony
  import opened HarmonyMessages

  function UserHeader(k: Markers): string {
    k.start + (k.user + k.message)
  }

  /** The scan for user headers: the trimmed text after the last one found, or `last` if there is none. */
  function LastUser(k: Markers, s: string, last: string): string
    requires Separated(k)
    decreases |s|
  {
    match Find(s, UserHeader(k))
    case None => last
    case Some(i) =>
      var c := s[i + |UserHeader(k)|..];
      match Find(c, k.end)
      case None => Trim(c)
      case Some(e) => LastUser(k, c[e..], Trim(c[..e]))
  }

  function LastUserMessage(k: Markers, prompt: string): string
    requires Separated(k)
  {
    var last := LastUser(k, prompt, "");
    if last != "" then last else Trim(prompt)
  }

  /** A start and `user`. */
  function UserStart(k: Markers): string { k.start + k.user }

  // ---------------------------------------------------------------- what the scan sees of a transcript

  predicate EndsWith(s: string, p: string) {
    |p| <= |s| && s[|s| - |p|..] == p
  }

  /** The text after the first user header. */
  function Quoted(k: Markers, text: string): string
    requires Contains(text, UserHeader(k))
  {
    text[Find(text, UserHeader(k)).value + |UserHeader(k)|..]
  }

  /** What a system block, or a body under a header the scan does not know, shows: what follows a user header in it. */
  function Quote(k: Markers, text: string): Option<string> {
    if Contains(text, UserHeader(k)) then Some(Trim(Quoted(k, text))) else None
  }

  /**
   The scan takes a turn for a user's: a user turn without a channel, or any turn whose channel ends
   in a start and `user`.
   */
  predicate Opens(k: Markers, role: Role, channel: string) {
    if channel == "" then role == User else EndsWith(channel, UserStart(k))
  }

  function ShownByTurn(k: Markers, role: Role, channel: string, body: string): Option<string> {
    if Opens(k, role, channel) then Some(Trim(body)) else Quote(k, body)
  }

  function Later(later: Option<string>, earlier: Option<string>): Option<string> {
    if later.Some? then later else earlier
  }

  /** The last text that the scan takes for a user's. */
  function LastShown(k: Markers, t: Transcript): Option<string> {
    match t
    case Plain(_) => None
    case OpenSystem(_, text) => Quote(k, text)
    case OpenTurn(_, role, channel, body) => ShownByTurn(k, role, channel, body)
    case System(_, text, rest) => Later(LastShown(k, rest), Quote(k, text))
    case Turn(_, role, channel, body, rest) => Later(LastShown(k, rest), ShownByTurn(k, role, channel, body))
    case StrayStart(_, rest) => LastShown(k, rest)
    case StrayRole(_, _, rest) => LastShown(k, rest)
  }

  function ValueOr(o: Option<string>, last: string): string {
    if o.Some? then o.value else last
  }

  /** What the proofs about the user header use of the markers. */
  predicate HeadersSeparated(k: Markers) {
    && Apart(UserHeader(k), k.end) && Apart(UserStart(k), k.message)
    && Apart(k.end, k.start) && Apart(k.message, k.start) && Apart(k.channel, k.start)
    && Apart(k.user, k.start) && Apart(k.assistant, k.start)
    && k.start != "" && !IsSpace(k.start[0])
  }

  const USER_HEADER: string := "<|start|>user<|message|>"

  lemma HarmonyUserHeader()
    ensures UserHeader(HARMONY) == USER_HEADER && UserStart(HARMONY) == "<|start|>user"
  {
  }

  lemma UserHeaderApartFromEnd()
    ensures Apart(USER_HEADER, "<|end|>") && Apart("<|start|>user", "<|message|>")
  {
    var u, e := USER_HEADER, "<|end|>";
    forall d: nat | d < |u|
      ensures Mismatch(u, e, d)
    {
      var x: nat := if d == 0 || d == 13 then 2 else 0;
      assert u[d + x] != e[x];
    }
    var su, m := "<|start|>user", "<|message|>";
    forall d: nat | d < |su|
      ensures Mismatch(su, m, d)
    {
      var x: nat := if d == 0 then 2 else 0;
      assert su[d + x] != m[x];
    }
  }

  /** A marker other than the start marker differs from it at the third character; a role has no '<'. */
  lemma MarkersApartFromStart()
    ensures Apart("<|end|>", "<|start|>") && Apart("<|message|>", "<|start|>") && Apart("<|channel|>", "<|start|>")
    ensures Apart("user", "<|start|>") && Apart("assistant", "<|start|>")
  {
    SharpApart("<|end|>", "<|start|>");
    SharpApart("<|message|>", "<|start|>");
    SharpApart("<|channel|>", "<|start|>");
    LetterApart("user", "<|start|>");
    LetterApart("assistant", "<|start|>");
  }

  lemma SharpApart(p: string, q: string)
    requires Sharp(p) && |p| > 2 && |q| > 2 && p[0] == q[0] && p[2] != q[2]
    ensures Apart(p, q)
  {
    forall d: nat | d < |p|
      ensures Mismatch(p, q, d)
    {
      var x: nat := if d == 0 then 2 else 0;
      assert p[d + x] != q[x];
    }
  }

  lemma LetterApart(p: string, q: string)
    requires |q| > 0 && forall i :: 0 <= i < |p| ==> p[i] != q[0]
    ensures Apart(p, q)
  {
    forall d: nat | d < |p|
      ensures Mismatch(p, q, d)
    {
      assert p[d + 0] != q[0];
    }
  }

  lemma HarmonyHeadersAreSeparated()
    ensures Separated(HARMONY) && HeadersSeparated(HARMONY)
  {
    hide Apart, Separated;
    HarmonyIsSeparated();
    HarmonyUserHeader();
    UserHeaderApartFromEnd();
    MarkersApartFromStart();
  }

  // ---------------------------------------------------------------- passing over text

  /** The scan passes over text in which no user header starts. */
  lemma SkipText(k: Markers, pre: string, s: string, last: string)
    requires Separated(k)
    requires forall j: nat :: j < |pre| ==> !(UserHeader(k) <= (pre + s)[j..])
    ensures LastUser(k, pre + s, last) == LastUser(k, s, last)
  {
    hide Find, Trim, Separated;
    FindSkips(pre, s, UserHeader(k));
    if Find(s, UserHeader(k)).Some? {
      var i := Find(s, UserHeader(k)).value + |UserHeader(k)|;
      assert (pre + s)[|pre| + i..] == s[i..];
    }
  }

  lemma HeaderStarts(k: Markers, x: string)
    requires UserHeader(k) <= x
    ensures k.start <= x && k.start + k.user <= x
    ensures |k.start + k.user| <= |x| && k.message <= x[|k.start + k.user|..]
  {
    var u := UserHeader(k);
    assert x == u + x[|u|..];
    assert x == (k.start + k.user) + (k.message + x[|u|..]);
    assert x == k.start + (k.user + (k.message + x[|u|..]));
  }

  /** No user header starts where no start marker does. */
  lemma SkipMarker(k: Markers, p: string, r: string, last: string)
    requires Separated(k) && Apart(p, k.start)
    ensures LastUser(k, p + r, last) == LastUser(k, r, last)
  {
    hide Find, Separated, UserHeader, LastUser;
    var s := p + r;
    assert s[0..] == s;
    forall j: nat | j < |p|
      ensures !(UserHeader(k) <= s[j..])
    {
      MismatchRulesOut(s, p, k.start, 0, j);
      if UserHeader(k) <= s[j..] { HeaderStarts(k, s[j..]); }
    }
    SkipText(k, p, r, last);
  }

  lemma NoHeaderInGap(k: Markers, gap: string, r: string, j: nat)
    requires Separated(k) && !Contains(gap, k.start) && j < |gap|
    ensures !(UserHeader(k) <= (gap + (k.start + r))[j..])
  {
    hide Find, UserHeader;
    var s := gap + (k.start + r);
    FindMarker(gap, k.start, r);
    NoneBefore(s, k.start, j);
    if UserHeader(k) <= s[j..] { HeaderStarts(k, s[j..]); }
  }

  lemma SkipGap(k: Markers, gap: string, r: string, last: string)
    requires Separated(k) && !Contains(gap, k.start)
    ensures LastUser(k, gap + (k.start + r), last) == LastUser(k, k.start + r, last)
  {
    hide Find, Separated, UserHeader, LastUser, Contains;
    forall j: nat | j < |gap|
      ensures !(UserHeader(k) <= (gap + (k.start + r))[j..])
    {
      NoHeaderInGap(k, gap, r, j);
    }
    SkipText(k, gap, k.start + r, last);
  }

  /** A start that `user` and the message marker do not follow is passed over. */
  lemma SkipStart(k: Markers, r: string, last: string)
    requires Separated(k) && !(k.user + k.message <= r)
    ensures LastUser(k, k.start + r, last) == LastUser(k, r, last)
  {
    hide Find, LastUser;
    var s, u := k.start + r, UserHeader(k);
    forall j: nat | j < |k.start|
      ensures !(u <= s[j..])
    {
      if j == 0 {
        NotAtFront(k, r);
        assert s[0..] == s;
      } else {
        assert s[j + 0] == k.start[j] && u[0] == k.start[0];
        CharRulesOut(s, u, j, 0);
      }
    }
    hide Separated;
    SkipText(k, k.start, r, last);
  }

  lemma NotAtFront(k: Markers, r: string)
    ensures UserHeader(k) <= k.start + r ==> k.user + k.message <= r
  {
    var s, u, n := k.start + r, UserHeader(k), |k.start|;
    if u <= s {
      assert s == u + s[|u|..];
      assert s[n..] == (k.user + k.message) + s[|u|..];
      assert s[n..] == r;
    }
  }

  // ---------------------------------------------------------------- taking text

  /** After a header, the text up to the end marker is taken. */
  lemma TakeClosed(k: Markers, body: string, r: string, last: string)
    requires Separated(k) && HeadersSeparated(k) && !Contains(body, k.end)
    ensures LastUser(k, UserHeader(k) + (body + (k.end + r)), last) == LastUser(k, r, Trim(body))
  {
    hide Find, UserHeader, Apart, Trim;
    HeaderAtFront(k, body + (k.end + r));
    UntilEnd(k, body, r);
    Drop(body, k.end + r);
    SkipMarker(k, k.end, r, Trim(body));
  }

  lemma TakeOpen(k: Markers, body: string, last: string)
    requires Separated(k) && !Contains(body, k.end)
    ensures LastUser(k, UserHeader(k) + body, last) == Trim(body)
  {
    hide Find, UserHeader, Trim;
    HeaderAtFront(k, body);
  }

  lemma HeaderAtFront(k: Markers, x: string)
    ensures Find(UserHeader(k) + x, UserHeader(k)) == Some(0) && (UserHeader(k) + x)[|UserHeader(k)|..] == x
  {
    hide UserHeader;
  }

  lemma NoHeaderInBody(k: Markers, body: string, r: string, j: nat)
    requires Separated(k) && Apart(UserHeader(k), k.end) && !Contains(body, UserHeader(k)) && j < |body|
    ensures !(UserHeader(k) <= (body + (k.end + r))[j..])
  {
    hide Find, Separated, UserHeader;
    var u := UserHeader(k);
    var s := body + (k.end + r);
    if j + |u| <= |body| {
      NoneBefore(body, u, j);
      OccurrenceInSlice(s, u, 0, |body|, j);
      assert s[0..|body|] == body;
    } else {
      Drop(body, k.end + r);
      MismatchRulesOutBefore(s, u, k.end, j, |body| - j);
    }
  }

  /** A text up to its end marker shows the scan what it quotes. */
  lemma ScanClosed(k: Markers, text: string, r: string, last: string)
    requires Separated(k) && HeadersSeparated(k) && !Contains(text, k.end)
    ensures LastUser(k, text + (k.end + r), last) == LastUser(k, r, ValueOr(Quote(k, text), last))
  {
    hide Find, Separated, UserHeader, LastUser, Apart, Trim;
    var u := UserHeader(k);
    if Contains(text, u) {
      var i := Find(text, u).value;
      var pre, body := text[..i], Quoted(k, text);
      SplitAtHeader(k, text, r);
      SkipText(k, pre, u + (body + (k.end + r)), last);
      SliceHasNone(text, k.end, i + |u|, |text|);
      assert text[i + |u|..|text|] == body;
      TakeClosed(k, body, r, last);
    } else {
      forall j: nat | j < |text|
        ensures !(u <= (text + (k.end + r))[j..])
      {
        NoHeaderInBody(k, text, r, j);
      }
      SkipText(k, text, k.end + r, last);
      SkipMarker(k, k.end, r, last);
    }
  }

  lemma SplitAtHeader(k: Markers, text: string, r: string)
    requires Contains(text, UserHeader(k))
    ensures var i, u := Find(text, UserHeader(k)).value, UserHeader(k);
      && text + (k.end + r) == text[..i] + (u + (Quoted(k, text) + (k.end + r)))
      && forall j: nat :: j < i ==> !(u <= (text[..i] + (u + (Quoted(k, text) + (k.end + r))))[j..])
  {
    hide Find, UserHeader;
    var u, s := UserHeader(k), text + (k.end + r);
    var i := Find(text, u).value;
    assert text == text[..i] + (u + Quoted(k, text)) by { Split(text, i, u); }
    assert s == text[..i] + (u + (Quoted(k, text) + (k.end + r)));
    forall j: nat | j < i
      ensures !(u <= s[j..])
    {
      NoneBefore(text, u, j);
      OccurrenceInSlice(s, u, 0, |text|, j);
      assert s[0..|text|] == text;
    }
  }

  /** The same for text without an end marker after it. */
  lemma ScanOpen(k: Markers, text: string, last: string)
    requires Separated(k) && !Contains(text, k.end)
    ensures LastUser(k, text, last) == ValueOr(Quote(k, text), last)
  {
    hide Find, Separated, UserHeader, Trim;
    var u := UserHeader(k);
    if Contains(text, u) {
      var i := Find(text, u).value + |u|;
      SliceHasNone(text, k.end, i, |text|);
      assert text[i..|text|] == text[i..];
    }
  }

  // ---------------------------------------------------------------- the head of a turn

  /**
   In a channel label and the message marker after it, a user header can start only where it ends
   with that marker.
   */
  lemma HeaderInLabel(k: Markers, tag: string, x: string, j: nat)
    requires Separated(k) && HeadersSeparated(k) && !Contains(tag, k.message) && j < |tag|
          && j + |UserStart(k)| != |tag|
    ensures !(UserHeader(k) <= (tag + (k.message + x))[j..])
  {
    hide Find, UserHeader, Contains;
    var s, q := tag + (k.message + x), j + |UserStart(k)|;
    FindMarker(tag, k.message, x);
    Drop(tag, k.message + x);
    if q < |tag| {
      NoneBefore(s, k.message, q);
      MessageInHeader(k, s, j);
    } else {
      MismatchLater(k, s, j, |tag| - j);
    }
  }

  lemma MessageInHeader(k: Markers, s: string, j: nat)
    requires j <= |s|
    ensures UserHeader(k) <= s[j..] ==> j + |UserStart(k)| <= |s| && k.message <= s[j + |UserStart(k)|..]
  {
    hide UserHeader;
    if UserHeader(k) <= s[j..] {
      HeaderStarts(k, s[j..]);
      assert s[j..][|UserStart(k)|..] == s[j + |UserStart(k)|..];
    }
  }

  lemma MismatchLater(k: Markers, s: string, j: nat, d: nat)
    requires j + d <= |s| && d < |UserStart(k)| && Apart(UserStart(k), k.message) && k.message <= s[j + d..]
    ensures !(UserHeader(k) <= s[j..])
  {
    hide UserHeader;
    MismatchRulesOutBefore(s, UserStart(k), k.message, j, d);
    if UserHeader(k) <= s[j..] { HeaderStarts(k, s[j..]); }
  }

  /** A label that does not end in a start and `user` is passed over with its message marker. */
  lemma SkipLabel(k: Markers, tag: string, x: string, last: string)
    requires Separated(k) && HeadersSeparated(k) && !Contains(tag, k.message) && !EndsWith(tag, UserStart(k))
    ensures LastUser(k, tag + (k.message + x), last) == LastUser(k, x, last)
  {
    hide Find, Separated, UserHeader, LastUser, Apart, Contains;
    var s := tag + (k.message + x);
    forall j: nat | j < |tag|
      ensures !(UserHeader(k) <= s[j..])
    {
      if j + |UserStart(k)| != |tag| {
        HeaderInLabel(k, tag, x, j);
      } else {
        HeaderEndsLabel(k, tag, x, j);
      }
    }
    SkipText(k, tag, k.message + x, last);
    SkipMarker(k, k.message, x, last);
  }

  lemma HeaderEndsLabel(k: Markers, tag: string, x: string, j: nat)
    requires j + |UserStart(k)| == |tag| && !EndsWith(tag, UserStart(k))
    ensures !(UserHeader(k) <= (tag + (k.message + x))[j..])
  {
    hide UserHeader;
    var s := tag + (k.message + x);
    assert s[j..][..|UserStart(k)|] == tag[j..];
    if UserHeader(k) <= s[j..] { HeaderStarts(k, s[j..]); }
  }

  /** A label that does end so makes, with the message marker, a user header. */
  lemma TakeLabel(k: Markers, tag: string, x: string, last: string)
    requires Separated(k) && HeadersSeparated(k) && !Contains(tag, k.message) && EndsWith(tag, UserStart(k))
    ensures LastUser(k, tag + (k.message + x), last) == LastUser(k, UserHeader(k) + x, last)
  {
    hide Find, Separated, LastUser, Apart, Contains;
    var n := |tag| - |UserStart(k)|;
    var pre, s := tag[..n], tag + (k.message + x);
    assert tag == pre + UserStart(k);
    assert s == pre + (UserHeader(k) + x);
    forall j: nat | j < n
      ensures !(UserHeader(k) <= s[j..])
    {
      HeaderInLabel(k, tag, x, j);
    }
    SkipText(k, pre, UserHeader(k) + x, last);
  }

  /** A channel ends in a start and `user` only if its label does. */
  lemma LabelDecides(k: Markers, tag: string)
    requires HeadersSeparated(k)
    ensures EndsWith(k.channel + tag, UserStart(k)) <==> EndsWith(tag, UserStart(k))
  {
    hide Apart;
    var c, su := k.channel + tag, UserStart(k);
    if |su| <= |tag| {
      assert c[|c| - |su|..] == tag[|tag| - |su|..];
    } else if |su| <= |c| {
      var p := |c| - |su|;
      assert c[0..] == c;
      UseApart(k.channel, k.start, p);
      MismatchRulesOut(c, k.channel, k.start, 0, p);
    }
  }

  lemma UseApart(p: string, q: string, d: nat)
    requires Apart(p, q) && d < |p|
    ensures Mismatch(p, q, d)
  {
  }

  /** The head of a turn, up to its body: passed over, or as good as a user header. */
  lemma ScanHead(k: Markers, gap: string, role: Role, channel: string, x: string, last: string)
    requires Separated(k) && HeadersSeparated(k) && !Contains(gap, k.start) && ChannelOk(k, channel)
    ensures LastUser(k, gap + (k.start + (Name(k, role) + (channel + (k.message + x)))), last)
         == LastUser(k, if Opens(k, role, channel) then UserHeader(k) + x else x, last)
  {
    hide Find, LastUser, Contains, Apart, Separated;
    SkipGap(k, gap, Name(k, role) + (channel + (k.message + x)), last);
    if channel == "" {
      assert channel + (k.message + x) == k.message + x;
      if role == User {
        assert k.start + (k.user + (k.message + x)) == UserHeader(k) + x;
      } else {
        RoleIsNotUser(k, k.message + x);
        SkipStart(k, k.assistant + (k.message + x), last);
        SkipMarker(k, k.assistant, k.message + x, last);
        SkipMarker(k, k.message, x, last);
      }
    } else {
      ScanChannel(k, role, channel, x, last);
    }
  }

  lemma ScanChannel(k: Markers, role: Role, channel: string, x: string, last: string)
    requires Separated(k) && HeadersSeparated(k) && channel != "" && ChannelOk(k, channel)
    ensures LastUser(k, k.start + (Name(k, role) + (channel + (k.message + x))), last)
         == LastUser(k, if Opens(k, role, channel) then UserHeader(k) + x else x, last)
  {
    hide Find, LastUser, Contains, Apart, Separated, UserHeader, EndsWith;
    var tag := channel[|k.channel|..];
    assert channel == k.channel + tag;
    var y := tag + (k.message + x);
    assert channel + (k.message + x) == k.channel + y;
    NoHeaderBeforeChannel(k, role, y);
    SkipStart(k, Name(k, role) + (k.channel + y), last);
    SkipMarker(k, Name(k, role), k.channel + y, last);
    SkipMarker(k, k.channel, y, last);
    LabelDecides(k, tag);
    SliceHasNone(channel, k.message, |k.channel|, |channel|);
    assert channel[|k.channel|..|channel|] == tag;
    if EndsWith(tag, UserStart(k)) { TakeLabel(k, tag, x, last); } else { SkipLabel(k, tag, x, last); }
  }

  lemma RoleIsNotUser(k: Markers, r: string)
    requires Separated(k)
    ensures !(k.user + k.message <= k.assistant + r)
  {
    var s, um := k.assistant + r, k.user + k.message;
    var x: nat :| 0 + x < |k.assistant| && x < |k.user| && k.assistant[0 + x] != k.user[x];
    assert s[0..] == s && s[0 + x] == k.assistant[x] && um[x] == k.user[x];
    CharRulesOut(s, um, 0, x);
  }

  lemma NoHeaderBeforeChannel(k: Markers, role: Role, y: string)
    requires Separated(k)
    ensures !(k.user + k.message <= Name(k, role) + (k.channel + y))
  {
    if role == User {
      var s, um, n := k.user + (k.channel + y), k.user + k.message, |k.user|;
      var x: nat :| 0 + x < |k.message| && x < |k.channel| && k.message[0 + x] != k.channel[x];
      assert s[0..] == s && s[0 + (n + x)] == k.channel[x] && um[n + x] == k.message[x];
      CharRulesOut(s, um, 0, n + x);
    } else {
      RoleIsNotUser(k, k.channel + y);
    }
  }

  // ---------------------------------------------------------------- the whole transcript

  /** The scan over any transcript, exactly: it returns the last text shown to it. */
  lemma {:induction false} LastUserOfPrint(k: Markers, t: Transcript, last: string)
    requires Separated(k) && HeadersSeparated(k) && WellFormed(k, t)
    ensures LastUser(k, Print(k, t), last) == ValueOr(LastShown(k, t), last)
  {
    hide Find, LastUser, Contains, Apart, Separated, HeadersSeparated, UserHeader, Opens, ChannelOk, Quote, Trim,
      StartsWithRole, NoMessageFollows;
    match t
    case Plain(text) =>
      ScanPlain(k, text, last);
    case OpenSystem(gap, text) =>
      ScanSystemHead(k, gap, text, text, last);
      ScanOpen(k, text, last);
    case OpenTurn(gap, role, channel, body) =>
      ScanHead(k, gap, role, channel, body, last);
      ScanOpen(k, body, last);
      TakeOpen(k, body, last);
    case System(gap, text, rest) =>
      var r := Print(k, rest);
      ScanSystemHead(k, gap, text, text + (k.end + r), last);
      ScanClosed(k, text, r, last);
      LastUserOfPrint(k, rest, ValueOr(Quote(k, text), last));
    case Turn(gap, role, channel, body, rest) =>
      var r := Print(k, rest);
      ScanHead(k, gap, role, channel, body + (k.end + r), last);
      ScanClosed(k, body, r, last);
      TakeClosed(k, body, r, last);
      LastUserOfPrint(k, rest, ValueOr(ShownByTurn(k, role, channel, body), last));
    case StrayStart(gap, rest) =>
      ScanStrayStart(k, gap, Print(k, rest), last);
      LastUserOfPrint(k, rest, last);
    case StrayRole(gap, role, rest) =>
      ScanStrayRole(k, gap, role, Print(k, rest), last);
      LastUserOfPrint(k, rest, last);
  }

  lemma ScanPlain(k: Markers, text: string, last: string)
    requires Separated(k) && !Contains(text, k.start)
    ensures LastUser(k, text, last) == last
  {
    hide Find, UserHeader, Trim;
    if Find(text, UserHeader(k)).Some? {
      var i := Find(text, UserHeader(k)).value;
      HeaderStarts(k, text[i..]);
      NoneBefore(text, k.start, i);
    }
  }

  lemma ScanSystemHead(k: Markers, gap: string, text: string, x: string, last: string)
    requires Separated(k) && !Contains(gap, k.start) && k.system <= text <= x
    ensures LastUser(k, gap + (k.start + x), last) == LastUser(k, x, last)
  {
    hide Find, LastUser, Contains;
    SkipGap(k, gap, x, last);
    var um := k.user + k.message;
    var i: nat :| 0 + i < |k.system| && i < |k.user| && k.system[0 + i] != k.user[i];
    assert x[0..] == x && x[0 + i] == k.system[i] && um[i] == k.user[i];
    CharRulesOut(x, um, 0, i);
    SkipStart(k, x, last);
  }

  lemma ScanStrayStart(k: Markers, gap: string, r: string, last: string)
    requires Separated(k) && !Contains(gap, k.start) && !StartsWithRole(k, r)
    ensures LastUser(k, gap + (k.start + r), last) == LastUser(k, r, last)
  {
    hide Find, LastUser, Contains, Separated;
    SkipGap(k, gap, r, last);
    PrefixOfPrefix(k.user, k.message, r);
    SkipStart(k, r, last);
  }

  lemma ScanStrayRole(k: Markers, gap: string, role: Role, r: string, last: string)
    requires Separated(k) && HeadersSeparated(k) && !Contains(gap, k.start) && NoMessageFollows(k, r)
    ensures LastUser(k, gap + (k.start + (Name(k, role) + r)), last) == LastUser(k, r, last)
  {
    hide Find, LastUser, Contains, Separated, Apart;
    SkipGap(k, gap, Name(k, role) + r, last);
    if role == User { NotAtFrontOfRole(k, r); } else { RoleIsNotUser(k, r); }
    SkipStart(k, Name(k, role) + r, last);
    SkipMarker(k, Name(k, role), r, last);
  }

  lemma NotAtFrontOfRole(k: Markers, r: string)
    ensures k.user + k.message <= k.user + r ==> k.message <= r
  {
    var s, um := k.user + r, k.user + k.message;
    if um <= s {
      assert s == um + s[|um|..];
      assert s[|k.user|..] == k.message + s[|um|..];
      assert s[|k.user|..] == r;
    }
  }

  lemma PrefixOfPrefix(p: string, q: string, r: string)
    ensures p + q <= r ==> p <= r
  {
    if p + q <= r { assert r == p + (q + r[|p + q|..]); }
  }

  // ---------------------------------------------------------------- agreement with the parser

  /** Content of the last user message. */
  function LastUserContent(msgs: seq<CheckpointMessage>): Option<string> {
    if msgs == [] then None
    else
      var last := msgs[|msgs| - 1];
      if last.role == User then Some(last.content) else LastUserContent(msgs[..|msgs| - 1])
  }

  lemma {:induction false} LastUserOfMore(a: seq<CheckpointMessage>, b: seq<CheckpointMessage>)
    ensures LastUserContent(a + b) == Later(LastUserContent(b), LastUserContent(a))
  {
    if b == [] {
      assert a + b == a;
    } else {
      assert (a + b)[..|a + b| - 1] == a + b[..|b| - 1];
      LastUserOfMore(a, b[..|b| - 1]);
    }
  }

  /** What a turn is to the parser. */
  function UserText(role: Role, body: string): Option<string> {
    if role == User && Trim(body) != "" then Some(Trim(body)) else None
  }

  /** The last user message, read off the transcript. */
  function LastUserTurn(t: Transcript): Option<string> {
    match t
    case Plain(_) => None
    case OpenSystem(_, _) => None
    case OpenTurn(_, role, _, body) => UserText(role, body)
    case System(_, _, rest) => LastUserTurn(rest)
    case Turn(_, role, _, body, rest) => Later(LastUserTurn(rest), UserText(role, body))
    case StrayStart(_, rest) => LastUserTurn(rest)
    case StrayRole(_, _, rest) => LastUserTurn(rest)
  }

  lemma {:induction false} LastUserOfMessages(t: Transcript, timestamp: nat)
    ensures LastUserContent(Messages(t, timestamp)) == LastUserTurn(t)
  {
    hide Trim;
    match t
    case Turn(_, role, _, body, rest) =>
      LastUserOfMessages(rest, timestamp);
      LastUserOfMore(MessageOf(role, body, timestamp), Messages(rest, timestamp));
      LastUserOfOne(role, body, timestamp);
    case OpenTurn(_, role, _, body) => LastUserOfOne(role, body, timestamp);
    case System(_, _, rest) => LastUserOfMessages(rest, timestamp);
    case StrayStart(_, rest) => LastUserOfMessages(rest, timestamp);
    case StrayRole(_, _, rest) => LastUserOfMessages(rest, timestamp);
    case _ =>
  }

  lemma LastUserOfOne(role: Role, body: string, timestamp: nat)
    ensures LastUserContent(MessageOf(role, body, timestamp)) == UserText(role, body)
  {
    hide Trim;
    var m := NewMessage(role, Trim(body), timestamp);
    assert [m][..0] == [] && LastUserContent([]) == None;
  }

  /** Trimming keeps everything between two characters that are not white space. */
  lemma TrimSpans(s: string, i: nat, j: nat)
    requires i < j <= |s| && !IsSpace(s[i]) && !IsSpace(s[j - 1])
    ensures |Trim(s)| >= j - i
  {
    hide IsSpace, TrimStart, TrimEnd;
    var t := TrimStart(s);
    var r := TrimEnd(t);
    assert |s| - |t| <= i;
    var last := j - 1 - (|s| - |t|);
    assert t[last] == s[j - 1];
    assert last < |r|;
  }

  lemma TrimOfMore(pre: string, s: string)
    ensures |Trim(pre + s)| >= |Trim(s)|
  {
    hide IsSpace, Trim;
    var i, j := TrimIsSlice(s);
    if i < j {
      assert Trim(s)[0] == s[i] && Trim(s)[j - i - 1] == s[j - 1];
      assert (pre + s)[|pre| + i] == s[i] && (pre + s)[|pre| + j - 1] == s[j - 1];
      TrimSpans(pre + s, |pre| + i, |pre| + j);
    }
  }

  /** A start marker before a text that is not blank survives trimming with it. */
  lemma TrimOfTurn(pre: string, start: string, head: string, body: string, rest: string)
    requires start != "" && !IsSpace(start[0]) && Trim(body) != ""
    ensures |Trim(pre + (start + (head + (body + rest))))| > |Trim(body)|
  {
    hide IsSpace, Trim;
    var s := pre + (start + (head + (body + rest)));
    var i, j := TrimIsSlice(body);
    var off := |pre| + |start| + |head|;
    assert Trim(body)[j - i - 1] == body[j - 1];
    assert s[off + j - 1] == body[j - 1];
    TrimSpans(s, |pre|, off + j);
  }

  /** A transcript with a user message is longer, trimmed, than that message. */
  lemma {:induction false} UserIsInside(k: Markers, t: Transcript)
    requires HeadersSeparated(k) && LastUserTurn(t).Some?
    ensures |Trim(Print(k, t))| > |LastUserTurn(t).value|
  {
    hide Trim, HeadersSeparated;
    match t
    case OpenTurn(gap, role, channel, body) => TurnIsInside(k, gap, role, channel, body, "", body);
    case System(gap, text, rest) =>
      UserIsInside(k, rest);
      TrimOfMore(gap + k.start + text + k.end, Print(k, rest));
      assert Print(k, t) == gap + k.start + text + k.end + Print(k, rest);
    case Turn(gap, role, channel, body, rest) =>
      var r := Print(k, rest);
      if LastUserTurn(rest).Some? {
        var head := gap + k.start + Name(k, role) + channel + k.message + body + k.end;
        UserIsInside(k, rest);
        TrimOfMore(head, r);
        RegroupTurn(gap, k.start, Name(k, role), channel, k.message, body, k.end, r);
      } else {
        TurnIsInside(k, gap, role, channel, body, k.end + r, body + (k.end + r));
      }
    case StrayStart(gap, rest) =>
      UserIsInside(k, rest);
      TrimOfMore(gap + k.start, Print(k, rest));
      assert Print(k, t) == gap + k.start + Print(k, rest);
    case StrayRole(gap, role, rest) =>
      UserIsInside(k, rest);
      TrimOfMore(gap + k.start + Name(k, role), Print(k, rest));
      assert Print(k, t) == gap + k.start + Name(k, role) + Print(k, rest);
  }

  lemma RegroupTurn(a: string, b: string, c: string, d: string, e: string, f: string, g: string, x: string)
    ensures a + (b + (c + (d + (e + (f + (g + x)))))) == (a + b + c + d + e + f + g) + x
  {
  }

  lemma TurnIsInside(k: Markers, gap: string, role: Role, channel: string, body: string, rest: string, x: string)
    requires HeadersSeparated(k) && Trim(body) != "" && x == body + rest
    ensures |Trim(gap + (k.start + (Name(k, role) + (channel + (k.message + x)))))| > |Trim(body)|
  {
    hide Trim, Apart;
    var head := Name(k, role) + (channel + k.message);
    TrimOfTurn(gap, k.start, head, body, rest);
    assert Name(k, role) + (channel + (k.message + x)) == head + (body + rest);
  }

  /**
   Every text whatsoever: where the parser finds a user message, the scan returns the last of
   them if and only if that is the last text shown to it.
   */
  lemma LastUserAgreesWithParser(k: Markers, prompt: string, timestamp: nat)
    requires Separated(k) && HeadersSeparated(k)
    ensures var shown := LastShown(k, Decompose(k, prompt));
            var user := LastUserContent(Parse(k, prompt, timestamp));
            && (user.Some? ==> (LastUserMessage(k, prompt) == user.value <==> shown == user))
            && LastUserMessage(k, prompt) == if shown.Some? && shown.value != "" then shown.value else Trim(prompt)
  {
    hide Print, Decompose, LastUser, LastShown, Messages, Separated, HeadersSeparated, Trim, WellFormed,
      LastUserContent, LastUserTurn;
    var t := Decompose(k, prompt);
    DecomposePrints(k, prompt);
    LastUserOfPrint(k, t, "");
    LastUserOfMessages(t, timestamp);
    if LastUserTurn(t).Some? {
      UserIsInside(k, t);
      UserTurnIsNotBlank(t);
    }
  }

  lemma {:induction false} UserTurnIsNotBlank(t: Transcript)
    ensures LastUserTurn(t).Some? ==> LastUserTurn(t).value != ""
  {
    hide Trim;
    match t
    case System(_, _, rest) => UserTurnIsNotBlank(rest);
    case Turn(_, _, _, _, rest) => UserTurnIsNotBlank(rest);
    case StrayStart(_, rest) => UserTurnIsNotBlank(rest);
    case StrayRole(_, _, rest) => UserTurnIsNotBlank(rest);
    case _ =>
  }

  // ---------------------------------------------------------------- plain transcripts

  /** The scan and the parser take the turn for the same thing. */
  predicate PlainTurn(k: Markers, role: Role, channel: string, body: string) {
    if role == User then Opens(k, role, channel) && Trim(body) != ""
    else !Opens(k, role, channel) && !Contains(body, UserHeader(k))
  }

  /** User turns have no channel and are not blank; nothing else carries a user header. */
  predicate IsPlain(k: Markers, t: Transcript) {
    match t
    case Plain(_) => true
    case OpenSystem(_, text) => !Contains(text, UserHeader(k))
    case OpenTurn(_, role, channel, body) => PlainTurn(k, role, channel, body)
    case System(_, text, rest) => !Contains(text, UserHeader(k)) && IsPlain(k, rest)
    case Turn(_, role, channel, body, rest) => PlainTurn(k, role, channel, body) && IsPlain(k, rest)
    case StrayStart(_, rest) => IsPlain(k, rest)
    case StrayRole(_, _, rest) => IsPlain(k, rest)
  }

  lemma {:induction false} PlainShowsUsers(k: Markers, t: Transcript)
    requires IsPlain(k, t)
    ensures LastShown(k, t) == LastUserTurn(t)
  {
    hide Trim, Contains, Opens, UserHeader;
    match t
    case System(_, _, rest) => PlainShowsUsers(k, rest);
    case Turn(_, _, _, _, rest) => PlainShowsUsers(k, rest);
    case StrayStart(_, rest) => PlainShowsUsers(k, rest);
    case StrayRole(_, _, rest) => PlainShowsUsers(k, rest);
    case _ =>
  }

  /** On plain texts, with system blocks, channels and open ends, the scan returns the parser's last user message. */
  lemma PlainTextsAgree(k: Markers, prompt: string, timestamp: nat)
    requires Separated(k) && HeadersSeparated(k) && IsPlain(k, Decompose(k, prompt))
    ensures var user := LastUserContent(Parse(k, prompt, timestamp));
            LastUserMessage(k, prompt) == if user.Some? then user.value else Trim(prompt)
  {
    hide Decompose, LastUser, LastShown, Messages, Separated, HeadersSeparated, Trim, LastUserContent, LastUserTurn,
      IsPlain;
    var t := Decompose(k, prompt);
    PlainShowsUsers(k, t);
    LastUserOfMessages(t, timestamp);
    UserTurnIsNotBlank(t);
    LastUserAgreesWithParser(k, prompt, timestamp);
  }

  // ---------------------------------------------------------------- how they come to disagree

  /** A user turn and one more turn. */
  function TwoTurns(c: string, role: Role, channel: string, body: string): Transcript {
    Turn("", User, "", c, Turn("", role, channel, body, Plain("")))
  }

  lemma ReadTranscript(k: Markers, t: Transcript, timestamp: nat)
    requires Separated(k) && HeadersSeparated(k) && WellFormed(k, t)
    ensures LastUserContent(Parse(k, Print(k, t), timestamp)) == LastUserTurn(t)
    ensures LastUser(k, Print(k, t), "") == ValueOr(LastShown(k, t), "")
  {
    hide Print, LastUser, LastShown, Separated, HeadersSeparated, WellFormed, Messages, Parse, LastUserContent,
      LastUserTurn;
    ParseOfPrint(k, t, timestamp);
    LastUserOfPrint(k, t, "");
    LastUserOfMessages(t, timestamp);
  }

  lemma TwoTurnsAreRead(k: Markers, c: string, role: Role, channel: string, body: string)
    requires Separated(k) && HeadersSeparated(k) && Trim(c) != "" && !Contains(c, k.end)
    requires ChannelOk(k, channel) && !Contains(body, k.end)
    ensures var prompt := Print(k, TwoTurns(c, role, channel, body));
            && LastUserContent(Parse(k, prompt, 0)) == Later(UserText(role, body), Some(Trim(c)))
            && LastUser(k, prompt, "") == ValueOr(ShownByTurn(k, role, channel, body), Trim(c))
  {
    hide Print, Find, Trim, LastUser, Separated, HeadersSeparated, ChannelOk, WellFormed, LastUserContent, Parse,
      LastShown, LastUserTurn;
    TwoTurnsShow(k, c, role, channel, body);
    ReadTranscript(k, TwoTurns(c, role, channel, body), 0);
  }

  lemma TwoTurnsShow(k: Markers, c: string, role: Role, channel: string, body: string)
    requires Separated(k) && Trim(c) != "" && !Contains(c, k.end) && ChannelOk(k, channel) && !Contains(body, k.end)
    ensures var t := TwoTurns(c, role, channel, body);
            && WellFormed(k, t)
            && LastShown(k, t) == Later(ShownByTurn(k, role, channel, body), Some(Trim(c)))
            && LastUserTurn(t) == Later(UserText(role, body), Some(Trim(c)))
  {
    hide Find, Trim, ChannelOk, ShownByTurn;
    var inner := Turn("", role, channel, body, Plain(""));
    NothingIn(k.start);
    NoChannelIsOk(k);
    assert LastShown(k, Plain("")) == None;
    assert LastShown(k, inner) == Later(LastShown(k, Plain("")), ShownByTurn(k, role, channel, body));
    assert WellFormed(k, inner);
    assert LastUserTurn(inner) == UserText(role, body);
    UserShows(k, c);
  }

  lemma UserShows(k: Markers, c: string)
    ensures ShownByTurn(k, User, "", c) == Some(Trim(c))
  {
  }

  /** A reply that begins with a quoted user header: the scan reports the quotation. */
  lemma QuotationMisleads(k: Markers, c: string, q: string)
    requires Separated(k) && HeadersSeparated(k) && Trim(c) != "" && !Contains(c, k.end)
    requires Trim(q) != "" && !Contains(UserHeader(k) + q, k.end)
    ensures var prompt := Print(k, TwoTurns(c, Assistant, "", UserHeader(k) + q));
            LastUserContent(Parse(k, prompt, 0)) == Some(Trim(c)) && LastUserMessage(k, prompt) == Trim(q)
  {
    hide Print, Find, Trim, LastUser, Separated, HeadersSeparated, UserHeader, Parse, LastUserContent;
    HeaderAtFront(k, q);
    NoChannelIsOk(k);
    assert Quoted(k, UserHeader(k) + q) == q;
    TwoTurnsAreRead(k, c, Assistant, "", UserHeader(k) + q);
  }

  /** A reply whose channel ends in a start and `user`: the scan reports the reply. */
  lemma ChannelMisleads(k: Markers, c: string, channel: string, b: string)
    requires Separated(k) && HeadersSeparated(k) && Trim(c) != "" && !Contains(c, k.end)
    requires channel != "" && ChannelOk(k, channel) && EndsWith(channel, UserStart(k)) && Trim(b) != ""
          && !Contains(b, k.end)
    ensures var prompt := Print(k, TwoTurns(c, Assistant, channel, b));
            LastUserContent(Parse(k, prompt, 0)) == Some(Trim(c)) && LastUserMessage(k, prompt) == Trim(b)
  {
    hide Print, Find, Trim, LastUser, Separated, HeadersSeparated, UserHeader, Parse, LastUserContent, ChannelOk,
      EndsWith;
    TwoTurnsAreRead(k, c, Assistant, channel, b);
  }

  /** A user turn in any other channel: the scan does not see it and reports the user message before it. */
  lemma ChannelHidesUser(k: Markers, c: string, channel: string, b: string)
    requires Separated(k) && HeadersSeparated(k) && Trim(c) != "" && !Contains(c, k.end)
    requires channel != "" && ChannelOk(k, channel) && !EndsWith(channel, UserStart(k))
    requires Trim(b) != "" && !Contains(b, k.end) && !Contains(b, UserHeader(k))
    ensures var prompt := Print(k, TwoTurns(c, User, channel, b));
            LastUserContent(Parse(k, prompt, 0)) == Some(Trim(b)) && LastUserMessage(k, prompt) == Trim(c)
  {
    hide Print, Find, Trim, LastUser, Separated, HeadersSeparated, UserHeader, Parse, LastUserContent, ChannelOk,
      EndsWith;
    TwoTurnsAreRead(k, c, User, channel, b);
  }

  /** A blank user turn last: the parser passes over it, the scan forgets what it had and returns the whole prompt. */
  lemma BlankUserHidesLast(k: Markers, c: string)
    requires Separated(k) && HeadersSeparated(k) && Trim(c) != "" && !Contains(c, k.end)
    ensures var prompt := Print(k, TwoTurns(c, User, "", ""));
            && LastUserContent(Parse(k, prompt, 0)) == Some(Trim(c))
            && LastUserMessage(k, prompt) == Trim(prompt) && LastUserMessage(k, prompt) != Trim(c)
  {
    hide Print, Find, LastUser, Separated, HeadersSeparated, UserHeader, Parse, LastUserContent, TrimStart,
      LastUserTurn;
    var t := TwoTurns(c, User, "", "");
    MarkersAreNotEmpty(k);
    NothingIn(k.end);
    NoChannelIsOk(k);
    assert Trim("") == "" by { TrimKeepsTrimmed(""); }
    TwoTurnsAreRead(k, c, User, "", "");
    TwoTurnsShow(k, c, User, "", "");
    UserIsInside(k, t);
  }

  /**
   With the Harmony markers: "a" from the user, then a reply quoting a user header and "b", or "b"
   from the user in a channel.
   */
  lemma HarmonyTextsDisagree()
    ensures Separated(HARMONY)
    ensures var quoting := Print(HARMONY, TwoTurns("a", Assistant, "", USER_HEADER + "b"));
            LastUserContent(Parse(HARMONY, quoting, 0)) == Some("a") && LastUserMessage(HARMONY, quoting) == "b"
    ensures var hidden := Print(HARMONY, TwoTurns("a", User, "<|channel|>x", "b"));
            LastUserContent(Parse(HARMONY, hidden, 0)) == Some("b") && LastUserMessage(HARMONY, hidden) == "a"
  {
    hide *;
    HarmonyHeadersAreSeparated();
    HarmonyUserHeader();
    Letters();
    QuoteOfB();
    ChannelX();
    QuotationMisleads(HARMONY, "a", "b");
    ChannelHidesUser(HARMONY, "a", "<|channel|>x", "b");
  }

  lemma Letters()
    ensures Trim("a") == "a" && Trim("b") == "b"
    ensures !Contains("a", HARMONY.end) && !Contains("b", HARMONY.end) && !Contains("b", UserHeader(HARMONY))
  {
    hide Find, Trim, UserHeader;
    TrimKeepsTrimmed("a");
    TrimKeepsTrimmed("b");
    Shorter("a", HARMONY.end);
    Shorter("b", HARMONY.end);
    HarmonyUserHeader();
    Shorter("b", USER_HEADER);
  }

  lemma Shorter(s: string, p: string)
    requires |s| < |p|
    ensures !Contains(s, p)
  {
    hide Find;
    HasNone(s, p);
  }

  lemma QuoteOfB()
    ensures !Contains(USER_HEADER + "b", HARMONY.end)
  {
    hide Apart, Find;
    var u, e := USER_HEADER, "<|end|>";
    var a := u + "b";
    UserHeaderApartFromEnd();
    assert a[0..] == a && |a| == 25;
    forall j: nat | j <= |a|
      ensures !(e <= a[j..])
    {
      if j < |u| {
        UseApart(u, e, j);
        MismatchRulesOut(a, u, e, 0, j);
      }
    }
    HasNone(a, e);
  }

  lemma ChannelX()
    ensures ChannelOk(HARMONY, "<|channel|>x") && !EndsWith("<|channel|>x", UserStart(HARMONY))
  {
    hide Find;
    var c, m := "<|channel|>x", "<|message|>";
    assert c == HARMONY.channel + "x";
    forall j: nat | j <= |c|
      ensures !(m <= c[j..])
    {
      if j == 0 { CharRulesOut(c, m, 0, 2); } else if j == 1 { CharRulesOut(c, m, 1, 0); }
    }
    HasNone(c, m);
    HarmonyUserHeader();
  }

  // ---------------------------------------------------------------- the scanner as a loop

  /** `extract_last_user_message`: the loop keeps the last user text found so far. */
  method ExtractLastUserMessage(k: Markers, prompt: string) returns (r: string)
    requires Separated(k)
    ensures r == LastUserMessage(k, prompt)
  {
    hide Find, Trim;
    var header := k.start + (k.user + k.message);
    var lastUserContent := "";
    var searchPos := 0;
    assert prompt[0..] == prompt;
    while searchPos <= |prompt|
      invariant 0 <= searchPos <= |prompt|
      invariant LastUser(k, prompt[searchPos..], lastUserContent) == LastUser(k, prompt, "")
      decreases |prompt| - searchPos
    {
      var found := Find(prompt[searchPos..], header);
      if found.None? {
        break;
      }
      var absStart := searchPos + found.value + |header|;
      assert prompt[absStart..] == prompt[searchPos..][found.value + |header|..];
      var end := Find(prompt[absStart..], k.end);
      if end.Some? {
        lastUserContent := Trim(prompt[absStart..absStart + end.value]);
        assert prompt[absStart..][..end.value] == prompt[absStart..absStart + end.value];
        searchPos := absStart + end.value;
        assert prompt[searchPos..] == prompt[absStart..][end.value..];
      } else {
        lastUserContent := Trim(prompt[absStart..]);
        break;
      }
    }
    r := if lastUserContent != "" then lastUserContent else Trim(prompt);
  }
}
