/** The chat session store of src/store/chatStore.ts: an input box, an append-only
    transcript and busy flags, changed by the actions sendMessage, uploadFile and
    clearMessageList.

    The pure functions below say what each action does to a snapshot of the store;
    the class ChatStore holds the same fields and its methods update them in place,
    each proved to agree with its function. */
module Chat {
  import JsString
  import JsNumber

  datatype Option<T> = None | Some(value: T)

  /** The `type` of a message, 'text' or 'file' (`type` is a keyword here, so the
      field that holds it is called kind). */
  datatype MessageKind = Text | File

  /** One transcript entry. The id is the decimal form of a clock reading, the
      timestamp a clock reading in milliseconds. */
  datatype Message = Message(id: string, content: string, isUser: bool, timestamp: nat, kind: MessageKind)

  /** The two readings of Date.now() taken while one message is built: the one its id
      is formatted from and the one stored as its timestamp. */
  datatype ClockReadings = ClockReadings(forId: nat, forTimestamp: nat)

  /** Which branch of the try statement around the await finishes the action:
      Resolved runs the try block to its end and appends the templated reply;
      Rejected stands for anything thrown there, after which the catch branch appends
      the apology. The simulated delay at chatStore.ts line 48 never rejects, so in
      the code as written only Resolved occurs; the comment at line 47 expects a real
      request in its place, and that one can fail. */
  datatype Outcome = Resolved | Rejected

  /** The store's fields at one moment. */
  datatype StoreState = StoreState(
    inputValue: string,
    messageList: seq<Message>,
    isGenerating: bool,
    showSidebar: bool,
    isUploading: bool)

  /** A send that got past the blank check and is suspended at the await: the trimmed
      text it sent and the store as it is while the reply is pending. */
  datatype Pending = Pending(content: string, state: StoreState)

  /** The simulated reply wraps the user's text in this fixed template. */
  const ReplyPrefix: string := "已收到你的消息：\""
  const ReplySuffix: string := "\"（这是 AI 模拟回复）"

  /** The assistant's text when the reply fails. */
  const Apology: string := "抱歉，回复失败，请重试～"

  /** The store when it is created. */
  function InitialState(): StoreState {
    StoreState("", [], false, false, false)
  }

  /** The message sendMessage appends for the user's own text. */
  function UserMessage(content: string, at: ClockReadings): Message {
    Message(JsNumber.ToDecimal(at.forId), content, true, at.forTimestamp, Text)
  }

  /** The assistant's text: the template around the user's text, or the apology. */
  function ReplyContent(content: string, outcome: Outcome): string {
    match outcome
    case Resolved => ReplyPrefix + content + ReplySuffix
    case Rejected => Apology
  }

  /** The message sendMessage appends once the reply settles; its id is the clock
      plus one on success and plus two on failure. */
  function ReplyMessage(content: string, outcome: Outcome, at: ClockReadings): Message {
    var offset := if outcome == Resolved then 1 else 2;
    Message(JsNumber.ToDecimal(at.forId + offset), ReplyContent(content, outcome), false, at.forTimestamp, Text)
  }

  /** Reads the user's text back out of a successful reply, if the string has the
      template's shape. */
  function QuotedContent(reply: string): (r: Option<string>)
    ensures r.Some? ==> ReplyContent(r.value, Resolved) == reply
  {
    if |reply| >= |ReplyPrefix| + |ReplySuffix|
       && reply[..|ReplyPrefix|] == ReplyPrefix
       && reply[|reply| - |ReplySuffix|..] == ReplySuffix
    then
      var c := reply[|ReplyPrefix|..|reply| - |ReplySuffix|];
      assert reply == ReplyPrefix + c + ReplySuffix;
      Some(c)
    else
      None
  }

  /** A successful reply carries the user's text whole, and can be told apart from
      the apology. */
  lemma ReplyRecoversContent(content: string)
    ensures QuotedContent(ReplyContent(content, Resolved)) == Some(content)
    ensures QuotedContent(ReplyContent(content, Rejected)) == None
  {
  }

  /** sendMessage up to its await (chatStore.ts lines 28-44): a blank input ends the
      action; otherwise the trimmed text is appended as a user message, the input box
      is cleared and the store is marked as generating. */
  function Submit(s: StoreState, userAt: ClockReadings): Option<Pending> {
    var content := JsString.Trim(s.inputValue);
    if content == [] then
      None
    else
      Some(Pending(content, s.(messageList := s.messageList + [UserMessage(content, userAt)],
                               inputValue := "", isGenerating := true)))
  }

  /** sendMessage after its await (chatStore.ts lines 46-71): the reply or the
      apology is appended, and the finally block lowers the generating flag. */
  function Settle(p: Pending, outcome: Outcome, replyAt: ClockReadings): StoreState {
    p.state.(messageList := p.state.messageList + [ReplyMessage(p.content, outcome, replyAt)],
             isGenerating := false)
  }

  /** The whole of sendMessage: Submit, then, unless the input was blank, Settle. */
  function Send(s: StoreState, outcome: Outcome, userAt: ClockReadings, replyAt: ClockReadings): StoreState {
    match Submit(s, userAt)
    case None => s
    case Some(p) => Settle(p, outcome, replyAt)
  }

  /** Up to the await, the action stops exactly when the input is blank. Otherwise it
      appends one user text message holding the trimmed input behind the old entries,
      empties the input box and raises isGenerating for as long as the reply is
      pending; the sidebar and upload flags are untouched. */
  lemma SubmitEffect(s: StoreState, userAt: ClockReadings)
    ensures Submit(s, userAt).None? <==> JsString.IsBlank(s.inputValue)
    ensures Submit(s, userAt).Some? ==>
      var p := Submit(s, userAt).value;
      var n := |s.messageList|;
      p.content == JsString.Trim(s.inputValue) && p.content != []
      && |p.state.messageList| == n + 1
      && p.state.messageList[..n] == s.messageList
      && p.state.messageList[n] == UserMessage(p.content, userAt)
      && p.state.messageList[n].content == p.content
      && p.state.messageList[n].isUser && p.state.messageList[n].kind == Text
      && p.state.inputValue == ""
      && p.state.isGenerating
      && p.state.showSidebar == s.showSidebar && p.state.isUploading == s.isUploading
  {
    JsString.TrimEmptyIffBlank(s.inputValue);
    var content := JsString.Trim(s.inputValue);
    if content != [] {
      var list := s.messageList + [UserMessage(content, userAt)];
      assert list[..|s.messageList|] == s.messageList;
    }
  }

  /** After the await, exactly one assistant text message is appended behind the old
      entries: the templated reply on success, the apology on failure. isGenerating
      ends lowered on both paths and nothing else changes. */
  lemma SettleEffect(p: Pending, outcome: Outcome, replyAt: ClockReadings)
    ensures var t := Settle(p, outcome, replyAt);
      var n := |p.state.messageList|;
      |t.messageList| == n + 1
      && t.messageList[..n] == p.state.messageList
      && t.messageList[n] == ReplyMessage(p.content, outcome, replyAt)
      && !t.messageList[n].isUser && t.messageList[n].kind == Text
      && t.messageList[n].content == ReplyContent(p.content, outcome)
      && !t.isGenerating
      && t.inputValue == p.state.inputValue
      && t.showSidebar == p.state.showSidebar && t.isUploading == p.state.isUploading
  {
  }

  /** sendMessage as a whole. A blank input changes nothing. Otherwise the transcript
      grows by exactly two entries, the user's trimmed text and then an assistant
      message with the reply or the apology; the input box ends empty and
      isGenerating ends lowered. Either way the old transcript is a prefix of the new
      one and the sidebar and upload flags are untouched. */
  lemma {:induction false} SendEffect(s: StoreState, outcome: Outcome, userAt: ClockReadings, replyAt: ClockReadings)
    ensures JsString.IsBlank(s.inputValue) ==> Send(s, outcome, userAt, replyAt) == s
    ensures !JsString.IsBlank(s.inputValue) ==>
      var t := Send(s, outcome, userAt, replyAt);
      var n := |s.messageList|;
      |t.messageList| == n + 2
      && t.messageList[n] == UserMessage(JsString.Trim(s.inputValue), userAt)
      && t.messageList[n + 1] == ReplyMessage(JsString.Trim(s.inputValue), outcome, replyAt)
      && t.messageList[n].isUser && t.messageList[n].kind == Text
      && t.messageList[n].content == JsString.Trim(s.inputValue)
      && !t.messageList[n + 1].isUser && t.messageList[n + 1].kind == Text
      && t.messageList[n + 1].content == ReplyContent(JsString.Trim(s.inputValue), outcome)
      && t.inputValue == ""
      && !t.isGenerating
    ensures s.messageList <= Send(s, outcome, userAt, replyAt).messageList
    ensures Send(s, outcome, userAt, replyAt).showSidebar == s.showSidebar
    ensures Send(s, outcome, userAt, replyAt).isUploading == s.isUploading
  {
    SubmitEffect(s, userAt);
    if !JsString.IsBlank(s.inputValue) {
      var p := Submit(s, userAt).value;
      SettleEffect(p, outcome, replyAt);
      var t := Settle(p, outcome, replyAt);
      var n := |s.messageList|;
      assert t.messageList[..n + 1] == p.state.messageList;
      assert t.messageList[..n] == p.state.messageList[..n];
    }
  }

  /** clearMessageList (chatStore.ts lines 79-81): the transcript is emptied. */
  function Cleared(s: StoreState): StoreState {
    s.(messageList := [])
  }

  /** Clearing empties the transcript, keeps the input box and every flag, and
      clearing again changes nothing more. */
  lemma ClearIdempotent(s: StoreState)
    ensures Cleared(s).messageList == []
    ensures Cleared(s).inputValue == s.inputValue
    ensures Cleared(s).isGenerating == s.isGenerating && Cleared(s).showSidebar == s.showSidebar
    ensures Cleared(s).isUploading == s.isUploading
    ensures Cleared(Cleared(s)) == Cleared(s)
  {
  }

  /** The id of a user message and that of the reply in the same send differ when
      the clock has not gone backwards between the two readings: the reply's id is
      its reading plus one or two. */
  lemma ReplyIdDiffers(content: string, outcome: Outcome, userAt: ClockReadings, replyAt: ClockReadings)
    requires userAt.forId <= replyAt.forId
    ensures UserMessage(content, userAt).id != ReplyMessage(content, outcome, replyAt).id
  {
    var offset := if outcome == Resolved then 1 else 2;
    JsNumber.ToDecimalInjective(userAt.forId, replyAt.forId + offset);
  }

  /** The ids of the two messages one send appends differ as long as the clock has
      not gone backwards between them. Across sends nothing of the kind holds (see
      IdsCanCollide). */
  lemma SendIdsDistinct(s: StoreState, outcome: Outcome, userAt: ClockReadings, replyAt: ClockReadings)
    requires !JsString.IsBlank(s.inputValue)
    requires userAt.forId <= replyAt.forId
    ensures var t := Send(s, outcome, userAt, replyAt);
      var n := |s.messageList|;
      |t.messageList| == n + 2 && t.messageList[n].id != t.messageList[n + 1].id
  {
    SendEffect(s, outcome, userAt, replyAt);
    ReplyIdDiffers(JsString.Trim(s.inputValue), outcome, userAt, replyAt);
  }

  /** The ids are the clock readings written in decimal, so each can be read back:
      the user's reading, and the reply's reading plus one on success or plus two on
      failure. */
  lemma IdsAreClockReadings(content: string, outcome: Outcome, userAt: ClockReadings, replyAt: ClockReadings)
    ensures JsNumber.IsDigits(UserMessage(content, userAt).id)
    ensures JsNumber.ValueOf(UserMessage(content, userAt).id) == userAt.forId
    ensures JsNumber.IsDigits(ReplyMessage(content, outcome, replyAt).id)
    ensures JsNumber.ValueOf(ReplyMessage(content, outcome, replyAt).id)
            == replyAt.forId + (if outcome == Resolved then 1 else 2)
  {
    JsNumber.ValueOfToDecimal(userAt.forId);
    JsNumber.ValueOfToDecimal(replyAt.forId + (if outcome == Resolved then 1 else 2));
  }

  /** Blanks around the text are dropped before it is sent: with "  hello  " in the
      input box the user message reads "hello" and the transcript grows by two. */
  lemma SendTrimsPaddedInput(s: StoreState, outcome: Outcome, userAt: ClockReadings, replyAt: ClockReadings)
    requires s.inputValue == "  hello  "
    ensures var t := Send(s, outcome, userAt, replyAt);
      |t.messageList| == |s.messageList| + 2 && t.messageList[|s.messageList|].content == "hello"
  {
    SendEffect(s, outcome, userAt, replyAt);
    JsString.TrimPadded("  ", "hello", "  ");
    assert "  " + "hello" + "  " == s.inputValue;
    assert !JsString.IsWhitespace(s.inputValue[2]);
  }

  /** Clearing while a reply is pending (clearMessageList runs during the await) does
      not stop the reply: it is appended to the emptied transcript, which ends up
      holding the reply alone. */
  lemma ClearDuringAwait(p: Pending, outcome: Outcome, replyAt: ClockReadings)
    ensures Settle(Pending(p.content, Cleared(p.state)), outcome, replyAt).messageList
            == [ReplyMessage(p.content, outcome, replyAt)]
  {
  }

  /** No two messages of the transcript share an id. */
  predicate IdsDistinct(list: seq<Message>) {
    forall i, j :: 0 <= i < j < |list| ==> list[i].id != list[j].id
  }

  /** The ids are not unique, although the comments at chatStore.ts lines 6 and 33
      call them so: when the next message is sent while the clock reads the last
      reply's reading plus one (plus two after an apology), its id is the reply's. */
  lemma IdsCanCollide(s: StoreState, next: string, outcome: Outcome, userAt: ClockReadings,
                      t: nat, a: nat, nextOutcome: Outcome, b: nat, nextReplyAt: ClockReadings)
    requires !JsString.IsBlank(s.inputValue) && !JsString.IsBlank(next)
    ensures var s1 := Send(s, outcome, userAt, ClockReadings(t, a));
      var s2 := Send(s1.(inputValue := next), nextOutcome,
                     ClockReadings(t + (if outcome == Resolved then 1 else 2), b), nextReplyAt);
      !IdsDistinct(s2.messageList)
  {
    var s1 := Send(s, outcome, userAt, ClockReadings(t, a));
    var u2 := ClockReadings(t + (if outcome == Resolved then 1 else 2), b);
    SendEffect(s, outcome, userAt, ClockReadings(t, a));
    SendEffect(s1.(inputValue := next), nextOutcome, u2, nextReplyAt);
    var s2 := Send(s1.(inputValue := next), nextOutcome, u2, nextReplyAt);
    var n := |s.messageList|;
    assert s2.messageList[n + 1] == s1.messageList[n + 1];
    assert s2.messageList[n + 1].id == s2.messageList[n + 2].id;
  }

  /** The number a message id denotes, 0 for an id that is not a decimal numeral. */
  function IdValue(m: Message): nat {
    if JsNumber.IsDigits(m.id) then JsNumber.ValueOf(m.id) else 0
  }

  /** The largest number any id of the transcript denotes (0 for none). */
  function MaxIdValue(list: seq<Message>): (r: nat)
    ensures forall k :: 0 <= k < |list| ==> IdValue(list[k]) <= r
    decreases |list|
  {
    if list == [] then 0
    else
      var rest := MaxIdValue(list[..|list| - 1]);
      var last := IdValue(list[|list| - 1]);
      assert forall k :: 0 <= k < |list| - 1 ==> list[k] == list[..|list| - 1][k];
      if last > rest then last else rest
  }

  /** The corrected id: the message's clock-based id, moved past every id already in
      the transcript when it would clash. */
  function Restamp(list: seq<Message>, m: Message): Message {
    var v := IdValue(m);
    var max := MaxIdValue(list);
    m.(id := JsNumber.ToDecimal(if v > max then v else max + 1))
  }

  /** A restamped id is new to the transcript. */
  lemma RestampFresh(list: seq<Message>, m: Message)
    ensures forall k :: 0 <= k < |list| ==> list[k].id != Restamp(list, m).id
  {
    var v := IdValue(m);
    var max := MaxIdValue(list);
    JsNumber.ValueOfToDecimal(if v > max then v else max + 1);
  }

  /** Restamping changes nothing while the clock runs ahead of every id in use: a
      message whose reading is past them all keeps its clock-based id. */
  lemma RestampKeepsFreshReading(list: seq<Message>, c: string, outcome: Outcome, userAt: ClockReadings, replyAt: ClockReadings)
    ensures userAt.forId > MaxIdValue(list) ==> Restamp(list, UserMessage(c, userAt)) == UserMessage(c, userAt)
    ensures replyAt.forId + (if outcome == Resolved then 1 else 2) > MaxIdValue(list)
            ==> Restamp(list, ReplyMessage(c, outcome, replyAt)) == ReplyMessage(c, outcome, replyAt)
  {
    JsNumber.ValueOfToDecimal(userAt.forId);
    JsNumber.ValueOfToDecimal(replyAt.forId + (if outcome == Resolved then 1 else 2));
  }

  /** Appending a message whose id is new keeps the ids distinct. */
  lemma AppendFreshId(list: seq<Message>, m: Message)
    requires IdsDistinct(list)
    requires forall k :: 0 <= k < |list| ==> list[k].id != m.id
    ensures IdsDistinct(list + [m])
  {
    var l := list + [m];
    forall i, j | 0 <= i < j < |l| ensures l[i].id != l[j].id {
      assert l[i] == list[i];
    }
  }

  /** sendMessage with the corrected ids: the same two messages as Send, each
      restamped against the transcript it joins. */
  function SendFresh(s: StoreState, outcome: Outcome, userAt: ClockReadings, replyAt: ClockReadings): StoreState {
    match Submit(s, userAt)
    case None => s
    case Some(p) =>
      var user := Restamp(s.messageList, UserMessage(p.content, userAt));
      var list := s.messageList + [user];
      var reply := Restamp(list, ReplyMessage(p.content, outcome, replyAt));
      p.state.(messageList := list + [reply], isGenerating := false)
  }

  /** With the corrected ids, a transcript whose ids are distinct keeps them distinct
      through every send, whatever the clock reads. */
  lemma SendFreshKeepsIdsDistinct(s: StoreState, outcome: Outcome, userAt: ClockReadings, replyAt: ClockReadings)
    requires IdsDistinct(s.messageList)
    ensures IdsDistinct(SendFresh(s, outcome, userAt, replyAt).messageList)
  {
    match Submit(s, userAt)
    case None =>
    case Some(p) =>
      var user := Restamp(s.messageList, UserMessage(p.content, userAt));
      RestampFresh(s.messageList, UserMessage(p.content, userAt));
      AppendFreshId(s.messageList, user);
      var list := s.messageList + [user];
      RestampFresh(list, ReplyMessage(p.content, outcome, replyAt));
      AppendFreshId(list, Restamp(list, ReplyMessage(p.content, outcome, replyAt)));
  }

  /** The corrected send differs from Send in the two new ids alone. */
  lemma SendFreshOnlyRestamps(s: StoreState, outcome: Outcome, userAt: ClockReadings, replyAt: ClockReadings)
    ensures var t := SendFresh(s, outcome, userAt, replyAt);
      var u := Send(s, outcome, userAt, replyAt);
      |t.messageList| == |u.messageList|
      && (forall k :: 0 <= k < |t.messageList| ==> t.messageList[k].(id := "") == u.messageList[k].(id := ""))
      && t.(messageList := []) == u.(messageList := [])
  {
    match Submit(s, userAt)
    case None =>
    case Some(p) =>
      var user := UserMessage(p.content, userAt);
      var reply := ReplyMessage(p.content, outcome, replyAt);
      var list := s.messageList + [Restamp(s.messageList, user)];
      var t := list + [Restamp(list, reply)];
      var u := s.messageList + [user] + [reply];
      forall k | 0 <= k < |t| ensures t[k].(id := "") == u[k].(id := "") {
        if k < |s.messageList| {
          assert t[k] == u[k];
        }
      }
  }

  /** The store object. Its fields are those of the source's state; the methods are
      its actions and update the fields in place. */
  class ChatStore {
    var inputValue: string
    var messageList: seq<Message>
    var isGenerating: bool
    var showSidebar: bool
    var isUploading: bool

    /** The fields as one value. */
    function Snapshot(): StoreState
      reads this
    {
      StoreState(inputValue, messageList, isGenerating, showSidebar, isUploading)
    }

    /** The initial state (chatStore.ts lines 16-22): empty input, empty transcript,
        every flag down. */
    constructor ()
      ensures inputValue == "" && messageList == []
      ensures !isGenerating && !showSidebar && !isUploading
      ensures Snapshot() == InitialState()
    {
      inputValue := "";
      messageList := [];
      isGenerating := false;
      showSidebar := false;
      isUploading := false;
    }

    /** sendMessage, run to completion with the given outcome of the awaited reply. */
    method SendMessage(outcome: Outcome, userAt: ClockReadings, replyAt: ClockReadings)
      modifies this
      ensures Snapshot() == Send(old(Snapshot()), outcome, userAt, replyAt)
      ensures JsString.IsBlank(old(inputValue)) ==> unchanged(this)
      ensures old(messageList) <= messageList
      ensures !JsString.IsBlank(old(inputValue)) ==> !isGenerating && inputValue == ""
    {
      ghost var before := Snapshot();
      SendEffect(before, outcome, userAt, replyAt);
      var content := JsString.Trim(inputValue);
      if content == [] {
        return;
      }
      messageList := messageList + [UserMessage(content, userAt)];
      inputValue := "";
      isGenerating := true;
      // Suspended at the await: the store is in the pending state.
      ghost var pending := Pending(content, Snapshot());
      assert Submit(before, userAt) == Some(pending);
      if outcome == Resolved {
        messageList := messageList + [ReplyMessage(content, Resolved, replyAt)];
      } else {
        messageList := messageList + [ReplyMessage(content, Rejected, replyAt)];
      }
      isGenerating := false;
    }

    /** uploadFile has an empty body: it changes nothing. */
    method UploadFile()
      ensures Snapshot() == old(Snapshot())
    {
    }

    /** clearMessageList: the transcript becomes empty, nothing else changes. */
    method ClearMessageList()
      modifies this
      ensures Snapshot() == Cleared(old(Snapshot()))
      ensures messageList == []
    {
      messageList := [];
    }
  }
}
