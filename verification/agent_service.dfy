/** The search-grounded agent facade: one remote agent and one remote thread,
    a bounded status-polling loop per turn, and rendering of the reply text
    with its file-citation markers.

    Every remote call is an input: a `Call` that returns or throws, and the
    sequence of statuses successive `getRun` polls observe. */
module AgentService {
  import opened Wrappers

  /** Status of a remote run. */
  datatype RunStatus =
    | Queued | InProgress | RequiresAction
    | Cancelling | Cancelled | Failed | Completed | Expired

  /** The statuses the polling loop keeps waiting on. `RequiresAction` is among
      them: the loop never answers a tool-call approval request. */
  function IsPending(s: RunStatus): (pending: bool)
    ensures pending <==> !(s.Cancelling? || s.Cancelled? || s.Failed? || s.Completed? || s.Expired?)
  {
    s.Queued? || s.InProgress? || s.RequiresAction?
  }

  /** Hard cap on the number of polls of one run. */
  const MaxAttempts: nat := 60

  /** Fixed replies of `chatWithSearch`. */
  const SearchFailedReply := "抱歉，搜索过程中遇到了问题。"
  const NoReply := "未获取到回复"
  const ErrorReply := "抱歉，处理您的请求时出错了。"

  // ---------------------------------------------------------------------------
  // Polling

  /** Index of the first status that is not pending, or `|statuses|` when every
      status is pending. */
  function FirstSettled(statuses: seq<RunStatus>): (i: nat)
    ensures i <= |statuses|
    ensures forall j :: 0 <= j < i ==> IsPending(statuses[j])
    ensures i < |statuses| ==> !IsPending(statuses[i])
  {
    if |statuses| == 0 || !IsPending(statuses[0]) then 0
    else 1 + FirstSettled(statuses[1..])
  }

  /** The number of polls made when every poll answers:
      min(index of the first settled status + 1, MaxAttempts). */
  function PollsNeeded(statuses: seq<RunStatus>): (n: nat)
    ensures 1 <= n <= MaxAttempts
  {
    var i := FirstSettled(statuses);
    if i + 1 < MaxAttempts then i + 1 else MaxAttempts
  }

  /** The run as the last poll returned it, with the number of polls made. */
  datatype PolledRun = PolledRun(attempts: nat, status: RunStatus)

  /** `waitForRunCompletion`: poll at least once, stop at the first settled status
      or after `MaxAttempts` polls. `statuses[k]` is what poll k+1 observes; when
      the loop asks for a poll beyond the end of `statuses`, that poll throws. */
  method WaitForRunCompletion(statuses: seq<RunStatus>) returns (r: Call<PolledRun>)
    ensures r.Threw? <==> |statuses| < PollsNeeded(statuses)
    ensures r.Returned? ==> r.value.attempts == PollsNeeded(statuses)
    ensures r.Returned? ==> 1 <= r.value.attempts <= MaxAttempts
    ensures r.Returned? ==> r.value.status == statuses[r.value.attempts - 1]
    ensures r.Returned? ==> forall j :: 0 <= j < r.value.attempts - 1 ==> IsPending(statuses[j])
    ensures r.Returned? && r.value.attempts < MaxAttempts ==> !IsPending(r.value.status)
  {
    var attempts: nat := 0;
    while true
      invariant attempts < MaxAttempts
      invariant attempts <= |statuses|
      invariant forall j :: 0 <= j < attempts ==> IsPending(statuses[j])
      decreases MaxAttempts - attempts
    {
      if attempts >= |statuses| {
        return Threw;
      }
      var status := statuses[attempts];
      attempts := attempts + 1;
      if attempts >= MaxAttempts || !IsPending(status) {
        return Returned(PolledRun(attempts, status));
      }
    }
  }

  /** A run that goes queued, in progress, completed is polled exactly three times. */
  lemma ThreeStatusRunPollsThreeTimes(rest: seq<RunStatus>)
    ensures PollsNeeded([Queued, InProgress, Completed] + rest) == 3
  {
    var s := [Queued, InProgress, Completed] + rest;
    assert s[1..] == [InProgress, Completed] + rest;
    assert s[1..][1..] == [Completed] + rest;
    assert FirstSettled(s[1..][1..]) == 0;
    assert FirstSettled(s[1..]) == 1;
    assert FirstSettled(s) == 2;
  }

  /** A run that never leaves the pending statuses, `RequiresAction` included,
      is polled exactly `MaxAttempts` times. */
  lemma NeverSettlingRunHitsCap(statuses: seq<RunStatus>)
    requires |statuses| >= MaxAttempts
    requires forall j :: 0 <= j < MaxAttempts ==> IsPending(statuses[j])
    ensures PollsNeeded(statuses) == MaxAttempts
  {
  }

  /** Cutting the status sequence after n statuses leaves the first settled
      index unchanged when it lies below n, and makes it n otherwise. */
  lemma {:induction false} FirstSettledPrefix(statuses: seq<RunStatus>, n: nat)
    requires n <= |statuses|
    ensures FirstSettled(statuses[..n]) == if FirstSettled(statuses) < n then FirstSettled(statuses) else n
  {
    if n > 0 && IsPending(statuses[0]) {
      assert statuses[..n][1..] == statuses[1..][..n - 1];
      FirstSettledPrefix(statuses[1..], n - 1);
    }
  }

  /** Polling only ever looks at the first `MaxAttempts` statuses: cutting the
      sequence there changes neither the number of polls nor the status returned. */
  lemma PollingReadsOnlyFirstSixty(statuses: seq<RunStatus>)
    requires |statuses| >= MaxAttempts
    ensures PollsNeeded(statuses[..MaxAttempts]) == PollsNeeded(statuses)
    ensures statuses[..MaxAttempts][PollsNeeded(statuses[..MaxAttempts]) - 1] == statuses[PollsNeeded(statuses) - 1]
  {
    FirstSettledPrefix(statuses, MaxAttempts);
  }

  // ---------------------------------------------------------------------------
  // Messages and reply rendering

  /** An annotation on a text segment. Only file citations are rendered; the
      citation is held as the text its `toString` produces. */
  datatype Annotation = FileCitation(citation: string) | OtherAnnotation

  /** The text object of a text item: its value and its annotation list may
      each be null. */
  datatype MessageText = MessageText(value: Option<string>, annotations: Option<seq<Annotation>>)

  /** A content item of a message; the text object of a text item may be null. */
  datatype Content =
    | TextContent(text: Option<MessageText>)
    | OtherContent

  /** A message; its content list may be null. */
  datatype ThreadMessage = ThreadMessage(content: Option<seq<Content>>)

  /** A text item whose text object is null: reading its value throws. */
  predicate HasNullText(c: Content) {
    c.TextContent? && c.text.None?
  }

  /** What `StringBuilder.append` writes for a possibly-null string. */
  function AppendedText(v: Option<string>): string {
    match v
    case None => "null"
    case Some(s) => s
  }

  /** The marker appended for one file citation. */
  function Marker(citation: string): string {
    " [来源: " + citation + "]"
  }

  /** The markers of an annotation list, in order. The list contributes text
      exactly when it holds a file citation; a leading citation's marker comes first. */
  function Markers(annotations: seq<Annotation>): (m: string)
    ensures m == "" <==> forall i :: 0 <= i < |annotations| ==> !annotations[i].FileCitation?
    ensures |annotations| > 0 && annotations[0].FileCitation? ==>
              |Marker(annotations[0].citation)| <= |m| &&
              m[..|Marker(annotations[0].citation)|] == Marker(annotations[0].citation)
  {
    if |annotations| == 0 then ""
    else
      (match annotations[0]
       case FileCitation(c) => Marker(c)
       case OtherAnnotation => "")
      + Markers(annotations[1..])
  }

  /** What one content item contributes to the reply: nothing for non-text
      items; for a text item its value (the text "null" when the value is null),
      followed by markers only when the annotation list is present. Reading the
      value of a null text object throws. */
  function Rendered(c: Content): (r: Call<string>)
    ensures r.Threw? <==> HasNullText(c)
    ensures c.OtherContent? ==> r == Returned("")
    ensures c.TextContent? && c.text.Some? ==>
              var v := AppendedText(c.text.value.value);
              |v| <= |r.value| && r.value[..|v|] == v
    ensures c.TextContent? && c.text.Some? && c.text.value.annotations.None? ==>
              r == Returned(AppendedText(c.text.value.value))
  {
    match c
    case OtherContent => Returned("")
    case TextContent(None) => Threw
    case TextContent(Some(MessageText(v, None))) => Returned(AppendedText(v))
    case TextContent(Some(MessageText(v, Some(anns)))) => Returned(AppendedText(v) + Markers(anns))
  }

  /** Appending a piece to a buffer, where either may be the result of a throw:
      the first throw wins. */
  function Join(buffer: Call<string>, piece: Call<string>): Call<string> {
    if buffer.Threw? || piece.Threw? then Threw else Returned(buffer.value + piece.value)
  }

  /** The reply text of a content list: the in-order concatenation of its
      rendered items. It throws exactly when some text item has a null text
      object; a list without text items yields the empty string. */
  function ExtractText(contents: seq<Content>): (r: Call<string>)
    ensures r.Threw? <==> exists i :: 0 <= i < |contents| && HasNullText(contents[i])
    ensures (forall i :: 0 <= i < |contents| ==> !contents[i].TextContent?) ==> r.Returned? && r.value == ""
  {
    if |contents| == 0 then Returned("")
    else
      assert forall j :: 0 <= j < |contents[1..]| ==> contents[1..][j] == contents[j + 1];
      Join(Rendered(contents[0]), ExtractText(contents[1..]))
  }

  /** The first item's rendering opens the reply; for a text item, so does its value. */
  lemma ExtractTextStartsWithFirstItem(contents: seq<Content>)
    requires |contents| > 0
    requires ExtractText(contents).Returned?
    ensures Rendered(contents[0]).Returned?
    ensures ExtractText(contents).value[..|Rendered(contents[0]).value|] == Rendered(contents[0]).value
    ensures contents[0].TextContent? ==>
              var v := AppendedText(contents[0].text.value.value);
              ExtractText(contents).value[..|v|] == v
  {
    var first := Rendered(contents[0]).value;
    assert ExtractText(contents).value == first + ExtractText(contents[1..]).value;
    assert ExtractText(contents).value[..|first|] == first;
    if contents[0].TextContent? {
      var v := AppendedText(contents[0].text.value.value);
      assert first[..|v|] == v;
      assert ExtractText(contents).value[..|v|] == first[..|v|];
    }
  }

  /** A text item whose value is null renders as the text "null". */
  lemma NullValueRendersAsNull()
    ensures var r := ExtractText([TextContent(Some(MessageText(None, None)))]);
            r.Returned? && r.value == "null"
  {
    var contents := [TextContent(Some(MessageText(None, None)))];
    assert contents[1..] == [];
  }

  lemma {:induction false} MarkersAppend(a: seq<Annotation>, b: seq<Annotation>)
    ensures Markers(a + b) == Markers(a) + Markers(b)
  {
    if |a| > 0 {
      assert (a + b)[1..] == a[1..] + b;
      MarkersAppend(a[1..], b);
    } else {
      assert a + b == b;
    }
  }

  /** Rendering distributes over concatenation of content lists: the reply is a
      left-to-right fold, and a throw in either part is a throw of the whole. */
  lemma {:induction false} ExtractTextAppend(a: seq<Content>, b: seq<Content>)
    ensures ExtractText(a + b).Threw? <==> ExtractText(a).Threw? || ExtractText(b).Threw?
    ensures ExtractText(a + b).Returned? ==>
              ExtractText(a + b).value == ExtractText(a).value + ExtractText(b).value
  {
    if |a| > 0 {
      assert (a + b)[1..] == a[1..] + b;
      ExtractTextAppend(a[1..], b);
      if ExtractText(a + b).Returned? {
        var first, restA, restB := Rendered(a[0]).value, ExtractText(a[1..]).value, ExtractText(b).value;
        assert ExtractText(a + b).value == first + (restA + restB);
        assert first + (restA + restB) == (first + restA) + restB;
      }
    } else {
      assert a + b == b;
    }
  }

  /** A text with two file citations renders as the text followed by one marker
      per citation, in order. */
  lemma TwoCitationsTwoMarkers(text: string, c1: string, c2: string)
    ensures var r := ExtractText([TextContent(Some(MessageText(Some(text), Some([FileCitation(c1), FileCitation(c2)]))))]);
            r.Returned? && r.value == text + Marker(c1) + Marker(c2)
  {
    var anns := [FileCitation(c1), FileCitation(c2)];
    assert anns[1..][1..] == [];
    assert Markers(anns[1..]) == Marker(c2);
    assert Markers(anns) == Marker(c1) + Marker(c2);
    var contents := [TextContent(Some(MessageText(Some(text), Some(anns))))];
    assert contents[1..] == [];
  }

  /** Rendering the first i+1 items extends the rendering of the first i by item i. */
  lemma ExtractTextStep(contents: seq<Content>, i: nat)
    requires i < |contents|
    ensures ExtractText(contents[..i + 1]).Threw? <==> ExtractText(contents[..i]).Threw? || Rendered(contents[i]).Threw?
    ensures ExtractText(contents[..i + 1]).Returned? ==>
              ExtractText(contents[..i + 1]).value == ExtractText(contents[..i]).value + Rendered(contents[i]).value
  {
    assert contents[..i + 1] == contents[..i] + [contents[i]];
    ExtractTextAppend(contents[..i], [contents[i]]);
    assert [contents[i]][1..] == [];
  }

  /** Markers of the first k+1 annotations extend those of the first k. */
  lemma MarkersStep(annotations: seq<Annotation>, k: nat)
    requires k < |annotations|
    ensures annotations[k].FileCitation? ==>
              Markers(annotations[..k + 1]) == Markers(annotations[..k]) + Marker(annotations[k].citation)
    ensures !annotations[k].FileCitation? ==>
              Markers(annotations[..k + 1]) == Markers(annotations[..k])
  {
    assert annotations[..k + 1] == annotations[..k] + [annotations[k]];
    MarkersAppend(annotations[..k], [annotations[k]]);
    assert [annotations[k]][1..] == [];
  }

  /** The inner loop of `extractTextFromMessage`: append one marker per file
      citation, skipping other annotations. */
  method AppendMarkers(text: string, annotations: seq<Annotation>) returns (result: string)
    ensures result == text + Markers(annotations)
  {
    result := text;
    for k := 0 to |annotations|
      invariant result == text + Markers(annotations[..k])
    {
      if annotations[k].FileCitation? {
        result := result + Marker(annotations[k].citation);
      }
      MarkersStep(annotations, k);
    }
    assert annotations[..|annotations|] == annotations;
  }

  /** One iteration of the outer loop of `extractTextFromMessage`: a text item
      appends its value and then its markers; any other item appends nothing; a
      text item with a null text object throws. */
  method AppendContent(text: string, c: Content) returns (result: Call<string>)
    ensures result.Threw? <==> Rendered(c).Threw?
    ensures result.Returned? ==> result.value == text + Rendered(c).value
  {
    match c
    case OtherContent =>
      result := Returned(text);
    case TextContent(body) =>
      if body.None? {
        return Threw;
      }
      var buffer := text + AppendedText(body.value.value);
      if body.value.annotations.Some? {
        buffer := AppendMarkers(buffer, body.value.annotations.value);
      }
      result := Returned(buffer);
  }

  /** `extractTextFromMessage`: the loop over content items, appending each text
      item's value and its citation markers to one buffer. A null content list,
      or a text item with a null text object, throws. */
  method ExtractTextFromMessage(message: ThreadMessage) returns (r: Call<string>)
    ensures message.content.None? ==> r.Threw?
    ensures message.content.Some? ==> r == ExtractText(message.content.value)
  {
    if message.content.None? {
      return Threw;
    }
    var contents := message.content.value;
    var text := "";
    for i := 0 to |contents|
      invariant ExtractText(contents[..i]).Returned? && ExtractText(contents[..i]).value == text
    {
      ExtractTextStep(contents, i);
      var next := AppendContent(text, contents[i]);
      if next.Threw? {
        assert HasNullText(contents[i]);
        return Threw;
      }
      text := next.value;
    }
    assert contents[..|contents|] == contents;
    r := ExtractText(contents);
  }

  // ---------------------------------------------------------------------------
  // Lifecycle

  /** Remote identifiers are opaque strings. */
  type Id = string

  /** The two remote resources the facade holds; `None` is a null field. */
  datatype AgentState = AgentState(agent: Option<Id>, thread: Option<Id>)

  /** Both resources are held. */
  predicate Ready(s: AgentState) {
    s.agent.Some? && s.thread.Some?
  }

  /** The constructor: create the agent, then the thread; any failure aborts
      construction with an exception. */
  function Initialize(agentCreated: Call<Id>, threadCreated: Call<Id>): (r: Call<AgentState>)
    ensures r.Returned? <==> agentCreated.Returned? && threadCreated.Returned?
    ensures r.Returned? ==> Ready(r.value)
    ensures r.Returned? ==> r.value.agent == Some(agentCreated.value) && r.value.thread == Some(threadCreated.value)
  {
    match agentCreated
    case Threw => Threw
    case Returned(agent) =>
      match threadCreated
      case Threw => Threw
      case Returned(thread) => Returned(AgentState(Some(agent), Some(thread)))
  }

  /** `resetThread`: replace the thread by a newly created one; when creation
      throws, the error is swallowed and the old thread is kept. */
  function ResetThread(s: AgentState, threadCreated: Call<Id>): (r: AgentState)
    ensures r.agent == s.agent
    ensures threadCreated.Threw? ==> r == s
    ensures threadCreated.Returned? ==> r.thread == Some(threadCreated.value)
    ensures Ready(s) ==> Ready(r)
  {
    match threadCreated
    case Threw => s
    case Returned(thread) => s.(thread := Some(thread))
  }

  /** A delete request sent to the remote service. */
  datatype Deletion = DeleteThread(thread: Id) | DeleteAgent(agent: Id)

  /** `cleanup`: the delete requests issued, in order. The thread goes first;
      absent resources are skipped; when deleting the thread throws, the agent
      is not deleted. No error escapes and the fields are left as they were. */
  function Cleanup(s: AgentState, threadDeleted: Call<()>): (requests: seq<Deletion>)
    ensures |requests| ==
              (if s.thread.Some? then 1 else 0) +
              (if s.agent.Some? && (s.thread.None? || threadDeleted.Returned?) then 1 else 0)
    ensures s.thread.Some? ==> |requests| > 0 && requests[0] == DeleteThread(s.thread.value)
    ensures forall t :: DeleteThread(t) in requests <==> s.thread == Some(t)
    ensures forall a :: DeleteAgent(a) in requests <==>
              s.agent == Some(a) && (s.thread.None? || threadDeleted.Returned?)
  {
    var first := if s.thread.Some? then [DeleteThread(s.thread.value)] else [];
    if s.thread.Some? && threadDeleted.Threw? then first
    else if s.agent.Some? then first + [DeleteAgent(s.agent.value)]
    else first
  }

  // ---------------------------------------------------------------------------
  // One turn

  /** The message was posted and the run created: every call before polling
      returned. A null thread or agent throws when its id is read. */
  predicate Started(s: AgentState, messagePosted: Call<()>, runCreated: Call<()>) {
    s.thread.Some? && messagePosted.Returned? && s.agent.Some? && runCreated.Returned?
  }

  /** `chatWithSearch`: post the message, start a run, poll it, and map the
      final status and the fetched latest message to the reply. Every exception
      on the way becomes `ErrorReply`. */
  method ChatWithSearch(
    s: AgentState,
    messagePosted: Call<()>,
    runCreated: Call<()>,
    statuses: seq<RunStatus>,
    listing: Call<Option<seq<ThreadMessage>>>)
    returns (reply: string)
    ensures !Started(s, messagePosted, runCreated) ==> reply == ErrorReply
    ensures |statuses| < PollsNeeded(statuses) ==> reply == ErrorReply
    ensures Started(s, messagePosted, runCreated) && PollsNeeded(statuses) <= |statuses| ==>
              var final := statuses[PollsNeeded(statuses) - 1];
              && (final == Failed ==> reply == SearchFailedReply)
              && (final != Failed && final != Completed ==> reply == NoReply)
              && (final == Completed ==>
                    match listing
                    case Threw => reply == ErrorReply
                    case Returned(None) => reply == NoReply
                    case Returned(Some(ms)) =>
                      if |ms| == 0 then reply == NoReply
                      else match ms[0].content
                        case None => reply == ErrorReply
                        case Some(contents) =>
                          match ExtractText(contents)
                          case Threw => reply == ErrorReply
                          case Returned(text) => reply == text)
  {
    if !Started(s, messagePosted, runCreated) {
      return ErrorReply;
    }
    var run := WaitForRunCompletion(statuses);
    if run.Threw? {
      return ErrorReply;
    }
    if run.value.status == Completed {
      if listing.Threw? {
        return ErrorReply;
      }
      var messages := listing.value;
      if messages.Some? && |messages.value| > 0 {
        var text := ExtractTextFromMessage(messages.value[0]);
        return if text.Threw? then ErrorReply else text.value;
      }
    } else if run.value.status == Failed {
      return SearchFailedReply;
    }
    return NoReply;
  }
}
