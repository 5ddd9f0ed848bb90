/**
 The chat endpoint of api/chat.js as a pure decision: the request checks in
 their fixed order, the upstream call taken as an input outcome, and the
 extraction of the reply text from the upstream `output` items.
 */
module ChatHandler {
  import opened Options
  import opened JsonValues

  const DefaultReply := "No reply generated."
  const UsePost := "Use POST"
  const MissingMessage := "Missing message"
  const MissingKey := "Missing OPENAI_API_KEY environment variable"
  const UpstreamFailed := "OpenAI request failed"

  /** One content part of an output item. `kind` is its `type` property and `text`
      its `text` property, `None` when absent. */
  datatype Part = Part(kind: string, text: Option<string>)

  /** One element of the upstream `output` array; `content` is `None` when the
      property is absent or falsy. */
  datatype OutputItem = OutputItem(content: Option<seq<Part>>)

  /** The upstream call as the handler observes it: a non-ok response with its body
      text, or an ok response whose `output` is an array (`Some`) or not (`None`). */
  datatype Upstream = Failed(errText: string) | Answered(output: Option<seq<OutputItem>>)

  /** The incoming request: its method and the `message`/`snapshot` properties of the
      body (`None` when absent, which includes a missing body). */
  datatype ChatRequest = ChatRequest(verb: string, message: Option<Json>, snapshot: Option<Json>)

  /** What the handler sends upstream: the question and the snapshot (`{}` when falsy). */
  datatype Query = Query(message: string, snapshot: Json)

  datatype ChatBody = ErrorBody(error: string, details: Option<string>) | ReplyBody(reply: string)

  datatype ChatResponse = ChatResponse(status: int, body: ChatBody)

  /** Either an answer without calling upstream, or the query to send upstream. */
  datatype Decision = Respond(response: ChatResponse) | Forward(query: Query)

  /** `!message || typeof message !== 'string'` */
  predicate MessageRejected(message: Option<Json>)
    ensures !MessageRejected(message) <==> message.Some? && message.value.Str? && message.value.s != ""
  {
    !ReadTruthy(message) || !message.value.Str?
  }

  /** An optional string as a property read, so that JavaScript truthiness applies to it. */
  function AsJson(v: Option<string>): Option<Json> {
    match v
    case None => None
    case Some(s) => Some(Str(s))
  }

  /** `!process.env.OPENAI_API_KEY`: JavaScript falsiness of the variable. */
  predicate KeyMissing(apiKey: Option<string>)
    ensures KeyMissing(apiKey) <==> apiKey.None? || apiKey.value == ""
  {
    !ReadTruthy(AsJson(apiKey))
  }

  /** The message check accepts exactly the non-empty strings. */
  lemma MessageAcceptedIffNonEmptyString(message: Option<Json>)
    ensures !MessageRejected(message) <==> exists s :: message == Some(Str(s)) && s != ""
  {
  }

  /** The checks made before any upstream call, in source order: 405, 400, 500. */
  function Decide(req: ChatRequest, apiKey: Option<string>): (d: Decision)
    ensures d.Respond? ==> d.response.status in {400, 405, 500} && d.response.body.ErrorBody?
    ensures d.Forward? <==> req.verb == "POST" && !MessageRejected(req.message) && !KeyMissing(apiKey)
    ensures d.Forward? ==> Some(Str(d.query.message)) == req.message && d.query.message != ""
  {
    if req.verb != "POST" then
      Respond(ChatResponse(405, ErrorBody(UsePost, None)))
    else if MessageRejected(req.message) then
      Respond(ChatResponse(400, ErrorBody(MissingMessage, None)))
    else if KeyMissing(apiKey) then
      Respond(ChatResponse(500, ErrorBody(MissingKey, None)))
    else
      Forward(Query(req.message.value.s, OrElse(req.snapshot, Obj([]))))
  }

  /** `c.type === 'output_text' && c.text` */
  predicate Qualifies(p: Part)
    ensures Qualifies(p) <==> p.kind == "output_text" && p.text.Some? && p.text.value != ""
  {
    p.kind == "output_text" && ReadTruthy(AsJson(p.text))
  }

  /** The text of the first qualifying part: the inner loop stops at it. */
  function FirstText(parts: seq<Part>): (t: Option<string>)
    ensures t.None? <==> forall i :: 0 <= i < |parts| ==> !Qualifies(parts[i])
    ensures t.Some? ==> exists i :: 0 <= i < |parts| && Qualifies(parts[i]) && parts[i].text == t
                                    && forall k :: 0 <= k < i ==> !Qualifies(parts[k])
  {
    if |parts| == 0 then None
    else if Qualifies(parts[0]) then parts[0].text
    else
      var t := FirstText(parts[1..]);
      assert forall i :: 1 <= i < |parts| ==> parts[i] == parts[1..][i - 1];
      t
  }

  /** What one output item contributes to the reply, if anything: nothing when its
      content is absent or falsy, and never an empty text. */
  function ItemText(item: OutputItem): (t: Option<string>)
    ensures item.content.None? ==> t.None?
    ensures t.Some? ==> t.value != ""
  {
    match item.content
    case None => None
    case Some(parts) => FirstText(parts)
  }

  /** An item yields nothing exactly when its content is absent or falsy or none of its
      parts qualifies. */
  lemma ItemTextNoneIff(item: OutputItem)
    ensures ItemText(item).None? <==>
      item.content.None? || forall i :: 0 <= i < |item.content.value| ==> !Qualifies(item.content.value[i])
  {
  }

  /** No item from index `lo` on yields a text. */
  predicate SilentFrom(items: seq<OutputItem>, lo: int) {
    forall k :: 0 <= k < |items| && lo <= k ==> ItemText(items[k]).None?
  }

  /** Appending a silent item keeps every silence claim about the earlier items. */
  lemma SilentExtend(items: seq<OutputItem>)
    requires |items| > 0 && ItemText(items[|items| - 1]).None?
    ensures forall i :: 0 <= i < |items| - 1 ==> items[..|items| - 1][i] == items[i]
    ensures forall lo :: 0 <= lo ==> (SilentFrom(items[..|items| - 1], lo) <==> SilentFrom(items, lo))
  {
  }

  /** The contribution of the last item that makes one: later items overwrite earlier ones. */
  function LastText(items: seq<OutputItem>): (t: Option<string>)
    ensures t.None? <==> SilentFrom(items, 0)
    ensures t.Some? ==> exists j :: 0 <= j < |items| && ItemText(items[j]) == t && SilentFrom(items, j + 1)
  {
    if |items| == 0 then None
    else
      var n := |items| - 1;
      var last := ItemText(items[n]);
      if last.Some? then
        assert SilentFrom(items, n + 1);
        last
      else
        SilentExtend(items);
        LastText(items[..n])
  }

  /** The reply text for an `output` property, the default when none is found. */
  function ReplyOf(output: Option<seq<OutputItem>>): (r: string)
    ensures (output.None? || forall i :: 0 <= i < |output.value| ==> ItemText(output.value[i]).None?) ==> r == DefaultReply
    ensures r != DefaultReply ==> output.Some? && exists i :: 0 <= i < |output.value| && ItemText(output.value[i]) == Some(r)
  {
    if output.None? then DefaultReply else LastText(output.value).GetOr(DefaultReply)
  }

  /** The inner loop of the extraction: scan the parts and stop (`break`) at the first
      qualifying one. */
  method ScanParts(parts: seq<Part>) returns (found: Option<string>)
    ensures found.None? <==> forall k :: 0 <= k < |parts| ==> !Qualifies(parts[k])
    ensures found.Some? ==> exists j :: 0 <= j < |parts| && Qualifies(parts[j]) && parts[j].text == found
                                        && forall k :: 0 <= k < j ==> !Qualifies(parts[k])
  {
    found := None;
    var j := 0;
    while j < |parts|
      invariant 0 <= j <= |parts|
      invariant forall k :: 0 <= k < j ==> !Qualifies(parts[k])
    {
      if parts[j].kind == "output_text" && parts[j].text.Some? && parts[j].text.value != "" {
        found := parts[j].text;
        break;
      }
      j := j + 1;
    }
  }

  /** The extraction loop as written: every item with content is scanned up to its first
      qualifying part, and each find overwrites the reply; items without one leave it. */
  method ExtractReply(output: Option<seq<OutputItem>>) returns (reply: string)
    ensures output.None? ==> reply == DefaultReply
    ensures output.Some? && LastText(output.value).None? ==> reply == DefaultReply
    ensures output.Some? && LastText(output.value).Some? ==> Some(reply) == LastText(output.value)
  {
    reply := DefaultReply;
    if output.Some? {
      var items := output.value;
      var i := 0;
      while i < |items|
        invariant 0 <= i <= |items|
        invariant reply == LastText(items[..i]).GetOr(DefaultReply)
      {
        var item := items[i];
        var found: Option<string> := None;
        if item.content.Some? {
          found := ScanParts(item.content.value);
          if found.Some? {
            reply := found.value;
          }
        }
        assert found == ItemText(item);
        LastTextStep(items, i);
        i := i + 1;
      }
      assert items[..|items|] == items;
    }
  }

  /** One more item either overwrites the reply or leaves it as it was. */
  lemma LastTextStep(items: seq<OutputItem>, i: int)
    requires 0 <= i < |items|
    ensures LastText(items[..i + 1]) == if ItemText(items[i]).Some? then ItemText(items[i]) else LastText(items[..i])
  {
    assert items[..i + 1][..i] == items[..i];
  }

  /** What the handler answers once the upstream call has been made. */
  function Complete(u: Upstream): (r: ChatResponse)
    ensures r.status == 200 <==> u.Answered?
    ensures u.Failed? ==> r == ChatResponse(500, ErrorBody(UpstreamFailed, Some(u.errText)))
    ensures u.Answered? ==> r.body.ReplyBody?
  {
    match u
    case Failed(t) => ChatResponse(500, ErrorBody(UpstreamFailed, Some(t)))
    case Answered(output) => ChatResponse(200, ReplyBody(ReplyOf(output)))
  }

  /** The whole handler, given the environment's API key and the upstream outcome that
      a forwarded query would meet. */
  function Handle(req: ChatRequest, apiKey: Option<string>, u: Upstream): (r: ChatResponse)
    ensures r.status in {200, 400, 405, 500}
    ensures r.status == 200 <==> r.body.ReplyBody?
    ensures req.verb != "POST" ==> r == ChatResponse(405, ErrorBody(UsePost, None))
    ensures req.verb == "POST" && MessageRejected(req.message) ==>
              r == ChatResponse(400, ErrorBody(MissingMessage, None))
    ensures req.verb == "POST" && !MessageRejected(req.message) && KeyMissing(apiKey) ==>
              r == ChatResponse(500, ErrorBody(MissingKey, None))
    ensures r.status == 200 <==> Decide(req, apiKey).Forward? && u.Answered?
  {
    match Decide(req, apiKey)
    case Respond(response) => response
    case Forward(_) => Complete(u)
  }

  /** Without a key the handler answers before the upstream call: the decision is an
      answer and no upstream outcome can change it. */
  lemma MissingKeyNeverCallsUpstream(req: ChatRequest, apiKey: Option<string>, u1: Upstream, u2: Upstream)
    requires KeyMissing(apiKey)
    ensures Decide(req, apiKey).Respond?
    ensures Handle(req, apiKey, u1) == Handle(req, apiKey, u2)
  {
  }

  /** Every forwarded request with an ok upstream answer is a 200 carrying the
      extracted reply. */
  lemma ForwardedAnswerIsReply(req: ChatRequest, apiKey: Option<string>, output: Option<seq<OutputItem>>)
    requires Decide(req, apiKey).Forward?
    ensures Handle(req, apiKey, Answered(output)) == ChatResponse(200, ReplyBody(ReplyOf(output)))
  {
  }

  /** A forwarded request whose upstream call fails is a 500 carrying the upstream text. */
  lemma ForwardedFailureIsError(req: ChatRequest, apiKey: Option<string>, errText: string)
    requires Decide(req, apiKey).Forward?
    ensures Handle(req, apiKey, Failed(errText)) == ChatResponse(500, ErrorBody(UpstreamFailed, Some(errText)))
  {
  }

  /** An item that offers a qualifying part overwrites whatever the earlier items gave. */
  lemma LaterItemOverwrites(items: seq<OutputItem>, item: OutputItem)
    requires ItemText(item).Some?
    ensures ReplyOf(Some(items + [item])) == ItemText(item).value
  {
  }

  /** An item that offers no qualifying part leaves the reply as the earlier items gave it. */
  lemma SilentItemKeepsReply(items: seq<OutputItem>, item: OutputItem)
    requires ItemText(item).None?
    ensures ReplyOf(Some(items + [item])) == ReplyOf(Some(items))
  {
  }

  /** Part `p` of item `j` is where the reply comes from: the first qualifying part of
      its item, and no later item offers one. */
  ghost predicate ReplySource(items: seq<OutputItem>, j: int, p: int, reply: string) {
    && 0 <= j < |items| && items[j].content.Some?
    && 0 <= p < |items[j].content.value|
    && Qualifies(items[j].content.value[p])
    && items[j].content.value[p].text == Some(reply)
    && (forall k :: 0 <= k < p ==> !Qualifies(items[j].content.value[k]))
    && (forall k :: j < k < |items| ==> ItemText(items[k]).None?)
  }

  /** The reply is the default when no item offers a qualifying part; otherwise it is the
      first qualifying text of the last item that has one. */
  lemma ReplyCharacterisation(items: seq<OutputItem>)
    ensures (forall i :: 0 <= i < |items| ==> ItemText(items[i]).None?) ==> ReplyOf(Some(items)) == DefaultReply
    ensures (exists i :: 0 <= i < |items| && ItemText(items[i]).Some?) ==>
      exists j, p :: ReplySource(items, j, p, ReplyOf(Some(items)))
  {
    var t := LastText(items);
    if t.Some? {
      var j :| 0 <= j < |items| && ItemText(items[j]) == t
               && forall k :: j < k < |items| ==> ItemText(items[k]).None?;
      var parts := items[j].content.value;
      var p :| 0 <= p < |parts| && Qualifies(parts[p]) && parts[p].text == t
               && forall k :: 0 <= k < p ==> !Qualifies(parts[k]);
      assert ReplyOf(Some(items)) == t.value;
      assert ReplySource(items, j, p, t.value);
    }
  }
}
