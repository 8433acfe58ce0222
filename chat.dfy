/**
  The `/chat` request handler of the Tig middleware: validate the request,
  assemble the message list for the upstream chat-completion API, and turn
  the upstream outcome into the `{text}` reply with its HTTP status.

  The handler is a pure function of its inputs. The configured API key and the
  persona prompt are a `Config` value; `JSON.stringify` is the parameter
  `stringify`; the upstream call is the parameter `upstream`, a function from
  the messages sent to the outcome observed, and the handler reports which
  messages (if any) it sent.
 */
module Chat {
  import opened JsValues
  import opened JsString

  /** The fallback reply for a missing key and for every server-side failure. */
  const Forgot: string := "\U{2026}uh i forgot"
  /** The fallback reply for a bad `userText` and for an empty completion. */
  const Uh: string := "\U{2026}uh"
  const FactsPrefix: string := "Player facts: "

  const HistoryLimit: nat := 10
  const FactsLimit: nat := 500
  const ReplyLimit: nat := 240

  datatype Config = Config(apiKey: Option<string>, persona: string)

  /** One entry of the upstream `messages` array; role and content are passed through unchecked. */
  datatype Message = Message(role: JsValue, content: JsValue)

  /** The HTTP status and the `text` field of the JSON reply. */
  datatype Response = Response(status: int, text: string)

  /** The fields of a request that passed validation. */
  datatype Request = Request(userText: string, facts: JsValue, history: JsValue)

  datatype Validation = Early(response: Response) | Proceed(request: Request)

  /**
    What the single upstream call yields: a response whose `ok` is false, a
    successful response whose body parsed as `data`, or a rejection (of the
    fetch itself or of parsing the body).
   */
  datatype Upstream = NotOk(status: int, body: string) | Ok(data: JsValue) | Threw

  /** The reply, and the messages sent upstream (`None` when no call was made). */
  datatype Exchange = Exchange(response: Response, sent: Option<seq<Message>>)

  /** `!OPENAI_API_KEY` is false: the key is set and not empty. */
  predicate HasKey(cfg: Config) {
    cfg.apiKey.Some? && cfg.apiKey.value != []
  }

  /** A field of `req.body || {}`, as the destructuring assignment reads it. */
  function BodyField(body: JsValue, key: string): JsValue {
    Member(Or(body, EmptyObject), key)
  }

  function UserTextOf(body: JsValue): JsValue {
    BodyField(body, "userText")
  }

  /**
    The two early exits. A missing key wins over a bad `userText`; a request
    passes on exactly when the key is set and `userText` is a string, and then
    carries the body's own fields.
   */
  function Validate(cfg: Config, body: JsValue): (v: Validation)
    ensures v == Early(Response(500, Forgot)) <==> !HasKey(cfg)
    ensures v == Early(Response(400, Uh)) <==> HasKey(cfg) && !UserTextOf(body).Str?
    ensures v.Proceed? <==> HasKey(cfg) && UserTextOf(body).Str?
    ensures v.Proceed? ==>
              && Str(v.request.userText) == UserTextOf(body)
              && v.request.facts == BodyField(body, "facts")
              && v.request.history == BodyField(body, "history")
  {
    var userText := UserTextOf(body);
    if !HasKey(cfg) then Early(Response(500, Forgot))
    else if !userText.Str? then Early(Response(400, Uh))
    else Proceed(Request(userText.s, BodyField(body, "facts"), BodyField(body, "history")))
  }

  /**
    `Array.isArray(history) ? history.slice(-10) : []`: the last
    min(10, |history|) entries of an array, in their order; nothing otherwise.
   */
  function HistoryWindow(history: JsValue): (w: seq<JsValue>)
    ensures |w| <= HistoryLimit
    ensures history.Arr? ==> |w| == Min(HistoryLimit, |history.items|)
    ensures history.Arr? ==> w == history.items[|history.items| - |w|..]
    ensures !history.Arr? ==> w == []
  {
    if history.Arr? then
      SliceLast(history.items, HistoryLimit);
      Slice(history.items, -(HistoryLimit as int), |history.items|)
    else []
  }

  /** `m => ({ role: m.role, content: m.content })`, which throws when `m` is nullish. */
  function ToMessage(m: JsValue): (r: Completion<Message>)
    ensures r.Throw? <==> Nullish(m)
    ensures r.Normal? ==> r.value == Message(Member(m, "role"), Member(m, "content"))
  {
    match GetProperty(m, "role")
    case Throw => Throw
    case Normal(role) =>
      match GetProperty(m, "content")
      case Throw => Throw
      case Normal(content) => Normal(Message(role, content))
  }

  /**
    `window.map(ToMessage)`: completes exactly when no entry is nullish, and
    then copies each entry's `role` and `content`, position by position.
   */
  function MapMessages(window: seq<JsValue>): (r: Completion<seq<Message>>)
    ensures r.Normal? <==> forall i :: 0 <= i < |window| ==> !Nullish(window[i])
    ensures r.Normal? ==> |r.value| == |window|
    ensures r.Normal? ==> forall i :: 0 <= i < |window| ==>
              r.value[i] == Message(Member(window[i], "role"), Member(window[i], "content"))
  {
    if window == [] then Normal([])
    else
      match ToMessage(window[0])
      case Throw => Throw
      case Normal(m) =>
        match MapMessages(window[1..])
        case Throw => Throw
        case Normal(rest) => Normal([m] + rest)
  }

  /** `JSON.stringify(facts || {})`: a falsy `facts` is serialised as `{}`. */
  function SerializedFacts(facts: JsValue, stringify: JsValue -> string): (r: string)
    ensures Truthy(facts) ==> r == stringify(facts)
    ensures !Truthy(facts) ==> r == stringify(EmptyObject)
  {
    stringify(Or(facts, EmptyObject))
  }

  /**
    The content of the facts message: the fixed prefix, then the first
    min(500, n) characters of the n-character serialisation; the prefix is
    not counted against the 500.
   */
  function FactsSummary(facts: JsValue, stringify: JsValue -> string): (r: string)
    ensures var ser := SerializedFacts(facts, stringify);
            && |r| == |FactsPrefix| + Min(FactsLimit, |ser|)
            && r[..|FactsPrefix|] == FactsPrefix
            && r[|FactsPrefix|..] == ser[..Min(FactsLimit, |ser|)]
    ensures !Truthy(facts) ==> SerializedFacts(facts, stringify) == stringify(EmptyObject)
  {
    var ser := SerializedFacts(facts, stringify);
    SlicePrefix(ser, FactsLimit);
    FactsPrefix + Slice(ser, 0, FactsLimit)
  }

  /**
    The `messages` array: the persona as the system message, the facts
    summary as a user message, the history window with roles and contents
    copied, and `userText` as the final user message. It throws exactly when
    an entry of the window is nullish.
   */
  function BuildMessages(persona: string, req: Request, stringify: JsValue -> string): (r: Completion<seq<Message>>)
    ensures var w := HistoryWindow(req.history);
            r.Normal? <==> forall i :: 0 <= i < |w| ==> !Nullish(w[i])
    ensures var w := HistoryWindow(req.history);
            r.Normal? ==>
              && |r.value| == 3 + |w|
              && r.value[0] == Message(Str("system"), Str(persona))
              && r.value[1] == Message(Str("user"), Str(FactsSummary(req.facts, stringify)))
              && (forall i :: 0 <= i < |w| ==>
                    r.value[2 + i] == Message(Member(w[i], "role"), Member(w[i], "content")))
              && r.value[|r.value| - 1] == Message(Str("user"), Str(req.userText))
  {
    match MapMessages(HistoryWindow(req.history))
    case Throw => Throw
    case Normal(history) =>
      Normal([Message(Str("system"), Str(persona)),
              Message(Str("user"), Str(FactsSummary(req.facts, stringify)))]
             + history
             + [Message(Str("user"), Str(req.userText))])
  }

  /**
    `data?.choices?.[0]?.message?.content`: the `content` of the `message` of
    the first element of a non-empty `choices` array; `undefined` whenever
    `data` is not an object or `choices` is missing, null, empty or a value
    with no first element.
   */
  function FirstChoiceContent(data: JsValue): (r: JsValue)
    ensures !data.Obj? ==> r == Undefined
    ensures var choices := OptMember(data, "choices");
            (|| Nullish(choices) || choices.Bool? || choices.Num?
             || (choices.Arr? && choices.items == []) || (choices.Str? && choices.s == []))
            ==> r == Undefined
    ensures data.Obj? && "choices" in data.fields ==>
              var choices := data.fields["choices"];
              choices.Arr? && choices.items != [] && choices.items[0].Obj?
              && "message" in choices.items[0].fields ==>
                var message := choices.items[0].fields["message"];
                message.Obj? && "content" in message.fields ==> r == message.fields["content"]
  {
    OptMember(OptMember(OptIndex0(OptMember(data, "choices")), "message"), "content")
  }

  /**
    An object whose own `trim` is neither null nor undefined: `content?.trim?.()`
    then calls a value that is not a function (JSON holds no functions) and throws.
   */
  predicate HasUncallableTrim(content: JsValue) {
    content.Obj? && "trim" in content.fields && !Nullish(content.fields["trim"])
  }

  /**
    `content?.trim?.()`: the trimmed string for a string; `undefined` for any
    other value without a `trim` member; a TypeError for an object whose
    `trim` member is not nullish.
   */
  function TrimCall(content: JsValue): (r: Completion<JsValue>)
    ensures r.Throw? <==> HasUncallableTrim(content)
    ensures content.Str? ==> r == Normal(Str(Trim(content.s)))
    ensures !content.Str? && !HasUncallableTrim(content) ==> r == Normal(Undefined)
  {
    match content
    case Str(s) => Normal(Str(Trim(s)))
    case Obj(fields) =>
      if "trim" in fields && !Nullish(fields["trim"]) then Throw else Normal(Undefined)
    case _ => Normal(Undefined)
  }

  /** The trimmed completion when it is a non-empty string. */
  predicate HasReply(content: JsValue) {
    content.Str? && Trim(content.s) != []
  }

  /**
    `(content?.trim?.() || "…uh").slice(0, 240)` for the first choice's
    `content`: the first min(240, n) characters of the n-character trimmed
    completion when that is non-empty, the short fallback otherwise, and a
    throw exactly for an uncallable `trim`.
   */
  function ReplyText(content: JsValue): (r: Completion<string>)
    ensures r.Throw? <==> HasUncallableTrim(content)
    ensures r.Normal? ==> |r.value| <= ReplyLimit
    ensures HasReply(content) ==>
              var t := Trim(content.s);
              r == Normal(t[..Min(ReplyLimit, |t|)])
    ensures !HasReply(content) && !HasUncallableTrim(content) ==> r == Normal(Uh)
  {
    match TrimCall(content)
    case Throw => Throw
    case Normal(trimmed) =>
      var text := Or(trimmed, Str(Uh));
      SlicePrefix(text.s, ReplyLimit);
      assert |Uh| == 3 && Uh[..3] == Uh;
      Normal(Slice(text.s, 0, ReplyLimit))
  }

  /**
    The single mapping from the upstream outcome to the reply: every failure
    (not ok, rejected, or a throw while reading the completion) is 500 with
    the long fallback; otherwise 200 with the reply text.
   */
  function Finish(up: Upstream): (r: Response)
    ensures up.NotOk? || up.Threw? ==> r == Response(500, Forgot)
    ensures r.status == 200 <==> up.Ok? && ReplyText(FirstChoiceContent(up.data)).Normal?
    ensures r.status == 200 ==> r.text == ReplyText(FirstChoiceContent(up.data)).value && |r.text| <= ReplyLimit
    ensures r.status != 200 ==> r == Response(500, Forgot)
  {
    match up
    case NotOk(_, _) => Response(500, Forgot)
    case Threw => Response(500, Forgot)
    case Ok(data) =>
      match ReplyText(FirstChoiceContent(data))
      case Throw => Response(500, Forgot)
      case Normal(text) => Response(200, text)
  }

  /**
    The whole handler: validation, message assembly, one upstream call with
    the assembled messages, and the reply. Any throw inside becomes the
    500 fallback.
   */
  function Handle(cfg: Config, body: JsValue, stringify: JsValue -> string,
                  upstream: seq<Message> -> Upstream): (x: Exchange)
    ensures x.sent.Some? <==>
              Validate(cfg, body).Proceed?
              && BuildMessages(cfg.persona, Validate(cfg, body).request, stringify).Normal?
    ensures x.sent.Some? ==>
              && x.sent.value == BuildMessages(cfg.persona, Validate(cfg, body).request, stringify).value
              && x.response == Finish(upstream(x.sent.value))
  {
    match Validate(cfg, body)
    case Early(response) => Exchange(response, None)
    case Proceed(req) =>
      match BuildMessages(cfg.persona, req, stringify)
      case Throw => Exchange(Response(500, Forgot), None)
      case Normal(messages) => Exchange(Finish(upstream(messages)), Some(messages))
  }

  /** Without a key: 500 with the long fallback and no upstream call, whatever the body. */
  lemma MissingKeyIsServerError(cfg: Config, body: JsValue, stringify: JsValue -> string,
                                upstream: seq<Message> -> Upstream)
    requires !HasKey(cfg)
    ensures Handle(cfg, body, stringify, upstream) == Exchange(Response(500, Forgot), None)
  {
  }

  /** With a key but a `userText` that is not a string: 400 with the short fallback, no upstream call. */
  lemma BadUserTextIsClientError(cfg: Config, body: JsValue, stringify: JsValue -> string,
                                 upstream: seq<Message> -> Upstream)
    requires HasKey(cfg) && !UserTextOf(body).Str?
    ensures Handle(cfg, body, stringify, upstream) == Exchange(Response(400, Uh), None)
  {
  }

  /**
    Every path ends in a reply: the status is 200, 400 or 500; 400 and 500
    carry only the two fallback texts; a 200 reply is at most 240 characters
    and follows an upstream call; 400 comes only from a bad `userText`.
   */
  lemma ResponsesAreTotal(cfg: Config, body: JsValue, stringify: JsValue -> string,
                          upstream: seq<Message> -> Upstream)
    ensures var r := Handle(cfg, body, stringify, upstream).response;
            && (r.status == 200 || r.status == 400 || r.status == 500)
            && (r.status == 500 ==> r.text == Forgot)
            && (r.status == 400 <==> HasKey(cfg) && !UserTextOf(body).Str?)
            && (r.status == 400 ==> r.text == Uh)
            && (r.status == 200 ==> |r.text| <= ReplyLimit
                                    && Handle(cfg, body, stringify, upstream).sent.Some?)
  {
  }

  /**
    When the handler calls upstream, what it sends holds the persona, the
    facts summary, the last min(10, n) entries of an n-entry `history` array
    (none when `history` is not an array) and `userText`, in that order.
   */
  lemma SentMessagesShape(cfg: Config, body: JsValue, stringify: JsValue -> string,
                          upstream: seq<Message> -> Upstream)
    requires Handle(cfg, body, stringify, upstream).sent.Some?
    ensures var sent := Handle(cfg, body, stringify, upstream).sent.value;
            var history := BodyField(body, "history");
            var k := if history.Arr? then Min(HistoryLimit, |history.items|) else 0;
            var n := if history.Arr? then |history.items| else 0;
            && |sent| == 3 + k
            && sent[0] == Message(Str("system"), Str(cfg.persona))
            && sent[1] == Message(Str("user"), Str(FactsSummary(BodyField(body, "facts"), stringify)))
            && (forall j :: n - k <= j < n ==>
                  sent[2 + j - (n - k)] == Message(Member(history.items[j], "role"),
                                                   Member(history.items[j], "content")))
            && sent[|sent| - 1] == Message(Str("user"), UserTextOf(body))
  {
  }

  /** `userText = "hello"`, no facts, no history, upstream answers "hi there": 200 "hi there". */
  lemma ScenarioHello(cfg: Config, stringify: JsValue -> string)
    requires HasKey(cfg)
    ensures var body := Obj(map["userText" := Str("hello")]);
            var data := Obj(map["choices" := Arr([Obj(map["message" := Obj(map["content" := Str("hi there")])])])]);
            Handle(cfg, body, stringify, _ => Ok(data)).response == Response(200, "hi there")
  {
    var body := Obj(map["userText" := Str("hello")]);
    var data := Obj(map["choices" := Arr([Obj(map["message" := Obj(map["content" := Str("hi there")])])])]);
    var req := Validate(cfg, body).request;
    assert BuildMessages(cfg.persona, req, stringify).Normal?;
    HiThereReply(data);
  }

  /** An ok upstream body whose first choice says "hi there" gives 200 "hi there". */
  lemma HiThereReply(data: JsValue)
    requires data == Obj(map["choices" := Arr([Obj(map["message" := Obj(map["content" := Str("hi there")])])])])
    ensures Finish(Ok(data)) == Response(200, "hi there")
  {
  }

  /** An empty `choices` array is not an error: 200 with the short fallback. */
  lemma ScenarioNoChoices(data: JsValue)
    requires data == Obj(map["choices" := Arr([])])
    ensures Finish(Ok(data)) == Response(200, Uh)
  {
  }

  /** A completion that is only whitespace also gives the short fallback. */
  lemma BlankCompletionFallsBack(data: JsValue)
    requires FirstChoiceContent(data).Str? && AllWhitespace(FirstChoiceContent(data).s)
    ensures Finish(Ok(data)) == Response(200, Uh)
  {
  }
}
