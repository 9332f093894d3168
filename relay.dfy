/**
 * The Telegram relay: an HTTP service with a health check and two endpoints that
 * forward a CSV file or a text message to the Telegram Bot API and map its reply to a
 * JSON response. The request the service sends and the reply it gets back are
 * parameters of the model, and so are the messages of the exceptions that Node's
 * `Buffer.from` and `path.basename` throw; the service's own decisions (validation,
 * defaults, the mapping of replies and errors, routing) are modelled as written.
 */
module Relay {
  import opened Options
  import opened Js

  // ---------------------------------------------------------------------------
  // JavaScript values
  // ---------------------------------------------------------------------------

  /** A JSON value as the handlers see it; `Other` is an object or an array. */
  datatype JsValue = Undefined | Null | Bool(b: bool) | Num(n: int) | Str(s: string) | Other

  /** JavaScript truthiness: `undefined`, `null`, `false`, `0` and `""` are falsy. */
  predicate Truthy(v: JsValue)
    ensures Truthy(v) <==> !(v == Undefined || v == Null || v == Bool(false) || v == Num(0) || v == Str(""))
  {
    match v
    case Undefined => false
    case Null => false
    case Bool(b) => b
    case Num(n) => n != 0
    case Str(s) => s != []
    case Other => true
  }

  /** `String(v)` / `v.toString()` for the values the handlers convert. */
  function ToJsString(v: JsValue): (r: string)
    ensures v.Str? ==> r == v.s
    ensures v.Num? ==> ParseInt(r) == Some(v.n)
  {
    match v
    case Undefined => "undefined"
    case Null => "null"
    case Bool(b) => if b then "true" else "false"
    case Num(n) => ParseIntOfIntToString(n); IntToString(n)
    case Str(s) => s
    case Other => "[object Object]"
  }

  /** A parsed JSON request body: a property that is not there reads as `undefined`. */
  function Field(body: map<string, JsValue>, key: string): (v: JsValue)
    ensures key !in body ==> v == Undefined
  {
    if key in body then body[key] else Undefined
  }

  // ---------------------------------------------------------------------------
  // Requests to Telegram and its replies
  // ---------------------------------------------------------------------------

  /** One part of the multipart body of `sendDocument`. */
  datatype FormPart =
    | TextPart(name: string, value: string)
    | FilePart(name: string, content: string, fileName: string, contentType: string)

  const Caption: string := "📊 Журнал событий"
  const CsvContentType: string := "text/csv;charset=utf-8"

  /** The request the service sends to the Bot API. */
  datatype Outbound =
    | SendDocument(parts: seq<FormPart>)
    | SendMessage(chatId: JsValue, text: JsValue, parseMode: JsValue)

  /** The multipart body, part by part in the order of the `append` calls: the chat
      id as a string, the CSV as a UTF-8 file, the fixed caption. */
  function DocumentParts(chatId: JsValue, csv: string, fileName: string): (parts: seq<FormPart>)
    ensures |parts| == 3
    ensures parts[0] == TextPart("chat_id", ToJsString(chatId))
    ensures parts[1].FilePart? && parts[1].content == csv && parts[1].fileName == fileName
    ensures parts[2] == TextPart("caption", Caption)
  {
    [TextPart("chat_id", ToJsString(chatId))] +
    [FilePart("document", csv, fileName, CsvContentType)] +
    [TextPart("caption", Caption)]
  }

  /** The JSON reply of the Bot API: its `ok` and `description` fields, and the
      `result` it carries. */
  datatype TelegramReply = TelegramReply(ok: JsValue, description: JsValue, result: JsValue)

  /** What the call to the Bot API produced: an exception (network failure, a reply
      that is not JSON) with its message, or a JSON reply. */
  datatype Upstream = Threw(message: string) | Answered(reply: TelegramReply)

  // ---------------------------------------------------------------------------
  // Responses
  // ---------------------------------------------------------------------------

  datatype ResponseBody =
    | Failure(error: string)
    | Success(message: string, telegramResult: TelegramReply)
    | Health(status: string, service: string, timestamp: string)

  datatype Response = Response(status: int, body: ResponseBody)

  /** The response and the request sent to Telegram, if one was sent. */
  datatype Handled = Handled(response: Response, sent: Option<Outbound>)

  const MissingFileParams: string := "Missing required parameters: chatId, csvData, or fileName"
  const MissingMessageParams: string := "Missing required parameters: chatId or text"

  /** The reply mapping shared by both endpoints. */
  function MapUpstream(upstream: Upstream, okMessage: string): (r: Response)
    ensures upstream.Threw? ==> r == Response(500, Failure(upstream.message))
    ensures upstream.Answered? && !Truthy(upstream.reply.ok) ==>
              r.status == 500 && r.body.Failure? &&
              r.body.error == "Telegram API error: " +
                (if Truthy(upstream.reply.description) then ToJsString(upstream.reply.description) else "Unknown error")
    ensures upstream.Answered? && Truthy(upstream.reply.ok) ==>
              r == Response(200, Success(okMessage, upstream.reply))
    ensures r.status == 200 <==> upstream.Answered? && Truthy(upstream.reply.ok)
  {
    match upstream
    case Threw(m) => Response(500, Failure(m))
    case Answered(reply) =>
      if !Truthy(reply.ok) then
        var d := if Truthy(reply.description) then ToJsString(reply.description) else "Unknown error";
        Response(500, Failure("Telegram API error: " + d))
      else Response(200, Success(okMessage, reply))
  }

  /** The messages of the two exceptions the file route can raise before calling
      Telegram: `Buffer.from` given a CSV that is not a string, and `path.basename`,
      which `append` applies to the file name, given a name that is not a string. */
  datatype NodeErrors = NodeErrors(buffer: string, basename: string)

  /** `POST /send-file`. Both exceptions are caught by the handler's `catch` and
      answered with status 500 and their message. */
  function SendFile(body: map<string, JsValue>, upstream: Upstream, errors: NodeErrors): (h: Handled)
    ensures var chatId := Field(body, "chatId");
            var csv := Field(body, "csvData");
            var fileName := Field(body, "fileName");
            (!Truthy(chatId) || !Truthy(csv) || !Truthy(fileName) ==>
               h == Handled(Response(400, Failure(MissingFileParams)), None)) &&
            (Truthy(chatId) && Truthy(csv) && Truthy(fileName) && !csv.Str? ==>
               h == Handled(Response(500, Failure(errors.buffer)), None)) &&
            (Truthy(chatId) && Truthy(csv) && Truthy(fileName) && csv.Str? && !fileName.Str? ==>
               h == Handled(Response(500, Failure(errors.basename)), None)) &&
            (Truthy(chatId) && Truthy(csv) && Truthy(fileName) && csv.Str? && fileName.Str? ==>
               h.sent == Some(SendDocument(DocumentParts(chatId, csv.s, fileName.s))) &&
               h.response == MapUpstream(upstream, "File sent successfully"))
  {
    var chatId := Field(body, "chatId");
    var csv := Field(body, "csvData");
    var fileName := Field(body, "fileName");
    if !Truthy(chatId) || !Truthy(csv) || !Truthy(fileName) then
      Handled(Response(400, Failure(MissingFileParams)), None)
    else if !csv.Str? then
      Handled(Response(500, Failure(errors.buffer)), None)
    else if !fileName.Str? then
      Handled(Response(500, Failure(errors.basename)), None)
    else
      Handled(MapUpstream(upstream, "File sent successfully"),
              Some(SendDocument(DocumentParts(chatId, csv.s, fileName.s))))
  }

  /** `parseMode = 'HTML'` in the destructuring: the default applies only when the
      property is `undefined`, not when it is `null`. */
  function ParseMode(body: map<string, JsValue>): (v: JsValue)
    ensures Field(body, "parseMode") == Undefined ==> v == Str("HTML")
    ensures Field(body, "parseMode") != Undefined ==> v == Field(body, "parseMode")
  {
    var p := Field(body, "parseMode");
    if p == Undefined then Str("HTML") else p
  }

  /** `POST /send-message`. */
  function SendMessageHandler(body: map<string, JsValue>, upstream: Upstream): (h: Handled)
    ensures var chatId := Field(body, "chatId");
            var text := Field(body, "text");
            (!Truthy(chatId) || !Truthy(text) ==>
               h == Handled(Response(400, Failure(MissingMessageParams)), None)) &&
            (Truthy(chatId) && Truthy(text) ==>
               h.sent == Some(SendMessage(chatId, text, ParseMode(body))) &&
               h.response == MapUpstream(upstream, "Message sent successfully"))
  {
    var chatId := Field(body, "chatId");
    var text := Field(body, "text");
    if !Truthy(chatId) || !Truthy(text) then
      Handled(Response(400, Failure(MissingMessageParams)), None)
    else
      Handled(MapUpstream(upstream, "Message sent successfully"), Some(SendMessage(chatId, text, ParseMode(body))))
  }

  // ---------------------------------------------------------------------------
  // Routing
  // ---------------------------------------------------------------------------

  /** What the JSON body parser made of the request body. */
  datatype Body = Parsed(fields: map<string, JsValue>) | Rejected

  datatype Request = Request(verb: string, path: string, body: Body)

  /** The whole service: the body parser runs first and its failures go to the
      error handler; then the three routes (Express answers `HEAD` with the `GET`
      route); anything else is not found. `timestamp` is `new Date().toISOString()`. */
  function Handle(req: Request, timestamp: string, upstream: Upstream, errors: NodeErrors): (h: Handled)
    ensures req.body.Rejected? ==> h == Handled(Response(500, Failure("Internal server error")), None)
    ensures req.body.Parsed? && (req.verb == "GET" || req.verb == "HEAD") && req.path == "/health" ==>
              h == Handled(Response(200, Health("healthy", "telegram-api", timestamp)), None)
    ensures req.body.Parsed? && req.verb == "POST" && req.path == "/send-file" ==>
              h == SendFile(req.body.fields, upstream, errors)
    ensures req.body.Parsed? && req.verb == "POST" && req.path == "/send-message" ==>
              h == SendMessageHandler(req.body.fields, upstream)
    ensures req.body.Parsed? && !KnownRoute(req.verb, req.path) ==>
              h == Handled(Response(404, Failure("Endpoint not found")), None)
  {
    if req.body.Rejected? then Handled(Response(500, Failure("Internal server error")), None)
    else if (req.verb == "GET" || req.verb == "HEAD") && req.path == "/health" then
      Handled(Response(200, Health("healthy", "telegram-api", timestamp)), None)
    else if req.verb == "POST" && req.path == "/send-file" then
      SendFile(req.body.fields, upstream, errors)
    else if req.verb == "POST" && req.path == "/send-message" then
      SendMessageHandler(req.body.fields, upstream)
    else Handled(Response(404, Failure("Endpoint not found")), None)
  }

  predicate KnownRoute(verb: string, path: string)
  {
    ((verb == "GET" || verb == "HEAD") && path == "/health") ||
    (verb == "POST" && (path == "/send-file" || path == "/send-message"))
  }

  /** Telegram is called only from the two forwarding routes, and only after their
      validation has passed; every answer other than a success is an error status
      with `success: false`. */
  lemma SentOnlyWhenValid(req: Request, timestamp: string, upstream: Upstream, errors: NodeErrors)
    ensures var h := Handle(req, timestamp, upstream, errors);
            h.sent.Some? ==>
              req.body.Parsed? && req.verb == "POST" &&
              ((req.path == "/send-file" && Truthy(Field(req.body.fields, "chatId")) &&
                Field(req.body.fields, "csvData").Str? && Field(req.body.fields, "csvData").s != [] &&
                Field(req.body.fields, "fileName").Str? && Field(req.body.fields, "fileName").s != []) ||
               (req.path == "/send-message" && Truthy(Field(req.body.fields, "chatId")) &&
                Truthy(Field(req.body.fields, "text"))))
    ensures var h := Handle(req, timestamp, upstream, errors);
            h.response.status != 200 ==> h.response.status in {400, 404, 500} && h.response.body.Failure?
  {
  }

  /** A successful forward reports exactly the reply Telegram gave. */
  lemma SuccessEchoesReply(req: Request, timestamp: string, reply: TelegramReply, errors: NodeErrors)
    requires req.verb == "POST" && (req.path == "/send-file" || req.path == "/send-message")
    ensures var h := Handle(req, timestamp, Answered(reply), errors);
            h.response.status == 200 ==> h.response.body.Success? && h.response.body.telegramResult == reply
  {
  }

  /** The chat id reaches Telegram as the string form of what the client sent: a
      numeric id as its decimal numeral. */
  lemma NumericChatId(body: map<string, JsValue>, upstream: Upstream, errors: NodeErrors, id: int)
    requires Field(body, "chatId") == Num(id) && id != 0
    requires Field(body, "fileName").Str? && Field(body, "fileName").s != []
    requires Field(body, "csvData").Str? && Field(body, "csvData").s != []
    ensures var h := SendFile(body, upstream, errors);
            h.sent.Some? && h.sent.value.SendDocument? &&
            h.sent.value.parts[0].TextPart? && ParseInt(h.sent.value.parts[0].value) == Some(id)
  {
  }
}
