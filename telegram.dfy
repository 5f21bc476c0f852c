/**
 * `sendTelegramMessage` of monitor.go: the request it builds and its
 * reading of the reply.  Sending the request is a network call; what comes
 * back (a construction error, a transport error or a response) is an input.
 */
module Telegram {
  import opened Wrappers
  import opened JsonEscape

  /** http.StatusOK. */
  const StatusOK: int := 200

  datatype HttpRequest = HttpRequest(verb: string, url: string, contentType: string, body: string)

  function SendMessageUrl(botToken: string): string
  {
    "https://api.telegram.org/bot" + botToken + "/sendMessage"
  }

  /** The payload up to the opening quote of the "text" value.  The chat id is inserted without escaping. */
  function TextFieldPrefix(chatID: string): string
  {
    "{\n\t\t\"chat_id\": \"" + chatID + "\",\n\t\t\"text\": \""
  }

  /** The payload after the closing quote of the "text" value. */
  const TextFieldSuffix: string := ",\n\t\t\"parse_mode\": \"HTML\"\n\t}"

  /**
   * The JSON body: the template with the chat id and the escaped message.
   * The "text" value, read from the end of TextFieldPrefix(chatID), is
   * exactly the message, and its string literal ends at the quote the
   * template puts after it, so the rest of the template follows untouched.
   * The position is that of the template: the chat id is not escaped, so
   * when it holds a quote or a backslash a JSON reader no longer finds the
   * "text" member there.
   */
  function Payload(chatID: string, message: string): (p: string)
    ensures var k := |TextFieldPrefix(chatID)|;
      k <= |p| && p[..k] == TextFieldPrefix(chatID) && ReadBody(p[k..]) == Some((message, TextFieldSuffix))
  {
    var p := TextFieldPrefix(chatID) + EscapeJSON(message) + "\"" + TextFieldSuffix;
    var k := |TextFieldPrefix(chatID)|;
    assert p[k..] == EscapeJSON(message) + ['"'] + TextFieldSuffix;
    ReadBodyOfEscapeJSON(message, TextFieldSuffix);
    p
  }

  /** The POST that sendTelegramMessage sends: JSON content to the bot's sendMessage URL. */
  function BuildRequest(botToken: string, chatID: string, message: string): (req: HttpRequest)
    ensures req.verb == "POST" && req.url == SendMessageUrl(botToken)
    ensures req.contentType == "application/json"
    ensures req.body == Payload(chatID, message)
  {
    HttpRequest("POST", SendMessageUrl(botToken), "application/json", Payload(chatID, message))
  }

  /** What the HTTP layer answers, decided outside the program. */
  datatype HttpOutcome =
    | RequestInvalid(cause: string)   // http.NewRequest failed
    | TransportFailed(cause: string)  // client.Do failed
    | Response(status: int, body: string)

  datatype SendError =
    | RequestError(cause: string)
    | TransportError(cause: string)
    | ApiError(status: int, body: string)  // "telegram API error: <status> - <body>"

  /**
   * The reading of the reply: success only on status exactly 200; any
   * other status, 2xx ones included, is an error carrying the status and
   * the body; construction and transport errors are passed on.
   */
  function DeliveryResult(exchange: HttpOutcome): (r: Outcome<SendError>)
    ensures r.Pass? <==> exchange.Response? && exchange.status == StatusOK
    ensures exchange.Response? && exchange.status != StatusOK ==> r == Fail(ApiError(exchange.status, exchange.body))
    ensures exchange.RequestInvalid? ==> r == Fail(RequestError(exchange.cause))
    ensures exchange.TransportFailed? ==> r == Fail(TransportError(exchange.cause))
  {
    match exchange
    case RequestInvalid(e) => Fail(RequestError(e))
    case TransportFailed(e) => Fail(TransportError(e))
    case Response(status, body) => if status != StatusOK then Fail(ApiError(status, body)) else Pass
  }

  datatype Delivery = Delivery(request: HttpRequest, result: Outcome<SendError>)

  /** sendTelegramMessage: the POST it builds and what it returns for the given reply. */
  function SendTelegramMessage(botToken: string, chatID: string, message: string, exchange: HttpOutcome): (d: Delivery)
    ensures d.request == BuildRequest(botToken, chatID, message)
    ensures d.result == DeliveryResult(exchange)
    ensures d.result.Pass? <==> exchange.Response? && exchange.status == StatusOK
  {
    Delivery(BuildRequest(botToken, chatID, message), DeliveryResult(exchange))
  }

  /** A rejected delivery keeps the status for diagnostics: 401 comes back as an ApiError with 401, and 204 is not a success. */
  lemma RejectedStatusExamples(body: string)
    ensures DeliveryResult(Response(401, body)) == Fail(ApiError(401, body))
    ensures DeliveryResult(Response(204, body)).Fail?
    ensures DeliveryResult(Response(200, body)) == Pass
  {
  }
}
