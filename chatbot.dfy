/** The demonstration chatbot: a keyword-driven mock language model whose
    input and output both pass through the guardrails service. The service
    call is a function parameter `guard` from (text, configuration name,
    context) to the JSON verdict the client hands back, its own error
    verdicts included. */
module Chatbot {
  import opened Wrappers
  import opened Text
  import opened Values

  const Greeting: string := "Hello! How can I help you today?"
  const WeatherReply: string := "I'm sorry, I don't have access to real-time weather data. "
    + "You might want to check a weather service for current conditions."
  const HelpReply: string := "I'm here to help! You can ask me questions and I'll do my best "
    + "to provide helpful responses. What would you like to know?"
  const Farewell: string := "Goodbye! Have a great day!"
  const ToxicReply: string := "You're stupid and should shut up!"
  const PiiReply: string := "You can contact me at support@example.com or call 555-123-4567"

  const FallbackPrefix: string := "I understand you're asking about '"
  const FallbackSuffix: string := "'. While I don't have specific information on that topic, "
    + "I'm here to help with general questions and conversations."

  /** The reply when no keyword matches: it quotes the message. */
  function Fallback(message: string): string
  {
    FallbackPrefix + message + FallbackSuffix
  }

  /** No keyword the mock model reacts to occurs in `m`. */
  predicate NoKeyword(m: string)
  {
    && !Contains(m, "hello") && !Contains(m, "hi") && !Contains(m, "weather") && !Contains(m, "help")
    && !Contains(m, "goodbye") && !Contains(m, "bye") && !Contains(m, "toxic") && !Contains(m, "email")
  }

  /** `mock_llm_response`: keywords are looked for, as substrings of the
      lower-cased message, in a fixed order, and the first that occurs
      decides the reply; with none, the reply quotes the message. */
  function MockLlmResponse(message: string): (r: string)
    ensures var m := Lower(message); Contains(m, "hello") || Contains(m, "hi") ==> r == Greeting
    ensures NoKeyword(Lower(message)) ==> r == Fallback(message) && Contains(r, message)
    ensures !NoKeyword(Lower(message)) ==> r in {Greeting, WeatherReply, HelpReply, Farewell, ToxicReply, PiiReply}
  {
    var m := Lower(message);
    if Contains(m, "hello") || Contains(m, "hi") then Greeting
    else if Contains(m, "weather") then WeatherReply
    else if Contains(m, "help") then HelpReply
    else if Contains(m, "goodbye") || Contains(m, "bye") then Farewell
    else if Contains(m, "toxic") then ToxicReply
    else if Contains(m, "email") then PiiReply
    else
      ContainsMiddle(FallbackPrefix, message, FallbackSuffix);
      Fallback(message)
  }

  /** "hi" occurs inside "this", so a question about the weather phrased
      with "this" is greeted rather than answered. */
  lemma GreetingShadowsWeather()
    ensures MockLlmResponse("Is this weather nice?") == Greeting
  {
    var m := Lower("Is this weather nice?");
    assert m[4] == 'h' && m[5] == 'i';
    assert "hi" <= m[4..];
    ContainsAt(m, "hi");
  }

  /** A validation entry that stops the chat: status "fail" with the
      "exception" action. */
  predicate Fatal(v: Value)
  {
    v.Dict? && Get(v.entries, "status") == Some(Str("fail")) && Get(v.entries, "on_fail_action") == Some(Str("exception"))
  }

  datatype Gate = Proceed | Reject | Raise

  /** The early-return search over the validation entries: the first fatal
      one rejects, a non-dict before it raises. */
  function Scan(items: seq<Value>): Gate
  {
    if items == [] then Proceed
    else if !items[0].Dict? then Raise
    else if Fatal(items[0]) then Reject
    else Scan(items[1..])
  }

  /** The check applied to a verdict: a valid verdict proceeds; an invalid
      one is scanned; a verdict that is not a dict raises on `.get`. */
  function GateOf(verdict: Value): Gate
  {
    if !verdict.Dict? then Raise
    else if Truthy(GetOr(verdict.entries, "valid", Bool(false))) then Proceed
    else
      var (items, iterable) := Elements(GetOr(verdict.entries, "validations", List([])));
      if !iterable then Raise else Scan(items)
  }

  lemma {:induction false} ScanMeaning(items: seq<Value>)
    ensures Scan(items) == Reject <==>
              exists i :: 0 <= i < |items| && Fatal(items[i]) && forall j :: 0 <= j < i ==> items[j].Dict?
    ensures Scan(items) == Proceed <==> forall i :: 0 <= i < |items| ==> items[i].Dict? && !Fatal(items[i])
  {
    if items != [] {
      ScanMeaning(items[1..]);
      if Scan(items) == Reject && !Fatal(items[0]) {
        var i :| 0 <= i < |items[1..]| && Fatal(items[1..][i]) && forall j :: 0 <= j < i ==> items[1..][j].Dict?;
        assert Fatal(items[i + 1]) && forall j :: 0 <= j < i + 1 ==> items[j].Dict?;
      }
      if exists i :: 0 <= i < |items| && Fatal(items[i]) && forall j :: 0 <= j < i ==> items[j].Dict? {
        var i :| 0 <= i < |items| && Fatal(items[i]) && forall j :: 0 <= j < i ==> items[j].Dict?;
        if i > 0 && !Fatal(items[0]) {
          assert Fatal(items[1..][i - 1]) && forall j :: 0 <= j < i - 1 ==> items[1..][j].Dict?;
        }
      }
      if forall i :: 0 <= i < |items| ==> items[i].Dict? && !Fatal(items[i]) {
        assert forall i :: 0 <= i < |items[1..]| ==> items[1..][i] == items[i + 1];
      }
    }
  }

  /** A chat is rejected only when the verdict is not valid and some
      validation fails with the "exception" action (every entry before it
      being a dict); an invalid verdict without one proceeds. */
  lemma GateRejectsOnlyFatal(verdict: Value)
    ensures GateOf(verdict) == Reject <==>
              && verdict.Dict?
              && !Truthy(GetOr(verdict.entries, "valid", Bool(false)))
              && var items := Elements(GetOr(verdict.entries, "validations", List([])));
              && items.1
              && exists i :: 0 <= i < |items.0| && Fatal(items.0[i]) && forall j :: 0 <= j < i ==> items.0[j].Dict?
  {
    if verdict.Dict? {
      ScanMeaning(Elements(GetOr(verdict.entries, "validations", List([]))).0);
    }
  }

  /** The chat endpoint's answer, with its HTTP status. */
  datatype ChatReply =
    | BadRequest(error: string)
    | Rejected(error: string, message: string, details: Value)
    | Answered(response: Value, inputValidation: Value, outputValidation: Value, guardrailConfig: Value)
    | InternalError

  function Status(r: ChatReply): int
  {
    match r
    case BadRequest(_) => 400
    case Rejected(_, _, _) => 400
    case Answered(_, _, _, _) => 200
    case InternalError => 500
  }

  type Guard = (Value, Value, seq<(string, Value)>) -> Value

  /** `'message' in data` for request bodies that are not dicts: lists and
      strings answer, other values raise. */
  function MessageIn(data: Value): Option<bool>
  {
    match data
    case List(items) => Some(Str("message") in items)
    case Str(s) => Some(Contains(s, "message"))
    case Dict(entries) => Some(HasKey(entries, "message"))
    case _ => None
  }

  /** The context sent to the guardrails service: the truthy ones of the
      user and session ids. */
  function ChatContext(entries: seq<(string, Value)>): seq<(string, Value)>
  {
    var userId := GetOr(entries, "user_id", Null);
    var sessionId := GetOr(entries, "session_id", Null);
    (if Truthy(userId) then [("user_id", userId)] else [])
    + (if Truthy(sessionId) then [("session_id", sessionId)] else [])
  }

  const InputRejection: string := "Your message contains content that violates our guidelines."
  const OutputRejection: string := "I apologize, but I cannot provide a response that meets "
    + "our content guidelines. Please try rephrasing your question."

  /** How a verdict's processed text replaces the text it judged. */
  datatype Substitution = KeyPresent | NonNull

  /** As written, a `processed_text` key replaces the text whatever it
      holds, null included; the corrected rule keeps the text unless the
      service actually supplied a replacement. */
  function Processed(verdict: seq<(string, Value)>, text: Value, rule: Substitution): Value
  {
    match rule
    case KeyPresent => GetOr(verdict, "processed_text", text)
    case NonNull => if GetOr(verdict, "processed_text", Null) != Null then GetOr(verdict, "processed_text", Null) else text
  }

  /** `chat`, for a request body `data`, under either substitution rule. */
  function ChatWith(data: Value, guard: Guard, rule: Substitution): (r: ChatReply)
    ensures r.Rejected? ==> r.details.Dict? && GateOf(r.details) == Reject
    ensures r.Answered? ==> r.inputValidation.Dict? && r.outputValidation.Dict?
    ensures r.Answered? && rule == NonNull ==> r.response != Null
  {
    if !Truthy(data) then BadRequest("Missing 'message' field in request")
    else match MessageIn(data)
      case None => InternalError
      case Some(false) => BadRequest("Missing 'message' field in request")
      case Some(true) =>
        if !data.Dict? then InternalError
        else
          var message := Get<Value>(data.entries, "message").value;
          var config := GetOr(data.entries, "guardrail_config", Str("default"));
          var context := ChatContext(data.entries);
          if !message.Str? && !message.List? then InternalError
          else
            var input := guard(message, config, context);
            match GateOf(input)
            case Raise => InternalError
            case Reject => Rejected("Input validation failed", InputRejection, input)
            case Proceed =>
              var processed := Processed(input.entries, message, rule);
              if !processed.Str? then InternalError
              else
                var reply := MockLlmResponse(processed.s);
                var output := guard(Str(reply), config, context);
                match GateOf(output)
                case Raise => InternalError
                case Reject => Rejected("Response validation failed", OutputRejection, output)
                case Proceed => Answered(Processed(output.entries, Str(reply), rule), input, output, config)
  }

  /** `chat` as written: a `processed_text` key is used even when null. */
  function ChatAsWritten(data: Value, guard: Guard): ChatReply
  {
    ChatWith(data, guard, KeyPresent)
  }

  /** `chat` with the processed text used only when the service supplied one. */
  function Chat(data: Value, guard: Guard): ChatReply
  {
    ChatWith(data, guard, NonNull)
  }

  /** The verdict the guardrails service returns for text it leaves
      unchanged: valid, with `processed_text` null. */
  function CleanVerdict(): Value
  {
    Dict([("status", Str("success")), ("valid", Bool(true)), ("validations", List([])), ("processed_text", Null)])
  }

  /** As written, a clean greeting fails with an internal error: the null
      processed text replaces the message and cannot be lower-cased. */
  lemma CleanMessageCrashes()
    ensures ChatAsWritten(Dict([("message", Str("hello"))]), (t, g, c) => CleanVerdict()) == InternalError
  {
  }

  /** With the correction, the same request is answered with the greeting. */
  lemma CleanMessageAnswered()
    ensures var r := Chat(Dict([("message", Str("hello"))]), (t, g, c) => CleanVerdict());
            r.Answered? && r.response == Str(Greeting)
  {
    ContainsMiddle([], "hello", []);
    assert Lower("hello") == "hello";
  }

  /** A verdict that leaves the text unchanged lets the corrected chat use
      the original message and the model's own reply. */
  lemma NullKeepsText(verdict: seq<(string, Value)>, text: Value)
    requires Get(verdict, "processed_text") == Some(Null)
    ensures Processed(verdict, text, NonNull) == text
    ensures Processed(verdict, text, KeyPresent) == Null
  {
  }
}
