/** What `extract_queries` does with the language model's reply: look up the
    message content, parse it as JSON, and hand back the list stored under
    "queries", raising on every other shape. The chat call itself and the
    JSON parser are outside the model: the reply is an input and `parse` is
    any partial parser (`None` where `json.loads` raises). */
module QueryExtractor {

  import opened Base

  /** A value as `json.loads` returns it; an object is a `dict`, in which a
      repeated key has already been resolved by the parser. */
  datatype Json =
    | JNull
    | JBool(b: bool)
    | JNumber(n: real)
    | JString(s: string)
    | JArray(items: seq<Json>)
    | JObject(members: map<string, Json>)

  datatype Message = Message(content: Option<string>)
  datatype ChatResponse = ChatResponse(message: Option<Message>)

  /** Why the extraction stops. The first three are the `ValueError`s the
      function raises; `NotAnObject` is the `AttributeError` of calling
      `.get` on a parsed value that is not a `dict`. */
  datatype Failure = MissingContent | InvalidJson | NoQueriesList | NotAnObject

  datatype Result<T> = Ok(value: T) | Err(error: Failure)

  predicate IsValueError(f: Failure)
  {
    f != NotAnObject
  }

  /** `response.get('message', {}).get('content', None)` */
  function ContentOf(response: ChatResponse): Option<string>
  {
    match response.message
    case None => None
    case Some(m) => m.content
  }

  /** The object holds a list under "queries". */
  predicate HasQueriesList(members: map<string, Json>)
  {
    "queries" in members && members["queries"].JArray?
  }

  /** `extract_queries` after the chat call. */
  function ExtractQueries(response: ChatResponse, parse: string -> Option<Json>): (r: Result<seq<Json>>)
    ensures r.Ok? <==>
      ContentOf(response).Some? && parse(ContentOf(response).value).Some?
      && parse(ContentOf(response).value).value.JObject?
      && HasQueriesList(parse(ContentOf(response).value).value.members)
    ensures r.Ok? ==> r.value == parse(ContentOf(response).value).value.members["queries"].items
    ensures r.Err? ==> (IsValueError(r.error) <==>
      ContentOf(response).None? || parse(ContentOf(response).value).None?
      || parse(ContentOf(response).value).value.JObject?)
  {
    match ContentOf(response)
    case None => Err(MissingContent)
    case Some(content) =>
      match parse(content)
      case None => Err(InvalidJson)
      case Some(JObject(members)) =>
        var queries := if "queries" in members then members["queries"] else JNull;
        if queries == JNull || !queries.JArray? then Err(NoQueriesList)
        else Ok(queries.items)
      case Some(_) => Err(NotAnObject)
  }

  /** A reply whose content parses to an object with a list under "queries"
      gives back that list unchanged: neither its length (empty or more than
      four) nor the type of its elements is checked. */
  lemma AnyQueriesListAccepted(content: string, parse: string -> Option<Json>,
                               members: map<string, Json>, items: seq<Json>)
    requires parse(content) == Some(JObject(members))
    requires "queries" in members && members["queries"] == JArray(items)
    ensures ExtractQueries(ChatResponse(Some(Message(Some(content)))), parse) == Ok(items)
  {
  }

  /** A missing or `null` "queries" and a "queries" that is not a list raise
      the same `ValueError`. */
  lemma MissingOrNonListQueriesRejected(content: string, parse: string -> Option<Json>,
                                         members: map<string, Json>)
    requires parse(content) == Some(JObject(members))
    requires !HasQueriesList(members)
    ensures ExtractQueries(ChatResponse(Some(Message(Some(content)))), parse) == Err(NoQueriesList)
  {
  }

  /** Content that parses to a list, string, number, boolean or `null` has no
      `.get`: the error is not the documented `ValueError`. */
  lemma NonObjectIsNotValueError(content: string, parse: string -> Option<Json>)
    requires parse(content).Some? && !parse(content).value.JObject?
    ensures var r := ExtractQueries(ChatResponse(Some(Message(Some(content)))), parse);
      r.Err? && !IsValueError(r.error)
  {
  }

  /** `extract_queries` as its docstring describes it: every reply that is not
      in the expected format raises `ValueError`, including content that
      parses to something other than an object. */
  function ExtractQueriesAsDocumented(response: ChatResponse, parse: string -> Option<Json>): (r: Result<seq<Json>>)
    ensures r.Err? ==> IsValueError(r.error)
  {
    match ContentOf(response)
    case None => Err(MissingContent)
    case Some(content) =>
      match parse(content)
      case None => Err(InvalidJson)
      case Some(j) =>
        if j.JObject? && HasQueriesList(j.members) then Ok(j.members["queries"].items)
        else Err(NoQueriesList)
  }

  /** The documented behaviour differs from the code only where the code
      calls `.get` on a non-object, and there it raises the list error. */
  lemma AsDocumentedDiffersOnlyOnNonObjects(response: ChatResponse, parse: string -> Option<Json>)
    ensures var written := ExtractQueries(response, parse);
      ExtractQueriesAsDocumented(response, parse)
        == if written == Err(NotAnObject) then Err(NoQueriesList) else written
  {
  }
}
