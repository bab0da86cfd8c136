/** JSON-RPC 2.0 messages as JSON objects: the shapes an MCP peer writes (sections 4 and 5
    of the JSON-RPC 2.0 specification) and the strict classification of what it reads. */
module McpProtocol {
  import opened Options

  datatype Json = Null | Bool(b: bool) | Number(n: int) | Text(s: string) | Array(items: seq<Json>) | Object(fields: map<string, Json>)

  /** `Null` stands for an absent `params` or `result`, as `None` does in the source. */
  datatype Message =
    | Request(id: Json, method_: string, params: Json)
    | Notification(method_: string, params: Json)
    | Response(id: Json, result: Json, error: Option<map<string, Json>>)

  datatype Problem =
    | NotAnObject | WrongVersion | BadMethod | BadId | NoShape | NotExactlyOne | BadError

  datatype Decoded = Ok(message: Message) | Malformed(problem: Problem)

  function Params(base: map<string, Json>, params: Json): map<string, Json> {
    if params == Null then base else base["params" := params]
  }

  /** What `encode` serialises. */
  function ToObject(m: Message): map<string, Json> {
    match m
    case Request(id, method_, params) =>
      Params(map["jsonrpc" := Text("2.0"), "id" := id, "method" := Text(method_)], params)
    case Notification(method_, params) =>
      Params(map["jsonrpc" := Text("2.0"), "method" := Text(method_)], params)
    case Response(id, result, error) =>
      if error.Some? then map["jsonrpc" := Text("2.0"), "id" := id, "error" := Object(error.value)]
      else map["jsonrpc" := Text("2.0"), "id" := id, "result" := result]
  }

  function Get(o: map<string, Json>, key: string): Json { if key in o then o[key] else Null }

  predicate ValidId(id: Json) { id.Null? || id.Number? || id.Text? }

  /** Booleans are integers to the source's type test. */
  predicate IsInt(j: Json) { j.Number? || j.Bool? }

  predicate ValidError(e: map<string, Json>) { IsInt(Get(e, "code")) && Get(e, "message").Text? }

  function Decode(j: Json): Decoded {
    if !j.Object? then Malformed(NotAnObject)
    else
      var o := j.fields;
      if Get(o, "jsonrpc") != Text("2.0") then Malformed(WrongVersion)
      else if "method" in o then
        if !o["method"].Text? || o["method"].s == "" then Malformed(BadMethod)
        else if "id" in o then
          if !ValidId(o["id"]) then Malformed(BadId)
          else Ok(Request(o["id"], o["method"].s, Get(o, "params")))
        else Ok(Notification(o["method"].s, Get(o, "params")))
      else if "id" !in o then Malformed(NoShape)
      else if !ValidId(o["id"]) then Malformed(BadId)
      else if ("result" in o) == ("error" in o) then Malformed(NotExactlyOne)
      else if "error" in o then
        if !o["error"].Object? || !ValidError(o["error"].fields) then Malformed(BadError)
        else Ok(Response(o["id"], Null, Some(o["error"].fields)))
      else Ok(Response(o["id"], o["result"], None))
  }

  /** The messages that survive the wire. */
  predicate Encodable(m: Message) {
    match m
    case Request(id, method_, _) => (id.Null? || id.Number? || id.Text?) && method_ != ""
    case Notification(method_, _) => method_ != ""
    case Response(id, result, error) =>
      (id.Null? || id.Number? || id.Text?) &&
      (error.Some? ==>
         result == Null && "code" in error.value && (error.value["code"].Number? || error.value["code"].Bool?) &&
         "message" in error.value && error.value["message"].Text?)
  }

  /** Decoding an encoded message gives it back exactly when it is encodable. */
  lemma DecodeEncodeIff(m: Message)
    ensures Decode(Object(ToObject(m))) == Ok(m) <==> Encodable(m)
  {}

  /** Whatever is accepted from the wire can be sent again with the same meaning. */
  lemma DecodedIsEncodable(j: Json)
    requires Decode(j).Ok?
    ensures Encodable(Decode(j).message)
    ensures Decode(Object(ToObject(Decode(j).message))) == Decode(j)
  {
    DecodeEncodeIff(Decode(j).message);
  }

  /** The object carries the message: its own fields, whatever else it holds. */
  predicate Reads(o: map<string, Json>, m: Message) {
    "jsonrpc" in o && o["jsonrpc"] == Text("2.0") &&
    match m
    case Request(id, method_, params) =>
      "id" in o && o["id"] == id && "method" in o && o["method"] == Text(method_) &&
      params == (if "params" in o then o["params"] else Null)
    case Notification(method_, params) =>
      "id" !in o && "method" in o && o["method"] == Text(method_) &&
      params == (if "params" in o then o["params"] else Null)
    case Response(id, result, None) =>
      "method" !in o && "error" !in o && "id" in o && o["id"] == id && "result" in o && o["result"] == result
    case Response(id, result, Some(e)) =>
      "method" !in o && "result" !in o && "id" in o && o["id"] == id && "error" in o && o["error"] == Object(e)
  }

  /** An object is accepted as a message exactly when it carries it and the message is one
      that may be sent; everything else is malformed. */
  lemma DecodeMeans(j: Json, m: Message)
    ensures Decode(j) == Ok(m) <==> j.Object? && Reads(j.fields, m) && Encodable(m)
  {}
}
