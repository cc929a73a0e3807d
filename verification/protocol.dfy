/** JSON-RPC 2.0 responses as the server writes them, and the fixed results it
    returns for `initialize` and `tools/list`. */
module Protocol {
  import opened Outcomes
  import opened JsonData

  const JSONRPC_VERSION: string := "2.0"

  /** Error code for a method the server does not know. */
  const METHOD_NOT_FOUND: int := -32601
  const METHOD_NOT_FOUND_MESSAGE: string := "Method not found"

  /** Error code for an exception raised while a request was being handled. */
  const INTERNAL_ERROR: int := -32603
  const INTERNAL_ERROR_PREFIX: string := "Internal error: "

  /** The payload of a response: exactly one of `result` and `error`. */
  datatype Body =
    | ResultBody(value: Json)
    | ErrorBody(code: int, message: string)

  datatype Response = Response(id: Json, body: Body)

  /** The shape of every line the server writes: an object with `jsonrpc`
      equal to "2.0", an `id`, and exactly one of `result` and `error`. */
  predicate IsWireResponse(j: Json) {
    && j.JObject?
    && (j.fields.Keys == {"jsonrpc", "id", "result"} || j.fields.Keys == {"jsonrpc", "id", "error"})
    && j.fields["jsonrpc"] == JString(JSONRPC_VERSION)
  }

  /** The dict handed to `json.dumps` for a response. */
  function Encode(r: Response): (j: Json)
    ensures IsWireResponse(j)
    ensures j.fields["id"] == r.id
    ensures "result" in j.fields <==> r.body.ResultBody?
  {
    match r.body
    case ResultBody(v) =>
      JObject(map["jsonrpc" := JString(JSONRPC_VERSION), "id" := r.id, "result" := v])
    case ErrorBody(c, m) =>
      JObject(map["jsonrpc" := JString(JSONRPC_VERSION), "id" := r.id,
                  "error" := JObject(map["code" := JInt(c), "message" := JString(m)])])
  }

  /** Reads a written response back; `None` for anything that is not the
      shape `Encode` writes. */
  function Decode(j: Json): Option<Response> {
    if !IsWireResponse(j) then None
    else if "result" in j.fields then Some(Response(j.fields["id"], ResultBody(j.fields["result"])))
    else
      var e := j.fields["error"];
      if && e.JObject?
         && e.fields.Keys == {"code", "message"}
         && e.fields["code"].JInt?
         && e.fields["message"].JString?
      then Some(Response(j.fields["id"], ErrorBody(e.fields["code"].i, e.fields["message"].s)))
      else None
  }

  /** Every response reads back as itself. */
  lemma DecodeEncode(r: Response)
    ensures Decode(Encode(r)) == Some(r)
  {
    var j := Encode(r);
    if r.body.ErrorBody? {
      var e := j.fields["error"];
      assert e.fields.Keys == {"code", "message"};
    }
  }

  /** Whatever reads back as a response is exactly what `Encode` writes for it. */
  lemma EncodeDecode(j: Json, r: Response)
    requires Decode(j) == Some(r)
    ensures Encode(r) == j
  {
    var e := Encode(r);
    assert e.fields.Keys == j.fields.Keys;
    if "error" in j.fields {
      var x := j.fields["error"];
      assert e.fields["error"].fields.Keys == x.fields.Keys;
      assert e.fields["error"] == x;
    }
    assert forall k :: k in j.fields ==> e.fields[k] == j.fields[k];
  }

  /** A `tools/call` result carrying one text item. */
  function ToolTextResult(text: string): (j: Json)
    ensures ToolText(j) == Some(text)
  {
    JObject(map["content" := JArray([JObject(map["type" := JString("text"), "text" := JString(text)])])])
  }

  /** The text of a `tools/call` result that holds exactly one text item. */
  function ToolText(j: Json): Option<string> {
    if && j.JObject?
       && j.fields.Keys == {"content"}
       && j.fields["content"].JArray?
       && |j.fields["content"].items| == 1
    then
      var item := j.fields["content"].items[0];
      if && item.JObject?
         && item.fields.Keys == {"type", "text"}
         && item.fields["type"] == JString("text")
         && item.fields["text"].JString?
      then Some(item.fields["text"].s)
      else None
    else None
  }

  /** A result with a single text item is exactly `ToolTextResult` of its text. */
  lemma ToolTextExact(j: Json, text: string)
    requires ToolText(j) == Some(text)
    ensures j == ToolTextResult(text)
  {
    var item := j.fields["content"].items[0];
    var expected := JObject(map["type" := JString("text"), "text" := JString(text)]);
    assert expected.fields.Keys == item.fields.Keys;
    assert item == expected;
    assert j.fields["content"] == JArray([expected]);
    assert ToolTextResult(text).fields.Keys == j.fields.Keys;
  }

  /** The result of `initialize`. */
  const InitializeResult: Json :=
    JObject(map[
      "protocolVersion" := JString("2024-11-05"),
      "capabilities" := JObject(map["tools" := JObject(map["listChanged" := JBool(false)])]),
      "serverInfo" := JObject(map["name" := JString("tax-document-mcp"), "version" := JString("1.0.0")])])

  datatype ToolDescriptor = ToolDescriptor(name: string, description: string, inputSchema: Json)

  const SEARCH_TOOL: string := "search_document"
  const INFO_TOOL: string := "get_document_info"

  const SearchDescriptor: ToolDescriptor :=
    ToolDescriptor(
      SEARCH_TOOL,
      "2025년 세법 개정안 문서에서 관련 내용을 검색하고 AI로 요약합니다.",
      JObject(map[
        "type" := JString("object"),
        "properties" := JObject(map[
          "query" := JObject(map[
            "type" := JString("string"),
            "description" := JString("검색할 쿼리 (예: '소득세', '법인세', '부가가치세' 등)")]),
          "max_results" := JObject(map[
            "type" := JString("integer"),
            "description" := JString("최대 결과 수 (기본값: 5)"),
            "default" := JInt(5)])]),
        "required" := JArray([JString("query")])]))

  const InfoDescriptor: ToolDescriptor :=
    ToolDescriptor(
      INFO_TOOL,
      "저장된 문서의 정보를 조회합니다.",
      JObject(map[
        "type" := JString("object"),
        "properties" := JObject(map[]),
        "additionalProperties" := JBool(false)]))

  /** The tools the server offers, in the order `tools/list` reports them. */
  const Descriptors: seq<ToolDescriptor> := [SearchDescriptor, InfoDescriptor]

  function EncodeDescriptor(d: ToolDescriptor): Json {
    JObject(map[
      "name" := JString(d.name),
      "description" := JString(d.description),
      "inputSchema" := d.inputSchema])
  }

  /** The result of `tools/list`. */
  function ToolsListResult(): (j: Json)
    ensures j.JObject? && j.fields.Keys == {"tools"}
    ensures j.fields["tools"].JArray? && |j.fields["tools"].items| == |Descriptors|
    ensures forall i :: 0 <= i < |Descriptors| ==> j.fields["tools"].items[i] == EncodeDescriptor(Descriptors[i])
  {
    JObject(map["tools" := JArray([EncodeDescriptor(SearchDescriptor), EncodeDescriptor(InfoDescriptor)])])
  }

  /** `tools/list` reports exactly two tools: `search_document`, whose schema
      requires `query`, then `get_document_info`, whose schema has no
      properties and forbids additional ones. */
  lemma ToolsListContents()
    ensures var tools := ToolsListResult().fields["tools"].items;
      && |tools| == 2
      && tools[0].fields["name"] == JString(SEARCH_TOOL)
      && tools[0].fields["inputSchema"].fields["required"] == JArray([JString("query")])
      && tools[0].fields["inputSchema"].fields["properties"].fields.Keys == {"query", "max_results"}
      && tools[1].fields["name"] == JString(INFO_TOOL)
      && tools[1].fields["inputSchema"].fields["properties"] == JObject(map[])
      && tools[1].fields["inputSchema"].fields["additionalProperties"] == JBool(false)
  {
  }
}
