# Tax-document MCP server: a Dafny model of the request loop and the indexer

This project models the core of a small Model Context Protocol server. The
server answers questions about the 2025 Korean tax-law revision.

The server (`mcp_server_simple_final.py`) reads JSON-RPC 2.0 requests from
standard input, one per line. It answers `initialize`, `tools/list` and
`tools/call`, and writes one JSON response per answered request. It offers
two tools:
- `search_document` runs a vector search and has a language model summarise
  the hits;
- `get_document_info` reports how many chunks the store holds.

The indexer (`index_document.py`) prepares that store. It keeps the non-blank
pages of a PDF, labelled with their page numbers. It splits them into chunks
and attaches metadata to each chunk.

The model is written in terms of the program's own behaviour:

- `Text` models Python's `str.strip()` (Python's full whitespace set) and
  `str(int)`.
- `JsonData` models the values `json.loads` produces. It also models
  `dict.get` on any of them, which raises `AttributeError` with Python's
  message when the value is not a dict, and the `str()` that f-strings
  apply.
- `Collaborators` gathers what the server calls but does not define into one
  record, `Env`:
  - the JSON decoder;
  - the vector search;
  - the summariser;
  - the chunk count;
  - the info-text template;
  - `repr` for floats, lists and dicts.

  Every tool result records the collaborator calls it made.
- `Protocol` models the response objects the server prints and reads them
  back. It also holds the fixed `initialize` and `tools/list` results and the
  single-text-item `tools/call` result.
- `Tools` models the two tool handlers. Each turns a collaborator failure into
  result text.
- `Dispatcher` models the handling of one decoded value:
  - the id check;
  - routing on `method`;
  - the `tools/call` sub-dispatch;
  - the outer `except` handler.
- `ServerLoop` models the `while True` loop as a fold over the input lines.

  The loop state is:
  - the `request` local, which survives from one iteration to the next;
  - the responses printed so far;
  - whether the process is still running.

  The loop's properties are proved for any decoder and any dispatcher that
  keep the dispatcher's contract (`Conforms`). `Serve` runs the loop with the
  server's own dispatcher.
- `Indexer` models three parts of `DocumentIndexer`:
  - the page loop of `load_pdf`;
  - `split_text`, over an abstract splitter;
  - `create_metadata`.

Where the documented behaviour and the code differ, the model follows the code:

- **Non-dict input.** A line that decodes to a value that is not a dict ends
  the server. This covers a list, string, number, boolean or `null`. The
  cause is that `request.get` raises in the `try` block and raises again
  inside the `except` handler (line 266). The exception escapes the loop, and
  `main` exits with status 1 (lines 285-287). The loop is not
  crash-proof.
- **Non-dict `params` or `arguments`.** A `tools/call` whose `params` is not a
  dict gets an internal error (-32603) naming the `AttributeError`. So does a
  search whose `arguments` is not a dict. No argument is validated against
  the advertised input schema: `query` and `max_results` are passed through
  whatever they are.
- **Stale request.** An exception raised by the decoder itself is not a
  `JSONDecodeError`; Python's `RecursionError` on deep nesting is one such
  exception. It reaches the outer handler while `request` still holds the
  value decoded from an earlier line. If that value had an id, the id is
  answered a second time, with an internal error
  (`ServerLoop.ParserFailureReusesEarlierId`).
- **Falsy ids.** Ids such as `0`, `""` and `false` pass the id check; only
  a missing or `null` id is ignored.

## Model

| member | source | states |
|---|---|---|
| Text.Strip | mcp_server_simple_final.py:153-157 | The stripped line has no Python whitespace at either end and is no longer than the line. |
| Text.StripUnique | mcp_server_simple_final.py:153-157 | Stripping whitespace + core + whitespace, where the core has no whitespace at either end, gives exactly the core: strip removes all leading and trailing whitespace and nothing else. |
| Text.StripEmpty | mcp_server_simple_final.py:153-154 | A line is skipped as blank exactly when every character of it is whitespace. |
| Text.Decimal | index_document.py:66 | `str(n)` of a natural number is a non-empty string of decimal digits with no leading zero, except for zero itself. |
| Text.DecimalRoundTrip | index_document.py:66 | Reading back the digits of `str(n)` gives `n`. |
| Text.IntToString | mcp_server_simple_final.py:235 | `str(i)` starts with a digit exactly when `i` is not negative. |
| Text.IntToStringValue | mcp_server_simple_final.py:235 | `str(i)` reads back as `i`: for `i >= 0` it is all digits whose value is `i`; for `i < 0` it is a minus sign followed by digits whose value is `-i`; there is no leading zero except in "0". |
| JsonData.PyStr | mcp_server_simple_final.py:235 | No contract of its own; `str()` of a decoded value as the f-strings at lines 73 and 235 apply it, characterised by `Dispatcher.UnknownToolIsText` (`None` for a missing name). |
| JsonData.Get | mcp_server_simple_final.py:163 | `v.get(...)` succeeds exactly when `v` is a dict; on anything else it raises `'<type>' object has no attribute 'get'`. |
| Protocol.Encode | mcp_server_simple_final.py:169-184 | Every response object has exactly the keys jsonrpc, id and one of result/error, with jsonrpc "2.0" and the request's id. |
| Protocol.DecodeEncode | mcp_server_simple_final.py:251-258 | Every response object reads back as the response it was written from, error code and message included. |
| Protocol.EncodeDecode | mcp_server_simple_final.py:267-274 | Anything that reads back as a response is exactly the object written for it. |
| Protocol.ToolTextResult | mcp_server_simple_final.py:237-248 | A `tools/call` result holds one content item of type "text" whose text is the tool's result. |
| Protocol.ToolTextExact | mcp_server_simple_final.py:240-247 | A result with exactly one text item is the result written for that text, and nothing else. |
| Protocol.ToolsListResult | mcp_server_simple_final.py:190-221 | The `tools/list` result has only the key "tools", listing each tool descriptor in order. |
| Protocol.ToolsListContents | mcp_server_simple_final.py:191-219 | Exactly two tools are listed: search_document, requiring `query` and offering `max_results`; then get_document_info, with no properties and no additional properties allowed. |
| Tools.SearchDocument | mcp_server_simple_final.py:64-117 | A search is made first. The summariser is called only when it returned hits. No hits gives the quoted no-results text. A failure of either call gives the error text. Otherwise the result is the summary verbatim. |
| Tools.SummariserUnreachedWithoutHits | mcp_server_simple_final.py:70-73 | Without hits, the answer and the calls do not depend on the summariser at all. |
| Tools.GetDocumentInfo | mcp_server_simple_final.py:119-143 | The chunk count is asked for once; the result is the info text for that count, or the error text when counting fails. |
| Dispatcher.CallTool | mcp_server_simple_final.py:224-235 | No contract of its own; the `tools/call` branch, characterised by `CallToolFailsExactlyWhenUnreadable`, `SearchCall`, `InfoCall` and `UnknownToolIsText`. |
| Dispatcher.Route | mcp_server_simple_final.py:168-258 | No contract of its own; routing on `method`, characterised by `RouteOutcome`, `FixedMethods` and `UnknownMethod`. |
| Dispatcher.TryRequest | mcp_server_simple_final.py:162-262 | No contract of its own; the `try` block for one decoded value, characterised through `HandleRequest` and `HandleIdentified`. |
| Dispatcher.Recover | mcp_server_simple_final.py:264-276 | The handler answers with an internal error for the `request` local's id exactly when that local is a dict with a non-null id. It re-raises exactly when the local is not a dict, and is otherwise silent. |
| Dispatcher.HandleRequest | mcp_server_simple_final.py:162-276 | A decoded value gets a response exactly when it is a dict with a non-null id, and the response carries that id. Handling ends the loop exactly when the value is not a dict. |
| Dispatcher.CallToolFailsExactlyWhenUnreadable | mcp_server_simple_final.py:224-231 | The `tools/call` branch raises exactly when `params` is not a dict, or when the search tool's `arguments` is not one, with that value's AttributeError. |
| Dispatcher.RouteOutcome | mcp_server_simple_final.py:168-258 | Only `tools/call` can raise, and only when its branch raises; the only error body routing itself produces is "Method not found". |
| Dispatcher.HandleIdentified | mcp_server_simple_final.py:162-276 | An identified request is answered with the routed body, or with "Internal error: " and the message of what routing raised. |
| Dispatcher.UnidentifiedIsSilent | mcp_server_simple_final.py:162-165 | A dict with a missing or null id gets no response and calls nothing, whatever its method. |
| Dispatcher.NonObjectTerminates | mcp_server_simple_final.py:163 | A decoded value that is not a dict ends the loop with that value's AttributeError. |
| Dispatcher.IdentifiedGetsResponse | mcp_server_simple_final.py:162-276 | An identified request gets exactly one response with its own id; the only error codes are -32601 and -32603. |
| Dispatcher.UnknownMethod | mcp_server_simple_final.py:250-258 | A missing or unknown method is answered with -32601 "Method not found" and calls nothing. |
| Dispatcher.FixedMethods | mcp_server_simple_final.py:168-222 | `initialize` and `tools/list` answer with their fixed results and call nothing. |
| Dispatcher.InternalErrorExactly | mcp_server_simple_final.py:224-235 | An identified request gets an internal error exactly when it is a `tools/call` with an unreadable `params` or search `arguments`; the message names that value's type. |
| Dispatcher.ToolFailureIsNotProtocolFailure | mcp_server_simple_final.py:224-248 | A readable `tools/call` always succeeds at the protocol level with a single text item, whatever the collaborators do. |
| Dispatcher.UnknownToolIsText | mcp_server_simple_final.py:225-235 | An unknown tool name yields the text "알 수 없는 도구: " followed by `str(name)`; a missing `params` reads as None. |
| Dispatcher.SearchCall | mcp_server_simple_final.py:228-231 | The search reads `query` (default "") and `max_results` (default 5) unvalidated, and its text becomes the result. |
| Dispatcher.InfoCall | mcp_server_simple_final.py:232-248 | get_document_info counts the chunks once, and its text (the info text for a successful count, the failure text otherwise) becomes the single text item of a successful response. |
| ServerLoop.ServerOfConforms | mcp_server_simple_final.py:162-276 | The server's own dispatcher and handler keep the contract the loop relies on. |
| ServerLoop.ApplyEffect | mcp_server_simple_final.py:260-262 | Printing a response only appends to the output and leaves the `request` local alone. |
| ServerLoop.Step | mcp_server_simple_final.py:149-160 | No contract of its own; one iteration on one line, characterised by `StepAppends`, `StepOnFatal`, `StepOnNonFatal`, `StepOnBenign` and `StepOnDecoderException`. |
| ServerLoop.StepOnDecoderException | mcp_server_simple_final.py:156-160 | For a decoder exception other than JSONDecodeError, the `request` local is unchanged, and the only output is the -32603 answer for that local's id, printed exactly when the local holds an identified request; the loop ends only when the local is not a dict. |
| ServerLoop.Run | mcp_server_simple_final.py:149-276 | Once the loop has exited, further lines change nothing; otherwise characterised by `RunAppends`, `RunAppend`, `RunExitsOnFatal` and `RunAnswersRequests`. |
| ServerLoop.Serve | mcp_server_simple_final.py:145-276 | No contract of its own; the loop run from the start with the server's own dispatcher, characterised by `ServeExitsExactlyOnFatal`, `ServeAnswersEachRequestOnce`, `ServeIgnoresIgnoredLine` and `ServeRepeatsIdAfterParserFailure`. |
| ServerLoop.StepAppends | mcp_server_simple_final.py:149-276 | One line prints at most one response, keeps earlier output, and either keeps the loop running or ends it with status 1. |
| ServerLoop.RunAppends | mcp_server_simple_final.py:149-276 | Over any input, output is only appended to (at most one line per input line), and the only exit is status 1. |
| ServerLoop.RunAppend | mcp_server_simple_final.py:149 | Processing `a + b` is processing `a` and then `b` from where `a` left off. |
| ServerLoop.IgnoredLineRemovable | mcp_server_simple_final.py:153-160 | A blank or undecodable line can be removed from the input without changing anything: output, `request` local or status. |
| ServerLoop.ServeIgnoresIgnoredLine | mcp_server_simple_final.py:153-160 | The same for the server as it runs. |
| ServerLoop.UnidentifiedLineSilent | mcp_server_simple_final.py:162-165 | A line holding a dict without an id prints nothing and keeps the loop running. |
| ServerLoop.StepOnFatal | mcp_server_simple_final.py:266 | A line that decodes to a non-dict ends the loop. |
| ServerLoop.StepOnNonFatal | mcp_server_simple_final.py:149-276 | Any other line keeps the loop running, with a dict (or nothing) in the `request` local. |
| ServerLoop.StepOnBenign | mcp_server_simple_final.py:153-262 | A blank, undecodable or dict line appends the dispatcher's response exactly when it carries an identified request. |
| ServerLoop.RunExitsOnFatal | mcp_server_simple_final.py:149-276 | The loop ends exactly when some line decodes to a non-dict. |
| ServerLoop.ServeExitsExactlyOnFatal | mcp_server_simple_final.py:285-287 | The server exits, with status 1, exactly when some line decodes to a non-dict; running out of input never ends it. |
| ServerLoop.RunAnswersRequests | mcp_server_simple_final.py:149-262 | On input whose lines are blank, JSONDecodeError or dicts (no non-dict values and no decoder exceptions), the output is the dispatcher's answer to each identified request, in input order. |
| ServerLoop.ServeAnswersEachRequestOnce | mcp_server_simple_final.py:149-262 | On input whose lines are blank, JSONDecodeError or dicts (no non-dict values and no decoder exceptions), the server keeps running and prints exactly one response per identified request, in order, each `HandleRequest`'s answer with that request's id. |
| ServerLoop.EmittedAreWireResponses | mcp_server_simple_final.py:260 | Every printed line has the JSON-RPC 2.0 response shape; this holds by construction of `Protocol.Encode`, whatever the input. |
| ServerLoop.ParserFailureReusesEarlierId | mcp_server_simple_final.py:156-160 | After an identified request, a decoder exception makes the handler answer the earlier request's id a second time, with an internal error. |
| ServerLoop.ServeRepeatsIdAfterParserFailure | mcp_server_simple_final.py:264-276 | The same for the server as it runs: the earlier id appears twice in the output. |
| ServerLoop.ParserFailureFirstIsSilent | mcp_server_simple_final.py:266 | A decoder exception before any value was decoded prints nothing and changes nothing. |
| Indexer.PageLabel | index_document.py:66 | No contract of its own; the label `페이지 {i+1}: {text}`, characterised by `Indexer.ReadPageLabel`. |
| Indexer.ReadPageLabel | index_document.py:66 | A page label reads back into the page's 1-based number and its text. |
| Indexer.LoadPages | index_document.py:62-66 | The page loop returns the reference list of labelled, stripped, non-blank pages. |
| Indexer.KeptExactly | index_document.py:62-66 | The kept pages are the non-blank pages in strictly rising page order, each labelled with its position among all pages and its stripped text. |
| Indexer.KeptNoLonger | index_document.py:62-66 | The page loop's output is no longer than the page list. |
| Indexer.KeptFromPages | index_document.py:63-66 | Every output element is the label of some page's stripped, non-empty content, not its raw text. |
| Indexer.KeptPageNumbersRise | index_document.py:62-66 | The page numbers read back from the output labels rise strictly. |
| Indexer.ChunksOfAppend | index_document.py:79-85 | Splitting a concatenation of text lists concatenates their chunk lists. |
| Indexer.SplitText | index_document.py:79-85 | The chunk loop returns the reference flattening of the splitter's output, text by text. |
| Indexer.ChunksOfLayout | index_document.py:81-83 | The chunks of text `i` appear unchanged and in order, right after the chunks of the texts before it: nothing is dropped or reordered. |
| Indexer.CreateMetadata | index_document.py:87-100 | One record per chunk in chunk order. Record `i` has chunk id `i` and the chunk's length as its size. Every record has the PDF path as source, "tax_law_2025" as type and "ko" as language. |

## Left out

- The event loop, `main` and `KeyboardInterrupt`: only the exit status 1 of an escaped exception (lines 285-287) is modelled, as the loop's `Exited(1)` status.
- Reading standard input and writing standard output. The input is a finite sequence of lines. End of input is not modelled: at the end of input the source loop skips empty reads forever, and a run that has consumed all its lines is still listening. An I/O error on the streams is not modelled.
- `json.loads` is the decoder collaborator `Env.parse`, with three outcomes: a value, JSONDecodeError, or another exception. `json.dumps` is modelled only through the shape of the dict it is given.
- Logging and the server's constructor (ChromaDB client, embeddings and OpenAI client set-up) are outside the model.
- The search prompt text, the per-hit formatting and the info-text layout are collaborator parameters. So are the vector search, the summariser and the chunk count.
- Every collaborator in `Env` is a total, deterministic function fixed for the whole run, and `chunkCount` is one constant. In the source, the summariser samples at temperature 0.3 (lines 103-111), the chunk count is queried afresh on every call (lines 122-123), and a call that hangs stalls the loop, since there is no timeout. So the equalities with `HandleRequest(env, ·)` in `ServerLoop.ServeAnswersEachRequestOnce` imply that equal requests get equal answers, which holds only of this abstraction. The count, id and order of the responses do not depend on it.
- Strings are sequences of Unicode scalar values, so a JSON string holding a lone surrogate (which `json.loads` produces from an escape such as `\ud800`) cannot be represented. The resulting UnicodeEncodeError when `print` writes such a string (lines 260 and 274) is not modelled: a tool name or query echoed into the result text would get an internal error instead, and a surrogate in the id would make the handler's own `print` raise and `main` exit with status 1. The exactness of `Dispatcher.InternalErrorExactly` and `ServerLoop.ServeExitsExactlyOnFatal` is for representable input only.
- Tools.SearchDocument: a summariser that returns `None` (an empty message content) is not modelled; its result is always a string.
- JsonData.PyStr: `str()` of floats, lists and dicts is the abstract `Env.repr`; NaN and infinities from `json.loads` are not modelled.
- The text splitter (RecursiveCharacterTextSplitter, chunk size 1000, overlap 200) is the parameter `split` of `Indexer.SplitText`; its chunking rules are not modelled.
- `load_pdf`'s file-existence check and PDF parsing: the model starts from the list of page contents.
- `index_documents`, `test_search` and the indexer's `main`: they delete and fill the ChromaDB collection, which is external storage.
- `test_mcp_server.py` is a client script that spawns the server; it is not part of this model.
