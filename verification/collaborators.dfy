/** The server's collaborators, abstracted to pure functions: the JSON decoder,
    the vector-store search, the chat-completion summariser and the collection
    statistics. Every call that can raise returns a `Result` whose failure
    carries `str(e)`. */
module Collaborators {
  import opened Outcomes
  import opened JsonData

  /** What `json.loads` does with one stripped line: a value, a JSONDecodeError
      (the line is skipped), or any other exception (for instance the
      RecursionError raised by very deeply nested input), which reaches the
      loop's outer handler. */
  datatype ParseOutcome =
    | Parsed(value: Json)
    | Malformed
    | ParserRaised(message: string)

  /** One hit of the similarity search: `page_content` and `metadata`. */
  datatype Passage = Passage(content: string, metadata: Json)

  /** A call into a collaborator, with the arguments it received. */
  datatype Call =
    | Retrieve(query: Json, limit: Json)
    | Summarise(query: Json, passages: seq<Passage>)
    | CountChunks

  /** The collaborators as fixed for one run of the server.
      - `parse`: `json.loads` on a stripped line;
      - `retrieve`: `similarity_search(query, k=limit)`;
      - `summarise`: the chat completion over the prompt built from the query
        and the hits, yielding the message content;
      - `chunkCount`: `get_collection(name).count()`;
      - `infoText`: the fixed information text with the chunk count filled in;
      - `repr`: Python's `str()` of a float, list or dict. */
  datatype Env = Env(
    parse: string -> ParseOutcome,
    retrieve: (Json, Json) -> Result<seq<Passage>>,
    summarise: (Json, seq<Passage>) -> Result<string>,
    chunkCount: Result<int>,
    infoText: int -> string,
    repr: Json -> string)

  /** A value together with the collaborator calls made to produce it, in order. */
  datatype Traced<+T> = Traced(value: T, calls: seq<Call>)
}
