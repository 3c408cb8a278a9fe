/** The retrieval boundary: `search_documents` and the records it yields.
    Ranking happens in the remote search service, so the search is an
    oracle supplied by the caller. */
module Retrieval {

  /** One search hit, projected to the two selected fields. */
  datatype Doc = Doc(title: string, chunk: string)

  /** `search_documents(query, top_k)`: the ranked hits, most relevant first. */
  type Search = (string, nat) -> seq<Doc>

  /** The default `top_k` of `search_documents` and `generate_answer`. */
  const DefaultTopK: nat := 5

  /** Calls the search with the given (or default) result count. */
  function SearchDocuments(search: Search, query: string, topK: nat := DefaultTopK): seq<Doc>
  {
    search(query, topK)
  }
}
