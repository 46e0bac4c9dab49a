/** The request URL both URL-building flows produce: the endpoint, the prompt
    encoded as one path segment, and a query string when there is one. */
module Pollinations {
  import opened Wrappers
  import opened UrlEncoding
  import opened FormUrlEncoded

  const Endpoint: string := "https://image.pollinations.ai/prompt/"

  /** `https://image.pollinations.ai/prompt/${encodeURIComponent(text)}`
      followed by `?` and the query only when the query is non-empty. */
  function PromptUrl(text: string, query: string): string {
    Endpoint + EncodeUriComponent(text) + (if query == "" then "" else "?" + query)
  }

  /** How the receiving server reads a request URL: the path segment after the
      endpoint runs up to the first `?`, the query is everything after it. */
  function PathSegment(url: string): string
    requires Endpoint <= url
  {
    var rest := url[|Endpoint|..];
    rest[..IndexOf(rest, '?')]
  }

  function QueryPart(url: string): string
    requires Endpoint <= url
  {
    var rest := url[|Endpoint|..];
    var i := IndexOf(rest, '?');
    if i < |rest| then rest[i + 1..] else ""
  }

  /** The URL is the endpoint followed by the encoded text and, when the query
      is non-empty, `?` and the query. */
  lemma PromptUrlRest(text: string, query: string)
    ensures Endpoint <= PromptUrl(text, query)
    ensures PromptUrl(text, query)[|Endpoint|..]
         == EncodeUriComponent(text) + (if query == "" then "" else "?" + query)
  {
    var url := PromptUrl(text, query);
    assert url[..|Endpoint|] == Endpoint;
  }

  /** The first `?` after the endpoint is the one before the query. */
  lemma PromptUrlSplit(text: string, query: string)
    ensures Endpoint <= PromptUrl(text, query)
    ensures PathSegment(PromptUrl(text, query)) == EncodeUriComponent(text)
    ensures QueryPart(PromptUrl(text, query)) == query
  {
    PromptUrlRest(text, query);
    var rest := PromptUrl(text, query)[|Endpoint|..];
    var segment := EncodeUriComponent(text);
    if query == "" {
      IndexOfAbsent(segment, '?');
      assert rest[..|segment|] == segment;
    } else {
      assert rest == segment + "?" + query;
      IndexOfAfter(segment, '?', query);
      assert rest[..|segment|] == segment;
      assert rest[|segment| + 1..] == query;
    }
  }

  /** There is a `?` in the URL exactly when there is a query. */
  lemma PromptUrlQuestionMark(text: string, query: string)
    ensures '?' in PromptUrl(text, query) <==> query != ""
  {
    var segment := EncodeUriComponent(text);
    var tail := if query == "" then "" else "?" + query;
    assert '?' !in Endpoint;
    assert '?' !in segment;
    assert PromptUrl(text, query) == (Endpoint + segment) + tail;
    MemberOfConcat('?', Endpoint, segment);
    MemberOfConcat('?', Endpoint + segment, tail);
    if query != "" {
      assert tail[0] == '?';
    }
  }

  lemma MemberOfConcat<T>(x: T, a: seq<T>, b: seq<T>)
    ensures x in a + b <==> x in a || x in b
  {
  }

  /** The prompt cannot leak into the query or add path segments: the server
      reads back exactly the encoded text as the single path segment and
      exactly the query as the query, and there is a `?` only when the query
      is non-empty. */
  lemma PromptUrlParts(text: string, query: string)
    ensures Endpoint <= PromptUrl(text, query)
    ensures DecodeUriComponent(PathSegment(PromptUrl(text, query))) == Some(text)
    ensures QueryPart(PromptUrl(text, query)) == query
    ensures '?' in PromptUrl(text, query) <==> query != ""
  {
    PromptUrlSplit(text, query);
    PromptUrlQuestionMark(text, query);
    DecodeUriComponentRoundTrip(text);
  }
}
