/**
 * Reading the spreadsheet's document id from what the user typed or from the page's query
 * string (`decodeDocumentIdFromUrl` and `decodeDocumentId`).
 */
module DocumentId {
  import opened Wrappers
  import opened Js

  /** `url.split("/")[5]`, `undefined` when the URL has fewer than six pieces. */
  function FromUrl(url: string): (r: Option<string>)
    ensures r.Some? <==> |Split(url, '/')| > 5
    ensures r.Some? ==> '/' !in r.value
  {
    var pieces := Split(url, '/');
    if |pieces| > 5 then Some(pieces[5]) else None
  }

  /** A query starting with "http" is a URL; anything else is the id up to the first '&'. */
  function FromQuery(query: string): (r: Option<string>)
    ensures !StartsWith(query, "http") ==> r.Some? && '&' !in r.value && |r.value| <= |query|
                                           && r.value == query[..|r.value|]
                                           && (|r.value| == |query| || query[|r.value|] == '&')
  {
    if StartsWith(query, "http") then FromUrl(query)
    else
      SplitFirst(query, '&');
      Some(Split(query, '&')[0])
  }

  /** `location.search.substring(1)`: the query string without its leading '?'. */
  function DropFirst(s: string): string {
    if |s| >= 1 then s[1..] else ""
  }

  /**
   * `decodeDocumentId(input)`: the given input when it is a non-empty string, else the page's
   * query string, URI-decoded by `decode`, then read as a URL or as a bare id.
   */
  function DecodeDocumentId(input: Option<string>, locationSearch: string, decode: string -> string): (r: Option<string>)
    ensures var query := decode(if input.Some? && input.value != "" then input.value else DropFirst(locationSearch));
            && (!StartsWith(query, "http") ==> r.Some? && '&' !in r.value && |r.value| <= |query| && r.value == query[..|r.value|]
                                               && (|r.value| == |query| || query[|r.value|] == '&'))
            && (StartsWith(query, "http") ==> (r.Some? <==> |Split(query, '/')| > 5)
                                              && (r.Some? ==> r.value == Split(query, '/')[5]))
  {
    var raw := if input.Some? && input.value != "" then input.value else DropFirst(locationSearch);
    FromQuery(decode(raw))
  }

  /**
   * A non-empty input is read and the page's query string ignored; an absent or empty input
   * reads the page's query string after its leading '?' instead, as if it had been typed.
   */
  lemma DecodeDocumentIdFallback(typed: string, query: string, locationSearch: string, decode: string -> string)
    ensures typed != "" ==> DecodeDocumentId(Some(typed), locationSearch, decode) == DecodeDocumentId(Some(typed), "", decode)
    ensures DecodeDocumentId(None, ['?'] + query, decode) == DecodeDocumentId(Some(""), ['?'] + query, decode)
    ensures query != "" ==> DecodeDocumentId(None, ['?'] + query, decode) == DecodeDocumentId(Some(query), locationSearch, decode)
    ensures DecodeDocumentId(None, "", decode) == FromQuery(decode(""))
  {
    assert (['?'] + query)[1..] == query;
  }

  /** A URL of at least six '/'-separated pieces starting with "http" yields its sixth piece. */
  lemma UrlRoundTrip(parts: seq<string>)
    requires |parts| > 5
    requires StartsWith(parts[0], "http")
    requires forall i :: 0 <= i < |parts| ==> '/' !in parts[i]
    ensures FromQuery(Join(parts, '/')) == Some(parts[5])
  {
    var url := Join(parts, '/');
    SplitJoin(parts, '/');
    assert url == parts[0] + ([('/')] + Join(parts[1..], '/'));
    assert url[..4] == parts[0][..4];
    assert StartsWith(url, "http");
  }

  /**
   * The document id of a Google Sheets link, `https://docs.google.com/spreadsheets/d/ID/rest`
   * written as its '/'-separated pieces, is the piece after "d".
   */
  lemma SheetsLink(id: string, rest: string)
    requires '/' !in id && '/' !in rest
    ensures FromQuery(Join(["https:", "", "docs.google.com", "spreadsheets", "d", id, rest], '/')) == Some(id)
  {
    var parts := ["https:", "", "docs.google.com", "spreadsheets", "d", id, rest];
    assert "https:"[..4] == "http";
    UrlRoundTrip(parts);
  }

  /** A bare id followed by other query parameters yields the id. */
  lemma BareIdRoundTrip(id: string, rest: string)
    requires '&' !in id
    requires !StartsWith(id + "&" + rest, "http")
    ensures FromQuery(id + "&" + rest) == Some(id)
  {
    SplitCons(id, rest, '&');
  }
}
