/**
 * URL resolution: an explicit URI, else the raw-URL path parameter (parsed
 * and cached), else expansion of the URL template over the query and path
 * parameters. URI parsing and RFC 6570 template expansion are not modelled:
 * they are the parameters `parse` and `expand`, returning None where they
 * fail. A failed parse is Java's URISyntaxException; a failed expansion is
 * reported the same way, which is this model's assumption about the template
 * library.
 */
module UriResolution {
  import opened JavaModel
  import opened Text

  type ParamMap = map<string, Value>

  /** The path parameter whose string value is taken as the whole URL. */
  const RawUrlKey := "request-raw-url"
  /** The path parameter the reserved base-URL expansion needs. */
  const BaseUrlKey := "baseurl"
  /** The reserved expansion of the base URL, searched in the lower-cased template. */
  const BaseUrlExpansion := "{+baseurl}"

  /** The part of the request builder's state that resolution reads and writes. */
  datatype UriState = UriState(
    uri: Option<Uri>,
    urlTemplate: Option<string>,
    pathParameters: ParamMap,
    queryParameters: ParamMap)

  /** What getUri returns, with the state it leaves behind. */
  datatype Resolution = Resolution(result: Result<Uri>, next: UriState)

  /** setUri: store the URI and clear both parameter maps. */
  function SetUri(s: UriState, u: Uri): (r: UriState)
    ensures r.uri == Some(u) && r.pathParameters == map[] && r.queryParameters == map[]
    ensures r.urlTemplate == s.urlTemplate
  {
    s.(uri := Some(u), pathParameters := map[], queryParameters := map[])
  }

  /** The map the template is expanded over: the query parameters overlaid
      by the path parameters. */
  function Merge(query: ParamMap, path: ParamMap): (m: ParamMap)
    ensures m.Keys == query.Keys + path.Keys
    ensures forall k :: k in path ==> m[k] == path[k]
    ensures forall k :: k in query && k !in path ==> m[k] == query[k]
  {
    query + path
  }

  /** The raw-URL branch applies: the key is present with a String value. */
  predicate HasRawUrl(s: UriState) {
    RawUrlKey in s.pathParameters && s.pathParameters[RawUrlKey].StringValue?
  }

  /** The template names the reserved base-URL expansion without a "baseurl" path parameter. */
  predicate MissingBaseUrl(template: string, path: ParamMap) {
    BaseUrlKey !in path && Contains(Lower(template), BaseUrlExpansion)
  }

  /** getUri, branch for branch. */
  function Resolve(s: UriState, parse: string -> Option<Uri>, expand: (string, ParamMap) -> Option<Uri>): Resolution {
    if s.uri.Some? then
      Resolution(Success(s.uri.value), s)
    else if HasRawUrl(s) then
      match parse(s.pathParameters[RawUrlKey].str)
      case None => Resolution(Failure(URISyntaxException), s)
      case Some(u) => Resolution(Success(u), SetUri(s, u))
    else if s.urlTemplate.None? then
      Resolution(Failure(NullPointerException), s)
    else if MissingBaseUrl(s.urlTemplate.value, s.pathParameters) then
      Resolution(Failure(IllegalStateException), s)
    else
      match expand(s.urlTemplate.value, Merge(s.queryParameters, s.pathParameters))
      case None => Resolution(Failure(URISyntaxException), s)
      case Some(u) => Resolution(Success(u), s)
  }

  /** Only a successful raw-URL resolution changes the state, and then it
      becomes the explicit-URI state for the URI it returned. */
  lemma ResolveChangesOnlyRawUrl(s: UriState, parse: string -> Option<Uri>, expand: (string, ParamMap) -> Option<Uri>)
    ensures var r := Resolve(s, parse, expand);
      r.next == s || (s.uri.None? && HasRawUrl(s) && r.result.Success? && r.next == SetUri(s, r.result.value))
  {
  }

  /** Resolving again right after a resolution gives the same URI (or the
      same failure) and changes nothing more. */
  lemma ResolveIdempotent(s: UriState, parse: string -> Option<Uri>, expand: (string, ParamMap) -> Option<Uri>)
    ensures var r := Resolve(s, parse, expand);
      Resolve(r.next, parse, expand) == r
  {
  }

  /** After setUri, resolution returns exactly that URI, whatever the
      parameters were and whatever the collaborators do. */
  lemma ResolveAfterSetUri(s: UriState, u: Uri, parse: string -> Option<Uri>, expand: (string, ParamMap) -> Option<Uri>)
    ensures Resolve(SetUri(s, u), parse, expand) == Resolution(Success(u), SetUri(s, u))
  {
  }

  /** The raw-URL branch: the parsed string is returned and cached, both maps
      are cleared, and a second resolution no longer reads the maps. */
  lemma RawUrlBranch(s: UriState, parse: string -> Option<Uri>, expand: (string, ParamMap) -> Option<Uri>)
    requires s.uri.None? && HasRawUrl(s)
    ensures parse(s.pathParameters[RawUrlKey].str).None? ==>
              Resolve(s, parse, expand) == Resolution(Failure(URISyntaxException), s)
    ensures parse(s.pathParameters[RawUrlKey].str).Some? ==>
              var u := parse(s.pathParameters[RawUrlKey].str).value;
              && Resolve(s, parse, expand).result == Success(u)
              && Resolve(s, parse, expand).next.uri == Some(u)
              && Resolve(s, parse, expand).next.pathParameters == map[]
              && Resolve(s, parse, expand).next.queryParameters == map[]
              && forall expand' :: Resolve(Resolve(s, parse, expand).next, parse, expand').result == Success(u)
  {
  }

  /** The template branch: a missing template fails with NullPointerException,
      a missing base URL with IllegalStateException, and otherwise the result
      is the expansion over the merged map; the state is left as it was. */
  lemma TemplateBranch(s: UriState, parse: string -> Option<Uri>, expand: (string, ParamMap) -> Option<Uri>)
    requires s.uri.None? && !HasRawUrl(s)
    ensures Resolve(s, parse, expand).next == s
    ensures s.urlTemplate.None? ==> Resolve(s, parse, expand).result == Failure(NullPointerException)
    ensures s.urlTemplate.Some? && MissingBaseUrl(s.urlTemplate.value, s.pathParameters) ==>
              Resolve(s, parse, expand).result == Failure(IllegalStateException)
    ensures s.urlTemplate.Some? && !MissingBaseUrl(s.urlTemplate.value, s.pathParameters) ==>
              Resolve(s, parse, expand).result ==
                match expand(s.urlTemplate.value, Merge(s.queryParameters, s.pathParameters))
                case Some(u) => Success(u)
                case None => Failure(URISyntaxException)
  {
  }

  /** The mixed-case spelling generated clients use matches the reserved expansion. */
  lemma LowerMixedBaseUrl()
    ensures Lower("{+BaseUrl}") == BaseUrlExpansion
  {
  }

  /** The base-URL check is case-insensitive in the template and exact in the key. */
  lemma BaseUrlCheck(head: string, tail: string, path: ParamMap)
    requires Lower(head) == BaseUrlExpansion
    ensures MissingBaseUrl(head + tail, path) <==> BaseUrlKey !in path
  {
    LowerConcat(head, tail);
    PrefixContained(BaseUrlExpansion, Lower(tail));
  }
}
