/**
 * Client-side uses of RequestInformation: what a caller can conclude from
 * the method contracts alone, for the behaviours the builder documents.
 */
module Scenarios {
  import opened JavaModel
  import Text
  import Headers
  import RequestOptions
  import UriResolution
  import opened Serialization
  import opened Kiota

  /** An explicit URI wins over a template, path and query parameters, and
      even over a raw-URL parameter; both maps end up empty. */
  method ExplicitUriWins(u: Uri, raw: string, parse: string -> Option<Uri>, expand: (string, map<string, Value>) -> Option<Uri>)
    returns (r: Result<Uri>, path: map<string, Value>, query: map<string, Value>)
    ensures r == Success(u) && path == map[] && query == map[]
  {
    var request := new RequestInformation();
    request.urlTemplate := Some("{+baseurl}/users/{id}{?filter}");
    request.pathParameters := map["id" := StringValue("42"), UriResolution.RawUrlKey := StringValue(raw)];
    var _ := request.AddQueryParameter("filter", StringValue("active"));
    request.SetUri(u);
    r := request.GetUri(parse, expand);
    path, query := request.pathParameters, request.queryParameters;
  }

  /** The raw-URL parameter is resolved once: parameters set afterwards,
      even a new raw URL, no longer change the URI. */
  method RawUrlIsCached(raw: string, other: string, parse: string -> Option<Uri>, expand: (string, map<string, Value>) -> Option<Uri>)
    returns (first: Result<Uri>, second: Result<Uri>)
    requires parse(raw).Some?
    ensures first == second == Success(parse(raw).value)
  {
    var request := new RequestInformation();
    request.pathParameters := map[UriResolution.RawUrlKey := StringValue(raw)];
    first := request.GetUri(parse, expand);
    request.pathParameters := request.pathParameters[UriResolution.RawUrlKey := StringValue(other)];
    second := request.GetUri(parse, expand);
  }

  /** Adding "X-Test" and removing "x-test" leaves the header store empty. */
  method HeaderKeysAreCaseInsensitive() returns (headers: map<string, string>)
    ensures headers == map[]
  {
    var request := new RequestInformation();
    request.AddRequestHeader("X-Test", "a");
    request.RemoveRequestHeader("x-test");
    headers := request.GetRequestHeaders();
    Headers.CaseInsensitiveRemoveExample();
  }

  /** A content type added through the header API, under any spelling, and
      the content setter's "Content-Type" are two entries. */
  method ContentTypeIsStoredTwice(body: Stream, key: string, value: string) returns (headers: map<string, string>)
    ensures Text.Lower(key) in headers && headers[Text.Lower(key)] == value
    ensures Headers.ContentTypeHeader in headers && headers[Headers.ContentTypeHeader] == BinaryContentType
    ensures Text.Lower(key) != Headers.ContentTypeHeader
  {
    var request := new RequestInformation();
    request.AddRequestHeader(key, value);
    request.SetStreamContent(body);
    headers := request.GetRequestHeaders();
    Text.LowerIsLower(key);
    assert 'A' <= Headers.ContentTypeHeader[0] <= 'Z';
    assert !Text.IsLower(Headers.ContentTypeHeader);
  }

  /** Of two options of one class only the second is kept. */
  method SecondOptionOfAKindWins(first: RequestOptions.RequestOption, second: RequestOptions.RequestOption)
    returns (options: set<RequestOptions.RequestOption>)
    requires first.canonicalName == second.canonicalName
    ensures options == {second}
  {
    var request := new RequestInformation();
    request.AddRequestOptions(Some([first, second]));
    RequestOptions.SameKindReplaces(map[], first, second);
    options := request.GetRequestOptions();
    assert request.requestOptions == map[second.canonicalName := second];
    assert request.requestOptions[second.canonicalName] == second;
    assert second in request.requestOptions.Values;
  }

  /** Two strings are written as one collection, never as two single writes. */
  method TwoStringsAreOneCollection(adapter: RequestAdapter, contentType: string, x: string, y: string)
    returns (calls: seq<WriterCall>)
    ensures calls == [WriteCollectionOfPrimitiveValues([StringValue(x), StringValue(y)]), Close]
  {
    var request := new RequestInformation();
    var _, writer := request.SetContentFromScalar(adapter, contentType, [StringValue(x), StringValue(y)]);
    calls := writer.calls;
  }

  /** A Double is refused: the body stays what it was, the content type is
      already overwritten, and the writer is still closed. */
  method DoubleIsRefusedAfterContentType(adapter: RequestAdapter, contentType: string, body: Stream, t: Token)
    returns (r: Outcome, content: Option<Stream>, declared: string, calls: seq<WriterCall>)
    ensures r == Fail(RuntimeException(UnknownType("java.lang.Double")))
    ensures content == Some(body) && declared == contentType && calls == [Close]
  {
    var request := new RequestInformation();
    request.SetStreamContent(body);
    var writer;
    r, writer := request.SetContentFromScalar(adapter, contentType, [DoubleValue(t)]);
    content, declared, calls := request.content, request.headers[Headers.ContentTypeHeader], writer.calls;
  }

  /** A write that throws leaves the earlier body in place, with the new
      content type already declared; the writer is still closed, and its
      exception is the one the caller sees even when closing fails too. */
  method WriteFailureKeepsBody(adapter: RequestAdapter, contentType: string, body: Stream, model: Parsable)
    returns (r: Outcome, content: Option<Stream>, declared: string, calls: seq<WriterCall>)
    requires contentType in adapter.serializationWriterFactory.failingOnWrite
    ensures r == Fail(RuntimeException(WriterFailed))
    ensures content == Some(body) && declared == contentType && calls == [WriteObjectValue(model), Close]
  {
    var request := new RequestInformation();
    request.SetStreamContent(body);
    var writer;
    r, writer := request.SetContentFromParsable(adapter, contentType, [model]);
    content, declared, calls := request.content, request.headers[Headers.ContentTypeHeader], writer.calls;
  }
}
