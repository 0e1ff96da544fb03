/**
 * RequestInformation: the mutable description of one outbound HTTP request.
 * Each method changes only the fields its frame names and is proved against
 * the specification functions of the URL resolver, the query-parameter
 * extractor, the header store, the option store and the serializer.
 */
module Kiota {
  import opened JavaModel
  import Text
  import QueryParameters
  import Headers
  import RequestOptions
  import UriResolution
  import opened Serialization

  /** The content type setStreamContent declares. */
  const BinaryContentType := "application/octet-stream"

  class RequestInformation {
    /** The URL template (null until a generated client sets it). */
    var urlTemplate: Option<string>
    var pathParameters: map<string, Value>
    /** The explicit URI, once set or resolved from the raw-URL parameter. */
    var uri: Option<Uri>
    var httpMethod: Option<HttpMethod>
    var queryParameters: map<string, Value>
    var headers: map<string, string>
    /** The request body. */
    var content: Option<Stream>
    var requestOptions: RequestOptions.OptionStore

    constructor ()
      ensures urlTemplate == None && pathParameters == map[] && uri == None && httpMethod == None
      ensures queryParameters == map[] && headers == map[] && content == None && requestOptions == map[]
    {
      urlTemplate := None;
      pathParameters := map[];
      uri := None;
      httpMethod := None;
      queryParameters := map[];
      headers := map[];
      content := None;
      requestOptions := map[];
    }

    /** The fields URL resolution reads and writes. */
    function UriState(): UriResolution.UriState
      reads this
    {
      UriResolution.UriState(uri, urlTemplate, pathParameters, queryParameters)
    }

    /** getUri: the resolved URI, or the exception; the raw-URL branch caches its URI. */
    method GetUri(parse: string -> Option<Uri>, expand: (string, map<string, Value>) -> Option<Uri>)
      returns (r: Result<Uri>)
      modifies this`uri, this`pathParameters, this`queryParameters
      ensures r == UriResolution.Resolve(old(UriState()), parse, expand).result
      ensures UriState() == UriResolution.Resolve(old(UriState()), parse, expand).next
    {
      if uri.Some? {
        r := Success(uri.value);
      } else if UriResolution.RawUrlKey in pathParameters && pathParameters[UriResolution.RawUrlKey].StringValue? {
        var parsed := parse(pathParameters[UriResolution.RawUrlKey].str);
        if parsed.None? {
          r := Failure(URISyntaxException);
        } else {
          SetUri(parsed.value);
          r := Success(uri.value);
        }
      } else if urlTemplate.None? {
        r := Failure(NullPointerException);
      } else if UriResolution.MissingBaseUrl(urlTemplate.value, pathParameters) {
        r := Failure(IllegalStateException);
      } else {
        var expanded := expand(urlTemplate.value, UriResolution.Merge(queryParameters, pathParameters));
        r := if expanded.Some? then Success(expanded.value) else Failure(URISyntaxException);
      }
    }

    /** setUri: the explicit URI replaces both parameter maps. */
    method SetUri(u: Uri)
      modifies this`uri, this`pathParameters, this`queryParameters
      ensures UriState() == UriResolution.SetUri(old(UriState()), u)
    {
      uri := Some(u);
      queryParameters := map[];
      pathParameters := map[];
    }

    /** addQueryParameters: the field loop over a possibly null parameter object;
        a ClassCastException leaves the puts made before it. */
    method AddQueryParameters(source: Option<seq<QueryParameters.QueryField>>) returns (r: Outcome)
      modifies this`queryParameters
      ensures QueryParameters.Extraction(queryParameters, r)
              == QueryParameters.AddQueryParameters(old(queryParameters), source)
    {
      if source.None? {
        return Pass;
      }
      var fields := source.value;
      var i := 0;
      while i < |fields|
        invariant 0 <= i <= |fields|
        invariant QueryParameters.ApplyFields(old(queryParameters), fields[..i])
                  == QueryParameters.Extraction(queryParameters, Pass)
      {
        var field := fields[i];
        assert fields[..i + 1][..i] == fields[..i];
        if field.read.Read? {
          var value := field.read.value;
          var name := field.name;
          if field.annotationName.Some? && field.annotationName.value != "" {
            name := field.annotationName.value;
          }
          if value != Null {
            if value.ArrayValue? {
              if value.component.PrimitiveComponent? {
                QueryParameters.ExtractPasses(old(queryParameters), fields[..i]);
                assert forall j :: 0 <= j < i ==> fields[..i][j] == fields[j];
                QueryParameters.ExtractStopsAtFirstThrow(old(queryParameters), fields, i);
                return Fail(ClassCastException);
              }
              queryParameters := queryParameters[name := ListValue(value.elements)];
            } else {
              queryParameters := queryParameters[name := value];
            }
          }
        }
        i := i + 1;
      }
      assert fields[..i] == fields;
      r := Pass;
    }

    /** addQueryParameter: a null value throws NullPointerException. */
    method AddQueryParameter(name: string, value: Value) returns (r: Outcome)
      modifies this`queryParameters
      ensures value == Null ==> r == Fail(NullPointerException) && queryParameters == old(queryParameters)
      ensures value != Null ==> r == Pass && queryParameters == old(queryParameters)[name := value]
    {
      if value == Null {
        return Fail(NullPointerException);
      }
      queryParameters := queryParameters[name := value];
      r := Pass;
    }

    /** removeQueryParameter: drops exactly that key, if present. */
    method RemoveQueryParameter(name: string)
      modifies this`queryParameters
      ensures queryParameters == old(queryParameters) - {name}
    {
      queryParameters := queryParameters - {name};
    }

    /** getQueryParameters: a copy (a map value, so later changes on either side stay apart). */
    method GetQueryParameters() returns (copy: map<string, Value>)
      ensures copy == queryParameters
    {
      copy := queryParameters;
    }

    /** addRequestHeaders: addRequestHeader for each entry of a possibly null map,
        in the map's iteration order. */
    method AddRequestHeaders(headersToAdd: Option<seq<(string, string)>>)
      modifies this`headers
      ensures headers == if headersToAdd.None? then old(headers) else Headers.WithHeaders(old(headers), headersToAdd.value)
    {
      if headersToAdd.None? || |headersToAdd.value| == 0 {
        return;
      }
      var entries := headersToAdd.value;
      for i := 0 to |entries|
        invariant headers == Headers.WithHeaders(old(headers), entries[..i])
      {
        assert entries[..i + 1][..i] == entries[..i];
        AddRequestHeader(entries[i].0, entries[i].1);
      }
      assert entries[..|entries|] == entries;
    }

    /** addRequestHeader: stored under the lower-cased key, replacing any value. */
    method AddRequestHeader(key: string, value: string)
      modifies this`headers
      ensures headers == Headers.WithHeader(old(headers), key, value)
    {
      headers := headers[Text.Lower(key) := value];
    }

    /** removeRequestHeader: drops the lower-cased key, if present. */
    method RemoveRequestHeader(key: string)
      modifies this`headers
      ensures headers == Headers.WithoutHeader(old(headers), key)
    {
      headers := headers - {Text.Lower(key)};
    }

    /** getRequestHeaders: a copy of the header store. */
    method GetRequestHeaders() returns (copy: map<string, string>)
      ensures copy == headers
    {
      copy := headers;
    }

    /** getRequestOptions: the stored options, one per class. */
    method GetRequestOptions() returns (options: set<RequestOptions.RequestOption>)
      ensures options == requestOptions.Values
    {
      options := requestOptions.Values;
    }

    /** addRequestOptions: each option replaces the stored one of its class. */
    method AddRequestOptions(options: Option<seq<RequestOptions.RequestOption>>)
      modifies this`requestOptions
      ensures requestOptions == if options.None? then old(requestOptions)
                                else RequestOptions.WithOptions(old(requestOptions), options.value)
    {
      if options.None? || |options.value| == 0 {
        return;
      }
      var opts := options.value;
      for i := 0 to |opts|
        invariant requestOptions == RequestOptions.WithOptions(old(requestOptions), opts[..i])
      {
        assert opts[..i + 1][..i] == opts[..i];
        requestOptions := requestOptions[opts[i].canonicalName := opts[i]];
      }
      assert opts[..|opts|] == opts;
    }

    /** removeRequestOptions: drops the stored option of each given option's class. */
    method RemoveRequestOptions(options: Option<seq<RequestOptions.RequestOption>>)
      modifies this`requestOptions
      ensures requestOptions == if options.None? then old(requestOptions)
                                else RequestOptions.WithoutOptions(old(requestOptions), options.value)
    {
      if options.None? || |options.value| == 0 {
        return;
      }
      var opts := options.value;
      for i := 0 to |opts|
        invariant requestOptions == RequestOptions.WithoutOptions(old(requestOptions), opts[..i])
      {
        assert opts[..i + 1][..i] == opts[..i];
        requestOptions := requestOptions - {opts[i].canonicalName};
      }
      assert opts[..|opts|] == opts;
    }

    /** setStreamContent: the stream becomes the body, declared as octet-stream under
        the literal "Content-Type" key. */
    method SetStreamContent(value: Stream)
      modifies this`content, this`headers
      ensures content == Some(value)
      ensures headers == old(headers)[Headers.ContentTypeHeader := BinaryContentType]
    {
      content := Some(value);
      headers := headers[Headers.ContentTypeHeader := BinaryContentType];
    }

    /** getSerializationWriter: refuses empty values, then asks the adapter's factory. */
    method GetSerializationWriter<T>(requestAdapter: RequestAdapter, contentType: string, values: seq<T>)
      returns (r: Result<SerializationWriter>)
      ensures |values| == 0 ==> r == Failure(RuntimeException(ValuesEmpty))
      ensures |values| > 0 ==> && r.Success? && fresh(r.value)
                               && r.value.contentType == contentType && r.value.calls == []
                               && r.value.closeFails == (contentType in requestAdapter.serializationWriterFactory.failingOnClose)
                               && r.value.writeFails == (contentType in requestAdapter.serializationWriterFactory.failingOnWrite)
    {
      if |values| == 0 {
        return Failure(RuntimeException(ValuesEmpty));
      }
      var factory := requestAdapter.serializationWriterFactory;
      var writer := new SerializationWriter(contentType, contentType in factory.failingOnClose, contentType in factory.failingOnWrite);
      r := Success(writer);
    }

    /** setContentFromParsable, with the writer it used (null when none was acquired).
        The writer is closed on every path after it was acquired. A write that
        throws leaves the body as it was and its exception propagates, whatever
        closing does; otherwise an IOException from closing is rethrown as
        RuntimeException. */
    method SetContentFromParsable(requestAdapter: RequestAdapter, contentType: string, values: seq<Parsable>)
      returns (r: Outcome, writer: SerializationWriter?)
      modifies this`headers, this`content
      ensures |values| == 0 ==> && r == Fail(RuntimeException(ValuesEmpty)) && writer == null
                                && headers == old(headers) && content == old(content)
      ensures |values| > 0 ==>
                && writer != null && fresh(writer) && writer.contentType == contentType
                && writer.closeFails == (contentType in requestAdapter.serializationWriterFactory.failingOnClose)
                && writer.writeFails == (contentType in requestAdapter.serializationWriterFactory.failingOnWrite)
                && writer.calls == [ModelWrite(values), Close]
                && headers == old(headers)[Headers.ContentTypeHeader := contentType]
                && if writer.writeFails then
                     && content == old(content)
                     && r == Fail(RuntimeException(WriterFailed))
                   else
                     && content == Some(SerializedContent(contentType, [ModelWrite(values)]))
                     && r == (if writer.closeFails then Fail(RuntimeException(CouldNotSerialize)) else Pass)
    {
      var acquired := GetSerializationWriter(requestAdapter, contentType, values);
      if acquired.Failure? {
        return Fail(acquired.error), null;
      }
      writer := acquired.value;
      headers := headers[Headers.ContentTypeHeader := contentType];
      var wrote;
      if |values| == 1 {
        wrote := writer.Write(WriteObjectValue(values[0]));
      } else {
        wrote := writer.Write(WriteCollectionOfObjectValues(values));
      }
      var body: Outcome := Fail(RuntimeException(WriterFailed));
      if wrote {
        var serialized := writer.GetSerializedContent();
        assert serialized == SerializedContent(contentType, [ModelWrite(values)]);
        content := Some(serialized);
        body := Pass;
      }
      var closed := writer.CloseWriter();
      if body.Fail? {
        r := body;
      } else if !closed {
        r := Fail(RuntimeException(CouldNotSerialize));
      } else {
        r := Pass;
      }
    }

    /** setContentFromScalar, with the writer it used (null when none was acquired).
        An exception from the dispatch or from the write leaves the body as it
        was, although the content type is already overwritten; the writer is
        closed on every path after it was acquired, and a failing close does
        not mask that exception. */
    method SetContentFromScalar(requestAdapter: RequestAdapter, contentType: string, values: seq<Value>)
      returns (r: Outcome, writer: SerializationWriter?)
      modifies this`headers, this`content
      ensures |values| == 0 ==> && r == Fail(RuntimeException(ValuesEmpty)) && writer == null
                                && headers == old(headers) && content == old(content)
      ensures |values| > 0 ==>
                && writer != null && fresh(writer) && writer.contentType == contentType
                && writer.closeFails == (contentType in requestAdapter.serializationWriterFactory.failingOnClose)
                && writer.writeFails == (contentType in requestAdapter.serializationWriterFactory.failingOnWrite)
                && headers == old(headers)[Headers.ContentTypeHeader := contentType]
                && match ScalarPayload(values)
                   case Success(call) =>
                     && writer.calls == [call, Close]
                     && if writer.writeFails then
                          && content == old(content)
                          && r == Fail(RuntimeException(WriterFailed))
                        else
                          && content == Some(SerializedContent(contentType, [call]))
                          && r == (if writer.closeFails then Fail(RuntimeException(CouldNotSerialize)) else Pass)
                   case Failure(e) =>
                     && writer.calls == [Close]
                     && content == old(content)
                     && r == Fail(e)
    {
      var acquired := GetSerializationWriter(requestAdapter, contentType, values);
      if acquired.Failure? {
        return Fail(acquired.error), null;
      }
      writer := acquired.value;
      headers := headers[Headers.ContentTypeHeader := contentType];
      var body: Outcome := Pass;
      var wrote := true;
      if |values| == 1 {
        var write := ScalarWrite(values[0]);
        if write.Failure? {
          body := Fail(write.error);
        } else {
          wrote := writer.Write(write.value);
        }
      } else {
        wrote := writer.Write(WriteCollectionOfPrimitiveValues(values));
      }
      if !wrote {
        body := Fail(RuntimeException(WriterFailed));
      }
      if body.Pass? {
        var serialized := writer.GetSerializedContent();
        assert serialized == SerializedContent(contentType, [ScalarPayload(values).value]);
        content := Some(serialized);
      }
      var closed := writer.CloseWriter();
      if body.Fail? {
        r := body;
      } else if !closed {
        r := Fail(RuntimeException(CouldNotSerialize));
      } else {
        r := Pass;
      }
    }
  }
}
