/**
 * The header store: a map from header name to value whose keys are
 * lower-cased on every add and remove made through the header API.
 */
module Headers {
  import opened Text

  type HeaderMap = map<string, string>

  /** addRequestHeader: store under the lower-cased key, replacing any value. */
  function WithHeader(h: HeaderMap, key: string, value: string): (r: HeaderMap)
    ensures r.Keys == h.Keys + {Lower(key)}
    ensures r[Lower(key)] == value
    ensures forall k :: k in h && k != Lower(key) ==> r[k] == h[k]
  {
    h[Lower(key) := value]
  }

  /** removeRequestHeader: drop the lower-cased key, if present. */
  function WithoutHeader(h: HeaderMap, key: string): (r: HeaderMap)
    ensures r.Keys == h.Keys - {Lower(key)}
    ensures forall k :: k in r ==> r[k] == h[k]
  {
    h - {Lower(key)}
  }

  /** addRequestHeaders: addRequestHeader for each entry, in iteration order. */
  function WithHeaders(h: HeaderMap, entries: seq<(string, string)>): HeaderMap
    decreases |entries|
  {
    if entries == [] then h
    else
      var last := entries[|entries| - 1];
      WithHeader(WithHeaders(h, entries[..|entries| - 1]), last.0, last.1)
  }

  /** Every key is stored lower-cased. */
  predicate Normalized(h: HeaderMap) {
    forall k :: k in h ==> IsLower(k)
  }

  /** Removing under any spelling that lowers to the same key undoes an add:
      adding "X-Test" and then removing "x-test" leaves no such header. */
  lemma RemoveUndoesAdd(h: HeaderMap, added: string, removed: string, value: string)
    requires Lower(added) == Lower(removed)
    ensures WithoutHeader(WithHeader(h, added, value), removed) == WithoutHeader(h, added)
    ensures Lower(removed) !in WithoutHeader(WithHeader(h, added, value), removed)
  {
  }

  /** A key no entry lowers to keeps its old value, or stays absent. */
  lemma {:induction false} WithHeadersUntouched(h: HeaderMap, entries: seq<(string, string)>, k: string)
    requires forall j :: 0 <= j < |entries| ==> Lower(entries[j].0) != k
    ensures k in WithHeaders(h, entries) <==> k in h
    ensures k in h ==> WithHeaders(h, entries)[k] == h[k]
    decreases |entries|
  {
    if entries != [] {
      WithHeadersUntouched(h, entries[..|entries| - 1], k);
    }
  }

  /** The last entry whose key lowers to the same name wins. */
  lemma {:induction false} WithHeadersLastWins(h: HeaderMap, entries: seq<(string, string)>, i: int)
    requires 0 <= i < |entries|
    requires forall j :: i < j < |entries| ==> Lower(entries[j].0) != Lower(entries[i].0)
    ensures Lower(entries[i].0) in WithHeaders(h, entries)
    ensures WithHeaders(h, entries)[Lower(entries[i].0)] == entries[i].1
    decreases |entries|
  {
    if i < |entries| - 1 {
      WithHeadersLastWins(h, entries[..|entries| - 1], i);
    }
  }

  /** The keys after addRequestHeaders are the old keys and the lowered entry keys. */
  lemma {:induction false} WithHeadersKeys(h: HeaderMap, entries: seq<(string, string)>)
    ensures WithHeaders(h, entries).Keys == h.Keys + set j | 0 <= j < |entries| :: Lower(entries[j].0)
    decreases |entries|
  {
    if entries != [] {
      var init := entries[..|entries| - 1];
      WithHeadersKeys(h, init);
      assert (set j | 0 <= j < |entries| :: Lower(entries[j].0))
        == (set j | 0 <= j < |init| :: Lower(init[j].0)) + {Lower(entries[|entries| - 1].0)};
    }
  }

  /** The header API keeps a store normalized. */
  lemma {:induction false} HeaderApiKeepsNormalized(h: HeaderMap, entries: seq<(string, string)>, key: string, value: string)
    requires Normalized(h)
    ensures Normalized(WithHeader(h, key, value))
    ensures Normalized(WithoutHeader(h, key))
    ensures Normalized(WithHeaders(h, entries))
    decreases |entries|
  {
    LowerIsLower(key);
    if entries != [] {
      var last := entries[|entries| - 1];
      HeaderApiKeepsNormalized(h, entries[..|entries| - 1], last.0, last.1);
      HeaderApiKeepsNormalized(WithHeaders(h, entries[..|entries| - 1]), [], last.0, last.1);
    }
  }

  /** The literal key the content setters write, without lower-casing. */
  const ContentTypeHeader := "Content-Type"

  /** The header API stores "Content-Type" as "content-type". */
  lemma LowerContentType()
    ensures Lower(ContentTypeHeader) == "content-type"
  {
  }

  /** The content setters' key is not lower-cased: after one, a store holding
      "content-type" holds both spellings, and is no longer normalized. */
  lemma ContentTypeKeyCoexists(h: HeaderMap, value: string)
    ensures !Normalized(h[ContentTypeHeader := value])
    ensures "content-type" in h ==>
              && "content-type" in h[ContentTypeHeader := value]
              && h[ContentTypeHeader := value]["content-type"] == h["content-type"]
  {
    assert 'A' <= ContentTypeHeader[0] <= 'Z';
    assert ContentTypeHeader in h[ContentTypeHeader := value] && !IsLower(ContentTypeHeader);
  }

  /** Adding "X-Test" and removing "x-test" leaves an empty store empty. */
  lemma CaseInsensitiveRemoveExample()
    ensures WithoutHeader(WithHeader(map[], "X-Test", "a"), "x-test") == map[]
  {
    var l := Lower("X-Test");
    assert l[0] == 'x' && l[2] == 't';
    assert forall i :: 0 <= i < |l| ==> l[i] == "x-test"[i];
    LowerIsLower("x-test");
    RemoveUndoesAdd(map[], "X-Test", "x-test", "a");
  }
}
