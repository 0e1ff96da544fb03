/**
 * The query-parameter extractor: how the public fields of a parameter
 * object become entries of the query-parameter map. Java reflection is
 * replaced by the explicit list of field descriptors it would return.
 */
module QueryParameters {
  import opened JavaModel

  /** What reading a field yields: its value, or IllegalAccessException. */
  datatype FieldRead = Read(value: Value) | AccessDenied

  /** A public field: its declared name, the name of its @QueryParameter
      annotation (None when there is no annotation or its name is null),
      and the outcome of reading it. */
  datatype QueryField = QueryField(name: string, annotationName: Option<string>, read: FieldRead)

  type QueryMap = map<string, Value>

  /** The key a field is stored under: a non-empty annotation name, else the field name. */
  function QueryName(f: QueryField): string {
    if f.annotationName.Some? && f.annotationName.value != "" then f.annotationName.value else f.name
  }

  /** The field's value is a primitive array, whose cast to Object[] throws. */
  predicate Throws(f: QueryField) {
    f.read.Read? && f.read.value.ArrayValue? && f.read.value.component.PrimitiveComponent?
  }

  /** What a field stores: None when it is skipped (unreadable, null, or throwing);
      an array of references is stored as the list of its elements. */
  function Contribution(f: QueryField): (r: Option<Value>)
    ensures r.Some? <==> f.read.Read? && f.read.value != Null && !Throws(f)
    ensures r.Some? && f.read.value.ArrayValue? ==> r.value == ListValue(f.read.value.elements)
    ensures r.Some? && !f.read.value.ArrayValue? ==> r.value == f.read.value
  {
    match f.read
    case AccessDenied => None
    case Read(v) =>
      if v == Null then None
      else if v.ArrayValue? then (if v.component.PrimitiveComponent? then None else Some(ListValue(v.elements)))
      else Some(v)
  }

  /** The map after a prefix of fields was processed, and whether the loop went on. */
  datatype Extraction = Extraction(query: QueryMap, outcome: Outcome)

  /** One iteration of the field loop. */
  function ApplyField(q: QueryMap, f: QueryField): Extraction {
    if Throws(f) then Extraction(q, Fail(ClassCastException))
    else match Contribution(f)
      case None => Extraction(q, Pass)
      case Some(v) => Extraction(q[QueryName(f) := v], Pass)
  }

  /** The field loop over fs, in order; an exception ends it and keeps the puts made so far. */
  function ApplyFields(q: QueryMap, fs: seq<QueryField>): Extraction
    decreases |fs|
  {
    if fs == [] then Extraction(q, Pass)
    else
      var prev := ApplyFields(q, fs[..|fs| - 1]);
      if prev.outcome.Fail? then prev else ApplyField(prev.query, fs[|fs| - 1])
  }

  /** addQueryParameters on a possibly null parameter object. */
  function AddQueryParameters(q: QueryMap, source: Option<seq<QueryField>>): Extraction {
    match source
    case None => Extraction(q, Pass)
    case Some(fs) => ApplyFields(q, fs)
  }

  /** A field that would store v under k. */
  predicate Stores(f: QueryField, k: string) {
    QueryName(f) == k && Contribution(f).Some?
  }

  /** The loop finishes normally exactly when no field holds a primitive
      array, and otherwise throws ClassCastException. */
  lemma {:induction false} ExtractPasses(q: QueryMap, fs: seq<QueryField>)
    ensures ApplyFields(q, fs).outcome.Pass? <==> forall j :: 0 <= j < |fs| ==> !Throws(fs[j])
    ensures ApplyFields(q, fs).outcome.Fail? ==> ApplyFields(q, fs).outcome.error == ClassCastException
    decreases |fs|
  {
    if fs != [] {
      var init := fs[..|fs| - 1];
      ExtractPasses(q, init);
      assert forall j :: 0 <= j < |init| ==> init[j] == fs[j];
    }
  }

  /** A key no field stores under keeps its old entry, or stays absent,
      whatever else happens (skipped fields, nulls, a later exception). */
  lemma {:induction false} ExtractUntouched(q: QueryMap, fs: seq<QueryField>, k: string)
    requires forall j :: 0 <= j < |fs| ==> !Stores(fs[j], k)
    ensures k in ApplyFields(q, fs).query <==> k in q
    ensures k in q ==> ApplyFields(q, fs).query[k] == q[k]
    decreases |fs|
  {
    if fs != [] {
      ExtractUntouched(q, fs[..|fs| - 1], k);
    }
  }

  /** When the loop finishes normally, the last field storing under a key wins. */
  lemma {:induction false} ExtractLastWins(q: QueryMap, fs: seq<QueryField>, i: int)
    requires 0 <= i < |fs| && Contribution(fs[i]).Some?
    requires forall j :: 0 <= j < |fs| ==> !Throws(fs[j])
    requires forall j :: i < j < |fs| ==> !Stores(fs[j], QueryName(fs[i]))
    ensures QueryName(fs[i]) in ApplyFields(q, fs).query
    ensures ApplyFields(q, fs).query[QueryName(fs[i])] == Contribution(fs[i]).value
    decreases |fs|
  {
    var init := fs[..|fs| - 1];
    ExtractPasses(q, init);
    if i == |fs| - 1 {
    } else {
      ExtractLastWins(q, init, i);
    }
  }

  /** When the loop finishes normally, the stored keys are the old keys and
      the keys of the fields that store something. */
  lemma {:induction false} ExtractKeys(q: QueryMap, fs: seq<QueryField>)
    requires forall j :: 0 <= j < |fs| ==> !Throws(fs[j])
    ensures ApplyFields(q, fs).query.Keys == q.Keys + set j | 0 <= j < |fs| && Contribution(fs[j]).Some? :: QueryName(fs[j])
    decreases |fs|
  {
    if fs != [] {
      var init := fs[..|fs| - 1];
      ExtractKeys(q, init);
      ExtractPasses(q, init);
      var n := |fs| - 1;
      assert (set j | 0 <= j < |fs| && Contribution(fs[j]).Some? :: QueryName(fs[j]))
        == (set j | 0 <= j < |init| && Contribution(init[j]).Some? :: QueryName(init[j]))
           + (if Contribution(fs[n]).Some? then {QueryName(fs[n])} else {});
    }
  }

  /** The first primitive array ends the loop with ClassCastException,
      after the puts of the fields before it. */
  lemma {:induction false} ExtractStopsAtFirstThrow(q: QueryMap, fs: seq<QueryField>, i: int)
    requires 0 <= i < |fs| && Throws(fs[i])
    requires forall j :: 0 <= j < i ==> !Throws(fs[j])
    ensures ApplyFields(q, fs) == Extraction(ApplyFields(q, fs[..i]).query, Fail(ClassCastException))
    decreases |fs|
  {
    var init := fs[..|fs| - 1];
    if i == |fs| - 1 {
      assert init == fs[..i];
      ExtractPasses(q, init);
    } else {
      assert init[..i] == fs[..i];
      ExtractStopsAtFirstThrow(q, init, i);
    }
  }
}
