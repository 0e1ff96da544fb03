/**
 * The serialization side of the content setters: an abstract writer that
 * records the write calls made on it and its closing, the writer factory
 * reached through the request adapter, and the exact-class dispatch of a
 * scalar value to a typed write primitive.
 */
module Serialization {
  import opened JavaModel

  /** A model object that can serialize itself (its fields are not modelled). */
  datatype Parsable = Parsable(id: nat)

  /** One call on a SerializationWriter; the key argument is always null here and is left out. */
  datatype WriterCall =
    | WriteObjectValue(model: Parsable)
    | WriteCollectionOfObjectValues(models: seq<Parsable>)
    | WriteCollectionOfPrimitiveValues(values: seq<Value>)
    | WriteStringValue(str: string)
    | WriteBooleanValue(flag: bool)
    | WriteByteValue(i8: JByte)
    | WriteShortValue(i16: JShort)
    | WriteBigDecimalValue(decimal: Token)
    | WriteFloatValue(float: Token)
    | WriteLongValue(i64: JLong)
    | WriteIntegerValue(i32: JInt)
    | WriteUuidValue(uuid: Token)
    | WriteOffsetDateTimeValue(dateTime: Token)
    | WriteLocalDateValue(date: Token)
    | WriteLocalTimeValue(time: Token)
    | WritePeriodValue(period: Token)
    | Close

  /** A request body: a stream the caller supplied, or what a writer serialized
      for a content type from the calls made on it. */
  datatype Stream = InputStream(id: nat) | SerializedContent(contentType: string, calls: seq<WriterCall>)

  /** The factory hands out writers; the ones for the first set of content
      types throw IOException when closed, the ones for the second throw an
      unchecked exception from every write primitive. */
  datatype SerializationWriterFactory = SerializationWriterFactory(failingOnClose: set<string>, failingOnWrite: set<string>)

  datatype RequestAdapter = RequestAdapter(serializationWriterFactory: SerializationWriterFactory)

  /** A writer that records every call made on it. */
  class SerializationWriter {
    const contentType: string
    const closeFails: bool
    const writeFails: bool
    var calls: seq<WriterCall>

    constructor (contentType: string, closeFails: bool, writeFails: bool)
      ensures this.contentType == contentType && this.closeFails == closeFails && this.writeFails == writeFails
      ensures calls == []
    {
      this.contentType := contentType;
      this.closeFails := closeFails;
      this.writeFails := writeFails;
      calls := [];
    }

    predicate IsClosed()
      reads this
    {
      Close in calls
    }

    /** A write primitive, recorded as made; false where it throws.
        Writing to a closed writer is a protocol error. */
    method Write(call: WriterCall) returns (ok: bool)
      requires call != Close && !IsClosed()
      modifies this`calls
      ensures calls == old(calls) + [call]
      ensures ok == !writeFails
    {
      calls := calls + [call];
      ok := !writeFails;
    }

    /** The bytes serialized so far. */
    method GetSerializedContent() returns (s: Stream)
      ensures s == SerializedContent(contentType, calls)
    {
      s := SerializedContent(contentType, calls);
    }

    /** Closeable.close; false where it throws IOException. */
    method CloseWriter() returns (ok: bool)
      modifies this`calls
      ensures calls == old(calls) + [Close]
      ensures ok == !closeFails
    {
      calls := calls + [Close];
      ok := !closeFails;
    }
  }

  /** The one write setContentFromParsable makes: one object, or a collection of several. */
  function ModelWrite(values: seq<Parsable>): WriterCall {
    if |values| == 1 then WriteObjectValue(values[0]) else WriteCollectionOfObjectValues(values)
  }

  /** The exact-class chain of setContentFromScalar for a single value:
      the typed write for the value's class, NullPointerException for null
      (getClass on null), and the "unknown type" RuntimeException otherwise. */
  function ScalarWrite(v: Value): Result<WriterCall> {
    match v
    case Null => Failure(NullPointerException)
    case StringValue(s) => Success(WriteStringValue(s))
    case BooleanValue(b) => Success(WriteBooleanValue(b))
    case ByteValue(i) => Success(WriteByteValue(i))
    case ShortValue(i) => Success(WriteShortValue(i))
    case BigDecimalValue(t) => Success(WriteBigDecimalValue(t))
    case FloatValue(t) => Success(WriteFloatValue(t))
    case LongValue(i) => Success(WriteLongValue(i))
    case IntegerValue(i) => Success(WriteIntegerValue(i))
    case UuidValue(t) => Success(WriteUuidValue(t))
    case OffsetDateTimeValue(t) => Success(WriteOffsetDateTimeValue(t))
    case LocalDateValue(t) => Success(WriteLocalDateValue(t))
    case LocalTimeValue(t) => Success(WriteLocalTimeValue(t))
    case PeriodValue(t) => Success(WritePeriodValue(t))
    case _ => Failure(RuntimeException(UnknownType(ClassName(v))))
  }

  /** The one write setContentFromScalar makes, or the exception it throws:
      several values always go out as one collection of primitives. */
  function ScalarPayload(values: seq<Value>): Result<WriterCall> {
    if |values| == 1 then ScalarWrite(values[0]) else Success(WriteCollectionOfPrimitiveValues(values))
  }

  /** The value a typed write primitive carries: the inverse of ScalarWrite. */
  function WrittenScalar(call: WriterCall): Option<Value> {
    match call
    case WriteStringValue(s) => Some(StringValue(s))
    case WriteBooleanValue(b) => Some(BooleanValue(b))
    case WriteByteValue(i) => Some(ByteValue(i))
    case WriteShortValue(i) => Some(ShortValue(i))
    case WriteBigDecimalValue(t) => Some(BigDecimalValue(t))
    case WriteFloatValue(t) => Some(FloatValue(t))
    case WriteLongValue(i) => Some(LongValue(i))
    case WriteIntegerValue(i) => Some(IntegerValue(i))
    case WriteUuidValue(t) => Some(UuidValue(t))
    case WriteOffsetDateTimeValue(t) => Some(OffsetDateTimeValue(t))
    case WriteLocalDateValue(t) => Some(LocalDateValue(t))
    case WriteLocalTimeValue(t) => Some(LocalTimeValue(t))
    case WritePeriodValue(t) => Some(PeriodValue(t))
    case _ => None
  }

  /** A single value is written exactly when it is non-null and its exact
      class is one of the thirteen scalar classes; the write then carries the
      value itself, and any other value is refused with its class name. */
  lemma ScalarWriteIffSupported(v: Value)
    requires WellFormed(v)
    ensures ScalarWrite(v).Success? <==> v != Null && ClassName(v) in ScalarClassNames
    ensures ScalarWrite(v).Success? ==> WrittenScalar(ScalarWrite(v).value) == Some(v)
    ensures v == Null ==> ScalarWrite(v) == Failure(NullPointerException)
    ensures v != Null && ClassName(v) !in ScalarClassNames ==>
              ScalarWrite(v) == Failure(RuntimeException(UnknownType(ClassName(v))))
  {
    if v.ArrayValue? {
      assert ClassName(v)[0] == '[';
      assert ClassName(v) !in ScalarClassNames;
    } else if v.OtherValue? {
      assert ClassName(v) !in ScalarClassNames;
    }
  }

  /** Double is not among the scalar classes: it is refused. */
  lemma DoubleIsRefused(t: Token)
    ensures ScalarWrite(DoubleValue(t)) == Failure(RuntimeException(UnknownType("java.lang.Double")))
    ensures "java.lang.Double" !in ScalarClassNames
  {
  }

  /** An array of arrays is refused under the JVM's name for its class: an
      int[][] is an Object[] whose component class is "[I", and is "[[I". */
  lemma NestedArrayRefused(rows: seq<Value>)
    ensures ScalarWrite(ArrayValue(ReferenceComponent("[I"), rows)) == Failure(RuntimeException(UnknownType("[[I")))
  {
    var component := "[I";
    assert |component| > 0 && component[0] == '[';
    assert ClassName(ArrayValue(ReferenceComponent(component), rows)) == "[" + component;
    assert "[" + component == "[[I";
  }

  /** Several values never go through the per-value dispatch: even unsupported
      or null elements are handed to the writer as one collection. */
  lemma ScalarCollection(values: seq<Value>)
    requires |values| != 1
    ensures ScalarPayload(values) == Success(WriteCollectionOfPrimitiveValues(values))
    ensures WrittenScalar(ScalarPayload(values).value).None?
  {
  }
}
