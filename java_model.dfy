/**
 * The Java-side vocabulary the request builder works with: nullable
 * results, the exceptions it raises, the runtime values it stores in its
 * parameter maps, and the class names by which it dispatches on them.
 */
module JavaModel {

  datatype Option<+T> = None | Some(value: T)

  /** The exceptions the request builder lets escape to its caller. */
  datatype RuntimeReason =
    | ValuesEmpty                      // "values cannot be empty"
    | UnknownType(className: string)   // "unknown type to serialize " + class name
    | CouldNotSerialize                // an IOException wrapped as "could not serialize payload"
    | WriterFailed                     // an unchecked exception thrown by a write primitive

  datatype Exception =
    | NullPointerException             // Objects.requireNonNull, or a method call on null
    | IllegalStateException            // the template needs a "baseurl" path parameter
    | URISyntaxException               // the URI parser or the template expander refused
    | ClassCastException               // a primitive array cast to Object[]
    | RuntimeException(reason: RuntimeReason)

  datatype Result<+T> = Success(value: T) | Failure(error: Exception)

  datatype Outcome = Pass | Fail(error: Exception)

  /** Java's fixed-width integers. */
  type JByte = i: int | -0x80 <= i < 0x80
  type JShort = i: int | -0x8000 <= i < 0x8000
  type JInt = i: int | -0x8000_0000 <= i < 0x8000_0000
  type JLong = i: int | -0x8000_0000_0000_0000 <= i < 0x8000_0000_0000_0000

  /** An opaque stand-in for a value whose contents this model does not interpret
      (a decimal, a float, a UUID, a date or time). */
  type Token = nat

  /** The element type of a Java array: a primitive, named by its JVM
      descriptor letter ('I' for int, ...), or a reference class by its
      Class.getName() ("[I" for the component of an int[][]). */
  datatype ComponentType = PrimitiveComponent(descriptor: char) | ReferenceComponent(componentName: string)

  /** A Java object reference as stored in a HashMap<String, Object>. */
  datatype Value =
    | Null
    | StringValue(str: string)
    | BooleanValue(flag: bool)
    | ByteValue(i8: JByte)
    | ShortValue(i16: JShort)
    | BigDecimalValue(decimal: Token)
    | FloatValue(float: Token)
    | LongValue(i64: JLong)
    | IntegerValue(i32: JInt)
    | UuidValue(uuid: Token)
    | OffsetDateTimeValue(dateTime: Token)
    | LocalDateValue(date: Token)
    | LocalTimeValue(time: Token)
    | PeriodValue(period: Token)
    | DoubleValue(double: Token)
    | ListValue(items: seq<Value>)                     // the list Arrays.asList returns
    | ArrayValue(component: ComponentType, elements: seq<Value>)
    | OtherValue(className: string)                    // an object of any other class

  /** Class.getName() of a non-null value. */
  function ClassName(v: Value): string
    requires v != Null
  {
    match v
    case StringValue(_) => "java.lang.String"
    case BooleanValue(_) => "java.lang.Boolean"
    case ByteValue(_) => "java.lang.Byte"
    case ShortValue(_) => "java.lang.Short"
    case BigDecimalValue(_) => "java.math.BigDecimal"
    case FloatValue(_) => "java.lang.Float"
    case LongValue(_) => "java.lang.Long"
    case IntegerValue(_) => "java.lang.Integer"
    case UuidValue(_) => "java.util.UUID"
    case OffsetDateTimeValue(_) => "java.time.OffsetDateTime"
    case LocalDateValue(_) => "java.time.LocalDate"
    case LocalTimeValue(_) => "java.time.LocalTime"
    case PeriodValue(_) => "java.time.Period"
    case DoubleValue(_) => "java.lang.Double"
    case ListValue(_) => "java.util.Arrays$ArrayList"
    case ArrayValue(PrimitiveComponent(d), _) => "[" + [d]
    case ArrayValue(ReferenceComponent(n), _) =>
      // an array of arrays names its component by the component's own array name
      if |n| > 0 && n[0] == '[' then "[" + n else "[L" + n + ";"
    case OtherValue(n) => n
  }

  /** The thirteen classes the scalar serializer accepts, by exact class. */
  const ScalarClassNames: set<string> := {
    "java.lang.String", "java.lang.Boolean", "java.lang.Byte", "java.lang.Short",
    "java.math.BigDecimal", "java.lang.Float", "java.lang.Long", "java.lang.Integer",
    "java.util.UUID", "java.time.OffsetDateTime", "java.time.LocalDate",
    "java.time.LocalTime", "java.time.Period"
  }

  /** The classes this model gives a constructor of their own. */
  const ModelledClassNames: set<string> := ScalarClassNames + {"java.lang.Double", "java.util.Arrays$ArrayList"}

  /** An OtherValue stands for a class with no constructor of its own, and
      never for an array class (whose names start with '['). */
  predicate WellFormed(v: Value) {
    v.OtherValue? ==> v.className !in ModelledClassNames && (|v.className| == 0 || v.className[0] != '[')
  }

  /** java.net.URI, after a successful parse or template expansion. */
  datatype Uri = Uri(spelling: string)

  /** The HTTP verb of the request (a plain field without behaviour). */
  datatype HttpMethod = GET | POST | PATCH | DELETE | OPTIONS | CONNECT | PUT | TRACE | HEAD
}
