/** The two closed value universes that meet at the interop layer: the values a
    V8 script handles (`ScriptValue`) and the boxed .NET objects the host hands
    over (`HostValue`), together with the host's runtime types. */
module Values {
  import opened Wrappers

  type int16 = i: int | -0x8000 <= i < 0x8000
  type int32 = i: int | -0x8000_0000 <= i < 0x8000_0000

  /** A JavascriptExternal pointer: the payload of a v8::External, resolved by the
      current context to the host object it wraps. */
  type Token = nat

  /** Identity of a host object (reference identity on the .NET side). */
  type ObjId = nat

  /** An IEEE double kept opaque. `Integral` holds the doubles whose value is a
      mathematical integer other than -0; `NonIntegral` stands for every other
      double (fractions, -0, NaN, the infinities), told apart only by a token. */
  datatype Num = Integral(i: int) | NonIntegral(token: nat)

  /** v8::Value::IsInt32: the number is an integer that fits in 32 bits. */
  predicate IsInt32(n: Num) {
    n.Integral? && -0x8000_0000 <= n.i < 0x8000_0000
  }

  /** A named slot: a script object's property, or a host dictionary entry. */
  datatype Pair<+V> = Pair(key: string, value: V)

  datatype ScriptValue =
    | Empty                       // the empty handle, Handle<Value>()
    | Undefined
    | Null
    | Bool(b: bool)
    | Int32(i: int32)             // a number created by v8::Int32::New
    | Number(n: Num)              // any other number
    | String(str: string)
    | Array(elems: seq<ScriptValue>)
    | Object(props: seq<Pair<ScriptValue>>)     // enumerable properties, in enumeration order; no internal field
    | Proxy(token: Token)         // an instance of the object wrapper template: one internal field holding an External
    | External(payload: Token)    // a raw v8::External
    | Date(ms: int)               // a valid date: its time value in milliseconds, as returned by NumberValue()
    | InvalidDate                 // a date whose time value is NaN
    | Function(fprops: seq<Pair<ScriptValue>>, data: Option<Token>)   // a function object; data is the External bound to a delegate trampoline

  datatype HostValue =
    | Null
    | Boolean(b: bool)
    | Int16(s16: int16)
    | Int32(i: int32)
    | Single(f: Num)
    | Double(d: Num)
    | String(str: string)
    | DateTime(ticks: int)        // System::DateTime::Ticks, 100 ns units since 0001-01-01
    | Array(elems: seq<HostValue>)                  // cli::array<System::Object^>
    | List(items: seq<HostValue>)                   // System::Collections::Generic::List
    | Dictionary(entries: seq<Pair<HostValue>>)     // System::Collections::Generic::Dictionary, string keys, in enumeration order
    | Delegate(id: ObjId, typeName: string)
    | Other(id: ObjId, typeName: string)            // any object no branch of the converter recognises

  /** The runtime types that the overload resolver compares with `==`. */
  datatype HostType =
    | BooleanType | Int16Type | Int32Type | SingleType | DoubleType | StringType | DateTimeType
    | ObjectArrayType | ListType | DictionaryType
    | NamedType(name: string)

  /** System::Object::GetType(); undefined on null, as the CLR throws there. */
  function TypeOf(x: HostValue): HostType
    requires !x.Null?
  {
    match x
    case Boolean(_) => BooleanType
    case Int16(_) => Int16Type
    case Int32(_) => Int32Type
    case Single(_) => SingleType
    case Double(_) => DoubleType
    case String(_) => StringType
    case DateTime(_) => DateTimeType
    case Array(_) => ObjectArrayType
    case List(_) => ListType
    case Dictionary(_) => DictionaryType
    case Delegate(_, t) => NamedType(t)
    case Other(_, t) => NamedType(t)
  }

  /** .NET exceptions that leave a conversion or a trampoline without being
      turned into a script exception. */
  datatype HostError =
    | SystemException(message: string)   // gcnew System::Exception(message)
    | NullReference                      // a member call through a null handle
    | InvalidCast                        // a failing safe_cast
    | Overflow                           // System::OverflowException
    | ArgumentOutOfRange                 // System::ArgumentOutOfRangeException
    | Argument                           // System::ArgumentException
    | Uncaught(exception: HostValue)     // an exception raised by host code and not caught here

  const NoContextError: HostError := SystemException("No context currently active.")
}
