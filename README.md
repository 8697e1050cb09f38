# Noesis.Javascript interop layer, modelled in Dafny

This project models `JavascriptInterop`, the layer of Noesis.Javascript that
sits between V8 script values and .NET host objects. It covers:

- **the value converter.** `ConvertFromV8` takes a script value to a host
  value, and `ConvertToV8` takes a host value to a script value. Each is a
  first-match chain of type tests with recursive helpers for arrays, lists,
  dictionaries, dates and delegates.
- **the wrapper registry.** `WrapObject`, `UnwrapObject` and the lazily built
  `GetObjectWrapperTemplate`. A proxy carries a token, and the current
  context maps that token to the host object.
- **the overload resolver in `Invoker`.** Among the members of the requested
  name, it picks the first-declared surviving overload with the most
  exact-type arguments.
- **the trampolines** `DelegateInvoker`, `Getter`, `Setter`, `IndexGetter`
  and `IndexSetter`.

Modules:

- `Values`: the two value universes, `ScriptValue` and `HostValue`, with
  numbers kept opaque behind an `IsInt32` test, and the .NET errors that can
  escape.
- `Pairs`: the "set or overwrite" writes (`results[key] = v`,
  `object->Set`) that build dictionaries and script objects.
- `Registry`: the registry state (context, token map, template) as a value.
- `Convert`: both converters as total functions over that state.
- `RoundTrip`: what comes back when a host value goes out to the script and
  returns.
- `Overloads`: the resolver scan, its meaning and the imperative nested loop.
- `Trampolines`: the callbacks as functions.
- `Bridge`: a class `JavascriptInterop` whose fields hold the registry and
  whose methods update them in place. Each method is proved equal to the
  matching function.

Collaborators this file calls but does not define are parameters:

- in `SystemInterop`: `ConvertFromSystemDateTime` and `ConvertToType`;
- in `Reflection`: `Type::GetMember`, `MethodInfo::Invoke` and
  `Delegate::DynamicInvoke`;
- in `Members`: the lookups of `JavascriptExternal`.

`ConvertFromV8` converts a date through `TimeSpan::FromMilliseconds` and
the `DateTime` constructor, and both can throw. `ConvertObjectFromV8` casts
each converted property name to a string. V8 stores a name that is an array
index ("0", "42") as an element, and `GetPropertyNames` reports it as a
number, so that cast throws an InvalidCastException. The model therefore
returns a result that is either a host value or one of those exceptions.
Such an exception stops the conversion of an enclosing array, object or
argument list, and it escapes from `Invoker` and `DelegateInvoker`. A host
`Dictionary` with such a key goes out to the script without trouble but
does not come back.

The date conversion keeps the code's anchor of 1970-01-02.
`DateRoundTripOneDayLate` shows the consequence: if
`ConvertFromSystemDateTime` counts from the Unix epoch, a date makes the round
trip one day late.

## Model

| member | source | states |
|---|---|---|
| Registry.WithTemplate | release_zip/0.3.1/Source/Noesis.Javascript/JavascriptInterop.cpp:54-69 | The wrapper template is created on the first call only; later calls return the same template; nothing else changes. |
| Registry.RegisterExternal | release_zip/0.3.1/Source/Noesis.Javascript/JavascriptInterop.cpp:160 | The context registers the object under a token no earlier object has; the registry keeps every earlier registration. |
| Registry.Unwrap | release_zip/0.3.1/Source/Noesis.Javascript/JavascriptInterop.cpp:171-193 | A wrapper proxy unwraps to the object registered under the token in its internal field, a raw External to the object registered under its payload; any other value unwraps to null. |
| Registry.Wrap | release_zip/0.3.1/Source/Noesis.Javascript/JavascriptInterop.cpp:151-166 | With no current context: fails with "No context currently active." and nothing changes. Otherwise: a new proxy with a fresh token that unwraps to the object, the object added to the registry under that token, and the template present from then on. |
| Registry.WrapTwice | release_zip/0.3.1/Source/Noesis.Javascript/JavascriptInterop.cpp:151-166 | Two wraps give distinct proxies, and the first still unwraps to its object after the second. |
| Convert.ConvertDateFromV8 | release_zip/0.3.1/Source/Noesis.Javascript/JavascriptInterop.cpp:236-243 | Succeeds exactly when the tick count lies in DateTime's range [0, 3155378975999999999]; the host date is then the 1970-01-02 anchor plus the script milliseconds times 10000 ticks. A failure is an OverflowException exactly when the milliseconds reach the TimeSpan bound 922337203685477 in magnitude, and otherwise an ArgumentOutOfRangeException. |
| Convert.ConvertDateRange | release_zip/0.3.1/Source/Noesis.Javascript/JavascriptInterop.cpp:236-243 | The time values that convert are exactly -62135683200000 to 253402214399999 milliseconds from the anchor, 0001-01-01 to the last millisecond of 9999-12-31. |
| Convert.DateAnchorIsOneDayLate | release_zip/0.3.1/Source/Noesis.Javascript/JavascriptInterop.cpp:239 | The Unix epoch and the anchor are the tick counts of 1970-01-01 and 1970-01-02 in the proleptic Gregorian calendar (621355968000000000 and one day more), so the anchor is one day after the Unix epoch. |
| Convert.FromV8Scalars | release_zip/0.3.1/Source/Noesis.Javascript/JavascriptInterop.cpp:73-101 | Branch order of ConvertFromV8: null and undefined give null, and so, by convention, does the empty handle; a boolean gives a Boolean; Int32 is tested before Number, so a number gives an Int32 exactly when representable and a Double otherwise; a string gives a String; a date goes to ConvertDateFromV8, and an invalid (NaN) date fails with an ArgumentException; an External gives null. |
| Convert.FromV8 | release_zip/0.3.1/Source/Noesis.Javascript/JavascriptInterop.cpp:73-101 | ConvertFromV8 fails only with an exception of converting a date or the InvalidCastException of an array-index property name. |
| Convert.FromV8Object | release_zip/0.3.1/Source/Noesis.Javascript/JavascriptInterop.cpp:215-232 | A failure is a date error or an invalid cast; a success is a Dictionary with exactly the enumerated names, each once. |
| Convert.FromV8Seq | release_zip/0.3.1/Source/Noesis.Javascript/JavascriptInterop.cpp:201-208 | The elements are converted in index order; a failure is a date error or an invalid cast; a success has the script array's length. |
| Convert.FromV8Props | release_zip/0.3.1/Source/Noesis.Javascript/JavascriptInterop.cpp:222-229 | The properties are converted in enumeration order; a failure is a date error or an invalid cast; a success keeps the names in order. |
| Convert.PropFromV8NameFirst | release_zip/0.3.1/Source/Noesis.Javascript/JavascriptInterop.cpp:225-228 | The name is cast before the value is converted: a name that is an array index fails with InvalidCast whatever the value; any other name keeps its place, and the outcome is that of converting the value. |
| Convert.ArrayIndexNames | release_zip/0.3.1/Source/Noesis.Javascript/JavascriptInterop.cpp:218-227 | "0" and "42" are array-index names; the empty name, "01", "-1", "1.5" and "length" are not. |
| Convert.ArrayIndexBound | release_zip/0.3.1/Source/Noesis.Javascript/JavascriptInterop.cpp:218-227 | "4294967294" (2^32 - 2) is an array-index name and "4294967295" is not. |
| Convert.FromV8SeqElements | release_zip/0.3.1/Source/Noesis.Javascript/JavascriptInterop.cpp:201-208 | The array converts exactly when every element does; then element i is element i converted; otherwise the outcome is the failure of the first element that does not convert. |
| Convert.FromV8PropsElements | release_zip/0.3.1/Source/Noesis.Javascript/JavascriptInterop.cpp:222-229 | Likewise for the properties of an object, each converted name first, then value. |
| Convert.FromV8Succeeds | release_zip/0.3.1/Source/Noesis.Javascript/JavascriptInterop.cpp:73-101 | ConvertFromV8 throws exactly on the values holding an invalid date, a date outside DateTime's range, or an object with an array-index property name (a proxy is not looked into). |
| Convert.FromV8SeqStopsAtFailure | release_zip/0.3.1/Source/Noesis.Javascript/JavascriptInterop.cpp:201-208 | The first element that throws ends the whole array conversion with that failure. |
| Convert.FromV8PropsStopsAtFailure | release_zip/0.3.1/Source/Noesis.Javascript/JavascriptInterop.cpp:222-229 | The first property whose name or value throws ends the whole object conversion with that failure. |
| Convert.FromV8Proxy | release_zip/0.3.1/Source/Noesis.Javascript/JavascriptInterop.cpp:90-95 | An object with an internal field converts, without failing, to the very object registered for its token; nothing is copied. |
| Convert.PropsBack | release_zip/0.3.1/Source/Noesis.Javascript/JavascriptInterop.cpp:222-229 | Properties with no array-index name and convertible values convert to those values, names kept, in order. |
| Convert.FromV8PlainObjectOutcome | release_zip/0.3.1/Source/Noesis.Javascript/JavascriptInterop.cpp:215-232 | A plain object converts exactly when no property name is an array index and every property value converts; when every value converts, a failure is InvalidCast. |
| Convert.FromV8PlainObject | release_zip/0.3.1/Source/Noesis.Javascript/JavascriptInterop.cpp:215-232 | A plain object converts exactly when no name is an array index and all its property values convert; when all values convert, a failure is InvalidCast. It then gives a Dictionary with exactly the enumerated names, each once. The value under a name is the conversion of the last value enumerated for it. With distinct names, entry i is property i converted, in order. |
| Convert.DelegateToV8 | release_zip/0.3.1/Source/Noesis.Javascript/JavascriptInterop.cpp:301-309 | With no context: a null-reference failure and no change. Otherwise: a function with no properties whose callback data unwraps to the delegate. |
| Convert.ToV8 | release_zip/0.3.1/Source/Noesis.Javascript/JavascriptInterop.cpp:105-146 | ConvertToV8 keeps the registry valid, only adds registrations, and with no context leaves the registry untouched. |
| Convert.ToV8Scalars | release_zip/0.3.1/Source/Noesis.Javascript/JavascriptInterop.cpp:108-145 | null gives the empty handle; Int16 and Int32 give a script Int32; Single and Double give a Number; none touches the registry; an unmatched type goes to WrapObject. |
| Convert.ToV8Seq | release_zip/0.3.1/Source/Noesis.Javascript/JavascriptInterop.cpp:247-261 | Converting the elements in order keeps the registry valid and growing. |
| Convert.ToV8Pairs | release_zip/0.3.1/Source/Noesis.Javascript/JavascriptInterop.cpp:265-279 | Converting the entries in order keeps the registry valid and growing. |
| Convert.ToV8WithoutContext | release_zip/0.3.1/Source/Noesis.Javascript/JavascriptInterop.cpp:152-165 | With no current context, conversion succeeds exactly on values that contain no delegate and no value to wrap. The registry is left as it was. A failure is either "No context currently active." or a null reference. |
| Convert.ToV8SeqElements | release_zip/0.3.1/Source/Noesis.Javascript/JavascriptInterop.cpp:254-258 | A converted array has the source length, and element i is element i converted in the state left by elements 0..i-1. |
| Convert.ToV8SeqStopsAtFailure | release_zip/0.3.1/Source/Noesis.Javascript/JavascriptInterop.cpp:254-258 | The first element that throws ends the whole array or list conversion with that failure. |
| Convert.ToV8PairsStopsAtFailure | release_zip/0.3.1/Source/Noesis.Javascript/JavascriptInterop.cpp:271-276 | The first entry that throws ends the whole dictionary conversion with that failure. |
| Pairs.Upsert | release_zip/0.3.1/Source/Noesis.Javascript/JavascriptInterop.cpp:228 | `d[k] = v` leaves the old keys plus k. A new key is appended at the end. Distinct keys stay distinct. |
| Pairs.UpsertLookup | release_zip/0.3.1/Source/Noesis.Javascript/JavascriptInterop.cpp:228 | After `d[k] = v`, key k reads v and every other key reads as before. |
| Pairs.UpsertAll | release_zip/0.3.1/Source/Noesis.Javascript/JavascriptInterop.cpp:222-229 | A sequence of writes leaves exactly the keys written, each once. |
| Pairs.UpsertAllLookup | release_zip/0.3.1/Source/Noesis.Javascript/JavascriptInterop.cpp:222-229 | The value left under each key is the last one written to it. |
| Pairs.UpsertAllDistinct | release_zip/0.3.1/Source/Noesis.Javascript/JavascriptInterop.cpp:222-229 | Writing distinct keys gives the written sequence itself, in order. |
| Pairs.UpsertAllIdempotent | release_zip/0.3.1/Source/Noesis.Javascript/JavascriptInterop.cpp:271-276 | Re-writing the result of a sequence of writes changes nothing. |
| Pairs.MapValuesUpsertAll | release_zip/0.3.1/Source/Noesis.Javascript/JavascriptInterop.cpp:222-229 | Converting the values commutes with a sequence of writes. |
| RoundTrip.RoundTrip | release_zip/0.3.1/Source/Noesis.Javascript/JavascriptInterop.cpp:105-146 | With a current context, ConvertToV8 never fails, and every proxy it creates is registered. When every date in the value comes back within DateTime's range and no dictionary key is an array index, ConvertFromV8 of the result succeeds with the value's normal form: Int16 becomes Int32; Single and Double become Int32 when representable, otherwise Double; a List becomes an object[]; a date is re-anchored; a delegate becomes an empty Dictionary; a wrapped object becomes itself. |
| RoundTrip.RoundTripArray | release_zip/0.3.1/Source/Noesis.Javascript/JavascriptInterop.cpp:247-261 | Arrays and lists always convert; when their dates convert back they come back as an object[] of the elements' round trips. |
| RoundTrip.RoundTripDictionary | release_zip/0.3.1/Source/Noesis.Javascript/JavascriptInterop.cpp:265-279 | A Dictionary always converts; when no key is an array index and its values convert back, it comes back as the writes of its normalized entries. |
| RoundTrip.RoundTripIndexKey | release_zip/0.3.1/Source/Noesis.Javascript/JavascriptInterop.cpp:215-232 | A Dictionary with an array-index key converts out, but its object does not convert back; when every value converts back, the failure is InvalidCast. |
| RoundTrip.RoundTripZeroKey | release_zip/0.3.1/Source/Noesis.Javascript/JavascriptInterop.cpp:215-232 | The Dictionary {"0": 1} converts out, and converting its object back fails with InvalidCast. |
| RoundTrip.ObjectWithIndexName | release_zip/0.3.1/Source/Noesis.Javascript/JavascriptInterop.cpp:215-232 | An object written from pairs one of which has an array-index name does not convert; when every value written converts, the failure is InvalidCast. |
| RoundTrip.FromV8Stable | release_zip/0.3.1/Source/Noesis.Javascript/JavascriptInterop.cpp:171-193 | Registering more objects does not change how an already-registered value converts back. |
| RoundTrip.NumberFromV8 | release_zip/0.3.1/Source/Noesis.Javascript/JavascriptInterop.cpp:80-83 | A number comes back as an Int32 exactly when it is int32-representable. |
| RoundTrip.CanonicalRoundTrip | release_zip/0.3.1/Source/Noesis.Javascript/JavascriptInterop.cpp:73-146 | Booleans, Int32, non-int32 Doubles, strings, wrapped objects and arrays or dictionaries of them (distinct keys, none an array index) survive ConvertToV8 then ConvertFromV8 unchanged, without failing. |
| RoundTrip.DateRoundTripOneDayLate | release_zip/0.3.1/Source/Noesis.Javascript/JavascriptInterop.cpp:236-243 | If ConvertFromSystemDateTime counts milliseconds from 1970-01-01, a date comes back one day later than it went out. |
| Overloads.ExactCount | release_zip/0.3.1/Source/Noesis.Javascript/JavascriptInterop.cpp:463-466 | The score never exceeds the argument count. |
| Overloads.CoercedArguments | release_zip/0.3.1/Source/Noesis.Javascript/JavascriptInterop.cpp:457-476 | The call arguments have the supplied length, and a null argument stays null. |
| Overloads.Remember | release_zip/0.3.1/Source/Noesis.Javascript/JavascriptInterop.cpp:484-489 | A surviving overload replaces the remembered one exactly when it scores strictly more; the remembered score never decreases. |
| Overloads.Scan | release_zip/0.3.1/Source/Noesis.Javascript/JavascriptInterop.cpp:444-495 | A cast failure is at a non-method member the scan reached; no match only when nothing was remembered; a selection is what was remembered or a surviving member the scan reached. |
| Overloads.ScanMeets | release_zip/0.3.1/Source/Noesis.Javascript/JavascriptInterop.cpp:444-495 | From any point of the scan, the result meets the selection specification. |
| Overloads.Resolve | release_zip/0.3.1/Source/Noesis.Javascript/JavascriptInterop.cpp:436-495 | A selected overload survives the filter: it is a method of the right arity, and every non-null argument converts. No survivor scores more; every earlier survivor scores strictly less. It is called with the converted arguments. No match: every member is a method and none survives. Cast failure: a non-method member reached before any full match. |
| Overloads.FirstBestUnique | release_zip/0.3.1/Source/Noesis.Javascript/JavascriptInterop.cpp:484-489 | At most one member is the first-declared overload of maximal score. |
| Overloads.EarlyBreakIrrelevant | release_zip/0.3.1/Source/Noesis.Javascript/JavascriptInterop.cpp:491-493 | When every member is a method, stopping at a full score selects the same overload and arguments as scanning to the end. |
| Overloads.MatchArguments | release_zip/0.3.1/Source/Noesis.Javascript/JavascriptInterop.cpp:453-481 | The inner loop fails exactly on an overload that does not survive. Otherwise the tally is the exact-type count and the arguments are the null-preserving conversions. |
| Overloads.FindBestMethod | release_zip/0.3.1/Source/Noesis.Javascript/JavascriptInterop.cpp:444-495 | The nested loop yields exactly the selection Resolve specifies. |
| Trampolines.Deliver | release_zip/0.3.1/Source/Noesis.Javascript/JavascriptInterop.cpp:498-509 | A host error escapes with the registry untouched; every other outcome keeps the registry valid and growing. |
| Trampolines.MethodLookup | release_zip/0.3.1/Source/Noesis.Javascript/JavascriptInterop.cpp:434-441 | The lookup answers "no match" without converting anything when the first member is not a method. Otherwise any argument that fails to convert fails the lookup with that error. A selected overload is the first-declared best one with its coerced arguments. |
| Trampolines.Invocation | release_zip/0.3.1/Source/Noesis.Javascript/JavascriptInterop.cpp:414-501 | Invoker's host side fails only with a null reference, an invalid cast (a non-method member, or an argument object with an array-index name), or an exception from converting an argument date. |
| Trampolines.Invoke | release_zip/0.3.1/Source/Noesis.Javascript/JavascriptInterop.cpp:414-510 | Invoker keeps the registry valid and only adds to it. |
| Trampolines.DelegateInvocation | release_zip/0.3.1/Source/Noesis.Javascript/JavascriptInterop.cpp:313-330 | DelegateInvoker has no handler, so nothing is thrown into the script. It fails only with a null reference, an escaped delegate exception, a date error or an invalid cast of a property name; an argument that fails to convert is the outcome. |
| Trampolines.DelegateCall | release_zip/0.3.1/Source/Noesis.Javascript/JavascriptInterop.cpp:313-330 | DelegateInvoker keeps the registry valid and growing, and never throws a script exception. |
| Trampolines.DeliverRoundTrip | release_zip/0.3.1/Source/Noesis.Javascript/JavascriptInterop.cpp:498-509 | With a context, a returned value reaches the script as a value, and a raised exception as a thrown value. When they convert back (dates in range, no array-index key), each converts back to the host result's normal form. |
| Trampolines.ToV8Errors | release_zip/0.3.1/Source/Noesis.Javascript/JavascriptInterop.cpp:105-166 | ConvertToV8 fails only without a context, and only with "No context currently active." or a null reference. |
| Trampolines.InvokeErrors | release_zip/0.3.1/Source/Noesis.Javascript/JavascriptInterop.cpp:414-510 | InvalidCast escapes exactly when the scan reaches a non-method member or converting the arguments fails with it (an array-index property name). A date error escapes only as the failure of converting the arguments. With a context and a non-null target, nothing else escapes. |
| Trampolines.InvokeCallsBestOverload | release_zip/0.3.1/Source/Noesis.Javascript/JavascriptInterop.cpp:436-501 | With no method first, the null-reference exception is raised into the script. A failing argument conversion is the outcome. Otherwise the host call goes to the first-declared best overload with the converted arguments, and with no survivor the null-reference exception is raised. |
| Trampolines.DelegateRoundTrip | release_zip/0.3.1/Source/Noesis.Javascript/JavascriptInterop.cpp:301-330 | The function ConvertToV8 makes for a delegate, when called, converts the arguments and dynamically invokes that same delegate. |
| Trampolines.Getter | release_zip/0.3.1/Source/Noesis.Javascript/JavascriptInterop.cpp:334-354 | For the object registered for the proxy, a method of the name shadows a property of that name; the empty handle is returned only when the object has neither. |
| Trampolines.Setter | release_zip/0.3.1/Source/Noesis.Javascript/JavascriptInterop.cpp:358-374 | Only properties of the object registered for the proxy are written; the result is the property write's answer, or the empty handle. |
| Trampolines.IndexGetter | release_zip/0.3.1/Source/Noesis.Javascript/JavascriptInterop.cpp:378-392 | An indexed read of the object registered for the proxy; no method lookup. |
| Trampolines.IndexSetter | release_zip/0.3.1/Source/Noesis.Javascript/JavascriptInterop.cpp:396-410 | An indexed write of the object registered for the proxy. |
| Trampolines.AccessorsSeeWrappedObject | release_zip/0.3.1/Source/Noesis.Javascript/JavascriptInterop.cpp:337-338 | The accessors of a proxy made by WrapObject serve the members of exactly the object it wrapped. |
| Bridge.JavascriptInterop.constructor | release_zip/0.3.1/Source/Noesis.Javascript/JavascriptInterop.cpp:50 | An interop with an empty registry and no template yet. |
| Bridge.JavascriptInterop.GetObjectWrapperTemplate | release_zip/0.3.1/Source/Noesis.Javascript/JavascriptInterop.cpp:54-69 | Writes the template field once; returns the wrapper template. |
| Bridge.JavascriptInterop.RegisterObject | release_zip/0.3.1/Source/Noesis.Javascript/JavascriptInterop.cpp:160 | The new state is the fresh-token registration RegisterExternal specifies. |
| Bridge.JavascriptInterop.WrapObject | release_zip/0.3.1/Source/Noesis.Javascript/JavascriptInterop.cpp:151-166 | Result and new state are those of Wrap. |
| Bridge.JavascriptInterop.ConvertFromV8 | release_zip/0.3.1/Source/Noesis.Javascript/JavascriptInterop.cpp:73-101 | Returns FromV8 of the value under the current registry, a date failure or an invalid cast of a property name included. |
| Bridge.JavascriptInterop.ConvertArrayFromV8 | release_zip/0.3.1/Source/Noesis.Javascript/JavascriptInterop.cpp:197-211 | The loop over a fresh object[] gives FromV8Seq of the elements: the first failing element ends it; otherwise slot i holds element i converted. |
| Bridge.JavascriptInterop.ConvertObjectFromV8 | release_zip/0.3.1/Source/Noesis.Javascript/JavascriptInterop.cpp:215-232 | The dictionary built by the loop is FromV8Object of the properties; the first array-index name or failing value ends it. |
| Bridge.JavascriptInterop.ConvertToV8 | release_zip/0.3.1/Source/Noesis.Javascript/JavascriptInterop.cpp:105-146 | Result and new state are those of ToV8. |
| Bridge.JavascriptInterop.ConvertFromSystemArray | release_zip/0.3.1/Source/Noesis.Javascript/JavascriptInterop.cpp:247-261 | The loop's result and state are those of ToV8Seq: the first failure stops it; otherwise the script array of converted elements. |
| Bridge.JavascriptInterop.ConvertFromSystemList | release_zip/0.3.1/Source/Noesis.Javascript/JavascriptInterop.cpp:283-297 | The loop's result and state are those of ToV8Seq over the items: the first failure stops it; otherwise the script array of converted items. |
| Bridge.JavascriptInterop.ConvertFromSystemDictionary | release_zip/0.3.1/Source/Noesis.Javascript/JavascriptInterop.cpp:265-279 | The loop's result and state are those of ToV8Pairs followed by the writes: the first failure stops it. |
| Bridge.JavascriptInterop.ConvertFromSystemDelegate | release_zip/0.3.1/Source/Noesis.Javascript/JavascriptInterop.cpp:301-309 | Result and new state are those of DelegateToV8. |
| Bridge.JavascriptInterop.Deliver | release_zip/0.3.1/Source/Noesis.Javascript/JavascriptInterop.cpp:498-509 | Outcome and new state are those of Trampolines.Deliver. |
| Bridge.JavascriptInterop.DelegateInvoker | release_zip/0.3.1/Source/Noesis.Javascript/JavascriptInterop.cpp:313-330 | Outcome and new state are those of DelegateCall. |
| Bridge.JavascriptInterop.InvokeMember | release_zip/0.3.1/Source/Noesis.Javascript/JavascriptInterop.cpp:414-501 | The host outcome is the one Invocation specifies, a failing argument conversion included, reached through FindBestMethod. |
| Bridge.JavascriptInterop.Invoker | release_zip/0.3.1/Source/Noesis.Javascript/JavascriptInterop.cpp:414-510 | Outcome and new state are those of Invoke. |

## Left out

- V8 handle machinery (`HandleScope`, `Persistent`, `Local`/`Handle` casts) and garbage-collector lifetime of proxies: memory management, not behaviour; a proxy is a record holding its token.
- .NET reflection (`GetMember`, `GetParameters`, `MethodInfo::Invoke`, `Delegate::DynamicInvoke`): foreign calls, given as the uninterpreted functions of `Trampolines.Reflection`. The wrapping of exceptions in a `TargetInvocationException` by `Invoke` is part of that abstraction.
- `SystemInterop` (`ConvertToType`, `ConvertFromSystemString`, `ConvertFromSystemDateTime`) and `JavascriptExternal` (`GetMethod`, `GetProperty`, `SetProperty`) are not part of this model; they are parameters. State changes those lookups make (for example registering the function `GetMethod` creates) are not modelled.
- String transcoding (`String::Value`, `ConvertFromSystemString`): strings are the same `seq<char>` on both sides.
- Floating point: numbers are opaque `Num` values with an `IsInt32` test; Single-to-Double widening is not modelled. Dates are integer ticks and whole milliseconds, and a NaN time value is the separate `InvalidDate`.
- Convert.ConvertDateFromV8: the rounding of a fractional millisecond count by `TimeSpan::FromMilliseconds` is not modelled; its overflow bound and DateTime's tick range are. `ToLocalTime` depends on the time zone and is left out, together with the clamping it applies at the ends of DateTime's range.
- RoundTrip.RoundTrip: `ConvertsBack` asks every date to come back within DateTime's range and every dictionary key not to be an array index. For a dictionary with a repeated key this is more than needed, because only the later value of that key is converted back.
- Dictionary keys are strings only: the conversion of non-string keys through `ConvertToV8` and V8's string coercion of property keys are not modelled.
- Convert.FromV8Object: an object's properties are taken in the order the model lists them, which for objects built by `ConvertToV8` is the order of the writes. V8 enumerates array-index names before the other names, so for an object holding both an array-index name and a value that fails to convert, the model may report that value's exception where V8 reports the InvalidCastException. Whether the object converts at all is modelled exactly. A `ConvertToV8` of a `Dictionary` can create such names. Names V8 reports as numbers for other reasons are not modelled; an array index is the canonical decimal form of an integer below 2^32 - 1.
- The empty handle: `ConvertFromV8` calls `IsNull` on it, a null dereference in the C++ code; the model maps the empty handle to null by convention, so `Convert.FromV8` does not model that crash.
- Registry.Unwrap: a proxy or External whose token the registry does not hold unwraps to null by convention; the C++ code would follow a dangling `JavascriptExternal` pointer there. Every proxy and External the model builds carries a registered token.
- A null element stored into a script array or object is stored as the empty handle `ConvertToV8(nullptr)` returns; what V8 makes of an empty handle in `Set` is not modelled.
- Int16: `safe_cast<int>` on a boxed Int16 is modelled as the widening the branch evidently intends (a script Int32); whether the CLR unboxing throws there is not modelled.
- Context lifecycle (`JavascriptContext::GetCurrent`, entering and leaving contexts): whether a context is current is fixed when a `Bridge.JavascriptInterop` is made.
- Invoker's callback data: the array `[target, member name]` packed by `JavascriptExternal` is taken apart before the call, so failing casts of a malformed data array (or a null member name) are not modelled; a null target is.
- Invoker, no overload selected: the exception raised by the call through a null `MethodInfo` is the fixed value `nullReferenceException` of `Reflection`, not a fresh object each time.
- DelegateInvoker: `DelegateInvoker` has no handler; an exception raised by the delegate escapes as `Uncaught` and is not thrown into the script, unlike `Invoker`. A `static_cast` of a registered object that is not a delegate is undefined behaviour and not modelled; a null one is.
- Getter, Setter, IndexGetter, IndexSetter: the holder is required to be a registered wrapper proxy, as every object built from the wrapper template is; the unchecked cast of another holder is not modelled.
- Runtime type equality in `Invoker` (`GetType() == type`) is decided over the closed `HostType` set; types outside it are `NamedType`s compared by name.
