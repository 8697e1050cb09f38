/** The callbacks V8 runs on behalf of wrapped host objects: Invoker (a call of
    a host method), DelegateInvoker (a call of a host delegate) and the four
    property accessors of the wrapper template, as functions of the registry
    state. `Bridge.JavascriptInterop` runs the first two imperatively. */
module Trampolines {
  import opened Wrappers
  import opened Values
  import opened Registry
  import opened Convert
  import opened Overloads
  import RoundTrip

  /** What SystemInterop contributes: ConvertFromSystemDateTime (ticks to
      script milliseconds) and ConvertToType. */
  datatype SystemInterop = SystemInterop(convertFromSystemDateTime: int -> int, convertToType: Coercion)

  /** The result of a reflective call into host code. */
  datatype HostCall = Returned(value: HostValue) | Raised(exception: HostValue)

  /** What .NET reflection contributes: Type::GetMember, MethodInfo::Invoke
      (by member id), Delegate::DynamicInvoke, and the exception object a call
      through a null MethodInfo raises. */
  datatype Reflection = Reflection(
    getMember: (HostType, string) -> seq<Member>,
    invoke: (nat, HostValue, seq<HostValue>) -> HostCall,
    dynamicInvoke: (HostValue, seq<HostValue>) -> HostCall,
    nullReferenceException: HostValue)

  /** The host side of a call: a value returned, an exception raised inside the
      try block, or a .NET exception that no handler here catches. */
  datatype HostOutcome = Returns(value: HostValue) | Raises(exception: HostValue) | Fails(error: HostError)

  /** What the script sees: a return value, a pending script exception, or a
      .NET exception escaping the callback. */
  datatype CallOutcome = Return(value: ScriptValue) | Throw(exception: ScriptValue) | Escape(error: HostError)

  datatype Reply = Reply(outcome: CallOutcome, state: WrapState)

  /** The tail of a callback: a returned value goes through ConvertToV8; a
      raised exception is converted and thrown into the script (the value then
      returned stands for the null result and is ignored); a conversion failure
      or an uncaught error escapes, the latter with the registry untouched. */
  function Deliver(h: HostOutcome, st: WrapState, dateToMs: int -> int): (r: Reply)
    requires Valid(st)
    ensures Valid(r.state) && Grows(st, r.state)
    ensures h.Fails? ==> r == Reply(Escape(h.error), st)
  {
    match h
    case Returns(v) =>
      var s := ToV8(v, st, dateToMs);
      Reply(if s.result.Success? then Return(s.result.value) else Escape(s.result.error), s.state)
    case Raises(e) =>
      var s := ToV8(e, st, dateToMs);
      Reply(if s.result.Success? then Throw(s.result.value) else Escape(s.result.error), s.state)
    case Fails(err) => Reply(Escape(err), st)
  }

  /** Invoker's overload lookup. The call arguments are converted, and the
      overloads scanned, only when the first member of the name is a method;
      an argument that cannot be converted (a date out of range, an object
      with an array-index property name) then ends the call with its
      exception, before the try block. Otherwise bestMethod stays
      unset. A selected overload is the first-declared surviving one of
      maximal score, with its converted arguments. */
  function MethodLookup(sys: SystemInterop, refl: Reflection, externals: map<Token, HostValue>,
                        self: HostValue, memberName: string, args: seq<ScriptValue>): (r: Result<Selection, HostError>)
    requires !self.Null?
    ensures
      var members := refl.getMember(TypeOf(self), memberName);
      var supplied := FromV8Seq(args, externals);
      && (!(|members| > 0 && members[0].Method?) ==> r == Success(NoMatch))
      && (r.Failure? ==> supplied == Failure(r.error))
      && (|members| > 0 && members[0].Method? && supplied.Failure? ==> r.Failure?)
      && (r.Success? && r.value.Selected? ==>
            && supplied.Success?
            && IsFirstBest(members, supplied.value, sys.convertToType, r.value.index)
            && r.value.arguments == CoercedArguments(members[r.value.index], supplied.value, sys.convertToType))
  {
    var members := refl.getMember(TypeOf(self), memberName);
    if |members| > 0 && members[0].Method? then
      var supplied := FromV8Seq(args, externals);
      if supplied.Failure? then Failure(supplied.error)
      else Success(Resolve(members, supplied.value, sys.convertToType))
    else Success(NoMatch)
  }

  /** The host side of Invoker: GetType on a null target fails; an argument
      that cannot be converted fails; a non-method member reached by the
      scan fails the MethodInfo cast before the try block; with no overload
      selected the call goes through a null MethodInfo and raises inside the
      try block; otherwise the selected overload is invoked on the target with
      its converted arguments. */
  function Invocation(sys: SystemInterop, refl: Reflection, externals: map<Token, HostValue>,
                      self: HostValue, memberName: string, args: seq<ScriptValue>): (h: HostOutcome)
    ensures h.Fails? ==> h.error in {NullReference, InvalidCast} || DateError(h.error)
  {
    if self.Null? then Fails(NullReference)
    else
      var members := refl.getMember(TypeOf(self), memberName);
      match MethodLookup(sys, refl, externals, self, memberName, args)
      case Failure(e) => Fails(e)
      case Success(BadCast(_)) => Fails(InvalidCast)
      case Success(NoMatch) => Raises(refl.nullReferenceException)
      case Success(Selected(k, arguments)) =>
        match refl.invoke(members[k].id, self, arguments)
        case Returned(v) => Returns(v)
        case Raised(e) => Raises(e)
  }

  /** Invoker. The target (objectInfo[0]) and the member name (objectInfo[1])
      are those JavascriptExternal packed into the callback data. */
  function Invoke(sys: SystemInterop, refl: Reflection, st: WrapState,
                  self: HostValue, memberName: string, args: seq<ScriptValue>): (r: Reply)
    requires Valid(st)
    ensures Valid(r.state) && Grows(st, r.state)
  {
    Deliver(Invocation(sys, refl, st.externals, self, memberName, args), st, sys.convertFromSystemDateTime)
  }

  /** The host side of DelegateInvoker: the arguments are converted first,
      and an argument that cannot be converted fails the call; the
      wrapped delegate is then called through DynamicInvoke. There is no try
      block, so an exception the delegate raises escapes, and so does the null
      reference of a null target. */
  function DelegateInvocation(refl: Reflection, externals: map<Token, HostValue>,
                              data: Token, args: seq<ScriptValue>): (h: HostOutcome)
    requires data in externals
    ensures !h.Raises?
    ensures h.Fails? ==> h.error == NullReference || h.error.Uncaught? || ConversionError(h.error)
    ensures FromV8Seq(args, externals).Failure? ==> h == Fails(FromV8Seq(args, externals).error)
  {
    var arguments := FromV8Seq(args, externals);
    if arguments.Failure? then Fails(arguments.error)
    else
      var target := externals[data];
      if target.Null? then Fails(NullReference)
      else match refl.dynamicInvoke(target, arguments.value)
        case Returned(v) => Returns(v)
        case Raised(e) => Fails(Uncaught(e))
  }

  /** DelegateInvoker, `data` being the External bound to the function. */
  function DelegateCall(sys: SystemInterop, refl: Reflection, st: WrapState,
                        data: Token, args: seq<ScriptValue>): (r: Reply)
    requires Valid(st) && data in st.externals
    ensures Valid(r.state) && Grows(st, r.state)
    ensures !r.outcome.Throw?
  {
    Deliver(DelegateInvocation(refl, st.externals, data, args), st, sys.convertFromSystemDateTime)
  }

  /** With a current context nothing of the conversion fails: a returned
      value comes back to the script as a value, a raised exception as a thrown
      script value, each converting back through ConvertFromV8 to the result's
      normal form when it converts back; an uncaught error escapes with
      the registry unchanged. */
  lemma DeliverRoundTrip(h: HostOutcome, st: WrapState, dateToMs: int -> int)
    requires Valid(st) && st.contextActive
    ensures
      var r := Deliver(h, st, dateToMs);
      && (h.Returns? ==>
            && r.outcome.Return?
            && (RoundTrip.ConvertsBack(h.value, dateToMs) ==>
                  FromV8(r.outcome.value, r.state.externals) == Success(RoundTrip.Normalize(h.value, dateToMs))))
      && (h.Raises? ==>
            && r.outcome.Throw?
            && (RoundTrip.ConvertsBack(h.exception, dateToMs) ==>
                  FromV8(r.outcome.exception, r.state.externals) == Success(RoundTrip.Normalize(h.exception, dateToMs))))
      && (h.Fails? ==> r.outcome == Escape(h.error) && r.state == st)
  {
    match h
    case Returns(v) => RoundTrip.RoundTrip(v, st, dateToMs);
    case Raises(e) => RoundTrip.RoundTrip(e, st, dateToMs);
    case Fails(_) =>
  }

  /** The errors ConvertToV8 can raise. */
  lemma ToV8Errors(x: HostValue, st: WrapState, dateToMs: int -> int)
    requires Valid(st)
    ensures ToV8(x, st, dateToMs).result.Failure? ==>
      !st.contextActive && ToV8(x, st, dateToMs).result.error in {NoContextError, NullReference}
  {
    if st.contextActive {
      RoundTrip.RoundTrip(x, st, dateToMs);
    } else {
      ToV8WithoutContext(x, st, dateToMs);
    }
  }

  /** Invoker lets an InvalidCast escape exactly when the scan reaches a member
      that is not a method or converting the arguments fails with it (an
      argument object with an array-index property name); a date error
      escapes only from converting the arguments; while a context is current
      nothing else escapes but the null target; with no context the
      conversion errors of the result may escape as well. */
  lemma InvokeErrors(sys: SystemInterop, refl: Reflection, st: WrapState,
                     self: HostValue, memberName: string, args: seq<ScriptValue>)
    requires Valid(st)
    ensures
      var r := Invoke(sys, refl, st, self, memberName, args);
      && (r.outcome == Escape(InvalidCast) <==>
            && !self.Null?
            && (|| MethodLookup(sys, refl, st.externals, self, memberName, args) == Failure(InvalidCast)
                || (&& MethodLookup(sys, refl, st.externals, self, memberName, args).Success?
                    && MethodLookup(sys, refl, st.externals, self, memberName, args).value.BadCast?)))
      && (r.outcome.Escape? && DateError(r.outcome.error) ==>
            !self.Null? && FromV8Seq(args, st.externals) == Failure(r.outcome.error))
      && (r.outcome.Escape? ==>
            r.outcome.error in {NullReference, InvalidCast, NoContextError} || DateError(r.outcome.error))
      && (r.outcome.Escape? && st.contextActive ==>
            r.outcome.error in {NullReference, InvalidCast} || DateError(r.outcome.error))
      && (r.outcome.Escape? && st.contextActive && !self.Null? ==>
            r.outcome.error == InvalidCast || DateError(r.outcome.error))
  {
    var h := Invocation(sys, refl, st.externals, self, memberName, args);
    match h
    case Returns(v) => ToV8Errors(v, st, sys.convertFromSystemDateTime);
    case Raises(e) => ToV8Errors(e, st, sys.convertFromSystemDateTime);
    case Fails(_) =>
  }

  /** When the name has no members or its first member is not a method,
      Invoker converts no argument and the host side raises the null-reference
      exception. Otherwise the arguments are converted: a failure there is the
      outcome; else, when an overload is selected, Invoker calls the
      first-declared surviving overload of maximal score with the
      null-preserving converted arguments, and when every member is a method
      and none survives the host side raises the null-reference exception. */
  lemma InvokeCallsBestOverload(sys: SystemInterop, refl: Reflection, externals: map<Token, HostValue>,
                                self: HostValue, memberName: string, args: seq<ScriptValue>)
    requires !self.Null?
    ensures
      var members := refl.getMember(TypeOf(self), memberName);
      var supplied := FromV8Seq(args, externals);
      var h := Invocation(sys, refl, externals, self, memberName, args);
      && ((|members| == 0 || !members[0].Method?) ==> h == Raises(refl.nullReferenceException))
      && (|members| > 0 && members[0].Method? && supplied.Failure? ==> h == Fails(supplied.error))
      && (|members| > 0 && members[0].Method? && supplied.Success? ==>
            var sel := Resolve(members, supplied.value, sys.convertToType);
            && (sel.Selected? ==>
                  && IsFirstBest(members, supplied.value, sys.convertToType, sel.index)
                  && sel.arguments == CoercedArguments(members[sel.index], supplied.value, sys.convertToType)
                  && h == match refl.invoke(members[sel.index].id, self, sel.arguments)
                          case Returned(v) => Returns(v)
                          case Raised(e) => Raises(e))
            && ((forall j :: 0 <= j < |members| ==>
                   members[j].Method? && !Applicable(members[j], supplied.value, sys.convertToType)) ==>
                  h == Raises(refl.nullReferenceException)))
  {
  }

  /** A delegate converted by ConvertToV8 becomes a function whose callback
      data unwraps to the delegate, so calling the function converts the
      arguments and then dynamically invokes that very delegate. */
  lemma DelegateRoundTrip(sys: SystemInterop, refl: Reflection, st: WrapState,
                          id: ObjId, typeName: string, args: seq<ScriptValue>)
    requires Valid(st) && st.contextActive
    ensures
      var d := HostValue.Delegate(id, typeName);
      var s := ToV8(d, st, sys.convertFromSystemDateTime);
      && s.result.Success? && s.result.value.Function? && s.result.value.data.Some?
      && var data := s.result.value.data.value;
         && data in s.state.externals
         && var supplied := FromV8Seq(args, s.state.externals);
            DelegateInvocation(refl, s.state.externals, data, args) ==
              if supplied.Failure? then Fails(supplied.error)
              else match refl.dynamicInvoke(d, supplied.value)
                case Returned(v) => Returns(v)
                case Raised(e) => Fails(Uncaught(e))
  {
  }

  // ----- property accessors of the wrapper template -----

  /** What JavascriptExternal answers for a wrapped object; None stands for the
      empty handle, meaning "no such member". */
  datatype Members = Members(
    getMethod: (HostValue, string) -> Option<ScriptValue>,
    getProperty: (HostValue, string) -> Option<ScriptValue>,
    setProperty: (HostValue, string, ScriptValue) -> Option<ScriptValue>,
    getIndexed: (HostValue, uint32) -> Option<ScriptValue>,
    setIndexed: (HostValue, uint32, ScriptValue) -> Option<ScriptValue>)

  type uint32 = n: int | 0 <= n < 0x1_0000_0000

  /** Getter: a method of the name is found first and shadows a property of
      the same name; the empty handle only when the object registered for the
      proxy has neither. */
  function Getter(m: Members, externals: map<Token, HostValue>, holder: ScriptValue, name: string): (r: Option<ScriptValue>)
    requires holder.Proxy? && holder.token in externals
    ensures m.getMethod(externals[holder.token], name).Some? ==> r == m.getMethod(externals[holder.token], name)
    ensures m.getMethod(externals[holder.token], name).None? ==> r == m.getProperty(externals[holder.token], name)
    ensures r.None? <==>
      m.getMethod(externals[holder.token], name).None? && m.getProperty(externals[holder.token], name).None?
  {
    var obj := Unwrap(holder, externals);
    var fn := m.getMethod(obj, name);
    if fn.Some? then fn else m.getProperty(obj, name)
  }

  /** Setter: only properties are written, on the object registered for the
      proxy; the result is what the property write answers, the empty handle
      when there is no such property. */
  function Setter(m: Members, externals: map<Token, HostValue>, holder: ScriptValue, name: string, value: ScriptValue): (r: Option<ScriptValue>)
    requires holder.Proxy? && holder.token in externals
    ensures r == m.setProperty(externals[holder.token], name, value)
  {
    m.setProperty(Unwrap(holder, externals), name, value)
  }

  /** IndexGetter: an indexed read of the object registered for the proxy,
      never a method. */
  function IndexGetter(m: Members, externals: map<Token, HostValue>, holder: ScriptValue, index: uint32): (r: Option<ScriptValue>)
    requires holder.Proxy? && holder.token in externals
    ensures r == m.getIndexed(externals[holder.token], index)
  {
    m.getIndexed(Unwrap(holder, externals), index)
  }

  /** IndexSetter: an indexed write of the object registered for the proxy. */
  function IndexSetter(m: Members, externals: map<Token, HostValue>, holder: ScriptValue, index: uint32, value: ScriptValue): (r: Option<ScriptValue>)
    requires holder.Proxy? && holder.token in externals
    ensures r == m.setIndexed(externals[holder.token], index, value)
  {
    m.setIndexed(Unwrap(holder, externals), index, value)
  }

  /** The accessors look at the object a proxy wraps, so a proxy made by
      WrapObject serves the members of exactly the object it wrapped. */
  lemma AccessorsSeeWrappedObject(m: Members, st: WrapState, obj: HostValue, name: string)
    requires Valid(st) && st.contextActive
    ensures
      var s := Wrap(st, obj);
      && s.result.value.Proxy? && s.result.value.token in s.state.externals
      && Getter(m, s.state.externals, s.result.value, name) ==
           (if m.getMethod(obj, name).Some? then m.getMethod(obj, name) else m.getProperty(obj, name))
  {
  }
}
