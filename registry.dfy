/** The wrapper registry: the state behind WrapObject, UnwrapObject and
    GetObjectWrapperTemplate, as a value. `Bridge.JavascriptInterop` holds the
    same state in fields and updates it in place; the functions here are its
    specification. */
module Registry {
  import opened Wrappers
  import opened Values

  /** The four accessor trampolines a wrapper template installs. */
  datatype Trampoline = Getter | Setter | IndexGetter | IndexSetter

  datatype ObjectTemplate = ObjectTemplate(
    internalFieldCount: nat,
    namedHandler: (Trampoline, Trampoline),
    indexedHandler: (Trampoline, Trampoline))

  /** The template GetObjectWrapperTemplate builds: one internal field, named
      property access through Getter/Setter, indexed access through
      IndexGetter/IndexSetter. */
  const ObjectWrapperTemplate: ObjectTemplate :=
    ObjectTemplate(1, (Getter, Setter), (IndexGetter, IndexSetter))

  /** Whether a context is current, the objects the context has registered
      (token to wrapped object), the next fresh token, and the lazily created
      template (JavascriptInterop::sObjectWrapperTemplate). */
  datatype WrapState = WrapState(
    contextActive: bool,
    externals: map<Token, HostValue>,
    nextToken: Token,
    template: Option<ObjectTemplate>)

  /** Every registered token is below the next fresh one, and a template, once
      made, is the wrapper template. */
  predicate Valid(st: WrapState) {
    && (forall t :: t in st.externals ==> t < st.nextToken)
    && (st.template.Some? ==> st.template.value == ObjectWrapperTemplate)
  }

  /** `st'` keeps the context, every registration of `st` and a template once made. */
  predicate Grows(st: WrapState, st': WrapState) {
    && st'.contextActive == st.contextActive
    && (forall t :: t in st.externals ==> t in st'.externals && st'.externals[t] == st.externals[t])
    && (st.template.Some? ==> st'.template == st.template)
  }

  /** The outcome of an operation that may raise a .NET exception, with the
      registry state after it. */
  datatype Step<+T> = Step(result: Result<T, HostError>, state: WrapState)

  /** GetObjectWrapperTemplate: the template is built the first time only. */
  function WithTemplate(st: WrapState): (st': WrapState)
    ensures st'.template.Some?
    ensures st.template.Some? ==> st'.template == st.template
    ensures st.template.None? ==> st'.template == Some(ObjectWrapperTemplate)
    ensures st'.(template := st.template) == st
  {
    if st.template.None? then st.(template := Some(ObjectWrapperTemplate)) else st
  }

  /** JavascriptContext::WrapObject, reduced to a fresh-token allocator: `obj`
      is registered under a token no earlier object has. */
  function RegisterExternal(st: WrapState, obj: HostValue): (r: (Token, WrapState))
    requires Valid(st)
    ensures r.0 !in st.externals
    ensures r.1.externals == st.externals[r.0 := obj]
    ensures Valid(r.1) && Grows(st, r.1) && r.1.template == st.template
  {
    (st.nextToken, st.(externals := st.externals[st.nextToken := obj], nextToken := st.nextToken + 1))
  }

  /** UnwrapObject: a wrapper proxy yields the object registered under the
      token in its internal field, a raw External its payload; every other
      value (not an object, or an object without an internal field) yields null.
      A token the registry does not hold also yields null, by convention: the
      C++ code would follow a dangling JavascriptExternal pointer there, and
      every proxy and External it builds carries a registered token. */
  function Unwrap(v: ScriptValue, externals: map<Token, HostValue>): (r: HostValue)
    ensures v.Proxy? && v.token in externals ==> r == externals[v.token]
    ensures v.External? && v.payload in externals ==> r == externals[v.payload]
    ensures !(v.Proxy? || v.External?) ==> r == HostValue.Null
  {
    match v
    case Proxy(t) => if t in externals then externals[t] else HostValue.Null
    case External(t) => if t in externals then externals[t] else HostValue.Null
    case _ => HostValue.Null
  }

  /** WrapObject: with no current context it throws "No context currently
      active." and changes nothing; otherwise it returns a new proxy whose token
      is fresh, under which the context now holds `obj`, so that unwrapping the
      proxy gives `obj` back, and the template exists from then on. */
  function Wrap(st: WrapState, obj: HostValue): (r: Step<ScriptValue>)
    requires Valid(st)
    ensures !st.contextActive ==> r == Step(Failure(NoContextError), st)
    ensures st.contextActive ==>
      && r.result.Success? && r.result.value.Proxy?
      && r.result.value.token !in st.externals
      && Unwrap(r.result.value, r.state.externals) == obj
      && r.state.externals == st.externals[r.result.value.token := obj]
      && r.state.template == Some(ObjectWrapperTemplate)
    ensures Valid(r.state) && Grows(st, r.state)
  {
    if st.contextActive then
      var st1 := WithTemplate(st);
      var (token, st2) := RegisterExternal(st1, obj);
      Step(Success(Proxy(token)), st2)
    else
      Step(Failure(NoContextError), st)
  }

  /** Wrapping twice registers two distinct tokens, and the first proxy still
      unwraps to its object after the second wrap. */
  lemma WrapTwice(st: WrapState, a: HostValue, b: HostValue)
    requires Valid(st) && st.contextActive
    ensures
      var s1 := Wrap(st, a);
      var s2 := Wrap(s1.state, b);
      && s1.result.value != s2.result.value
      && Unwrap(s1.result.value, s2.state.externals) == a
      && Unwrap(s2.result.value, s2.state.externals) == b
  {
  }
}
