/** JavascriptInterop as an object: the registry state lives in fields that
    the conversion and trampoline methods update in place, and each method is
    proved to do what the corresponding function of Registry, Convert or
    Trampolines specifies. */
module Bridge {
  import opened Wrappers
  import opened Values
  import opened Pairs
  import opened Registry
  import opened Convert
  import opened Overloads
  import T = Trampolines

  class JavascriptInterop {
    /** JavascriptContext::GetCurrent() != nullptr */
    var contextActive: bool
    /** The objects the current context has wrapped, by External token. */
    var externals: map<Token, HostValue>
    var nextToken: Token
    /** sObjectWrapperTemplate; None while it is still empty. */
    var objectWrapperTemplate: Option<ObjectTemplate>
    const system: T.SystemInterop
    const reflection: T.Reflection

    function State(): WrapState
      reads this
    {
      WrapState(contextActive, externals, nextToken, objectWrapperTemplate)
    }

    predicate Valid()
      reads this
    {
      Registry.Valid(State())
    }

    constructor(contextActive: bool, system: T.SystemInterop, reflection: T.Reflection)
      ensures Valid() && State() == WrapState(contextActive, map[], 0, None)
      ensures this.system == system && this.reflection == reflection
    {
      this.contextActive := contextActive;
      this.externals := map[];
      this.nextToken := 0;
      this.objectWrapperTemplate := None;
      this.system := system;
      this.reflection := reflection;
    }

    /** GetObjectWrapperTemplate: built on first use, then reused. */
    method GetObjectWrapperTemplate() returns (t: ObjectTemplate)
      modifies this
      requires Valid()
      ensures Valid() && State() == WithTemplate(old(State()))
      ensures t == ObjectWrapperTemplate
    {
      if objectWrapperTemplate.None? {
        objectWrapperTemplate := Some(ObjectWrapperTemplate);
      }
      t := objectWrapperTemplate.value;
    }

    /** JavascriptContext::WrapObject: registers the object under a fresh token. */
    method RegisterObject(obj: HostValue) returns (t: Token)
      modifies this
      requires Valid()
      ensures Valid() && (t, State()) == RegisterExternal(old(State()), obj)
    {
      t := nextToken;
      externals := externals[t := obj];
      nextToken := nextToken + 1;
    }

    /** WrapObject. */
    method WrapObject(obj: HostValue) returns (r: Result<ScriptValue, HostError>)
      modifies this
      requires Valid()
      ensures Valid() && Step(r, State()) == Wrap(old(State()), obj)
    {
      if contextActive {
        var templ := GetObjectWrapperTemplate();
        var t := RegisterObject(obj);
        r := Success(Proxy(t));
      } else {
        r := Failure(NoContextError);
      }
    }

    /** ConvertFromV8, reading the registry to unwrap proxies. */
    method ConvertFromV8(v: ScriptValue) returns (r: Result<HostValue, HostError>)
      ensures r == FromV8(v, externals)
      decreases v, 1
    {
      match v
      case Empty => r := Success(HostValue.Null);
      case Null => r := Success(HostValue.Null);
      case Undefined => r := Success(HostValue.Null);
      case Bool(b) => r := Success(HostValue.Boolean(b));
      case Int32(i) => r := Success(HostValue.Int32(i));
      case Number(n) =>
        if IsInt32(n) {
          r := Success(HostValue.Int32(n.i));
        } else {
          r := Success(HostValue.Double(n));
        }
      case String(s) => r := Success(HostValue.String(s));
      case Array(elems) =>
        var results := ConvertArrayFromV8(elems);
        r := if results.Success? then Success(HostValue.Array(results.value)) else Failure(results.error);
      case Date(ms) => r := ConvertDateFromV8(ms);
      case InvalidDate => r := Failure(Argument);
      case Proxy(_) => r := Success(Unwrap(v, externals));
      case Object(props) => r := ConvertObjectFromV8(props);
      case Function(props, _) => r := ConvertObjectFromV8(props);
      case External(_) => r := Success(HostValue.Null);
    }

    /** ConvertArrayFromV8: a fresh object[] of the script array's length,
        filled in index order; an element whose conversion throws ends the
        loop with that exception. The same loop converts the call arguments
        in Invoker and DelegateInvoker. */
    method ConvertArrayFromV8(elems: seq<ScriptValue>) returns (r: Result<seq<HostValue>, HostError>)
      ensures r == FromV8Seq(elems, externals)
      decreases elems, 0
    {
      var results := new HostValue[|elems|](_ => HostValue.Null);
      for i := 0 to |elems|
        invariant FromV8Seq(elems[..i], externals) == Success(results[..i])
      {
        assert elems[..i + 1][..i] == elems[..i];
        var x := ConvertFromV8(elems[i]);
        if x.Failure? {
          FromV8SeqStopsAtFailure(elems, i + 1, externals);
          return Failure(x.error);
        }
        results[i] := x.value;
        assert results[..i + 1] == results[..i] + [x.value];
      }
      assert elems[..|elems|] == elems && results[..|elems|] == results[..];
      r := Success(results[..]);
    }

    /** ConvertObjectFromV8: one `results[key] = value` per enumerated
        property, in enumeration order. The name is cast to a string first,
        and a name that is an array index (reported as a number) ends the
        loop with an InvalidCastException; a value whose conversion throws
        ends the loop with that exception. */
    method ConvertObjectFromV8(props: seq<Pair<ScriptValue>>) returns (r: Result<HostValue, HostError>)
      ensures r == FromV8Object(props, externals)
      decreases props, 0
    {
      ghost var converted: seq<Pair<HostValue>> := [];
      var results: seq<Pair<HostValue>> := [];
      for i := 0 to |props|
        invariant FromV8Props(props[..i], externals) == Success(converted)
        invariant results == UpsertAll(converted)
      {
        assert props[..i + 1][..i] == props[..i];
        var key := props[i].key;
        PropFromV8NameFirst(props[i], externals);
        if IsArrayIndex(key) {
          assert FromV8Props(props[..i + 1], externals) == Failure(InvalidCast);
          FromV8PropsStopsAtFailure(props, i + 1, externals);
          return Failure(InvalidCast);
        }
        var value := ConvertFromV8(props[i].value);
        if value.Failure? {
          assert FromV8Props(props[..i + 1], externals) == Failure(value.error);
          FromV8PropsStopsAtFailure(props, i + 1, externals);
          return Failure(value.error);
        }
        assert FromV8Props(props[..i + 1], externals) == Success(converted + [Pair(key, value.value)]);
        UpsertAllSnoc(converted, Pair(key, value.value));
        results := Upsert(results, key, value.value);
        converted := converted + [Pair(key, value.value)];
      }
      assert props[..|props|] == props;
      r := Success(HostValue.Dictionary(results));
    }

    /** ConvertToV8. */
    method ConvertToV8(x: HostValue) returns (r: Result<ScriptValue, HostError>)
      modifies this
      requires Valid()
      ensures Valid() && Step(r, State()) == ToV8(x, old(State()), system.convertFromSystemDateTime)
      decreases x, 2
    {
      match x
      case Null => r := Success(Empty);
      case Boolean(b) => r := Success(Bool(b));
      case Int16(i) => r := Success(ScriptValue.Int32(i));
      case Int32(i) => r := Success(ScriptValue.Int32(i));
      case Single(f) => r := Success(Number(f));
      case Double(d) => r := Success(Number(d));
      case String(s) => r := Success(ScriptValue.String(s));
      case DateTime(t) => r := Success(Date(system.convertFromSystemDateTime(t)));
      case Array(elems) => r := ConvertFromSystemArray(elems);
      case Delegate(_, _) => r := ConvertFromSystemDelegate(x);
      case Dictionary(entries) => r := ConvertFromSystemDictionary(entries);
      case List(items) => r := ConvertFromSystemList(items);
      case Other(_, _) => r := WrapObject(x);
    }

    /** ConvertFromSystemArray: element i is converted and stored at index i;
        a conversion that throws ends the loop with that exception. */
    method ConvertFromSystemArray(elems: seq<HostValue>) returns (r: Result<ScriptValue, HostError>)
      modifies this
      requires Valid()
      ensures Valid()
      ensures
        var s := ToV8Seq(elems, old(State()), system.convertFromSystemDateTime);
        && State() == s.state
        && r == if s.result.Success? then Success(ScriptValue.Array(s.result.value)) else Failure(s.result.error)
      decreases elems, 1
    {
      ghost var st0 := State();
      var result: seq<ScriptValue> := [];
      var i := 0;
      while i < |elems|
        invariant 0 <= i <= |elems| && Valid()
        invariant ToV8Seq(elems[..i], st0, system.convertFromSystemDateTime) == Step(Success(result), State())
      {
        ToV8SeqSnoc(elems, i, st0, system.convertFromSystemDateTime);
        var v := ConvertToV8(elems[i]);
        if v.Failure? {
          ToV8SeqStopsAtFailure(elems, i + 1, st0, system.convertFromSystemDateTime);
          return Failure(v.error);
        }
        result := result + [v.value];
        i := i + 1;
      }
      assert elems[..i] == elems;
      r := Success(ScriptValue.Array(result));
    }

    /** ConvertFromSystemList: the items, read through the IList indexer,
        become a script array as in ConvertFromSystemArray. */
    method ConvertFromSystemList(items: seq<HostValue>) returns (r: Result<ScriptValue, HostError>)
      modifies this
      requires Valid()
      ensures Valid()
      ensures
        var s := ToV8Seq(items, old(State()), system.convertFromSystemDateTime);
        && State() == s.state
        && r == if s.result.Success? then Success(ScriptValue.Array(s.result.value)) else Failure(s.result.error)
      decreases items, 1
    {
      ghost var st0 := State();
      var list: seq<ScriptValue> := [];
      var i := 0;
      while i < |items|
        invariant 0 <= i <= |items| && Valid()
        invariant ToV8Seq(items[..i], st0, system.convertFromSystemDateTime) == Step(Success(list), State())
      {
        ToV8SeqSnoc(items, i, st0, system.convertFromSystemDateTime);
        var val := ConvertToV8(items[i]);
        if val.Failure? {
          ToV8SeqStopsAtFailure(items, i + 1, st0, system.convertFromSystemDateTime);
          return Failure(val.error);
        }
        list := list + [val.value];
        i := i + 1;
      }
      assert items[..i] == items;
      r := Success(ScriptValue.Array(list));
    }

    /** ConvertFromSystemDictionary: one `object->Set(key, value)` per entry,
        in enumeration order; a string key converts to itself. */
    method ConvertFromSystemDictionary(entries: seq<Pair<HostValue>>) returns (r: Result<ScriptValue, HostError>)
      modifies this
      requires Valid()
      ensures Valid()
      ensures
        var s := ToV8Pairs(entries, old(State()), system.convertFromSystemDateTime);
        && State() == s.state
        && r == if s.result.Success? then Success(ScriptValue.Object(UpsertAll(s.result.value))) else Failure(s.result.error)
      decreases entries, 1
    {
      ghost var st0 := State();
      ghost var converted: seq<Pair<ScriptValue>> := [];
      var result: seq<Pair<ScriptValue>> := [];
      var i := 0;
      while i < |entries|
        invariant 0 <= i <= |entries| && Valid()
        invariant ToV8Pairs(entries[..i], st0, system.convertFromSystemDateTime) == Step(Success(converted), State())
        invariant result == UpsertAll(converted)
      {
        ToV8PairsSnoc(entries, i, st0, system.convertFromSystemDateTime);
        var key := entries[i].key;
        var val := ConvertToV8(entries[i].value);
        if val.Failure? {
          ToV8PairsStopsAtFailure(entries, i + 1, st0, system.convertFromSystemDateTime);
          return Failure(val.error);
        }
        UpsertAllSnoc(converted, Pair(key, val.value));
        result := Upsert(result, key, val.value);
        converted := converted + [Pair(key, val.value)];
        i := i + 1;
      }
      assert entries[..i] == entries;
      r := Success(ScriptValue.Object(result));
    }

    /** ConvertFromSystemDelegate. */
    method ConvertFromSystemDelegate(d: HostValue) returns (r: Result<ScriptValue, HostError>)
      modifies this
      requires Valid()
      ensures Valid() && Step(r, State()) == DelegateToV8(d, old(State()))
    {
      if !contextActive {
        return Failure(NullReference);
      }
      var external := RegisterObject(d);
      r := Success(Function([], Some(external)));
    }

    /** The tail shared by the two call trampolines. */
    method Deliver(h: T.HostOutcome) returns (outcome: T.CallOutcome)
      modifies this
      requires Valid()
      ensures Valid() && T.Reply(outcome, State()) == T.Deliver(h, old(State()), system.convertFromSystemDateTime)
    {
      match h
      case Returns(v) =>
        var r := ConvertToV8(v);
        outcome := if r.Success? then T.Return(r.value) else T.Escape(r.error);
      case Raises(e) =>
        var r := ConvertToV8(e);
        outcome := if r.Success? then T.Throw(r.value) else T.Escape(r.error);
      case Fails(err) =>
        outcome := T.Escape(err);
    }

    /** DelegateInvoker. */
    method DelegateInvoker(data: Token, args: seq<ScriptValue>) returns (outcome: T.CallOutcome)
      modifies this
      requires Valid() && data in externals
      ensures Valid() && T.Reply(outcome, State()) == T.DelegateCall(system, reflection, old(State()), data, args)
    {
      var target := externals[data];
      var arguments := ConvertArrayFromV8(args);
      var host: T.HostOutcome;
      if arguments.Failure? {
        host := T.Fails(arguments.error);
      } else if target.Null? {
        host := T.Fails(NullReference);
      } else {
        match reflection.dynamicInvoke(target, arguments.value) {
          case Returned(v) => host := T.Returns(v);
          case Raised(e) => host := T.Fails(Uncaught(e));
        }
      }
      outcome := Deliver(host);
    }

    /** The host side of Invoker: the argument conversion, the overload
        lookup and the reflective call, or the error that prevents it. */
    method InvokeMember(self: HostValue, memberName: string, args: seq<ScriptValue>) returns (host: T.HostOutcome)
      ensures host == T.Invocation(system, reflection, externals, self, memberName, args)
    {
      if self.Null? {
        return T.Fails(NullReference);
      }
      var members := reflection.getMember(TypeOf(self), memberName);
      var selection := NoMatch;
      if |members| > 0 && members[0].Method? {
        var suppliedArguments := ConvertArrayFromV8(args);
        if suppliedArguments.Failure? {
          return T.Fails(suppliedArguments.error);
        }
        selection := FindBestMethod(members, suppliedArguments.value, system.convertToType);
      }
      assert Success(selection) == T.MethodLookup(system, reflection, externals, self, memberName, args);
      match selection {
        case BadCast(_) =>
          host := T.Fails(InvalidCast);
        case NoMatch =>
          host := T.Raises(reflection.nullReferenceException);
        case Selected(bestMethod, bestMethodArguments) =>
          match reflection.invoke(members[bestMethod].id, self, bestMethodArguments) {
            case Returned(v) => host := T.Returns(v);
            case Raised(e) => host := T.Raises(e);
          }
      }
    }

    /** Invoker, for the target and member name held in the callback data. */
    method Invoker(self: HostValue, memberName: string, args: seq<ScriptValue>) returns (outcome: T.CallOutcome)
      modifies this
      requires Valid()
      ensures Valid() && T.Reply(outcome, State()) == T.Invoke(system, reflection, old(State()), self, memberName, args)
    {
      var host := InvokeMember(self, memberName, args);
      outcome := Deliver(host);
    }
  }
}
