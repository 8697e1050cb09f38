/** What a host value looks like after ConvertToV8 followed by ConvertFromV8,
    with a context current. */
module RoundTrip {
  import opened Wrappers
  import opened Values
  import opened Pairs
  import opened Registry
  import opened Convert

  /** Every proxy inside `v` carries a token registered in `externals`. */
  predicate TokensIn(v: ScriptValue, externals: map<Token, HostValue>) {
    match v
    case Proxy(t) => t in externals
    case Array(elems) => forall i :: 0 <= i < |elems| ==> TokensIn(elems[i], externals)
    case Object(props) => forall i :: 0 <= i < |props| ==> TokensIn(props[i].value, externals)
    case Function(props, _) => forall i :: 0 <= i < |props| ==> TokensIn(props[i].value, externals)
    case _ => true
  }

  predicate Submap(e1: map<Token, HostValue>, e2: map<Token, HostValue>) {
    forall t :: t in e1 ==> t in e2 && e2[t] == e1[t]
  }

  /** Registering more objects does not change how a value whose proxies are
      already registered converts back. */
  lemma {:induction false} FromV8Stable(v: ScriptValue, e1: map<Token, HostValue>, e2: map<Token, HostValue>)
    requires TokensIn(v, e1) && Submap(e1, e2)
    ensures TokensIn(v, e2) && FromV8(v, e1) == FromV8(v, e2)
    decreases v, 1
  {
    match v
    case Array(elems) => FromV8SeqStable(elems, e1, e2);
    case Object(props) => FromV8PropsStable(props, e1, e2);
    case Function(props, _) => FromV8PropsStable(props, e1, e2);
    case _ =>
  }

  lemma {:induction false} FromV8SeqStable(xs: seq<ScriptValue>, e1: map<Token, HostValue>, e2: map<Token, HostValue>)
    requires (forall i :: 0 <= i < |xs| ==> TokensIn(xs[i], e1)) && Submap(e1, e2)
    ensures (forall i :: 0 <= i < |xs| ==> TokensIn(xs[i], e2)) && FromV8Seq(xs, e1) == FromV8Seq(xs, e2)
    decreases xs, 2
  {
    if xs != [] {
      var n := |xs| - 1;
      assert forall i :: 0 <= i < n ==> xs[..n][i] == xs[i];
      FromV8SeqStable(xs[..n], e1, e2);
      FromV8Stable(xs[n], e1, e2);
    }
  }

  lemma {:induction false} FromV8PropsStable(ps: seq<Pair<ScriptValue>>, e1: map<Token, HostValue>, e2: map<Token, HostValue>)
    requires (forall i :: 0 <= i < |ps| ==> TokensIn(ps[i].value, e1)) && Submap(e1, e2)
    ensures (forall i :: 0 <= i < |ps| ==> TokensIn(ps[i].value, e2)) && FromV8Props(ps, e1) == FromV8Props(ps, e2)
    decreases ps, 2
  {
    if ps != [] {
      var n := |ps| - 1;
      assert forall i :: 0 <= i < n ==> ps[..n][i] == ps[i];
      FromV8PropsStable(ps[..n], e1, e2);
      FromV8Stable(ps[n].value, e1, e2);
    }
  }

  /** The number a script Number converts back to. */
  function NumberFromV8(n: Num): (r: HostValue)
    ensures r.Int32? <==> IsInt32(n)
  {
    if IsInt32(n) then HostValue.Int32(n.i) else HostValue.Double(n)
  }

  /** The host value ConvertFromV8(ConvertToV8(x)) gives: Int16 widens to
      Int32; Single and Double come back as Int32 when int32-representable and
      as Double otherwise; a List comes back as an object[]; a DateTime comes
      back re-anchored at 1970-01-02 (when its milliseconds fit DateTime's
      range, see ConvertsBack); a delegate, being a function object
      without internal field, comes back as an empty Dictionary; a wrapped
      object comes back as itself. */
  function Normalize(x: HostValue, dateToMs: int -> int): HostValue
    decreases x, 1
  {
    match x
    case Null => HostValue.Null
    case Boolean(_) => x
    case Int16(i) => HostValue.Int32(i)
    case Int32(_) => x
    case Single(f) => NumberFromV8(f)
    case Double(d) => NumberFromV8(d)
    case String(_) => x
    case DateTime(t) => HostValue.DateTime(DateTicks(dateToMs(t)))
    case Array(elems) => HostValue.Array(NormalizeSeq(elems, dateToMs))
    case List(items) => HostValue.Array(NormalizeSeq(items, dateToMs))
    case Dictionary(entries) => NormalizeDictionary(entries, dateToMs)
    case Delegate(_, _) => HostValue.Dictionary([])
    case Other(_, _) => x
  }

  /** A dictionary after the round trip: the same writes, each value
      normalized. */
  function NormalizeDictionary(entries: seq<Pair<HostValue>>, dateToMs: int -> int): HostValue
    decreases entries, 1
  {
    HostValue.Dictionary(UpsertAll(NormalizeEntries(entries, dateToMs)))
  }

  /** The elements of an array or list, each normalized, in their order. */
  function NormalizeSeq(elems: seq<HostValue>, dateToMs: int -> int): (r: seq<HostValue>)
    ensures |r| == |elems|
    decreases elems, 0
  {
    seq(|elems|, i requires 0 <= i < |elems| => Normalize(elems[i], dateToMs))
  }

  /** The entries of a dictionary, each value normalized, in their order. */
  function NormalizeEntries(entries: seq<Pair<HostValue>>, dateToMs: int -> int): (r: seq<Pair<HostValue>>)
    ensures |r| == |entries|
    decreases entries, 0
  {
    seq(|entries|, i requires 0 <= i < |entries| => Pair(entries[i].key, Normalize(entries[i].value, dateToMs)))
  }

  /** The host values ConvertFromV8 can turn back after ConvertToV8: each
      date, turned into milliseconds by ConvertFromSystemDateTime,
      ConvertDateFromV8 can turn back into a DateTime, and no dictionary key
      is an array index (V8 would report it as a number). */
  predicate ConvertsBack(x: HostValue, dateToMs: int -> int) {
    match x
    case DateTime(t) => 0 <= DateTicks(dateToMs(t)) <= MaxDateTimeTicks
    case Array(elems) => forall i :: 0 <= i < |elems| ==> ConvertsBack(elems[i], dateToMs)
    case List(items) => forall i :: 0 <= i < |items| ==> ConvertsBack(items[i], dateToMs)
    case Dictionary(entries) => forall i :: 0 <= i < |entries| ==>
      !IsArrayIndex(entries[i].key) && ConvertsBack(entries[i].value, dateToMs)
    case _ => true
  }

  /** With a context current, ConvertToV8 never fails, and, when x converts
      back, converting its result back (against the registry it
      leaves) gives Normalize(x). */
  lemma {:induction false} RoundTrip(x: HostValue, st: WrapState, dateToMs: int -> int)
    requires Valid(st) && st.contextActive
    ensures
      var s := ToV8(x, st, dateToMs);
      && s.result.Success?
      && TokensIn(s.result.value, s.state.externals)
      && (ConvertsBack(x, dateToMs) ==>
            FromV8(s.result.value, s.state.externals) == Success(Normalize(x, dateToMs)))
    decreases x, 1
  {
    match x
    case Array(elems) => RoundTripArray(elems, st, dateToMs);
    case List(items) => RoundTripArray(items, st, dateToMs);
    case Dictionary(entries) => RoundTripDictionary(entries, st, dateToMs);
    case Delegate(_, _) => RoundTripRegistered(x, st, dateToMs);
    case Other(_, _) => RoundTripRegistered(x, st, dateToMs);
    case _ => RoundTripScalar(x, st, dateToMs);
  }

  /** A scalar goes over unchanged in the state and comes back normalized. */
  lemma RoundTripScalar(x: HostValue, st: WrapState, dateToMs: int -> int)
    requires Valid(st) && st.contextActive
    requires !(x.Array? || x.List? || x.Dictionary? || x.Delegate? || x.Other?)
    ensures
      var s := ToV8(x, st, dateToMs);
      && s.result.Success?
      && TokensIn(s.result.value, s.state.externals)
      && (ConvertsBack(x, dateToMs) ==>
            FromV8(s.result.value, s.state.externals) == Success(Normalize(x, dateToMs)))
  {
  }

  /** A delegate comes back as an empty Dictionary (its function object has
      no enumerable properties); a wrapped object comes back as itself. */
  lemma RoundTripRegistered(x: HostValue, st: WrapState, dateToMs: int -> int)
    requires Valid(st) && st.contextActive && (x.Delegate? || x.Other?)
    ensures
      var s := ToV8(x, st, dateToMs);
      && s.result.Success?
      && TokensIn(s.result.value, s.state.externals)
      && FromV8(s.result.value, s.state.externals) == Success(Normalize(x, dateToMs))
  {
  }

  /** Arrays and lists both come back as an object[] of the elements' round trips. */
  lemma {:induction false} RoundTripArray(elems: seq<HostValue>, st: WrapState, dateToMs: int -> int)
    requires Valid(st) && st.contextActive
    ensures
      var s := ToV8Seq(elems, st, dateToMs);
      && s.result.Success?
      && TokensIn(ScriptValue.Array(s.result.value), s.state.externals)
      && ((forall i :: 0 <= i < |elems| ==> ConvertsBack(elems[i], dateToMs)) ==>
            FromV8(ScriptValue.Array(s.result.value), s.state.externals)
            == Success(HostValue.Array(NormalizeSeq(elems, dateToMs))))
    decreases elems, 3
  {
    RoundTripSeq(elems, st, dateToMs);
    var s := ToV8Seq(elems, st, dateToMs);
    if forall i :: 0 <= i < |elems| ==> ConvertsBack(elems[i], dateToMs) {
      FromV8SeqElements(s.result.value, s.state.externals);
      assert FromV8Seq(s.result.value, s.state.externals).value == NormalizeSeq(elems, dateToMs);
    }
  }

  /** A dictionary comes back with the same writes, each value round-tripped. */
  lemma {:induction false} RoundTripDictionary(entries: seq<Pair<HostValue>>, st: WrapState, dateToMs: int -> int)
    requires Valid(st) && st.contextActive
    ensures
      var s := ToV8Pairs(entries, st, dateToMs);
      && s.result.Success?
      && TokensIn(ScriptValue.Object(UpsertAll(s.result.value)), s.state.externals)
      && ((forall i :: 0 <= i < |entries| ==> !IsArrayIndex(entries[i].key) && ConvertsBack(entries[i].value, dateToMs)) ==>
            FromV8(ScriptValue.Object(UpsertAll(s.result.value)), s.state.externals)
            == Success(NormalizeDictionary(entries, dateToMs)))
    decreases entries, 3
  {
    RoundTripPairs(entries, st, dateToMs);
    var s := ToV8Pairs(entries, st, dateToMs);
    ObjectBackTokens(s.result.value, s.state.externals);
    if forall i :: 0 <= i < |entries| ==> !IsArrayIndex(entries[i].key) && ConvertsBack(entries[i].value, dateToMs) {
      DictionaryBack(entries, s.result.value, s.state.externals, dateToMs);
    }
  }

  /** A dictionary with a key that is an array index does not survive the
      round trip: the object ConvertToV8 makes of it (the writes of its
      converted entries) has that name, V8 reports the name as a number, and
      casting it back to a string fails. When every value converts back, that
      cast is the failure. */
  lemma {:induction false} RoundTripIndexKey(entries: seq<Pair<HostValue>>, st: WrapState, dateToMs: int -> int)
    requires Valid(st) && st.contextActive
    requires exists i :: 0 <= i < |entries| && IsArrayIndex(entries[i].key)
    ensures
      var s := ToV8Pairs(entries, st, dateToMs);
      && s.result.Success?
      && FromV8(ScriptValue.Object(UpsertAll(s.result.value)), s.state.externals).Failure?
      && ((forall i :: 0 <= i < |entries| ==> ConvertsBack(entries[i].value, dateToMs)) ==>
            FromV8(ScriptValue.Object(UpsertAll(s.result.value)), s.state.externals) == Failure(InvalidCast))
  {
    RoundTripPairs(entries, st, dateToMs);
    var p := ToV8Pairs(entries, st, dateToMs);
    var vals, ext := p.result.value, p.state.externals;
    var i :| 0 <= i < |entries| && IsArrayIndex(entries[i].key);
    assert IsArrayIndex(vals[i].key);
    ObjectWithIndexName(vals, ext);
    if forall k :: 0 <= k < |entries| ==> ConvertsBack(entries[k].value, dateToMs) {
      forall k | 0 <= k < |vals| ensures FromV8(vals[k].value, ext).Success? {
        assert ConvertsBack(entries[k].value, dateToMs);
      }
    }
  }

  /** An object built by writing `vals`, one of whose names is an array index,
      does not convert back; when every value written converts, the failure
      is the InvalidCastException of that name. */
  lemma ObjectWithIndexName(vals: seq<Pair<ScriptValue>>, ext: map<Token, HostValue>)
    requires exists i :: 0 <= i < |vals| && IsArrayIndex(vals[i].key)
    ensures FromV8(ScriptValue.Object(UpsertAll(vals)), ext).Failure?
    ensures (forall k :: 0 <= k < |vals| ==> FromV8(vals[k].value, ext).Success?) ==>
      FromV8(ScriptValue.Object(UpsertAll(vals)), ext) == Failure(InvalidCast)
  {
    var u := UpsertAll(vals);
    var i :| 0 <= i < |vals| && IsArrayIndex(vals[i].key);
    assert vals[i].key in Keys(vals);
    var j :| 0 <= j < |u| && u[j].key == vals[i].key;
    FromV8PlainObject(u, ext);
    if forall k :: 0 <= k < |vals| ==> FromV8(vals[k].value, ext).Success? {
      var ok := (v: ScriptValue) => FromV8(v, ext).Success?;
      assert forall k :: 0 <= k < |vals| ==> ok(vals[k].value);
      UpsertAllValues(vals, ok);
      assert forall k :: 0 <= k < |u| ==> ok(u[k].value);
    }
  }

  /** The dictionary {"0": 1} converts to a script object whose one property
      V8 stores as element 0, and converting that object back fails with an
      InvalidCastException. */
  lemma RoundTripZeroKey(st: WrapState, dateToMs: int -> int)
    requires Valid(st) && st.contextActive
    ensures
      var s := ToV8(HostValue.Dictionary([Pair("0", HostValue.Int32(1))]), st, dateToMs);
      s.result.Success? && FromV8(s.result.value, s.state.externals) == Failure(InvalidCast)
  {
    var entries := [Pair("0", HostValue.Int32(1))];
    ArrayIndexNames();
    assert IsArrayIndex(entries[0].key);
    RoundTripIndexKey(entries, st, dateToMs);
    assert ConvertsBack(entries[0].value, dateToMs);
    DictionaryToV8(entries, st, dateToMs);
  }

  /** ConvertFromSystemDictionary builds its object by writing the converted
      entries. */
  lemma DictionaryToV8(entries: seq<Pair<HostValue>>, st: WrapState, dateToMs: int -> int)
    requires Valid(st)
    ensures
      var s := ToV8Pairs(entries, st, dateToMs);
      && ToV8(HostValue.Dictionary(entries), st, dateToMs).state == s.state
      && (s.result.Success? ==>
            ToV8(HostValue.Dictionary(entries), st, dateToMs).result == Success(ScriptValue.Object(UpsertAll(s.result.value))))
  {
  }

  /** The object a dictionary converts to, made of entry-wise round trips,
      converts back to the dictionary's normal form. */
  lemma DictionaryBack(entries: seq<Pair<HostValue>>, vals: seq<Pair<ScriptValue>>, ext: map<Token, HostValue>, dateToMs: int -> int)
    requires |vals| == |entries|
    requires forall i :: 0 <= i < |entries| ==>
      && vals[i].key == entries[i].key && !IsArrayIndex(entries[i].key)
      && FromV8(vals[i].value, ext) == Success(Normalize(entries[i].value, dateToMs))
    ensures FromV8(ScriptValue.Object(UpsertAll(vals)), ext) ==
      Success(NormalizeDictionary(entries, dateToMs))
  {
    var normalized := NormalizeEntries(entries, dateToMs);
    forall i | 0 <= i < |vals|
      ensures normalized[i].key == vals[i].key && FromV8(vals[i].value, ext) == Success(normalized[i].value)
    {
    }
    ObjectBack(vals, ext, normalized);
  }

  /** Converting back an object built by writing `vals` performs the same
      writes with the values converted back. */
  lemma ObjectBack(vals: seq<Pair<ScriptValue>>, ext: map<Token, HostValue>, converted: seq<Pair<HostValue>>)
    requires |converted| == |vals|
    requires forall i :: 0 <= i < |vals| ==>
      && converted[i].key == vals[i].key && !IsArrayIndex(vals[i].key)
      && FromV8(vals[i].value, ext) == Success(converted[i].value)
    ensures FromV8(ScriptValue.Object(UpsertAll(vals)), ext) == Success(HostValue.Dictionary(UpsertAll(converted)))
  {
    var u := UpsertAll(vals);
    ObjectBackConverts(vals, ext);
    PropsBack(u, ext);
    var m := MapValues(vals, Back(ext));
    forall i | 0 <= i < |vals| ensures m[i] == converted[i] {
      assert Back(ext)(vals[i].value) == converted[i].value;
    }
    assert m == converted;
    MapValuesUpsertAll(vals, Back(ext));
    assert MapValues(u, Back(ext)) == UpsertAll(converted);
    UpsertAllIdempotent(converted);
    assert FromV8Object(u, ext) == Success(HostValue.Dictionary(UpsertAll(converted)));
    ObjectIsConverted(u, ext);
  }

  lemma ObjectIsConverted(props: seq<Pair<ScriptValue>>, ext: map<Token, HostValue>)
    ensures FromV8(ScriptValue.Object(props), ext) == FromV8Object(props, ext)
  {
  }

  /** The values a sequence of writes leaves convert when all values written
      do, and its names are among the names written. */
  lemma ObjectBackConverts(vals: seq<Pair<ScriptValue>>, ext: map<Token, HostValue>)
    requires forall i :: 0 <= i < |vals| ==> !IsArrayIndex(vals[i].key) && FromV8(vals[i].value, ext).Success?
    ensures forall i :: 0 <= i < |UpsertAll(vals)| ==>
      !IsArrayIndex(UpsertAll(vals)[i].key) && FromV8(UpsertAll(vals)[i].value, ext).Success?
  {
    var u := UpsertAll(vals);
    forall i | 0 <= i < |u| ensures !IsArrayIndex(u[i].key) {
      assert u[i].key in Keys(u);
      var j :| 0 <= j < |vals| && vals[j].key == u[i].key;
    }
    var ok := (v: ScriptValue) => FromV8(v, ext).Success?;
    assert forall i :: 0 <= i < |vals| ==> ok(vals[i].value);
    UpsertAllValues(vals, ok);
    assert forall i :: 0 <= i < |UpsertAll(vals)| ==> ok(UpsertAll(vals)[i].value);
  }

  lemma ObjectBackTokens(vals: seq<Pair<ScriptValue>>, ext: map<Token, HostValue>)
    requires forall i :: 0 <= i < |vals| ==> TokensIn(vals[i].value, ext)
    ensures TokensIn(ScriptValue.Object(UpsertAll(vals)), ext)
  {
    var P := (v: ScriptValue) => TokensIn(v, ext);
    assert forall i :: 0 <= i < |vals| ==> P(vals[i].value);
    UpsertAllValues(vals, P);
  }

  lemma {:induction false} RoundTripSeq(xs: seq<HostValue>, st: WrapState, dateToMs: int -> int)
    requires Valid(st) && st.contextActive
    ensures
      var s := ToV8Seq(xs, st, dateToMs);
      && s.result.Success?
      && |s.result.value| == |xs|
      && forall i :: 0 <= i < |xs| ==>
           && TokensIn(s.result.value[i], s.state.externals)
           && (ConvertsBack(xs[i], dateToMs) ==>
                 FromV8(s.result.value[i], s.state.externals) == Success(Normalize(xs[i], dateToMs)))
    decreases xs, 2
  {
    if xs != [] {
      var n := |xs| - 1;
      RoundTripSeq(xs[..n], st, dateToMs);
      var prev := ToV8Seq(xs[..n], st, dateToMs);
      RoundTrip(xs[n], prev.state, dateToMs);
      var last := ToV8(xs[n], prev.state, dateToMs);
      var vs := prev.result.value + [last.result.value];
      forall i | 0 <= i < |xs|
        ensures TokensIn(vs[i], last.state.externals)
        ensures ConvertsBack(xs[i], dateToMs) ==>
          FromV8(vs[i], last.state.externals) == Success(Normalize(xs[i], dateToMs))
      {
        if i < n {
          assert xs[..n][i] == xs[i];
          FromV8Stable(vs[i], prev.state.externals, last.state.externals);
        }
      }
    }
  }

  lemma {:induction false} RoundTripPairs(ps: seq<Pair<HostValue>>, st: WrapState, dateToMs: int -> int)
    requires Valid(st) && st.contextActive
    ensures
      var s := ToV8Pairs(ps, st, dateToMs);
      && s.result.Success?
      && |s.result.value| == |ps|
      && forall i :: 0 <= i < |ps| ==>
           && s.result.value[i].key == ps[i].key
           && TokensIn(s.result.value[i].value, s.state.externals)
           && (ConvertsBack(ps[i].value, dateToMs) ==>
                 FromV8(s.result.value[i].value, s.state.externals) == Success(Normalize(ps[i].value, dateToMs)))
    decreases ps, 2
  {
    if ps != [] {
      var n := |ps| - 1;
      RoundTripPairs(ps[..n], st, dateToMs);
      var prev := ToV8Pairs(ps[..n], st, dateToMs);
      RoundTrip(ps[n].value, prev.state, dateToMs);
      var last := ToV8(ps[n].value, prev.state, dateToMs);
      var vs := prev.result.value + [Pair(ps[n].key, last.result.value)];
      forall i | 0 <= i < |ps|
        ensures vs[i].key == ps[i].key
        ensures TokensIn(vs[i].value, last.state.externals)
        ensures ConvertsBack(ps[i].value, dateToMs) ==>
          FromV8(vs[i].value, last.state.externals) == Success(Normalize(ps[i].value, dateToMs))
      {
        if i < n {
          assert ps[..n][i] == ps[i];
          FromV8Stable(vs[i].value, prev.state.externals, last.state.externals);
        }
      }
    }
  }

  /** The host values a round trip gives back unchanged: null, Boolean, Int32,
      a Double that is not int32-representable, String, a wrapped object, and
      object[] and Dictionary (with distinct keys, none of them an array
      index) built from such values. */
  predicate Canonical(x: HostValue) {
    match x
    case Null => true
    case Boolean(_) => true
    case Int32(_) => true
    case Double(d) => !IsInt32(d)
    case String(_) => true
    case Other(_, _) => true
    case Array(elems) => forall i :: 0 <= i < |elems| ==> Canonical(elems[i])
    case Dictionary(entries) =>
      DistinctKeys(entries) && forall i :: 0 <= i < |entries| ==> !IsArrayIndex(entries[i].key) && Canonical(entries[i].value)
    case _ => false
  }

  /** A canonical value survives ConvertToV8 then ConvertFromV8 unchanged. */
  lemma {:induction false} CanonicalRoundTrip(x: HostValue, st: WrapState, dateToMs: int -> int)
    requires Valid(st) && st.contextActive && Canonical(x)
    ensures
      var s := ToV8(x, st, dateToMs);
      s.result.Success? && FromV8(s.result.value, s.state.externals) == Success(x)
  {
    RoundTrip(x, st, dateToMs);
    CanonicalConvertsBack(x, dateToMs);
    NormalizeCanonical(x, dateToMs);
  }

  /** A canonical value holds no date at all and no array-index key, so it
      converts back. */
  lemma {:induction false} CanonicalConvertsBack(x: HostValue, dateToMs: int -> int)
    requires Canonical(x)
    ensures ConvertsBack(x, dateToMs)
  {
    match x
    case Array(elems) =>
      forall i | 0 <= i < |elems| ensures ConvertsBack(elems[i], dateToMs) {
        CanonicalConvertsBack(elems[i], dateToMs);
      }
    case Dictionary(entries) =>
      forall i | 0 <= i < |entries| ensures !IsArrayIndex(entries[i].key) && ConvertsBack(entries[i].value, dateToMs) {
        CanonicalConvertsBack(entries[i].value, dateToMs);
      }
    case _ =>
  }

  lemma {:induction false} NormalizeCanonical(x: HostValue, dateToMs: int -> int)
    requires Canonical(x)
    ensures Normalize(x, dateToMs) == x
  {
    match x
    case Array(elems) =>
      forall i | 0 <= i < |elems| ensures Normalize(elems[i], dateToMs) == elems[i] {
        NormalizeCanonical(elems[i], dateToMs);
      }
      assert NormalizeSeq(elems, dateToMs) == elems;
    case Dictionary(entries) =>
      forall i | 0 <= i < |entries| ensures Normalize(entries[i].value, dateToMs) == entries[i].value {
        NormalizeCanonical(entries[i].value, dateToMs);
      }
      assert NormalizeEntries(entries, dateToMs) == entries;
      UpsertAllDistinct(entries);
    case _ =>
  }

  /** Should SystemInterop count a DateTime's milliseconds from the Unix epoch,
      a DateTime on a millisecond boundary comes back exactly one day later,
      because ConvertDateFromV8 counts from 1970-01-02. */
  lemma DateRoundTripOneDayLate(t: int, dateToMs: int -> int)
    requires (t - UnixEpochTicks) % TicksPerMillisecond == 0
    requires dateToMs(t) == (t - UnixEpochTicks) / TicksPerMillisecond
    ensures Normalize(HostValue.DateTime(t), dateToMs) == HostValue.DateTime(t + TicksPerDay)
  {
  }
}
