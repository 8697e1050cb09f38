/** The value converter: ConvertFromV8 (script to host) and ConvertToV8 (host to
    script) as total functions, each following the branch order of its own
    chain of type tests. ConvertFromV8 fails only on a date it cannot
    represent and on an object property whose name is an array index;
    ConvertToV8 may register objects with the current context, so
    it takes and returns the registry state. */
module Convert {
  import opened Wrappers
  import opened Values
  import opened Pairs
  import opened Registry

  const TicksPerMillisecond: int := 10_000
  const TicksPerDay: int := 864_000_000_000

  predicate IsLeapYear(y: int) {
    y % 4 == 0 && (y % 100 != 0 || y % 400 == 0)
  }

  /** Days from 0001-01-01 to January 1st of year `y`, proleptic Gregorian. */
  function DaysBeforeYear(y: int): int
    requires y >= 1
  {
    var p := y - 1;
    365 * p + p / 4 - p / 100 + p / 400
  }

  function DaysBeforeMonth(y: int, m: int): int
    requires 1 <= m <= 12
  {
    var cumulative := [0, 31, 59, 90, 120, 151, 181, 212, 243, 273, 304, 334];
    cumulative[m - 1] + (if m > 2 && IsLeapYear(y) then 1 else 0)
  }

  /** `gcnew System::DateTime(y, m, d)->Ticks`. */
  function CivilTicks(y: int, m: int, d: int): int
    requires y >= 1 && 1 <= m <= 12 && 1 <= d <= 31
  {
    (DaysBeforeYear(y) + DaysBeforeMonth(y, m) + d - 1) * TicksPerDay
  }

  /** The ticks of the conventional epoch, 1970-01-01. */
  const UnixEpochTicks: int := 621_355_968_000_000_000

  /** The ticks of `gcnew System::DateTime(1970, 1, 2)`, the epoch
      ConvertDateFromV8 counts from. */
  const DateAnchorTicks: int := 621_356_832_000_000_000

  /** Both tick counts are the calendar dates they name, and the anchor of
      ConvertDateFromV8 lies exactly one day after the Unix epoch. */
  lemma DateAnchorIsOneDayLate()
    ensures UnixEpochTicks == CivilTicks(1970, 1, 1)
    ensures DateAnchorTicks == CivilTicks(1970, 1, 2)
    ensures DateAnchorTicks == UnixEpochTicks + TicksPerDay
  {
  }

  /** Int64.MaxValue / TicksPerMillisecond. TimeSpan::FromMilliseconds
      throws an OverflowException unless its (whole) millisecond count lies
      strictly between minus this bound and this bound. */
  const MaxTimeSpanMilliseconds: int := 922_337_203_685_477

  /** DateTime::MaxValue.Ticks; DateTime::MinValue.Ticks is 0. */
  const MaxDateTimeTicks: int := 3_155_378_975_999_999_999

  /** The tick count ConvertDateFromV8 hands to the DateTime constructor: the
      milliseconds as ticks plus the ticks of the 1970-01-02 anchor. The
      C++ code adds two 64-bit counts; a sum that overflows (a count near the
      TimeSpan bound) wraps around to a negative count, which the constructor
      rejects just as it rejects the unbounded sum. */
  function DateTicks(ms: int): int {
    DateAnchorTicks + ms * TicksPerMillisecond
  }

  /** ConvertDateFromV8 for a date of `ms` milliseconds: FromMilliseconds
      fails first, with an OverflowException, for a count beyond its bound;
      then the DateTime constructor fails, with an
      ArgumentOutOfRangeException, for a tick count outside DateTime's
      range; otherwise the DateTime lies `ms` milliseconds after the anchor. */
  function ConvertDateFromV8(ms: int): (r: Result<HostValue, HostError>)
    ensures r.Success? <==> 0 <= DateTicks(ms) <= MaxDateTimeTicks
    ensures r.Success? ==> r.value.DateTime? && r.value.ticks - DateAnchorTicks == ms * TicksPerMillisecond
    ensures r.Failure? ==> (r.error == Overflow <==> ms <= -MaxTimeSpanMilliseconds || MaxTimeSpanMilliseconds <= ms)
    ensures r.Failure? ==> r.error in {Overflow, ArgumentOutOfRange}
  {
    if ms <= -MaxTimeSpanMilliseconds || MaxTimeSpanMilliseconds <= ms then Failure(Overflow)
    else
      var ticks := DateTicks(ms);
      if 0 <= ticks <= MaxDateTimeTicks then Success(HostValue.DateTime(ticks))
      else Failure(ArgumentOutOfRange)
  }

  /** The time values that convert, counted in milliseconds from the anchor,
      run from 0001-01-01 00:00 (-62135683200000) to the last millisecond of
      9999-12-31 (253402214399999). */
  lemma ConvertDateRange(ms: int)
    ensures ConvertDateFromV8(ms).Success? <==> -62_135_683_200_000 <= ms <= 253_402_214_399_999
  {
  }

  /** The exceptions converting a date can raise: the two range errors, and
      the ArgumentException of FromMilliseconds for a NaN time value. */
  predicate DateError(e: HostError) {
    e == Overflow || e == ArgumentOutOfRange || e == Argument
  }

  /** The exceptions ConvertFromV8 can raise: those of converting a date, and
      the InvalidCastException of casting a numeric property name to a string. */
  predicate ConversionError(e: HostError) {
    e == InvalidCast || DateError(e)
  }

  /** The number a string of decimal digits denotes (IsArrayIndex checks the
      digits first). */
  function DecimalValue(s: string): int {
    if s == [] then 0
    else 10 * DecimalValue(s[..|s| - 1]) + Digit(s[|s| - 1])
  }

  function Digit(c: char): int {
    c as int - '0' as int
  }

  /** A property name V8 stores as an array element: the canonical decimal
      form (no sign, no leading zero) of an integer below 2^32 - 1.
      GetPropertyNames reports such a name as a number, not as a string. */
  predicate IsArrayIndex(name: string) {
    && |name| > 0
    && (forall i :: 0 <= i < |name| ==> '0' <= name[i] <= '9')
    && (name[0] == '0' ==> |name| == 1)
    && DecimalValue(name) < 0xFFFF_FFFF
  }

  /** One pass of the loop of ConvertObjectFromV8. The name is converted and
      cast to a string before the value is converted: a name that is an array
      index converts to a number, and the cast fails with an
      InvalidCastException whatever the value; any other name converts to
      itself, and the outcome is then that of converting the value. */
  lemma PropFromV8NameFirst(p: Pair<ScriptValue>, externals: map<Token, HostValue>)
    ensures IsArrayIndex(p.key) ==> PropFromV8(p, externals) == Failure(InvalidCast)
    ensures !IsArrayIndex(p.key) ==>
      var c := FromV8(p.value, externals);
      PropFromV8(p, externals) == if c.Success? then Success(Pair(p.key, c.value)) else Failure(c.error)
  {
  }

  /** Which names are array indices: "0" and "42" are; a leading zero, a
      sign, a fraction, a word and the empty name are not. */
  lemma ArrayIndexNames()
    ensures IsArrayIndex("0") && IsArrayIndex("42")
    ensures !IsArrayIndex("") && !IsArrayIndex("01") && !IsArrayIndex("-1")
    ensures !IsArrayIndex("1.5") && !IsArrayIndex("length")
  {
    DecimalSnoc("4", '2');
    assert "4" + ['2'] == "42";
  }

  /** The largest array index is 2^32 - 2: "4294967294" is one,
      "4294967295" is not. */
  lemma ArrayIndexBound()
    ensures IsArrayIndex("4294967294") && !IsArrayIndex("4294967295")
  {
    BoundValues();
  }

  lemma BoundValues()
    ensures DecimalValue("4294967294") == 0xFFFF_FFFE && DecimalValue("4294967295") == 0xFFFF_FFFF
  {
    TenDigits('4', '2', '9', '4', '9', '6', '7', '2', '9', '4');
    TenDigits('4', '2', '9', '4', '9', '6', '7', '2', '9', '5');
  }

  /** The value of ten digits, place by place. */
  lemma TenDigits(a: char, b: char, c: char, d: char, e: char, f: char, g: char, h: char, i: char, j: char)
    ensures DecimalValue([a, b, c, d, e, f, g, h, i, j]) ==
      1_000_000_000 * Digit(a) + 100_000_000 * Digit(b) + 10_000_000 * Digit(c) +
      1_000_000 * Digit(d) + 100_000 * Digit(e) + 10_000 * Digit(f) +
      1_000 * Digit(g) + 100 * Digit(h) + 10 * Digit(i) + Digit(j)
  {
    DecimalSnoc([], a);
    assert [] + [a] == [a];
    DecimalSnoc([a], b);
    assert [a] + [b] == [a, b];
    DecimalSnoc([a, b], c);
    assert [a, b] + [c] == [a, b, c];
    DecimalSnoc([a, b, c], d);
    assert [a, b, c] + [d] == [a, b, c, d];
    DecimalSnoc([a, b, c, d], e);
    assert [a, b, c, d] + [e] == [a, b, c, d, e];
    DecimalSnoc([a, b, c, d, e], f);
    assert [a, b, c, d, e] + [f] == [a, b, c, d, e, f];
    DecimalSnoc([a, b, c, d, e, f], g);
    assert [a, b, c, d, e, f] + [g] == [a, b, c, d, e, f, g];
    DecimalSnoc([a, b, c, d, e, f, g], h);
    assert [a, b, c, d, e, f, g] + [h] == [a, b, c, d, e, f, g, h];
    DecimalSnoc([a, b, c, d, e, f, g, h], i);
    assert [a, b, c, d, e, f, g, h] + [i] == [a, b, c, d, e, f, g, h, i];
    DecimalSnoc([a, b, c, d, e, f, g, h, i], j);
    assert [a, b, c, d, e, f, g, h, i] + [j] == [a, b, c, d, e, f, g, h, i, j];
  }

  lemma DecimalSnoc(s: string, c: char)
    ensures DecimalValue(s + [c]) == 10 * DecimalValue(s) + Digit(c)
  {
    assert (s + [c])[..|s|] == s;
  }

  /** ConvertFromV8. Null and undefined give null, and so, by convention, does
      the empty handle; booleans a Boolean; a number that IsInt32 an Int32 and
      any other number a Double; strings a String; arrays an object[]
      converted element by element; dates a DateTime; an object with an
      internal field (a wrapper proxy) is unwrapped; any other object
      (functions included) becomes a Dictionary with one write per enumerated
      property; anything else (a raw External) gives null. The only
      exceptions are those of converting a date and the InvalidCastException
      of a property name that is an array index, and the first one met, in
      the order the conversion visits names and values, is the outcome. */
  function FromV8(v: ScriptValue, externals: map<Token, HostValue>): (r: Result<HostValue, HostError>)
    ensures r.Failure? ==> ConversionError(r.error)
    decreases v, 1
  {
    match v
    case Empty => Success(HostValue.Null)
    case Null => Success(HostValue.Null)
    case Undefined => Success(HostValue.Null)
    case Bool(b) => Success(HostValue.Boolean(b))
    case Int32(i) => Success(HostValue.Int32(i))
    case Number(n) => Success(if IsInt32(n) then HostValue.Int32(n.i) else HostValue.Double(n))
    case String(s) => Success(HostValue.String(s))
    case Array(elems) =>
      var s := FromV8Seq(elems, externals);
      if s.Success? then Success(HostValue.Array(s.value)) else Failure(s.error)
    case Date(ms) => ConvertDateFromV8(ms)
    case InvalidDate => Failure(Argument)
    case Proxy(_) => Success(Unwrap(v, externals))
    case Object(props) => FromV8Object(props, externals)
    case Function(props, _) => FromV8Object(props, externals)
    case External(_) => Success(HostValue.Null)
  }

  /** ConvertObjectFromV8: the properties converted in enumeration order,
      then written into a Dictionary. */
  function FromV8Object(props: seq<Pair<ScriptValue>>, externals: map<Token, HostValue>): (r: Result<HostValue, HostError>)
    ensures r.Failure? ==> ConversionError(r.error)
    ensures r.Success? ==> r.value.Dictionary? && Keys(r.value.entries) == Keys(props) && DistinctKeys(r.value.entries)
    decreases props, 3
  {
    var s := FromV8Props(props, externals);
    if s.Success? then Success(HostValue.Dictionary(UpsertAll(s.value))) else Failure(s.error)
  }

  /** Script values converted in index order (the elements of an array, the
      arguments of a call); the first failure ends the conversion. */
  function FromV8Seq(xs: seq<ScriptValue>, externals: map<Token, HostValue>): (r: Result<seq<HostValue>, HostError>)
    ensures r.Failure? ==> ConversionError(r.error)
    ensures r.Success? ==> |r.value| == |xs|
    decreases xs, 2
  {
    if xs == [] then Success([])
    else
      var prev := FromV8Seq(xs[..|xs| - 1], externals);
      if prev.Failure? then prev
      else
        var last := FromV8(xs[|xs| - 1], externals);
        if last.Failure? then Failure(last.error) else Success(prev.value + [last.value])
  }

  /** One pass of the loop of ConvertObjectFromV8: the name, then the value. */
  function PropFromV8(p: Pair<ScriptValue>, externals: map<Token, HostValue>): (r: Result<Pair<HostValue>, HostError>)
    ensures r.Failure? ==> ConversionError(r.error)
    ensures r.Success? ==> r.value.key == p.key
    decreases p, 0
  {
    if IsArrayIndex(p.key) then Failure(InvalidCast)
    else
      var c := FromV8(p.value, externals);
      if c.Failure? then Failure(c.error) else Success(Pair(p.key, c.value))
  }

  /** The properties of an object in enumeration order, each through
      PropFromV8; the first failure ends the conversion. */
  function FromV8Props(ps: seq<Pair<ScriptValue>>, externals: map<Token, HostValue>): (r: Result<seq<Pair<HostValue>>, HostError>)
    ensures r.Failure? ==> ConversionError(r.error)
    ensures r.Success? ==> |r.value| == |ps| && Keys(r.value) == Keys(ps)
    decreases ps, 2
  {
    if ps == [] then Success([])
    else
      var prev := FromV8Props(ps[..|ps| - 1], externals);
      if prev.Failure? then prev
      else
        var last := PropFromV8(ps[|ps| - 1], externals);
        if last.Failure? then Failure(last.error)
        else
          var r := prev.value + [last.value];
          KeysSnoc(ps);
          KeysSnoc(r);
          assert r[..|r| - 1] == prev.value;
          Success(r)
  }

  /** ConvertFromSystemDelegate: the delegate is registered with the current
      context and bound, as an External, to a function running DelegateInvoker.
      The context is dereferenced without a check, so with none current the
      call fails with a null reference. */
  function DelegateToV8(x: HostValue, st: WrapState): (r: Step<ScriptValue>)
    requires Valid(st)
    ensures Valid(r.state) && Grows(st, r.state)
    ensures !st.contextActive ==> r == Step(Failure(NullReference), st)
    ensures st.contextActive ==>
      && r.result.Success? && r.result.value.Function? && r.result.value.fprops == []
      && r.result.value.data.Some?
      && Unwrap(External(r.result.value.data.value), r.state.externals) == x
  {
    if st.contextActive then
      var (token, st') := RegisterExternal(st, x);
      Step(Success(Function([], Some(token))), st')
    else
      Step(Failure(NullReference), st)
  }

  /** ConvertToV8. `dateToMs` is SystemInterop::ConvertFromSystemDateTime. */
  function ToV8(x: HostValue, st: WrapState, dateToMs: int -> int): (r: Step<ScriptValue>)
    requires Valid(st)
    ensures Valid(r.state) && Grows(st, r.state)
    ensures !st.contextActive ==> r.state == st
  {
    match x
    case Null => Step(Success(Empty), st)
    case Boolean(b) => Step(Success(Bool(b)), st)
    case Int16(i) => Step(Success(ScriptValue.Int32(i)), st)
    case Int32(i) => Step(Success(ScriptValue.Int32(i)), st)
    case Single(f) => Step(Success(Number(f)), st)
    case Double(d) => Step(Success(Number(d)), st)
    case String(s) => Step(Success(ScriptValue.String(s)), st)
    case DateTime(t) => Step(Success(Date(dateToMs(t))), st)
    case Array(elems) =>
      var s := ToV8Seq(elems, st, dateToMs);
      Step(if s.result.Success? then Success(ScriptValue.Array(s.result.value)) else Failure(s.result.error), s.state)
    case Delegate(_, _) => DelegateToV8(x, st)
    case Dictionary(entries) =>
      var s := ToV8Pairs(entries, st, dateToMs);
      Step(if s.result.Success? then Success(ScriptValue.Object(UpsertAll(s.result.value))) else Failure(s.result.error), s.state)
    case List(items) =>
      var s := ToV8Seq(items, st, dateToMs);
      Step(if s.result.Success? then Success(ScriptValue.Array(s.result.value)) else Failure(s.result.error), s.state)
    case Other(_, _) => Wrap(st, x)
  }

  /** The elements of a host array or list converted in index order, each from
      the state the previous one left; the first failure ends the conversion. */
  function ToV8Seq(xs: seq<HostValue>, st: WrapState, dateToMs: int -> int): (r: Step<seq<ScriptValue>>)
    requires Valid(st)
    ensures Valid(r.state) && Grows(st, r.state)
    ensures !st.contextActive ==> r.state == st
  {
    if xs == [] then Step(Success([]), st)
    else
      var prev := ToV8Seq(xs[..|xs| - 1], st, dateToMs);
      if prev.result.Failure? then prev
      else
        var last := ToV8(xs[|xs| - 1], prev.state, dateToMs);
        if last.result.Failure? then Step(Failure(last.result.error), last.state)
        else Step(Success(prev.result.value + [last.result.value]), last.state)
  }

  /** The entries of a host dictionary in enumeration order: the (string) key
      converts to itself, the value through ToV8. */
  function ToV8Pairs(ps: seq<Pair<HostValue>>, st: WrapState, dateToMs: int -> int): (r: Step<seq<Pair<ScriptValue>>>)
    requires Valid(st)
    ensures Valid(r.state) && Grows(st, r.state)
    ensures !st.contextActive ==> r.state == st
  {
    if ps == [] then Step(Success([]), st)
    else
      var prev := ToV8Pairs(ps[..|ps| - 1], st, dateToMs);
      if prev.result.Failure? then prev
      else
        var last := ToV8(ps[|ps| - 1].value, prev.state, dateToMs);
        if last.result.Failure? then Step(Failure(last.result.error), last.state)
        else Step(Success(prev.result.value + [Pair(ps[|ps| - 1].key, last.result.value)]), last.state)
  }

  /** The scalar branches of ConvertFromV8, in their order: null and
      undefined give null (as does the empty handle, by convention); a boolean
      a Boolean; the Int32 test comes before the Number test, so a number
      yields an Int32 exactly when it is int32-representable and a Double
      otherwise; a date goes to ConvertDateFromV8, and one whose time value is
      NaN fails there with an ArgumentException; a value no branch recognises
      (a raw External) gives null. */
  lemma FromV8Scalars(v: ScriptValue, externals: map<Token, HostValue>)
    ensures v.Null? || v.Undefined? || v.Empty? ==> FromV8(v, externals) == Success(HostValue.Null)
    ensures v.Bool? ==> FromV8(v, externals) == Success(HostValue.Boolean(v.b))
    ensures v.Int32? ==> FromV8(v, externals) == Success(HostValue.Int32(v.i))
    ensures v.Number? ==> FromV8(v, externals).Success? && (FromV8(v, externals).value.Int32? <==> IsInt32(v.n))
    ensures v.Number? && IsInt32(v.n) ==> FromV8(v, externals) == Success(HostValue.Int32(v.n.i))
    ensures v.Number? && !IsInt32(v.n) ==> FromV8(v, externals) == Success(HostValue.Double(v.n))
    ensures v.String? ==> FromV8(v, externals) == Success(HostValue.String(v.str))
    ensures v.Date? ==> FromV8(v, externals) == ConvertDateFromV8(v.ms)
    ensures v.InvalidDate? ==> FromV8(v, externals) == Failure(Argument)
    ensures v.External? ==> FromV8(v, externals) == Success(HostValue.Null)
  {
  }

  /** An object with an internal field (a wrapper proxy) is not copied: it
      converts to the very object the context holds for its token. */
  lemma FromV8Proxy(token: Token, externals: map<Token, HostValue>)
    requires token in externals
    ensures FromV8(Proxy(token), externals) == Success(externals[token])
  {
  }

  /** Converting a sequence succeeds exactly when every element converts;
      then element i of the result is element i converted. Otherwise the
      outcome is the failure of the first element that does not convert. */
  lemma {:induction false} FromV8SeqElements(xs: seq<ScriptValue>, externals: map<Token, HostValue>)
    ensures
      var r := FromV8Seq(xs, externals);
      && (r.Success? <==> forall i :: 0 <= i < |xs| ==> FromV8(xs[i], externals).Success?)
      && (r.Success? ==> forall i :: 0 <= i < |xs| ==> FromV8(xs[i], externals) == Success(r.value[i]))
      && (r.Failure? ==> exists j :: 0 <= j < |xs| && FromV8(xs[j], externals) == Failure(r.error) &&
                                     forall i :: 0 <= i < j ==> FromV8(xs[i], externals).Success?)
  {
    if xs != [] {
      var n := |xs| - 1;
      FromV8SeqElements(xs[..n], externals);
      assert forall i :: 0 <= i < n ==> xs[..n][i] == xs[i];
    }
  }

  /** Likewise for the properties of an object, each through PropFromV8. */
  lemma {:induction false} FromV8PropsElements(ps: seq<Pair<ScriptValue>>, externals: map<Token, HostValue>)
    ensures
      var r := FromV8Props(ps, externals);
      && (r.Success? <==> forall i :: 0 <= i < |ps| ==> PropFromV8(ps[i], externals).Success?)
      && (r.Success? ==> forall i :: 0 <= i < |ps| ==> PropFromV8(ps[i], externals) == Success(r.value[i]))
      && (r.Failure? ==> exists j :: 0 <= j < |ps| && PropFromV8(ps[j], externals) == Failure(r.error) &&
                                     forall i :: 0 <= i < j ==> PropFromV8(ps[i], externals).Success?)
  {
    if ps != [] {
      var n := |ps| - 1;
      FromV8PropsElements(ps[..n], externals);
      assert forall i :: 0 <= i < n ==> ps[..n][i] == ps[i];
      var prev := FromV8Props(ps[..n], externals);
      var last := PropFromV8(ps[n], externals);
      if prev.Failure? {
        assert FromV8Props(ps, externals) == prev;
      } else if last.Failure? {
        assert FromV8Props(ps, externals) == Failure(last.error);
      } else {
        var r := prev.value + [last.value];
        assert FromV8Props(ps, externals) == Success(r);
        assert forall i :: 0 <= i < n ==> r[i] == prev.value[i];
      }
    }
  }

  /** The script values ConvertFromV8 converts without an exception: those in
      which every date is valid and within DateTime's range and no object
      has a property name that is an array index. A proxy is not looked into. */
  predicate Convertible(v: ScriptValue) {
    match v
    case Date(ms) => 0 <= DateTicks(ms) <= MaxDateTimeTicks
    case InvalidDate => false
    case Array(elems) => forall i :: 0 <= i < |elems| ==> Convertible(elems[i])
    case Object(props) => forall i :: 0 <= i < |props| ==> !IsArrayIndex(props[i].key) && Convertible(props[i].value)
    case Function(props, _) => forall i :: 0 <= i < |props| ==> !IsArrayIndex(props[i].key) && Convertible(props[i].value)
    case _ => true
  }

  /** ConvertFromV8 throws exactly on the values holding a date it cannot
      represent or an object with an array-index property name. */
  lemma {:induction false} FromV8Succeeds(v: ScriptValue, externals: map<Token, HostValue>)
    ensures FromV8(v, externals).Success? <==> Convertible(v)
    decreases v, 1
  {
    match v
    case Array(elems) => FromV8SeqSucceeds(elems, externals);
    case Object(props) => FromV8PropsSucceed(props, externals);
    case Function(props, _) => FromV8PropsSucceed(props, externals);
    case _ =>
  }

  lemma {:induction false} FromV8SeqSucceeds(xs: seq<ScriptValue>, externals: map<Token, HostValue>)
    ensures FromV8Seq(xs, externals).Success? <==> forall i :: 0 <= i < |xs| ==> Convertible(xs[i])
    decreases xs, 0
  {
    FromV8SeqElements(xs, externals);
    forall i | 0 <= i < |xs| ensures FromV8(xs[i], externals).Success? <==> Convertible(xs[i]) {
      FromV8Succeeds(xs[i], externals);
    }
  }

  lemma {:induction false} FromV8PropsSucceed(ps: seq<Pair<ScriptValue>>, externals: map<Token, HostValue>)
    ensures FromV8Props(ps, externals).Success? <==>
      forall i :: 0 <= i < |ps| ==> !IsArrayIndex(ps[i].key) && Convertible(ps[i].value)
    decreases ps, 0
  {
    FromV8PropsElements(ps, externals);
    forall i | 0 <= i < |ps|
      ensures PropFromV8(ps[i], externals).Success? <==> !IsArrayIndex(ps[i].key) && Convertible(ps[i].value)
    {
      FromV8Succeeds(ps[i].value, externals);
    }
  }

  /** The value a script value converts back to, where it converts. */
  function Back(ext: map<Token, HostValue>): ScriptValue -> HostValue {
    v => var c := FromV8(v, ext); if c.Success? then c.value else HostValue.Null
  }

  /** Properties none of whose names is an array index and whose values all
      convert convert as a whole to those values. */
  lemma PropsBack(ps: seq<Pair<ScriptValue>>, ext: map<Token, HostValue>)
    requires forall i :: 0 <= i < |ps| ==> !IsArrayIndex(ps[i].key) && FromV8(ps[i].value, ext).Success?
    ensures FromV8Props(ps, ext) == Success(MapValues(ps, Back(ext)))
  {
    FromV8PropsElements(ps, ext);
    var r := FromV8Props(ps, ext).value;
    var m := MapValues(ps, Back(ext));
    forall i | 0 <= i < |ps| ensures r[i] == m[i] {
      var c := FromV8(ps[i].value, ext);
      assert Back(ext)(ps[i].value) == c.value;
      assert r[i] == Pair(ps[i].key, c.value);
    }
    assert r == m;
  }

  /** A plain object converts when no property name is an array index and
      all property values convert; when every value converts, a failure is
      the InvalidCastException of an array-index name. A converted object is
      a Dictionary with exactly one entry per enumerated property name; under
      name k it holds the conversion of the value of k (for a name enumerated
      twice, the later write wins). When the names are distinct, entry i is
      property i converted, in enumeration order. */
  lemma FromV8PlainObject(props: seq<Pair<ScriptValue>>, externals: map<Token, HostValue>)
    ensures
      var d := FromV8(Object(props), externals);
      && (d.Success? <==> forall i :: 0 <= i < |props| ==>
            !IsArrayIndex(props[i].key) && FromV8(props[i].value, externals).Success?)
      && (d.Failure? && (forall i :: 0 <= i < |props| ==> FromV8(props[i].value, externals).Success?) ==>
            d.error == InvalidCast)
      && (d.Success? ==>
            && d.value.Dictionary?
            && Keys(d.value.entries) == Keys(props)
            && DistinctKeys(d.value.entries)
            && (forall k :: match LastValue(props, k)
                  case Some(v) => Lookup(d.value.entries, k).Some? && FromV8(v, externals) == Success(Lookup(d.value.entries, k).value)
                  case None => Lookup(d.value.entries, k).None?)
            && (DistinctKeys(props) ==>
                  && |d.value.entries| == |props|
                  && forall i :: 0 <= i < |props| ==>
                       d.value.entries[i].key == props[i].key && FromV8(props[i].value, externals) == Success(d.value.entries[i].value)))
  {
    FromV8PlainObjectOutcome(props, externals);
    var s := FromV8Props(props, externals);
    if s.Success? {
      PropsBack(props, externals);
      var converted := s.value;
      var f := Back(externals);
      var ok := (v: ScriptValue) => FromV8(v, externals).Success?;
      forall k ensures match LastValue(props, k)
        case Some(v) => Lookup(UpsertAll(converted), k).Some? && FromV8(v, externals) == Success(Lookup(UpsertAll(converted), k).value)
        case None => Lookup(UpsertAll(converted), k).None?
      {
        UpsertAllLookup(converted, k);
        LastValueMapValues(props, f, k);
        LastValueValues(props, k, ok);
      }
      if DistinctKeys(props) {
        MapValuesKeys(props, f);
        UpsertAllDistinct(converted);
      }
    }
  }

  /** When a plain object converts, and which exception a failure is when
      every property value converts. */
  lemma FromV8PlainObjectOutcome(props: seq<Pair<ScriptValue>>, externals: map<Token, HostValue>)
    ensures
      var d := FromV8(Object(props), externals);
      && (d.Success? <==> forall i :: 0 <= i < |props| ==>
            !IsArrayIndex(props[i].key) && FromV8(props[i].value, externals).Success?)
      && (d.Failure? && (forall i :: 0 <= i < |props| ==> FromV8(props[i].value, externals).Success?) ==>
            d.error == InvalidCast)
  {
    FromV8PropsElements(props, externals);
    forall i | 0 <= i < |props|
      ensures PropFromV8(props[i], externals).Success? <==>
        !IsArrayIndex(props[i].key) && FromV8(props[i].value, externals).Success?
      ensures FromV8(props[i].value, externals).Success? && PropFromV8(props[i], externals).Failure? ==>
        PropFromV8(props[i], externals).error == InvalidCast
    {
      PropFromV8NameFirst(props[i], externals);
    }
  }

  /** The first element that fails to convert ends the conversion of the
      whole sequence. */
  lemma {:induction false} FromV8SeqStopsAtFailure(xs: seq<ScriptValue>, j: nat, externals: map<Token, HostValue>)
    requires j <= |xs| && FromV8Seq(xs[..j], externals).Failure?
    ensures FromV8Seq(xs, externals) == FromV8Seq(xs[..j], externals)
    decreases |xs| - j
  {
    if j == |xs| {
      assert xs[..j] == xs;
    } else {
      assert xs[..j + 1][..j] == xs[..j];
      FromV8SeqStopsAtFailure(xs, j + 1, externals);
    }
  }

  /** Likewise for the properties of an object. */
  lemma {:induction false} FromV8PropsStopsAtFailure(ps: seq<Pair<ScriptValue>>, j: nat, externals: map<Token, HostValue>)
    requires j <= |ps| && FromV8Props(ps[..j], externals).Failure?
    ensures FromV8Props(ps, externals) == FromV8Props(ps[..j], externals)
    decreases |ps| - j
  {
    if j == |ps| {
      assert ps[..j] == ps;
    } else {
      assert ps[..j + 1][..j] == ps[..j];
      FromV8PropsStopsAtFailure(ps, j + 1, externals);
    }
  }

  /** The scalar branches of ConvertToV8: null gives the empty handle; Int16
      and Int32 both give a script Int32, Single and Double a Number; none of
      them touches the registry. A type no earlier branch matches goes to
      WrapObject. */
  lemma ToV8Scalars(x: HostValue, st: WrapState, dateToMs: int -> int)
    requires Valid(st)
    ensures x.Null? ==> ToV8(x, st, dateToMs) == Step(Success(Empty), st)
    ensures x.Boolean? ==> ToV8(x, st, dateToMs) == Step(Success(Bool(x.b)), st)
    ensures x.Int16? ==> ToV8(x, st, dateToMs) == Step(Success(ScriptValue.Int32(x.s16)), st)
    ensures x.Int32? ==> ToV8(x, st, dateToMs) == Step(Success(ScriptValue.Int32(x.i)), st)
    ensures x.Single? ==> ToV8(x, st, dateToMs) == Step(Success(Number(x.f)), st)
    ensures x.Double? ==> ToV8(x, st, dateToMs) == Step(Success(Number(x.d)), st)
    ensures x.Other? ==> ToV8(x, st, dateToMs) == Wrap(st, x)
  {
  }

  /** The values whose conversion needs a current context: a delegate, an
      object that has to be wrapped, or a collection holding one. */
  predicate NeedsContext(x: HostValue) {
    match x
    case Delegate(_, _) => true
    case Other(_, _) => true
    case Array(elems) => exists i :: 0 <= i < |elems| && NeedsContext(elems[i])
    case List(items) => exists i :: 0 <= i < |items| && NeedsContext(items[i])
    case Dictionary(entries) => exists i :: 0 <= i < |entries| && NeedsContext(entries[i].value)
    case _ => false
  }

  /** With no current context, ConvertToV8 succeeds exactly on the values that
      need no context, leaves the registry as it was, and otherwise fails with
      "No context currently active." (a wrapped object) or a null reference (a
      delegate). */
  lemma {:induction false} ToV8WithoutContext(x: HostValue, st: WrapState, dateToMs: int -> int)
    requires Valid(st) && !st.contextActive
    ensures ToV8(x, st, dateToMs).result.Success? <==> !NeedsContext(x)
    ensures ToV8(x, st, dateToMs).result.Failure? ==>
      ToV8(x, st, dateToMs).result.error in {NoContextError, NullReference}
    decreases x, 1
  {
    match x
    case Array(elems) => ToV8SeqWithoutContext(elems, st, dateToMs);
    case List(items) => ToV8SeqWithoutContext(items, st, dateToMs);
    case Dictionary(entries) => ToV8PairsWithoutContext(entries, st, dateToMs);
    case _ =>
  }

  lemma {:induction false} ToV8SeqWithoutContext(xs: seq<HostValue>, st: WrapState, dateToMs: int -> int)
    requires Valid(st) && !st.contextActive
    ensures ToV8Seq(xs, st, dateToMs).result.Success? <==> forall i :: 0 <= i < |xs| ==> !NeedsContext(xs[i])
    ensures ToV8Seq(xs, st, dateToMs).result.Failure? ==>
      ToV8Seq(xs, st, dateToMs).result.error in {NoContextError, NullReference}
    decreases xs, 2
  {
    if xs != [] {
      var n := |xs| - 1;
      ToV8SeqWithoutContext(xs[..n], st, dateToMs);
      ToV8WithoutContext(xs[n], st, dateToMs);
      assert forall i :: 0 <= i < n ==> xs[..n][i] == xs[i];
    }
  }

  lemma {:induction false} ToV8PairsWithoutContext(ps: seq<Pair<HostValue>>, st: WrapState, dateToMs: int -> int)
    requires Valid(st) && !st.contextActive
    ensures ToV8Pairs(ps, st, dateToMs).result.Success? <==> forall i :: 0 <= i < |ps| ==> !NeedsContext(ps[i].value)
    ensures ToV8Pairs(ps, st, dateToMs).result.Failure? ==>
      ToV8Pairs(ps, st, dateToMs).result.error in {NoContextError, NullReference}
    decreases ps, 2
  {
    if ps != [] {
      var n := |ps| - 1;
      ToV8PairsWithoutContext(ps[..n], st, dateToMs);
      ToV8WithoutContext(ps[n].value, st, dateToMs);
      assert forall i :: 0 <= i < n ==> ps[..n][i] == ps[i];
    }
  }

  /** Array and List conversion: the script array has exactly the host
      length, and element i is the conversion of host element i, made from
      the registry state that converting elements 0..i-1 left. */
  lemma {:induction false} ToV8SeqElements(xs: seq<HostValue>, st: WrapState, dateToMs: int -> int)
    requires Valid(st)
    ensures
      var s := ToV8Seq(xs, st, dateToMs);
      s.result.Success? ==>
        && |s.result.value| == |xs|
        && forall i :: 0 <= i < |xs| ==>
             ToV8(xs[i], ToV8Seq(xs[..i], st, dateToMs).state, dateToMs).result == Success(s.result.value[i])
  {
    if xs != [] {
      var n := |xs| - 1;
      ToV8SeqElements(xs[..n], st, dateToMs);
      var s := ToV8Seq(xs, st, dateToMs);
      if s.result.Success? {
        forall i | 0 <= i < |xs|
          ensures ToV8(xs[i], ToV8Seq(xs[..i], st, dateToMs).state, dateToMs).result == Success(s.result.value[i])
        {
          if i < n {
            assert xs[..n][..i] == xs[..i];
            assert xs[..n][i] == xs[i];
          } else {
            assert xs[..i] == xs[..n];
          }
        }
      }
    }
  }

  /** The first element that fails to convert ends the conversion of the
      whole array or list: the result is the failure of that prefix. */
  lemma {:induction false} ToV8SeqStopsAtFailure(xs: seq<HostValue>, j: nat, st: WrapState, dateToMs: int -> int)
    requires j <= |xs| && Valid(st)
    requires ToV8Seq(xs[..j], st, dateToMs).result.Failure?
    ensures ToV8Seq(xs, st, dateToMs) == ToV8Seq(xs[..j], st, dateToMs)
    decreases |xs| - j
  {
    if j == |xs| {
      assert xs[..j] == xs;
    } else {
      assert xs[..j + 1][..j] == xs[..j];
      ToV8SeqStopsAtFailure(xs, j + 1, st, dateToMs);
    }
  }

  /** Likewise for the entries of a dictionary. */
  lemma {:induction false} ToV8PairsStopsAtFailure(ps: seq<Pair<HostValue>>, j: nat, st: WrapState, dateToMs: int -> int)
    requires j <= |ps| && Valid(st)
    requires ToV8Pairs(ps[..j], st, dateToMs).result.Failure?
    ensures ToV8Pairs(ps, st, dateToMs) == ToV8Pairs(ps[..j], st, dateToMs)
    decreases |ps| - j
  {
    if j == |ps| {
      assert ps[..j] == ps;
    } else {
      assert ps[..j + 1][..j] == ps[..j];
      ToV8PairsStopsAtFailure(ps, j + 1, st, dateToMs);
    }
  }

  /** One more element: the conversion of a longer prefix extends the shorter one. */
  lemma ToV8SeqSnoc(xs: seq<HostValue>, i: nat, st: WrapState, dateToMs: int -> int)
    requires i < |xs| && Valid(st)
    ensures
      var prev := ToV8Seq(xs[..i], st, dateToMs);
      ToV8Seq(xs[..i + 1], st, dateToMs) ==
        if prev.result.Failure? then prev
        else
          var last := ToV8(xs[i], prev.state, dateToMs);
          if last.result.Failure? then Step(Failure(last.result.error), last.state)
          else Step(Success(prev.result.value + [last.result.value]), last.state)
  {
    assert xs[..i + 1][..i] == xs[..i];
  }

  /** One more entry: the conversion of a longer prefix extends the shorter one. */
  lemma ToV8PairsSnoc(ps: seq<Pair<HostValue>>, i: nat, st: WrapState, dateToMs: int -> int)
    requires i < |ps| && Valid(st)
    ensures
      var prev := ToV8Pairs(ps[..i], st, dateToMs);
      ToV8Pairs(ps[..i + 1], st, dateToMs) ==
        if prev.result.Failure? then prev
        else
          var last := ToV8(ps[i].value, prev.state, dateToMs);
          if last.result.Failure? then Step(Failure(last.result.error), last.state)
          else Step(Success(prev.result.value + [Pair(ps[i].key, last.result.value)]), last.state)
  {
    assert ps[..i + 1][..i] == ps[..i];
  }
}
