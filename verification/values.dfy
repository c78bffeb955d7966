/**
 * `Value`, the tagged union a benchmark record stores its measurements and
 * metadata in, its conversions from and to the payload types, and `Values`,
 * a growable list of them with a `{a, b, c}` rendering.
 *
 * The float, byte-size, duration and timestamp payloads are kept abstract;
 * their text forms come from formatters passed in as functions.
 */
module Values {
  import opened Ints
  import opened Wrappers
  import Durations
  import Strings

  /** An `f64`, by its bits. */
  datatype F64 = F64(bits: bv64)

  /** A `bytesize::ByteSize`. */
  datatype Bytes = Bytes(count: u64)

  /** A `chrono::DateTime<Utc>`, as nanoseconds since the Unix epoch. */
  datatype DateTime = DateTime(nanosSinceEpoch: int)

  datatype Value =
    | Bool(b: bool)
    | Integer(i: i64)
    | Float(f: F64)
    | String(s: string)
    | ByteSize(size: Bytes)
    | Duration(d: Durations.Duration)
    | Timestamp(t: DateTime)

  /** The text forms of the payloads this model keeps abstract. */
  datatype Formatters = Formatters(
    float: F64 -> string,
    byteSize: Bytes -> string,
    duration: Durations.Duration -> string,  // the Debug form, e.g. "1.5s"
    timestamp: DateTime -> string)

  /**
   * `Display for Value`: each payload's own text form. An integer's text
   * reads back as the same integer, a string is shown as it is, and a bool
   * as `true` or `false`.
   */
  function Display(v: Value, fmt: Formatters): (text: string)
    ensures v.Integer? ==> text == Strings.IntToString(v.i) && Strings.ParseInt(text) == v.i
    ensures v.String? ==> text == v.s
    ensures v.Bool? ==> (text == "true" <==> v.b) && (text == "true" || text == "false")
  {
    match v
    case Bool(b) => if b then "true" else "false"
    case Integer(i) => Strings.IntToStringRoundTrip(i); Strings.IntToString(i)
    case Float(f) => fmt.float(f)
    case String(s) => s
    case ByteSize(size) => fmt.byteSize(size)
    case Duration(d) => fmt.duration(d)
    case Timestamp(t) => fmt.timestamp(t)
  }

  /** The error of a failed `try_into`: the value and the name of the type asked for. */
  datatype ConversionError = ConversionError(value: Value, target: string)

  /** `TryInto<DateTime<Utc>>`. */
  function TryIntoTimestamp(v: Value): (r: Result<DateTime, ConversionError>)
    ensures r.Ok? <==> v.Timestamp?
    ensures r.Ok? ==> Timestamp(r.value) == v
    ensures r.Err? ==> r.error == ConversionError(v, "DateTime<Utc>")
  {
    match v
    case Timestamp(t) => Ok(t)
    case _ => Err(ConversionError(v, "DateTime<Utc>"))
  }

  /** `TryInto<String>`. */
  function TryIntoString(v: Value): (r: Result<string, ConversionError>)
    ensures r.Ok? <==> v.String?
    ensures r.Ok? ==> String(r.value) == v
    ensures r.Err? ==> r.error == ConversionError(v, "String")
  {
    match v
    case String(s) => Ok(s)
    case _ => Err(ConversionError(v, "String"))
  }

  /** `TryInto<ByteSize>`. */
  function TryIntoByteSize(v: Value): (r: Result<Bytes, ConversionError>)
    ensures r.Ok? <==> v.ByteSize?
    ensures r.Ok? ==> ByteSize(r.value) == v
    ensures r.Err? ==> r.error == ConversionError(v, "ByteSize")
  {
    match v
    case ByteSize(size) => Ok(size)
    case _ => Err(ConversionError(v, "ByteSize"))
  }

  /** `TryInto<i64>`. */
  function TryIntoInteger(v: Value): (r: Result<i64, ConversionError>)
    ensures r.Ok? <==> v.Integer?
    ensures r.Ok? ==> Integer(r.value) == v
    ensures r.Err? ==> r.error == ConversionError(v, "i64")
  {
    match v
    case Integer(i) => Ok(i)
    case _ => Err(ConversionError(v, "i64"))
  }

  /** `TryInto<bool>`. */
  function TryIntoBool(v: Value): (r: Result<bool, ConversionError>)
    ensures r.Ok? <==> v.Bool?
    ensures r.Ok? ==> Bool(r.value) == v
    ensures r.Err? ==> r.error == ConversionError(v, "bool")
  {
    match v
    case Bool(b) => Ok(b)
    case _ => Err(ConversionError(v, "bool"))
  }

  /** `TryInto<Duration>`. */
  function TryIntoDuration(v: Value): (r: Result<Durations.Duration, ConversionError>)
    ensures r.Ok? <==> v.Duration?
    ensures r.Ok? ==> Duration(r.value) == v
    ensures r.Err? ==> r.error == ConversionError(v, "Duration")
  {
    match v
    case Duration(d) => Ok(d)
    case _ => Err(ConversionError(v, "Duration"))
  }

  /** `TryInto<Option<String>>`: a string becomes `Some`; nothing converts to `None`. */
  function TryIntoOptionString(v: Value): (r: Result<Option<string>, ConversionError>)
    ensures r.Ok? <==> v.String?
    ensures r.Ok? ==> r.value.Some? && String(r.value.value) == v
    ensures r.Err? ==> r.error == ConversionError(v, "Option<String>")
  {
    match v
    case String(s) => Ok(Some(s))
    case _ => Err(ConversionError(v, "Option<String>"))
  }

  /** Converting a payload into a Value (`From`) and back (`TryInto`) gives the payload. */
  lemma ProjectionsRoundTrip(b: bool, i: i64, s: string, size: Bytes, d: Durations.Duration, t: DateTime)
    ensures TryIntoBool(Bool(b)) == Ok(b)
    ensures TryIntoInteger(Integer(i)) == Ok(i)
    ensures TryIntoString(String(s)) == Ok(s)
    ensures TryIntoOptionString(String(s)) == Ok(Some(s))
    ensures TryIntoByteSize(ByteSize(size)) == Ok(size)
    ensures TryIntoDuration(Duration(d)) == Ok(d)
    ensures TryIntoTimestamp(Timestamp(t)) == Ok(t)
  {
  }

  const OPTION_SERIALIZATION_ERROR: string :=
    "trying to serialize an optional value with none is not allowed => try adding \"skip_serializing_if\""

  /**
   * The panic of `len() - 1` on an empty list, as a debug build reports it.
   * A release build wraps the subtraction around instead, and the indexing
   * that follows panics with an index-out-of-bounds message.
   */
  const LENGTH_UNDERFLOW: string := "attempt to subtract with overflow"

  /**
   * `From<&Option<T>>`: `expect` the value to be present, then convert it
   * with `From<&T>`, given here as `into`.
   */
  function FromOption<T>(o: Option<T>, into: T -> Value): (r: Result<Value, Panic>)
    ensures o.None? ==> r == Err(Panic(OPTION_SERIALIZATION_ERROR))
    ensures o.Some? ==> r == Ok(into(o.value))
  {
    match o
    case None => Err(Panic(OPTION_SERIALIZATION_ERROR))
    case Some(x) => Ok(into(x))
  }

  /** A present optional payload survives the trip through `Value` and back. */
  lemma OptionRoundTrip(b: bool, i: i64, s: string, d: Durations.Duration)
    ensures TryIntoBool(FromOption(Some(b), x => Bool(x)).value) == Ok(b)
    ensures TryIntoInteger(FromOption(Some(i), x => Integer(x)).value) == Ok(i)
    ensures TryIntoOptionString(FromOption(Some(s), x => String(x)).value) == Ok(Some(s))
    ensures TryIntoDuration(FromOption(Some(d), x => Duration(x)).value) == Ok(d)
  {
  }

  /** The text of every value, in order. */
  function DisplayAll(items: seq<Value>, fmt: Formatters): (texts: seq<string>)
    ensures |texts| == |items|
  {
    seq(|items|, k requires 0 <= k < |items| => Display(items[k], fmt))
  }

  /** `Values`: a list of values that grows at the end. */
  class Values {
    var items: seq<Value>

    constructor (items: seq<Value>)
      ensures this.items == items
    {
      this.items := items;
    }

    /** `push`: one more value at the end; the earlier ones stay as they were. */
    method Push(v: Value)
      modifies this
      ensures items == old(items) + [v]
    {
      items := items + [v];
    }

    /**
     * `Display for Values`: with two or more values, `{` then the values
     * separated by ", " then `}`; a single value is shown alone, without
     * braces. On an empty list the index `len() - 1` underflows, which
     * panics (the message depends on the build profile; the debug one is
     * used here).
     */
    method Render(fmt: Formatters) returns (r: Result<string, Panic>)
      ensures |items| == 0 <==> r.Err?
      ensures r.Err? ==> r.error == Panic(LENGTH_UNDERFLOW)
      ensures |items| > 1 ==> r == Ok("{" + Strings.Join(DisplayAll(items, fmt), ", ") + "}")
      ensures |items| == 1 ==> r == Ok(Display(items[0], fmt))
    {
      if |items| == 0 {
        return Err(Panic(LENGTH_UNDERFLOW));
      }
      var xs := items;
      ghost var texts := DisplayAll(xs, fmt);
      if |xs| == 1 {
        return Ok(Display(xs[0], fmt));
      }
      var out := Display(xs[0], fmt);
      assert texts[..1] == [texts[0]];
      var i := 1;
      while i < |xs|
        invariant 1 <= i <= |xs|
        invariant out == Strings.Join(texts[..i], ", ")
      {
        Strings.JoinAppend(texts[..i], texts[i], ", ");
        assert texts[..i] + [texts[i]] == texts[..i + 1];
        out := out + ", " + Display(xs[i], fmt);
        i := i + 1;
      }
      assert texts[..i] == texts;
      r := Ok("{" + out + "}");
    }
  }
}
