/** Values the Go program passes around everywhere: errors, optional values,
    instants, durations, environment lookups and start-up failures. */
module Base {

  /** A Go `error`: `Nil` is the nil error; `Err` carries the text `Error()` returns. */
  datatype Error = Nil | Err(msg: string) {

    /** `fmt.Errorf(context + ": %w", e)` for a non-nil `e`. `Wrap(Nil) == Nil`
        stands for the `if err != nil` guard around every call site. */
    function Wrap(context: string): (r: Error)
      ensures r.Nil? <==> Nil?
      ensures !Nil? ==> |r.msg| == |context| + 2 + |msg|
    {
      if Nil? then Nil else Err(context + ": " + msg)
    }
  }

  /** A wrapped message starts with the context and ": ", and ends with the
      message it wraps. */
  lemma WrapMessage(e: Error, context: string)
    requires !e.Nil?
    ensures HasPrefix(e.Wrap(context).msg, context + ": ")
    ensures HasSuffix(e.Wrap(context).msg, e.msg)
  {
    var m := e.Wrap(context).msg;
    assert m[..|context + ": "|] == context + ": ";
    assert m[|m| - |e.msg|..] == e.msg;
  }

  /** A message wrapped in `context` does not start with a `q` that differs
      from `context` at a position both have. */
  lemma WrapDiffers(e: Error, context: string, q: string, i: nat)
    requires !e.Nil? && i < |context| && i < |q| && context[i] != q[i]
    ensures !HasPrefix(e.Wrap(context).msg, q)
  {
    assert e.Wrap(context).msg[i] == context[i];
  }

  datatype Option<T> = None | Some(value: T)

  /** What a start-up routine yields: its value, or the message it panics with. */
  datatype Startup<T> = Panicked(msg: string) | Ready(value: T)

  /** An instant, as a count of nanoseconds; `ZeroTime` is Go's zero `time.Time`. */
  type Time = int
  const ZeroTime: Time := 0

  /** A `time.Duration`: a count of nanoseconds. */
  type Duration = int
  const Second: Duration := 1_000_000_000
  const Minute: Duration := 60 * Second
  const Hour: Duration := 60 * Minute

  const MinInt64: int := -0x8000_0000_0000_0000
  const MaxInt64: int := 0x7fff_ffff_ffff_ffff

  /** Go's `int` and `int64` on a 64-bit platform. */
  newtype int64 = x: int | MinInt64 <= x <= MaxInt64

  /** Two's-complement wrap-around of an `int64` product that overflows. */
  function WrapInt64(x: int): (r: int)
    ensures MinInt64 <= r <= MaxInt64
    ensures (r - x) % 0x1_0000_0000_0000_0000 == 0
    ensures MinInt64 <= x <= MaxInt64 ==> r == x
  {
    (x - MinInt64) % 0x1_0000_0000_0000_0000 + MinInt64
  }

  /** `os.Getenv`: the value, or "" when the variable is not set. */
  function Getenv(env: map<string, string>, name: string): string
  {
    if name in env then env[name] else ""
  }

  /** What both `readEnv`s panic with when a required variable is unset or empty. */
  function MissingVariable(name: string): string
  {
    "Could not find " + name + " specified as an environment variable"
  }

  predicate HasPrefix(s: string, prefix: string)
  {
    |prefix| <= |s| && s[..|prefix|] == prefix
  }

  /** Two prefixes that differ at a position both have never start one string. */
  lemma PrefixesDiffer(s: string, p: string, q: string, i: nat)
    requires HasPrefix(s, p) && i < |p| && i < |q| && p[i] != q[i]
    ensures !HasPrefix(s, q)
  {
    assert s[i] == p[i];
  }

  predicate HasSuffix(s: string, suffix: string)
  {
    |suffix| <= |s| && s[|s| - |suffix|..] == suffix
  }
}
