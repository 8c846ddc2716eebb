/** The `waker-server` start-up helpers: reading typed settings from the
    environment, and choosing the worker thread count. The process
    environment and the CPU count are parameters: a variable's value is
    `Some(text)` when it is set to valid Unicode and `None` otherwise. */
module ServerUtils {
  import opened Decimal
  import opened MacTypes

  /** `usize::MAX` on a 64-bit target. */
  const USIZE_MAX: nat := 0xFFFF_FFFF_FFFF_FFFF

  /** `str::parse::<usize>()`: an optional `+`, then one or more ASCII digits
      (no sign for an unsigned type, no whitespace), with a value that fits
      in a `usize`. */
  function ParseUsize(s: string): (r: Option<nat>)
    ensures s == [] ==> r.None?
    ensures r.Some? ==> r.value <= USIZE_MAX
    ensures |s| > 0 && s[0] != '+' && !IsAsciiDigit(s[0]) ==> r.None?
  {
    if s == [] then None
    else if (s[0] == '+' || s[0] == '-') && |s| == 1 then None
    else
      var digits := if s[0] == '+' then s[1..] else s;
      if AllDigits(digits) && DigitsValue(digits) <= USIZE_MAX then Some(DigitsValue(digits)) else None
  }

  /** Every count the server could print parses back, with or without a `+`. */
  lemma ParseUsizeOfDisplay(n: nat)
    requires n <= USIZE_MAX
    ensures ParseUsize(NatToString(n)) == Some(n)
    ensures ParseUsize("+" + NatToString(n)) == Some(n)
  {
    DigitsValueOfNatToString(n);
    assert ("+" + NatToString(n))[1..] == NatToString(n);
  }

  /** What `ParseUsize` accepts is well formed: a non-empty string, a `+` only
      in front of at least one digit, and ASCII digits everywhere after the
      first character (so "8 ", "4x" and "++4" are rejected). */
  lemma ParseUsizeWellFormed(s: string)
    ensures ParseUsize(s).Some? ==> |s| > 0 && (s[0] == '+' ==> |s| >= 2)
    ensures ParseUsize(s).Some? ==> forall i :: 0 < i < |s| ==> IsAsciiDigit(s[i])
  {
  }

  /** Every non-empty digit string, leading zeros included, parses to its
      value when that fits in a `usize`, and a leading `+` changes nothing. */
  lemma ParseUsizeOfDigits(d: string)
    requires |d| > 0 && AllDigits(d)
    ensures ParseUsize(d) == (if DigitsValue(d) <= USIZE_MAX then Some(DigitsValue(d)) else None)
    ensures ParseUsize("+" + d) == ParseUsize(d)
  {
    assert ("+" + d)[1..] == d;
  }

  /** A count beyond `usize::MAX` does not parse. */
  lemma ParseUsizeRejectsOverflow(n: nat)
    requires n > USIZE_MAX
    ensures ParseUsize(NatToString(n)) == None
  {
    DigitsValueOfNatToString(n);
  }

  /** `get_env`: the variable's value parsed as `T` when it is set and parses,
      and `default` otherwise. */
  function GetEnv<T>(value: Option<string>, parse: string -> Option<T>, default: T): (r: T)
    ensures value.Some? && parse(value.value).Some? ==> r == parse(value.value).value
    ensures value.None? || parse(value.value).None? ==> r == default
  {
    match value
    case Some(text) => (match parse(text) case Some(v) => v case None => default)
    case None => default
  }

  /** `is_env`: the variable is set and not empty. */
  function IsEnv(value: Option<string>): (r: bool)
    ensures r <==> value.Some? && |value.value| > 0
  {
    var text := match value case Some(t) => t case None => "";
    !(text == [])
  }

  /** The thread count after the two corrections: 0 becomes 1, and more than
      `cores` becomes `cores`. */
  function ClampThreads(n: nat, cores: nat): (r: nat)
    ensures cores >= 1 ==> 1 <= r <= cores
    ensures 1 <= n <= cores ==> r == n
    ensures n > cores ==> r == cores
    ensures n == 0 && cores >= 1 ==> r == 1
  {
    var atLeastOne := if n == 0 then 1 else n;
    if atLeastOne > cores then cores else atLeastOne
  }

  /** The thread count asked for, before clamping: the explicit argument,
      else a `NUM_THREADS` value that parses, else the default. */
  function RequestedThreads(threads: Option<nat>, envThreads: Option<string>, defaultThreads: nat): (r: nat)
    ensures threads.Some? ==> r == threads.value
    ensures threads.None? && envThreads.Some? && ParseUsize(envThreads.value).Some?
      ==> r == ParseUsize(envThreads.value).value
    ensures threads.None? && (envThreads.None? || ParseUsize(envThreads.value).None?) ==> r == defaultThreads
  {
    if threads.Some? then threads.value else GetEnv(envThreads, ParseUsize, defaultThreads)
  }

  function ParseWarning(text: string): (w: string) {
    "Failed to parse NUM_THREADS env var: " + text
  }

  const ZERO_THREADS_WARNING: string := "Number of threads was 0, using 1"

  function TooManyThreadsWarning(provided: nat, cores: nat): (w: string) {
    "Number of threads provided (" + NatToString(provided) + ") was greater than the number of cores ("
      + NatToString(cores) + "), using the number of cores"
  }

  /** The warnings `get_num_threads` should log, in order: one for a
      `NUM_THREADS` value that does not parse (even when an explicit argument
      overrides it), one for a count of 0, and one naming the count provided
      when it exceeds `cores`. */
  function ThreadWarnings(threads: Option<nat>, envThreads: Option<string>, defaultThreads: nat, cores: nat)
    : (r: seq<string>)
    ensures var requested := RequestedThreads(threads, envThreads, defaultThreads);
      var parseFailed := envThreads.Some? && ParseUsize(envThreads.value).None?;
      |r| == (if parseFailed then 1 else 0) + (if requested == 0 then 1 else 0)
        + (if ClampThreads(requested, cores) < (if requested == 0 then 1 else requested) then 1 else 0)
    ensures envThreads.Some? && ParseUsize(envThreads.value).None? ==> r[0] == ParseWarning(envThreads.value)
    ensures RequestedThreads(threads, envThreads, defaultThreads) == 0 ==> ZERO_THREADS_WARNING in r
    ensures var requested := RequestedThreads(threads, envThreads, defaultThreads);
      requested > cores ==> r[|r| - 1] == TooManyThreadsWarning(requested, cores)
  {
    var requested := RequestedThreads(threads, envThreads, defaultThreads);
    var atLeastOne := if requested == 0 then 1 else requested;
    (if envThreads.Some? && ParseUsize(envThreads.value).None? then [ParseWarning(envThreads.value)] else [])
    + (if requested == 0 then [ZERO_THREADS_WARNING] else [])
    + (if atLeastOne > cores then [TooManyThreadsWarning(atLeastOne, cores)] else [])
  }

  /** `get_num_threads` as written: the warning for too many threads is
      formatted after the count has already been set to `cores`, so it
      reports the core count as the number provided. */
  method GetNumThreadsAsWritten(threads: Option<nat>, envThreads: Option<string>, defaultThreads: nat, cores: nat)
    returns (numThreads: nat, warnings: seq<string>)
    ensures numThreads == ClampThreads(RequestedThreads(threads, envThreads, defaultThreads), cores)
    ensures var requested := RequestedThreads(threads, envThreads, defaultThreads);
      requested > cores ==> |warnings| > 0 && warnings[|warnings| - 1] == TooManyThreadsWarning(cores, cores)
  {
    numThreads := defaultThreads;
    warnings := [];
    if envThreads.Some? {
      match ParseUsize(envThreads.value) {
        case Some(v) => numThreads := v;
        case None => warnings := warnings + [ParseWarning(envThreads.value)];
      }
    }
    if threads.Some? {
      numThreads := threads.value;
    }
    if numThreads == 0 {
      numThreads := 1;
      warnings := warnings + [ZERO_THREADS_WARNING];
    }
    if numThreads > cores {
      numThreads := cores;
      warnings := warnings + [TooManyThreadsWarning(numThreads, cores)];
    }
  }

  /** Whenever the clamp fires, the as-written warning differs from the
      intended one: it names `cores` where the count provided was larger. */
  lemma TooManyThreadsWarningMisreports(provided: nat, cores: nat)
    requires provided > cores
    ensures TooManyThreadsWarning(cores, cores) != TooManyThreadsWarning(provided, cores)
  {
    if TooManyThreadsWarning(cores, cores) == TooManyThreadsWarning(provided, cores) {
      TooManyThreadsWarningNamesProvided(cores, provided, cores);
    }
  }

  /** The intended warning names the count that was provided: two different
      counts never give the same text. */
  lemma TooManyThreadsWarningNamesProvided(a: nat, b: nat, cores: nat)
    requires TooManyThreadsWarning(a, cores) == TooManyThreadsWarning(b, cores)
    ensures a == b
  {
    var prefix := "Number of threads provided (";
    var wa, wb := TooManyThreadsWarning(a, cores), TooManyThreadsWarning(b, cores);
    var sa, sb := NatToString(a), NatToString(b);
    var rest := ") was greater than the number of cores (" + NatToString(cores) + "), using the number of cores";
    assert wa == prefix + sa + rest && wb == prefix + sb + rest;
    // Equal lengths force equal digit strings, which only equal counts have.
    assert |sa| == |sb|;
    assert sa == wa[|prefix|..|prefix| + |sa|] == wb[|prefix|..|prefix| + |sb|] == sb;
    NatToStringInjective(a, b);
  }

  /** `get_num_threads`, with the too-many-threads warning naming the count
      that was provided: an explicit argument wins over `NUM_THREADS`, which
      wins over the default; the result always lies in [1, cores]. */
  method GetNumThreads(threads: Option<nat>, envThreads: Option<string>, defaultThreads: nat, cores: nat)
    returns (numThreads: nat, warnings: seq<string>)
    ensures threads.Some? ==> numThreads == ClampThreads(threads.value, cores)
    ensures threads.None? && envThreads.Some? && ParseUsize(envThreads.value).Some?
      ==> numThreads == ClampThreads(ParseUsize(envThreads.value).value, cores)
    ensures threads.None? && (envThreads.None? || ParseUsize(envThreads.value).None?)
      ==> numThreads == ClampThreads(defaultThreads, cores)
    ensures cores >= 1 ==> 1 <= numThreads <= cores
    ensures warnings == ThreadWarnings(threads, envThreads, defaultThreads, cores)
  {
    numThreads := defaultThreads;
    warnings := [];
    if envThreads.Some? {
      match ParseUsize(envThreads.value) {
        case Some(v) => numThreads := v;
        case None => warnings := warnings + [ParseWarning(envThreads.value)];
      }
    }
    if threads.Some? {
      numThreads := threads.value;
    }
    if numThreads == 0 {
      numThreads := 1;
      warnings := warnings + [ZERO_THREADS_WARNING];
    }
    if numThreads > cores {
      warnings := warnings + [TooManyThreadsWarning(numThreads, cores)];
      numThreads := cores;
    }
  }
}
