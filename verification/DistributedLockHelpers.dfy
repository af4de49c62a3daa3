/** The static helpers of DistributedLockHelpers: normalising a TimeSpan to an
    Int32 millisecond timeout and shortening a lock name to a safe length. */
module DistributedLockHelpers {
  import opened Text
  import opened Wrappers

  const MaxInt32: int := 0x7FFF_FFFF
  const MinInt32: int := -0x8000_0000

  /** A C# `int`. */
  type Int32 = x: int | MinInt32 <= x <= MaxInt32

  /** A TimeSpan is a count of 100-nanosecond ticks. */
  const TicksPerMillisecond: int := 10000

  /** The exceptions the helpers throw. */
  datatype HelperError = ArgumentOutOfRange | ArgumentNull

  function Min(a: int, b: int): (m: int) { if a <= b then a else b }

  /** `(long) timeout.TotalMilliseconds`: the cast to long truncates toward
      zero, unlike Dafny's Euclidean division. */
  function TruncatedMilliseconds(ticks: int): (ms: int)
    ensures ticks >= 0 ==> ms * TicksPerMillisecond <= ticks < (ms + 1) * TicksPerMillisecond
    ensures ticks < 0 ==> (ms - 1) * TicksPerMillisecond < ticks <= ms * TicksPerMillisecond
  {
    if ticks >= 0 then ticks / TicksPerMillisecond
    else -((-ticks) / TicksPerMillisecond)
  }

  /** ToInt32Timeout: rejects a duration outside [-1, int.MaxValue] milliseconds;
      -1 is the "infinite" sentinel. */
  function ToInt32Timeout(ticks: int): (r: Result<Int32, HelperError>)
    ensures r.Failure? ==> r.error == ArgumentOutOfRange
    ensures r.Success? ==> -1 <= r.value <= MaxInt32
  {
    var totalMilliseconds := TruncatedMilliseconds(ticks);
    if totalMilliseconds < -1 || totalMilliseconds > MaxInt32 then Failure(ArgumentOutOfRange)
    else Success(totalMilliseconds)
  }

  /** The accepted durations, stated in ticks: anything strictly between
      -2 ms and int.MaxValue + 1 ms; for a whole number of milliseconds the
      result is that number. */
  lemma ToInt32TimeoutAccepts(ticks: int)
    ensures ToInt32Timeout(ticks).Success? <==>
              -2 * TicksPerMillisecond < ticks < (MaxInt32 + 1) * TicksPerMillisecond
    ensures ToInt32Timeout(ticks).Success? ==>
              ToInt32Timeout(ticks).value == TruncatedMilliseconds(ticks)
  {
    var ms := TruncatedMilliseconds(ticks);
    if ticks >= 0 {
      assert ms <= MaxInt32 <==> ticks < (MaxInt32 + 1) * TicksPerMillisecond;
    } else {
      assert ms >= -1 <==> -2 * TicksPerMillisecond < ticks;
    }
  }

  /** For a duration of a whole number of milliseconds `ms`, ToInt32Timeout
      throws exactly when `ms` is below -1 or above int.MaxValue, and otherwise
      returns `ms` unchanged. */
  lemma ToInt32TimeoutWholeMilliseconds(ms: int)
    ensures ToInt32Timeout(ms * TicksPerMillisecond).Failure? <==> ms < -1 || ms > MaxInt32
    ensures ToInt32Timeout(ms * TicksPerMillisecond).Success? ==>
              ToInt32Timeout(ms * TicksPerMillisecond).value == ms
  {
    var ticks := ms * TicksPerMillisecond;
    var t := TruncatedMilliseconds(ticks);
    if ms >= 0 {
      assert t * TicksPerMillisecond <= ticks < (t + 1) * TicksPerMillisecond;
    } else {
      assert (t - 1) * TicksPerMillisecond < ticks <= t * TicksPerMillisecond;
    }
    assert t == ms;
  }

  /** ToSafeLockName. `baseLockName` is None for a null string;
      `convertToValidName` is the caller's sanitiser and `hash` stands for the
      Base64 text of the SHA-512 digest of the name's UTF-8 bytes. Lengths and
      cuts are in UTF-16 code units, as String.Length and Substring count them,
      so a name of 200 characters outside the Basic Multilingual Plane is 400
      long, and a cut may fall inside a surrogate pair. */
  function ToSafeLockName(baseLockName: Option<ClrString>, maxNameLength: Int32,
                          convertToValidName: ClrString -> ClrString, hash: ClrString -> ClrString)
    : (r: Result<ClrString, HelperError>)
    ensures baseLockName.None? ==> r == Failure(ArgumentNull)
    ensures baseLockName.Some? ==> (r.Failure? <==> maxNameLength < 0)
    ensures r.Failure? && baseLockName.Some? ==> r.error == ArgumentOutOfRange
    ensures r.Success? ==> |r.value| <= maxNameLength
  {
    if baseLockName.None? then Failure(ArgumentNull)
    else
      var name := baseLockName.value;
      var validBaseLockName := convertToValidName(name);
      if validBaseLockName == name && |validBaseLockName| <= maxNameLength then Success(name)
      else
        var h := hash(name);
        if |h| >= maxNameLength then
          // String.Substring throws for a negative length
          if maxNameLength < 0 then Failure(ArgumentOutOfRange) else Success(h[..maxNameLength])
        else
          var prefix := validBaseLockName[..Min(|validBaseLockName|, maxNameLength - |h|)];
          Success(prefix + h)
  }

  /** A name that is already valid and short enough comes back unchanged. */
  lemma SafeLockNamePassesValidNames(name: ClrString, maxNameLength: Int32,
                                     convertToValidName: ClrString -> ClrString, hash: ClrString -> ClrString)
    requires convertToValidName(name) == name && |name| <= maxNameLength
    ensures ToSafeLockName(Some(name), maxNameLength, convertToValidName, hash) == Success(name)
  {
  }

  /** Any other name is replaced by something built from its hash: when the hash
      alone is at least `maxNameLength` long, its first `maxNameLength`
      code units; otherwise a prefix of the valid name followed by the whole
      hash, filling the name up to at most `maxNameLength`. */
  lemma SafeLockNameHashesOtherNames(name: ClrString, maxNameLength: Int32,
                                     convertToValidName: ClrString -> ClrString, hash: ClrString -> ClrString)
    requires convertToValidName(name) != name || |name| > maxNameLength
    requires maxNameLength >= 0
    ensures var r := ToSafeLockName(Some(name), maxNameLength, convertToValidName, hash);
            var h := hash(name);
            var valid := convertToValidName(name);
            r.Success? &&
            (|h| >= maxNameLength ==> |r.value| == maxNameLength && r.value == h[..maxNameLength]) &&
            (|h| < maxNameLength ==>
               |r.value| == Min(|valid|, maxNameLength - |h|) + |h| &&
               r.value[..|r.value| - |h|] == valid[..|r.value| - |h|] &&
               r.value[|r.value| - |h|..] == h)
  {
    var r := ToSafeLockName(Some(name), maxNameLength, convertToValidName, hash);
    var h := hash(name);
    var valid := convertToValidName(name);
    if |h| < maxNameLength {
      var prefix := valid[..Min(|valid|, maxNameLength - |h|)];
      assert r.value == prefix + h;
      assert r.value[..|prefix|] == prefix;
      assert r.value[|prefix|..] == h;
    }
  }
}
