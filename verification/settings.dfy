/** `RetestSettings.Retries` and `RetestSettings.Attempts`: two views of one
    32-bit field, the retry count being the attempt count minus one. C#
    evaluates both conversions unchecked, so they wrap around. */
module Settings {

  const MinInt32: int := -0x8000_0000
  const MaxInt32: int := 0x7fff_ffff

  type Int32 = x: int | MinInt32 <= x <= MaxInt32

  /** Two's-complement truncation of `x` to 32 bits. */
  function Wrap32(x: int): (r: Int32)
    ensures MinInt32 <= x <= MaxInt32 ==> r == x
    ensures (r - x) % 0x1_0000_0000 == 0
  {
    (x - MinInt32) % 0x1_0000_0000 + MinInt32
  }

  /** The stored field: the maximum number of attempts. */
  datatype RetestSettings = RetestSettings(attempts: Int32)

  /** The `Retries` getter: `Attempts - 1`. */
  function Retries(s: RetestSettings): Int32 {
    Wrap32(s.attempts - 1)
  }

  /** The `Retries` initializer: sets `Attempts = value + 1`. Its getter gives
      the value back, and only `int.MaxValue` wraps (to `int.MinValue`). */
  function WithRetries(retries: Int32): (s: RetestSettings)
    ensures Retries(s) == retries
    ensures retries < MaxInt32 ==> s.attempts == retries + 1
    ensures retries == MaxInt32 ==> s.attempts == MinInt32
  {
    RetestSettings(Wrap32(retries + 1))
  }

  /** Setting the retries from the getter's value gives the settings back. */
  lemma AttemptsRoundTrip(s: RetestSettings)
    ensures WithRetries(Retries(s)) == s
  {
    if s.attempts == MinInt32 {
      assert Retries(s) == MaxInt32;
    } else {
      assert Retries(s) == s.attempts - 1;
    }
  }

  /** The declared default of `--retries`. */
  const DefaultRetries: Int32 := 3

  /** By default a session makes up to four attempts. */
  lemma DefaultAttempts()
    ensures WithRetries(DefaultRetries).attempts == 4
    ensures Retries(WithRetries(DefaultRetries)) == DefaultRetries
  {
  }
}
