/** The settings of the simulated ("fake") streaming mode and the integer
    random draw every pacing rule uses. `Math.random()` is a parameter `r`
    with `0 <= r < 1`. */
module FakeStreamingConfig {

  /** An inclusive range of milliseconds or characters. */
  datatype Range = Range(min: int, max: int)
  {
    predicate Ordered()
    {
      min <= max
    }

    predicate Contains(n: int)
    {
      min <= n <= max
    }
  }

  /** The extra pauses after punctuation and line breaks. */
  datatype PunctuationPauses = PunctuationPauses(
    comma: Range, semicolon: Range, colon: Range, period: Range,
    exclamation: Range, question: Range, newLine: Range, paragraph: Range)

  /** The shape of `FAKE_STREAMING_CONFIG`. */
  datatype Config = Config(
    initialDelay: Range,
    baseSpeed: Range,
    chunkSize: Range,
    punctuationPauses: PunctuationPauses,
    enabled: bool,
    responseFile: string,
    debug: bool,
    smoothMode: bool,
    autoRedirect: bool)
  {
    /** Every range of the configuration is ordered. */
    predicate Valid()
    {
      initialDelay.Ordered() && baseSpeed.Ordered() && chunkSize.Ordered()
      && punctuationPauses.comma.Ordered() && punctuationPauses.semicolon.Ordered()
      && punctuationPauses.colon.Ordered() && punctuationPauses.period.Ordered()
      && punctuationPauses.exclamation.Ordered() && punctuationPauses.question.Ordered()
      && punctuationPauses.newLine.Ordered() && punctuationPauses.paragraph.Ordered()
    }
  }

  /** `FAKE_STREAMING_CONFIG` as shipped. */
  const LiveConfig := Config(
    Range(300, 800),
    Range(12, 12),
    Range(3, 8),
    PunctuationPauses(
      Range(20, 50), Range(1, 2), Range(25, 60), Range(50, 120),
      Range(50, 120), Range(50, 120), Range(20, 70), Range(80, 180)),
    true,
    "response.md",
    true,
    true,
    false)

  /** The shipped configuration has only ordered ranges; the simulated mode
      is on and runs its smooth variant; the base speed is the single value
      12. */
  lemma LiveConfigFacts()
    ensures LiveConfig.Valid()
    ensures LiveConfig.enabled && LiveConfig.smoothMode
    ensures LiveConfig.baseSpeed.min == LiveConfig.baseSpeed.max == 12
  {
  }

  /** A random draw in `[0, 1)`. */
  predicate IsDraw(r: real)
  {
    0.0 <= r < 1.0
  }

  /** `getRandomDelay(min, max)`: `Math.floor(Math.random() * (max - min + 1)) + min`. */
  function GetRandomDelay(min: int, max: int, r: real): (d: int)
    requires IsDraw(r)
    ensures min <= max ==> min <= d <= max
    ensures min == max ==> d == min
  {
    var width := max - min + 1;
    (r * width as real).Floor + min
  }

  /** Every value of an ordered range is drawn by some draw: the range of
      `GetRandomDelay` is exactly `[min, max]`. */
  lemma GetRandomDelayReaches(min: int, max: int, k: int)
    requires min <= k <= max
    ensures var r := (k - min) as real / (max - min + 1) as real;
            IsDraw(r) && GetRandomDelay(min, max, r) == k
  {
    var width := max - min + 1;
    var r := (k - min) as real / width as real;
    assert r * width as real == (k - min) as real;
    assert r < 1.0 by {
      assert (k - min) as real < width as real;
    }
  }
}
