/** The pacing rules of the simulated stream: how many characters the next
    chunk takes, how long to pause after it, and the base delay between
    chunks. Random draws are parameters `r` with `0 <= r < 1`. */
module StreamingUtils {
  import opened Wrappers
  import Text
  import opened FakeStreamingConfig

  // ---------------------------------------------------------------------
  // Base delay
  // ---------------------------------------------------------------------

  /** `simulateRealisticDelay`: in smooth mode the midpoint of the base
      speed moved by up to 5 ms either way; otherwise an integer drawn from
      the base speed. */
  function SimulateRealisticDelay(cfg: Config, r: real): (d: real)
    requires IsDraw(r)
    ensures cfg.smoothMode ==>
      var avg := (cfg.baseSpeed.min + cfg.baseSpeed.max) as real / 2.0;
      avg - 5.0 <= d < avg + 5.0
    ensures !cfg.smoothMode && cfg.baseSpeed.Ordered() ==>
      d == d.Floor as real && cfg.baseSpeed.Contains(d.Floor)
  {
    if cfg.smoothMode then
      var avg := (cfg.baseSpeed.min + cfg.baseSpeed.max) as real / 2.0;
      var variation := 5.0;
      avg + (r * variation * 2.0 - variation)
    else
      GetRandomDelay(cfg.baseSpeed.min, cfg.baseSpeed.max, r) as real
  }

  /** With the shipped settings the base delay lies in `[7, 17)`; with smooth
      mode off it would be exactly 12, the only base speed configured. */
  lemma LiveBaseDelay(r: real)
    requires IsDraw(r)
    ensures 7.0 <= SimulateRealisticDelay(LiveConfig, r) < 17.0
    ensures SimulateRealisticDelay(LiveConfig.(smoothMode := false), r) == 12.0
  {
  }

  // ---------------------------------------------------------------------
  // Chunk size
  // ---------------------------------------------------------------------

  /** The characters of `/[.,!?;:]/`. */
  predicate IsPunctuation(c: char)
  {
    c == '.' || c == ',' || c == '!' || c == '?' || c == ';' || c == ':'
  }

  /** `s.search(/[.,!?;:]/)`: the first index of a punctuation mark, or -1. */
  function SearchPunctuation(s: string): (r: int)
    ensures -1 <= r < |s|
    ensures r >= 0 ==> IsPunctuation(s[r])
    ensures forall j :: 0 <= j < |s| && (r < 0 || j < r) ==> !IsPunctuation(s[j])
  {
    if |s| == 0 then -1
    else if IsPunctuation(s[0]) then 0
    else
      var r := SearchPunctuation(s[1..]);
      assert forall j :: 1 <= j < |s| ==> s[j] == s[1..][j - 1];
      if r < 0 then -1 else r + 1
  }

  /** `s.indexOf(" ")` in terms of characters. */
  lemma FirstSpace(s: string)
    ensures var k := Text.IndexOf(s, " ");
            -1 <= k < |s| && (k >= 0 ==> s[k] == ' ')
            && forall j :: 0 <= j < |s| && (k < 0 || j < k) ==> s[j] != ' '
  {
    var k := Text.IndexOf(s, " ");
    if k >= 0 {
      Text.CharOccurs(s, ' ', k);
    }
    forall j | 0 <= j < |s| && (k < 0 || j < k)
      ensures s[j] != ' '
    {
      Text.CharOccurs(s, ' ', j);
    }
  }

  /** A space among the first `k + 1` characters. */
  predicate SpaceWithin(s: string, k: int)
  {
    exists j :: 0 <= j <= k && j < |s| && s[j] == ' '
  }

  /** A punctuation mark among the first `k + 1` characters. */
  predicate PunctuationWithin(s: string, k: int)
  {
    exists j :: 0 <= j <= k && j < |s| && IsPunctuation(s[j])
  }

  /** `getSmartChunkSize(text, currentIndex)`: up to and including the next
      space when it is at most 8 characters on; failing that, up to and
      including the next punctuation mark when it is at most 5 characters
      on; otherwise a size drawn from the configured chunk sizes. */
  function GetSmartChunkSize(text: string, currentIndex: int, r: real): (n: int)
    requires IsDraw(r)
    ensures 1 <= n <= 9
    ensures var rest := Text.Slice(text, currentIndex, |text|);
            SpaceWithin(rest, 8) ==>
              n - 1 < |rest| && rest[n - 1] == ' ' && forall j :: 0 <= j < n - 1 ==> rest[j] != ' '
    ensures var rest := Text.Slice(text, currentIndex, |text|);
            !SpaceWithin(rest, 8) && PunctuationWithin(rest, 5) ==>
              n <= 6 && n - 1 < |rest| && IsPunctuation(rest[n - 1])
              && forall j :: 0 <= j < n - 1 ==> !IsPunctuation(rest[j])
    ensures var rest := Text.Slice(text, currentIndex, |text|);
            !SpaceWithin(rest, 8) && !PunctuationWithin(rest, 5) ==> LiveConfig.chunkSize.Contains(n)
  {
    var rest := Text.Slice(text, currentIndex, |text|);
    var nextSpace := Text.IndexOf(rest, " ");
    var nextPunctuation := SearchPunctuation(rest);
    FirstSpace(rest);
    if nextSpace != -1 && nextSpace <= 8 then
      nextSpace + 1
    else if nextPunctuation != -1 && nextPunctuation <= 5 then
      nextPunctuation + 1
    else
      GetRandomDelay(LiveConfig.chunkSize.min, LiveConfig.chunkSize.max, r)
  }

  /** The size is not cut to the text that is left: two characters without
      space or punctuation can be given a chunk of three. */
  lemma ChunkSizeNotClamped()
    ensures GetSmartChunkSize("ab", 0, 0.0) == 3
  {
    FirstSpace("ab");
    assert !SpaceWithin("ab", 8);
    assert !PunctuationWithin("ab", 5);
  }

  // ---------------------------------------------------------------------
  // Pauses
  // ---------------------------------------------------------------------

  /** The character before `i` is `c`. */
  predicate After(text: string, i: int, c: char)
  {
    1 <= i <= |text| && text[i - 1] == c
  }

  /** Position `i` sits between the two line breaks of a paragraph break. */
  predicate ParagraphBreakAt(text: string, i: int)
  {
    1 <= i < |text| && text[i - 1] == '\n' && text[i] == '\n'
  }

  /** Position `i` follows `.`, `!` or `?`. */
  predicate SentenceEndAt(text: string, i: int)
  {
    After(text, i, '.') || After(text, i, '!') || After(text, i, '?')
  }

  /** `shouldAddPause(text, currentIndex)`: the extra pause after the
      character before `currentIndex`. In smooth mode only a paragraph break
      or a sentence end pauses, for fixed ranges; otherwise a paragraph
      break, a sentence end and a lone line break pause for the configured
      ranges. */
  function ShouldAddPause(cfg: Config, text: string, currentIndex: int, r: real): (p: int)
    requires IsDraw(r)
    ensures currentIndex >= |text| ==> p == 0
    ensures p != 0 ==>
      currentIndex < |text|
      && (ParagraphBreakAt(text, currentIndex) || SentenceEndAt(text, currentIndex)
          || (!cfg.smoothMode && After(text, currentIndex, '\n')))
    ensures cfg.smoothMode && currentIndex < |text| ==>
      (ParagraphBreakAt(text, currentIndex) ==> 150 <= p <= 250)
      && (SentenceEndAt(text, currentIndex) ==> 80 <= p <= 150)
    ensures !cfg.smoothMode && cfg.Valid() && currentIndex < |text| ==>
      var pauses := cfg.punctuationPauses;
      (ParagraphBreakAt(text, currentIndex) ==> pauses.paragraph.Contains(p))
      && (After(text, currentIndex, '.') ==> pauses.period.Contains(p))
      && (After(text, currentIndex, '!') ==> pauses.exclamation.Contains(p))
      && (After(text, currentIndex, '?') ==> pauses.question.Contains(p))
      && (After(text, currentIndex, '\n') && !ParagraphBreakAt(text, currentIndex) ==> pauses.newLine.Contains(p))
  {
    if currentIndex >= |text| then 0
    else
      var ch := Text.CharAt(text, currentIndex - 1);
      var nextChars := Text.Slice(text, currentIndex, currentIndex + 3);
      assert ch.Some? ==> nextChars[0] == text[currentIndex];
      var paragraph := ch == Some('\n') && Text.StartsWith(nextChars, "\n");
      var sentenceEnd := ch == Some('.') || ch == Some('!') || ch == Some('?');
      if cfg.smoothMode then
        if paragraph then GetRandomDelay(150, 250, r)
        else if sentenceEnd then GetRandomDelay(80, 150, r)
        else 0
      else
        var pauses := cfg.punctuationPauses;
        if paragraph then
          GetRandomDelay(pauses.paragraph.min, pauses.paragraph.max, r)
        else if sentenceEnd then
          var range := if ch == Some('.') then pauses.period
                       else if ch == Some('!') then pauses.exclamation
                       else pauses.question;
          GetRandomDelay(range.min, range.max, r)
        else if ch == Some('\n') then
          GetRandomDelay(pauses.newLine.min, pauses.newLine.max, r)
        else 0
  }

  /** Commas, semicolons and colons never pause, in either mode. */
  lemma NoPauseAfterMinorPunctuation(cfg: Config, text: string, i: int, r: real)
    requires IsDraw(r)
    requires After(text, i, ',') || After(text, i, ';') || After(text, i, ':')
    ensures ShouldAddPause(cfg, text, i, r) == 0
  {
  }

  /** With the shipped settings a pause is positive exactly after a sentence
      end or inside a paragraph break, and never after a lone line break. */
  lemma LivePauses(text: string, i: int, r: real)
    requires IsDraw(r)
    ensures ShouldAddPause(LiveConfig, text, i, r) > 0 <==>
      i < |text| && (ParagraphBreakAt(text, i) || SentenceEndAt(text, i))
    ensures After(text, i, '\n') && !ParagraphBreakAt(text, i) ==> ShouldAddPause(LiveConfig, text, i, r) == 0
  {
  }
}
