/** The JavaScript string operations the core relies on (`startsWith`,
    `indexOf`, `includes`, `split`, `trim`, `toLowerCase`, `toUpperCase`),
    on strings as sequences of characters. */
module Text {
  import opened Wrappers

  /** `s.startsWith(p)`. */
  predicate StartsWith(s: string, p: string)
  {
    |p| <= |s| && s[..|p|] == p
  }

  /** `pat` occurs in `s` starting at index `j`. */
  predicate OccursAt(s: string, pat: string, j: int)
  {
    0 <= j && j + |pat| <= |s| && s[j..j + |pat|] == pat
  }

  /** `s.indexOf(pat)` for a non-empty pattern: the first index at which
      `pat` occurs, or -1 when it does not occur. */
  function IndexOf(s: string, pat: string): (r: int)
    requires |pat| > 0
    ensures -1 <= r
    ensures r >= 0 ==> OccursAt(s, pat, r)
    ensures forall j {:trigger OccursAt(s, pat, j)} :: 0 <= j && (r < 0 || j < r) ==> !OccursAt(s, pat, j)
    decreases |s|
  {
    if |s| < |pat| then -1
    else if s[..|pat|] == pat then 0
    else
      var r := IndexOf(s[1..], pat);
      ShiftOccurrence(s, pat);
      if r < 0 then -1 else r + 1
  }

  /** An occurrence at `j + 1` in `s` is an occurrence at `j` in `s[1..]`. */
  lemma ShiftOccurrence(s: string, pat: string)
    requires |s| > 0
    ensures forall j {:trigger OccursAt(s, pat, j)} :: 1 <= j ==> (OccursAt(s, pat, j) <==> OccursAt(s[1..], pat, j - 1))
  {
    forall j | 1 <= j
      ensures OccursAt(s, pat, j) <==> OccursAt(s[1..], pat, j - 1)
    {
      if j + |pat| <= |s| {
        assert s[1..][j - 1..j - 1 + |pat|] == s[j..j + |pat|];
      }
    }
  }

  /** An occurrence inside `p` stays an occurrence, at the same index, in
      any extension `p + c`; so does the absence of one that ends inside `p`. */
  lemma OccurrenceInPrefix(p: string, c: string, pat: string, j: int)
    requires 0 <= j && j + |pat| <= |p|
    ensures OccursAt(p + c, pat, j) <==> OccursAt(p, pat, j)
  {
    assert (p + c)[j..j + |pat|] == p[j..j + |pat|];
  }

  /** An occurrence inside the first `k` characters is an occurrence in the whole string. */
  lemma OccurrenceInTake(s: string, k: int, pat: string, j: int)
    requires 0 <= k <= |s| && OccursAt(s[..k], pat, j)
    ensures OccursAt(s, pat, j)
  {
    assert s[..k][j..j + |pat|] == s[j..j + |pat|];
  }

  /** The first occurrence of `pat` in `p` is also its first occurrence in `p + c`. */
  lemma IndexOfInPrefix(p: string, c: string, pat: string)
    requires |pat| > 0 && IndexOf(p, pat) >= 0
    ensures IndexOf(p + c, pat) == IndexOf(p, pat)
  {
    var i := IndexOf(p, pat);
    OccurrenceInPrefix(p, c, pat, i);
    var r := IndexOf(p + c, pat);
    if r >= 0 && r < i {
      OccurrenceInPrefix(p, c, pat, r);
      assert false;
    }
  }

  /** `s.includes(sub)`. */
  predicate Includes(s: string, sub: string)
  {
    |sub| == 0 || IndexOf(s, sub) >= 0
  }

  /** The parts joined back with `sep` between them: `parts.join(sep)`. */
  function Join(parts: seq<string>, sep: string): string
    requires |parts| > 0
  {
    if |parts| == 1 then parts[0] else parts[0] + sep + Join(parts[1..], sep)
  }

  /** `s.split(sep)` for a non-empty separator: the text between consecutive
      leftmost non-overlapping occurrences of `sep`, always at least one part. */
  function Split(s: string, sep: string): (parts: seq<string>)
    requires |sep| > 0
    ensures |parts| > 0
    ensures Join(parts, sep) == s
    ensures forall k :: 0 <= k < |parts| ==> IndexOf(parts[k], sep) < 0
    decreases |s|
  {
    var i := IndexOf(s, sep);
    if i < 0 then [s]
    else
      var rest := Split(s[i + |sep|..], sep);
      assert s == s[..i] + sep + s[i + |sep|..];
      NoEarlierOccurrence(s, sep, i);
      [s[..i]] + rest
  }

  /** The text before the first occurrence of `sep` contains no `sep`. */
  lemma NoEarlierOccurrence(s: string, sep: string, i: int)
    requires |sep| > 0 && i == IndexOf(s, sep) && i >= 0
    ensures IndexOf(s[..i], sep) < 0
  {
    var r := IndexOf(s[..i], sep);
    if r >= 0 {
      OccurrenceInTake(s, i, sep, r);
    }
  }

  /** A string with no occurrence of `sep` splits into itself alone. */
  lemma SplitNone(s: string, sep: string)
    requires |sep| > 0
    requires forall j {:trigger OccursAt(s, sep, j)} :: 0 <= j < |s| ==> !OccursAt(s, sep, j)
    ensures Split(s, sep) == [s]
  {
  }

  /** When `a` holds no occurrence of `sep`, not even one running into the
      `sep` after it, `a + sep + b` splits into `a` and then the parts of `b`. */
  lemma SplitCons(a: string, b: string, sep: string)
    requires |sep| > 0
    requires forall j {:trigger OccursAt(a + sep + b, sep, j)} :: 0 <= j < |a| ==> !OccursAt(a + sep + b, sep, j)
    ensures Split(a + sep + b, sep) == [a] + Split(b, sep)
  {
    var s := a + sep + b;
    assert OccursAt(s, sep, |a|) by {
      assert s[|a|..|a| + |sep|] == sep;
    }
    var i := IndexOf(s, sep);
    assert i == |a|;
    assert s[..i] == a;
    assert s[i + |sep|..] == b;
  }

  /** A one-character pattern occurs exactly where that character stands. */
  lemma CharOccurs(s: string, c: char, j: int)
    ensures OccursAt(s, [c], j) <==> 0 <= j < |s| && s[j] == c
  {
    if 0 <= j < |s| {
      assert s[j..j + 1] == [s[j]];
    }
  }

  /** The last element of a non-empty sequence. */
  function Last<T>(xs: seq<T>): T
    requires |xs| > 0
  {
    xs[|xs| - 1]
  }

  /** The first part of a split of a text extended by `c`, when `sep`
      already occurs in the text. */
  lemma SplitExtended(p: string, c: string, sep: string)
    requires |sep| > 0 && IndexOf(p, sep) >= 0
    ensures var i := IndexOf(p, sep);
            Split(p + c, sep) == [p[..i]] + Split(p[i + |sep|..] + c, sep)
  {
    var i := IndexOf(p, sep);
    IndexOfInPrefix(p, c, sep);
    SplitFirst(p + c, sep);
    SliceOfAppend(p, c, i, i + |sep|);
  }

  /** Cutting `p + c` at two indices inside `p`. */
  lemma SliceOfAppend(p: string, c: string, i: int, j: int)
    requires 0 <= i <= j <= |p|
    ensures (p + c)[..i] == p[..i]
    ensures (p + c)[j..] == p[j..] + c
  {
  }

  /** Splitting is resumable: splitting `p + c` gives the complete parts of `p`
      followed by the split of `p`'s trailing part extended by `c`. */
  lemma {:induction false} SplitAppend(p: string, c: string, sep: string)
    requires |sep| > 0
    ensures Split(p + c, sep) == Split(p, sep)[..|Split(p, sep)| - 1] + Split(Last(Split(p, sep)) + c, sep)
    decreases |p|
  {
    var i := IndexOf(p, sep);
    SplitFirst(p, sep);
    if i >= 0 {
      var tail := p[i + |sep|..];
      SplitExtended(p, c, sep);
      SplitAppend(tail, c, sep);
      ConsParts(p[..i], Split(tail, sep), Split(p, sep), Split(tail + c, sep), Split(Last(Split(tail, sep)) + c, sep));
    } else {
      assert Split(p, sep)[..0] == [];
    }
  }

  /** One step of `Split`: the whole string when `sep` does not occur, else
      the text before the first `sep` and then the parts after it. */
  lemma SplitFirst(s: string, sep: string)
    requires |sep| > 0
    ensures IndexOf(s, sep) < 0 ==> Split(s, sep) == [s]
    ensures IndexOf(s, sep) >= 0 ==>
      Split(s, sep) == [s[..IndexOf(s, sep)]] + Split(s[IndexOf(s, sep) + |sep|..], sep)
  {
  }

  /** `SplitAppend` in terms of the complete parts and the trailing part. */
  lemma SplitAppendParts(p: string, c: string, sep: string)
    requires |sep| > 0
    ensures var whole, tail := Split(p + c, sep), Split(Last(Split(p, sep)) + c, sep);
            whole[..|whole| - 1] == Split(p, sep)[..|Split(p, sep)| - 1] + tail[..|tail| - 1]
            && Last(whole) == Last(tail)
  {
    var parts := Split(p, sep);
    var tail := Split(Last(parts) + c, sep);
    SplitAppend(p, c, sep);
    InitOfAppend(parts[..|parts| - 1], tail);
  }

  /** Dropping the last element of `xs + ys`, for a non-empty `ys`. */
  lemma InitOfAppend<T>(xs: seq<T>, ys: seq<T>)
    requires |ys| > 0
    ensures (xs + ys)[..|xs + ys| - 1] == xs + ys[..|ys| - 1]
    ensures Last(xs + ys) == Last(ys)
  {
  }

  /** The bookkeeping step of `SplitAppend`, on part lists alone. */
  lemma ConsParts(first: string, tailParts: seq<string>, parts: seq<string>, extended: seq<string>, lastParts: seq<string>)
    requires |tailParts| > 0 && parts == [first] + tailParts
    requires extended == tailParts[..|tailParts| - 1] + lastParts
    ensures [first] + extended == parts[..|parts| - 1] + lastParts
    ensures Last(parts) == Last(tailParts)
  {
    assert parts[..|parts| - 1] == [first] + tailParts[..|tailParts| - 1];
  }

  /** All parts concatenated with nothing in between. */
  function Concat(parts: seq<string>): string
  {
    if |parts| == 0 then "" else parts[0] + Concat(parts[1..])
  }

  lemma {:induction false} ConcatAppend(a: seq<string>, b: seq<string>)
    ensures Concat(a + b) == Concat(a) + Concat(b)
  {
    if |a| > 0 {
      assert (a + b)[1..] == a[1..] + b;
      ConcatAppend(a[1..], b);
    } else {
      assert a + b == b;
    }
  }

  /** ECMAScript WhiteSpace and LineTerminator code points, the ones `trim` removes. */
  predicate IsJsWhitespace(c: char)
  {
    c == '\t' || c == '\n' || c == '\r' || c == ' '
    || c as int == 0x0B || c as int == 0x0C || c as int == 0xA0
    || c as int == 0x1680 || (0x2000 <= c as int <= 0x200A)
    || c as int == 0x2028 || c as int == 0x2029 || c as int == 0x202F
    || c as int == 0x205F || c as int == 0x3000 || c as int == 0xFEFF
  }

  /** `!s.trim()`: nothing but whitespace (or nothing at all). */
  predicate IsBlank(s: string)
  {
    forall i | 0 <= i < |s| :: IsJsWhitespace(s[i])
  }

  /** Lower-case of one character, for the ASCII letters. */
  function LowerChar(c: char): char
  {
    if 'A' <= c <= 'Z' then (c as int - 'A' as int + 'a' as int) as char else c
  }

  /** Upper-case of one character, for the ASCII letters. */
  function UpperChar(c: char): char
  {
    if 'a' <= c <= 'z' then (c as int - 'a' as int + 'A' as int) as char else c
  }

  /** `s.toLowerCase()`. */
  function Lower(s: string): (r: string)
    ensures |r| == |s|
    ensures forall i :: 0 <= i < |s| ==> r[i] == LowerChar(s[i])
  {
    seq(|s|, i requires 0 <= i < |s| => LowerChar(s[i]))
  }

  /** `s.toUpperCase()`. */
  function Upper(s: string): (r: string)
    ensures |r| == |s|
    ensures forall i :: 0 <= i < |s| ==> r[i] == UpperChar(s[i])
  {
    seq(|s|, i requires 0 <= i < |s| => UpperChar(s[i]))
  }

  /** A JavaScript index argument of `slice`: negative counts from the end,
      and the result is clamped to `[0, n]`. */
  function SliceIndex(i: int, n: nat): (k: nat)
    ensures k <= n
    ensures 0 <= i <= n ==> k == i
  {
    if i < 0 then (if n + i < 0 then 0 else n + i)
    else if i > n then n
    else i
  }

  /** `s.slice(start, end)`. */
  function Slice(s: string, start: int, end: int): (r: string)
    ensures 0 <= start <= end <= |s| ==> r == s[start..end]
    ensures 0 <= start <= |s| <= end ==> r == s[start..]
    ensures |r| <= |s|
  {
    var from := SliceIndex(start, |s|);
    var to := SliceIndex(end, |s|);
    if from < to then s[from..to] else ""
  }

  /** `s[i]`: `undefined` outside the string. */
  function CharAt(s: string, i: int): (r: Option<char>)
    ensures r.Some? <==> 0 <= i < |s|
    ensures r.Some? ==> r.value == s[i]
  {
    if 0 <= i < |s| then Some(s[i]) else None
  }
}
