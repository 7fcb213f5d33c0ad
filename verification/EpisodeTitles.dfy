/**
 How titles are read. Each notation is a grammar of its own, in the characters that stand in the
 title; the recogniser finds exactly the first reading of the first notation that has one.
 */
module EpisodeTitles {
  import opened Wrappers
  import opened Text
  import opened Decimal
  import opened Episode

  // --------------------------------------------------------------------- numbers

  predicate Digit(c: char) { c in "0123456789" }

  predicate Letter(c: char) { 'a' <= c <= 'z' || 'A' <= c <= 'Z' }

  /** A run of digits that nothing extends, from `i` to `j`. */
  predicate DigitRun(s: string, i: nat, j: nat) {
    i < j <= |s| && (forall k :: i <= k < j ==> Digit(s[k])) && (j < |s| ==> !Digit(s[j]))
  }

  lemma DigitIsDigit(c: char)
    ensures Digit(c) <==> IsDigit(c)
  {
  }

  lemma DigitsBetween(s: string, i: nat, j: nat)
    requires i <= j <= |s|
    ensures AllDigits(s[i..j]) <==> forall k :: i <= k < j ==> Digit(s[k])
  {
    hide Digit, IsDigit;
    forall k | i <= k < j ensures s[i..j][k - i] == s[k] && (Digit(s[k]) <==> IsDigit(s[k])) {
      DigitIsDigit(s[k]);
    }
    if AllDigits(s[i..j]) {
      forall k | i <= k < j ensures Digit(s[k]) {
        assert IsDigit(s[i..j][k - i]);
      }
    }
  }

  lemma DigitRunIff(s: string, i: nat, j: nat)
    requires i <= |s|
    ensures DigitRun(s, i, j) <==> i < j && j == DigitsEnd(s, i)
    ensures DigitRun(s, i, j) ==> AllDigits(s[i..j])
  {
    if i <= j <= |s| {
      DigitsBetween(s, i, j);
      hide Digit, IsDigit;
      assert j < |s| ==> (Digit(s[j]) <==> IsDigit(s[j])) by {
        if j < |s| {
          DigitIsDigit(s[j]);
        }
      }
      if DigitRun(s, i, j) {
        DigitsEndIs(s, i, j);
      }
    }
  }

  /** The decimal number from `i` to `j`; numbers beyond 32 bits read as the largest. */
  predicate Number(s: string, i: nat, n: nat, j: nat) {
    && DigitRun(s, i, j) && AllDigits(s[i..j])
    && n == if Value(s[i..j]) > 0xFFFF_FFFF then 0xFFFF_FFFF else Value(s[i..j])
  }

  lemma NumberIff(s: string, i: nat, n: nat, j: nat)
    requires i <= |s|
    ensures Number(s, i, n, j) <==> NumberAt(s, i) == Some((n, j))
  {
    DigitRunIff(s, i, j);
    DigitRunIff(s, i, DigitsEnd(s, i));
  }

  /** The same, but numbers beyond 32 bits are none. */
  predicate SmallNumber(s: string, i: nat, n: nat, j: nat) {
    DigitRun(s, i, j) && AllDigits(s[i..j]) && n == Value(s[i..j]) <= 0xFFFF_FFFF
  }

  lemma SmallNumberIff(s: string, i: nat, n: nat, j: nat)
    requires i <= |s|
    ensures SmallNumber(s, i, n, j) <==> ExactNumberAt(s, i) == Some((n, j))
  {
    DigitRunIff(s, i, j);
    DigitRunIff(s, i, DigitsEnd(s, i));
  }

  // ------------------------------------------------------------------------ runs

  /** From `i` to `j` all are among the marks, and what follows is not. */
  predicate MarkRun(s: string, i: nat, marks: string, j: nat) {
    i <= j <= |s| && (forall k :: i <= k < j ==> s[k] in marks) && (j < |s| ==> s[j] !in marks)
  }

  /** From `i` to `j` all are white space, and what follows is not. */
  predicate BlankRun(s: string, i: nat, j: nat) {
    i <= j <= |s| && (forall k :: i <= k < j ==> IsWhitespace(s[k])) && (j < |s| ==> !IsWhitespace(s[j]))
  }

  lemma {:induction false} SkipWhileIff(s: string, i: nat, p: char -> bool, j: nat)
    requires i <= |s|
    ensures SkipWhile(s, i, p) == j <==>
      i <= j <= |s| && (forall k :: i <= k < j ==> p(s[k])) && (j < |s| ==> !p(s[j]))
    decreases |s| - i
  {
    if i < |s| && p(s[i]) {
      SkipWhileIff(s, i + 1, p, j);
    }
  }

  lemma SeparatorRunIff(s: string, i: nat, j: nat)
    requires i <= |s|
    ensures MarkRun(s, i, "._- []", j) <==> SkipWhile(s, i, IsSeparator) == j
  {
    SkipWhileIff(s, i, IsSeparator, j);
    assert forall c :: c in "._- []" <==> IsSeparator(c);
  }

  lemma RangeRunIff(s: string, i: nat, j: nat)
    requires i <= |s|
    ensures MarkRun(s, i, "-_~ ", j) <==> SkipWhile(s, i, IsRangeSeparator) == j
  {
    SkipWhileIff(s, i, IsRangeSeparator, j);
    assert forall c :: c in "-_~ " <==> IsRangeSeparator(c);
  }

  lemma BlankRunIff(s: string, i: nat, j: nat)
    requires i <= |s|
    ensures BlankRun(s, i, j) <==> SkipWhile(s, i, IsWhitespace) == j
  {
    SkipWhileIff(s, i, IsWhitespace, j);
  }

  predicate Stands(s: string, i: nat, c: char) {
    i < |s| && s[i] == c
  }

  /** One `c`, or none if there is none. */
  predicate Optional(s: string, i: nat, c: char, j: nat) {
    j == if i < |s| && s[i] == c then i + 1 else i
  }

  // ------------------------------------------------------------------ range ends

  /** `e`, or a run of `-_~ ` and then perhaps `e` and perhaps `p`. */
  ghost predicate RangeMark(s: string, i: nat, j: nat) {
    if Stands(s, i, 'e') then j == i + 1
    else exists k: nat, l: nat :: k > i && MarkRun(s, i, "-_~ ", k) && Optional(s, k, 'e', l) && Optional(s, l, 'p', j)
  }

  /** A positive number behind such a mark, which neither a letter nor a digit follows. */
  ghost predicate EndsRange(s: string, i: nat, n: nat) {
    exists j: nat, k: nat :: RangeMark(s, i, j) && Number(s, j, n, k) && n > 0 && (k < |s| ==> !Letter(s[k]) && !Digit(s[k]))
  }

  /** The end of the range that begins with the number before `i`, if it has one. */
  ghost predicate Continues(s: string, i: nat, end: Option<nat>) {
    match end case Some(n) => EndsRange(s, i, n) case None => forall n: nat :: !EndsRange(s, i, n)
  }

  lemma ClosingNumberIff(s: string, i: nat, n: nat)
    requires i <= |s|
    ensures ClosingNumber(s, i) == Some(n) <==>
      exists k: nat :: Number(s, i, n, k) && n > 0 && (k < |s| ==> !Letter(s[k]) && !Digit(s[k]))
  {
    hide NumberAt, Number;
    if ClosingNumber(s, i) == Some(n) {
      var k := NumberAt(s, i).value.1;
      NumberIff(s, i, n, k);
    }
    if k: nat :| Number(s, i, n, k) && n > 0 && (k < |s| ==> !Letter(s[k]) && !Digit(s[k])) {
      NumberIff(s, i, n, k);
    }
  }

  /** Where the number of a range end begins. */
  function AfterMark(s: string, i: nat): (r: Option<nat>)
    requires i <= |s|
    ensures r.Some? ==> i < r.value <= |s|
  {
    if CharAt(s, i, 'e') then Some(i + 1)
    else if i == |s| || !IsRangeSeparator(s[i]) then None
    else Some(SkipChar(s, SkipChar(s, SkipWhile(s, i + 1, IsRangeSeparator), 'e'), 'p'))
  }

  lemma AfterMarkIff(s: string, i: nat, j: nat)
    requires i <= |s|
    ensures AfterMark(s, i) == Some(j) <==> RangeMark(s, i, j)
  {
    hide SkipWhile;
    if !CharAt(s, i, 'e') {
      if AfterMark(s, i) == Some(j) {
        var k := SkipWhile(s, i + 1, IsRangeSeparator);
        SameRun(s, i);
        RangeRunIff(s, i, k);
        assert Optional(s, k, 'e', SkipChar(s, k, 'e'));
        assert Optional(s, SkipChar(s, k, 'e'), 'p', j);
      }
      if k: nat, l: nat :| k > i && MarkRun(s, i, "-_~ ", k) && Optional(s, k, 'e', l) && Optional(s, l, 'p', j) {
        RangeRunIff(s, i, k);
        assert IsRangeSeparator(s[i]) by { assert s[i] in "-_~ "; }
        SameRun(s, i);
      }
    }
  }

  lemma SameRun(s: string, i: nat)
    requires i < |s| && IsRangeSeparator(s[i])
    ensures SkipWhile(s, i, IsRangeSeparator) == SkipWhile(s, i + 1, IsRangeSeparator)
  {
  }

  lemma RangeEndByMark(s: string, i: nat)
    requires i <= |s|
    ensures RangeEnd(s, i) == match AfterMark(s, i) case None => None case Some(j) => ClosingNumber(s, j)
  {
    hide SkipWhile, ClosingNumber;
    if i < |s| && IsRangeSeparator(s[i]) {
      SameRun(s, i);
    }
  }

  lemma EndsRangeIff(s: string, i: nat, n: nat)
    requires i <= |s|
    ensures EndsRange(s, i, n) <==> RangeEnd(s, i) == Some(n)
  {
    hide RangeMark, RangeEnd, AfterMark, ClosingNumber, Number;
    RangeEndByMark(s, i);
    if AfterMark(s, i).Some? {
      var j := AfterMark(s, i).value;
      AfterMarkIff(s, i, j);
      ClosingNumberIff(s, j, n);
    }
    if j: nat, k: nat :| RangeMark(s, i, j) && Number(s, j, n, k) && n > 0 && (k < |s| ==> !Letter(s[k]) && !Digit(s[k])) {
      AfterMarkIff(s, i, j);
      ClosingNumberIff(s, j, n);
    }
  }

  lemma ContinuesIff(s: string, i: nat, end: Option<nat>)
    requires i <= |s|
    ensures Continues(s, i, end) <==> RangeEnd(s, i) == end
  {
    hide EndsRange, RangeEnd;
    forall n: nat ensures EndsRange(s, i, n) <==> RangeEnd(s, i) == Some(n) {
      EndsRangeIff(s, i, n);
    }
  }

  // ------------------------------------------------------------ the five notations

  /** `s`, a number, separators, `e`, a number: both positive, and nothing alphanumeric before. */
  ghost predicate ReadsSeasonEpisode(s: string, i: nat, season: nat, episode: nat, end: Option<nat>) {
    && Stands(s, i, 's') && (i > 0 ==> !Letter(s[i - 1]) && !Digit(s[i - 1])) && season > 0 && episode > 0
    && exists j: nat, e: nat, k: nat :: Number(s, i + 1, season, j) && MarkRun(s, j, "._- []", e) && Stands(s, e, 'e')
                      && Number(s, e + 1, episode, k) && Continues(s, k, end)
  }

  lemma SeasonEpisodeIff(s: string, i: nat, season: nat, episode: nat, end: Option<nat>)
    requires i < |s|
    ensures ReadsSeasonEpisode(s, i, season, episode, end) <==> SeasonEpisodeAt(s, i) == Some((season, episode, end))
  {
    hide Number, NumberAt, MarkRun, SkipWhile, Continues, RangeEnd;
    if SeasonEpisodeAt(s, i) == Some((season, episode, end)) {
      var j := NumberAt(s, i + 1).value.1;
      var e := SkipWhile(s, j, IsSeparator);
      var k := NumberAt(s, e + 1).value.1;
      NumberIff(s, i + 1, season, j);
      SeparatorRunIff(s, j, e);
      NumberIff(s, e + 1, episode, k);
      ContinuesIff(s, k, end);
    }
    if ReadsSeasonEpisode(s, i, season, episode, end) {
      var j: nat, e: nat, k: nat :| Number(s, i + 1, season, j) && MarkRun(s, j, "._- []", e) && Stands(s, e, 'e')
                  && Number(s, e + 1, episode, k) && Continues(s, k, end);
      NumberIff(s, i + 1, season, j);
      SeparatorRunIff(s, j, e);
      NumberIff(s, e + 1, episode, k);
      ContinuesIff(s, k, end);
    }
  }

  /** `e` or `ep` and a positive number, with no letter before. */
  ghost predicate ReadsEpisode(s: string, i: nat, episode: nat, end: Option<nat>) {
    && Stands(s, i, 'e') && (i > 0 ==> !Letter(s[i - 1])) && episode > 0
    && exists j: nat, k: nat :: Optional(s, i + 1, 'p', j) && Number(s, j, episode, k) && Continues(s, k, end)
  }

  lemma EpisodeIff(s: string, i: nat, episode: nat, end: Option<nat>)
    requires i < |s|
    ensures ReadsEpisode(s, i, episode, end) <==> EpisodeAt(s, i) == Some((episode, end))
  {
    hide Number, NumberAt, Continues, RangeEnd;
    if EpisodeAt(s, i) == Some((episode, end)) {
      var j := SkipChar(s, i + 1, 'p');
      var k := NumberAt(s, j).value.1;
      NumberIff(s, j, episode, k);
      ContinuesIff(s, k, end);
      assert Optional(s, i + 1, 'p', j);
    }
    if ReadsEpisode(s, i, episode, end) {
      var j: nat, k: nat :| Optional(s, i + 1, 'p', j) && Number(s, j, episode, k) && Continues(s, k, end);
      NumberIff(s, j, episode, k);
      ContinuesIff(s, k, end);
    }
  }

  /** `第`, a number, perhaps `集`, and perhaps a range mark with a second number, perhaps behind another `第`. */
  ghost predicate ReadsChinese(s: string, i: nat, start: nat, end: Option<nat>) {
    && Stands(s, i, '第')
    && exists j: nat, k: nat, m: nat :: SmallNumber(s, i + 1, start, j) && Optional(s, j, '集', k) && BlankRun(s, k, m) && ReadsChineseEnd(s, m, end)
  }

  ghost predicate ReadsChineseEnd(s: string, m: nat, end: Option<nat>) {
    if m >= |s| || s[m] !in "-~至到" then end == None
    else end.Some? && exists b: nat, d: nat, z: nat :: BlankRun(s, m + 1, b) && Optional(s, b, '第', d) && SmallNumber(s, d, end.value, z)
  }

  lemma ChineseEndIff(s: string, start: nat, j: nat, k: nat, m: nat, end: Option<nat>)
    requires j <= |s| && Optional(s, j, '集', k) && BlankRun(s, k, m)
    ensures ReadsChineseEnd(s, m, end) <==> ChineseRest(s, start, j) == Some((start, end))
  {
    hide SmallNumber, ExactNumberAt, SkipWhile, BlankRun;
    BlankRunIff(s, k, m);
    assert m < |s| ==> (s[m] in "-~至到" <==> IsChineseRange(s[m]));
    if m < |s| && s[m] in "-~至到" {
      var b := SkipWhile(s, m + 1, IsWhitespace);
      var d := SkipChar(s, b, '第');
      BlankRunIff(s, m + 1, b);
      assert Optional(s, b, '第', d);
      if ChineseRest(s, start, j) == Some((start, end)) {
        SmallNumberIff(s, d, end.value, ExactNumberAt(s, d).value.1);
      }
      if ReadsChineseEnd(s, m, end) {
        var b': nat, d': nat, z: nat :| BlankRun(s, m + 1, b') && Optional(s, b', '第', d') && SmallNumber(s, d', end.value, z);
        BlankRunIff(s, m + 1, b');
        SmallNumberIff(s, d', end.value, z);
      }
    }
  }

  lemma ChineseIff(s: string, i: nat, start: nat, end: Option<nat>)
    requires i < |s|
    ensures ReadsChinese(s, i, start, end) <==> ChineseEpisodeAt(s, i) == Some(Some((start, end)))
  {
    hide SmallNumber, ExactNumberAt, BlankRun, ReadsChineseEnd, SkipWhile;
    if ChineseEpisodeAt(s, i) == Some(Some((start, end))) {
      var j := ExactNumberAt(s, i + 1).value.1;
      var k := SkipChar(s, j, '集');
      var m := SkipWhile(s, k, IsWhitespace);
      ChineseStartIs(s, i, start, end);
      SmallNumberIff(s, i + 1, start, j);
      BlankRunIff(s, k, m);
      assert Optional(s, j, '集', k);
      ChineseEndIff(s, start, j, k, m, end);
    }
    if ReadsChinese(s, i, start, end) {
      var j: nat, k: nat, m: nat :| SmallNumber(s, i + 1, start, j) && Optional(s, j, '集', k) && BlankRun(s, k, m) && ReadsChineseEnd(s, m, end);
      SmallNumberIff(s, i + 1, start, j);
      hide ChineseRest;
      ChineseEndIff(s, start, j, k, m, end);
    }
  }

  lemma ChineseStartIs(s: string, i: nat, start: nat, end: Option<nat>)
    requires i < |s| && ChineseEpisodeAt(s, i) == Some(Some((start, end)))
    ensures ExactNumberAt(s, i + 1).Some? && ExactNumberAt(s, i + 1).value.0 == start
  {
    hide ExactNumberAt, SkipWhile;
  }

  /** `[`, a positive number, perhaps `-` or `~` and a second number, and `]`. */
  ghost predicate ReadsBracket(s: string, i: nat, start: nat, end: Option<nat>) {
    && Stands(s, i, '[') && start > 0
    && exists j: nat :: Number(s, i + 1, start, j) && ReadsBracketEnd(s, j, end)
  }

  ghost predicate ReadsBracketEnd(s: string, j: nat, end: Option<nat>) {
    match end
    case None => Stands(s, j, ']')
    case Some(n) => (Stands(s, j, '-') || Stands(s, j, '~')) && exists k: nat :: Number(s, j + 1, n, k) && Stands(s, k, ']')
  }

  lemma BracketIff(s: string, i: nat, start: nat, end: Option<nat>)
    requires i < |s|
    ensures ReadsBracket(s, i, start, end) <==> BracketEpisodeAt(s, i) == Some((start, end))
  {
    hide Number, NumberAt;
    if BracketEpisodeAt(s, i) == Some((start, end)) {
      var j := NumberAt(s, i + 1).value.1;
      NumberIff(s, i + 1, start, j);
      if end.Some? {
        var k := NumberAt(s, j + 1).value.1;
        NumberIff(s, j + 1, end.value, k);
        assert Number(s, j + 1, end.value, k) && Stands(s, k, ']');
      }
      assert Number(s, i + 1, start, j) && ReadsBracketEnd(s, j, end);
    }
    if ReadsBracket(s, i, start, end) {
      var j: nat :| Number(s, i + 1, start, j) && ReadsBracketEnd(s, j, end);
      NumberIff(s, i + 1, start, j);
      if end.Some? {
        var k: nat :| Number(s, j + 1, end.value, k) && Stands(s, k, ']');
        NumberIff(s, j + 1, end.value, k);
      }
    }
  }

  /** One of the words for a whole season. */
  ghost predicate NamesPack(s: string) {
    exists word :: PackWord(word) && Contains(s, word)
  }

  predicate PackWord(word: string) {
    || word == "complete" || word == "season pack" || word == "full season" || word == "batch" || word == "collection"
    || word == "全季" || word == "全集" || word == "合集" || word == "整季"
  }

  lemma NamesPackIff(s: string)
    ensures NamesPack(s) <==> MentionsPack(s)
  {
    hide Contains;
  }

  /** `s` and a positive number that no `e` follows; at the very end only in a title that names a pack. */
  ghost predicate ReadsPack(s: string, i: nat, season: nat) {
    && Stands(s, i, 's') && (i > 0 ==> !Letter(s[i - 1]) && !Digit(s[i - 1])) && season > 0
    && exists j: nat :: Number(s, i + 1, season, j) && !Stands(s, j, 'e') && (j < |s| || NamesPack(s))
  }

  lemma PackIff(s: string, i: nat, season: nat)
    requires i < |s|
    ensures ReadsPack(s, i, season) <==> SeasonPackAt(s, i) == Some(season)
  {
    hide Number, NumberAt, MentionsPack, NamesPack;
    NamesPackIff(s);
    if SeasonPackAt(s, i) == Some(season) {
      var j := NumberAt(s, i + 1).value.1;
      NumberIff(s, i + 1, season, j);
      assert Number(s, i + 1, season, j) && !Stands(s, j, 'e') && (j < |s| || NamesPack(s));
    }
    if ReadsPack(s, i, season) {
      var j: nat :| Number(s, i + 1, season, j) && !Stands(s, j, 'e') && (j < |s| || NamesPack(s));
      NumberIff(s, i + 1, season, j);
    }
  }

  // ---------------------------------------------------------------- first readings

  type Reading<!T> = (string, nat, T) -> bool

  ghost predicate FirstReading<T(!new)>(s: string, reading: Reading<T>, i: nat, v: T) {
    reading(s, i, v) && forall k: nat, w :: k < i ==> !reading(s, k, w)
  }

  /** The text has a reading, and the first says `v`. */
  ghost predicate First<T(!new)>(s: string, reading: Reading<T>, v: T) {
    exists i: nat :: FirstReading(s, reading, i, v)
  }

  ghost predicate Nowhere<T(!new)>(s: string, reading: Reading<T>) {
    forall k: nat, w :: !reading(s, k, w)
  }

  ghost predicate Finds<T(!new)>(s: string, reading: Reading<T>, at: (string, nat) -> Option<T>) {
    && (forall k: nat, w :: reading(s, k, w) ==> k < |s|)
    && (forall k: nat, w :: k < |s| ==> (reading(s, k, w) <==> at(s, k) == Some(w)))
  }

  lemma {:induction false} FoundFirst<T(!new)>(s: string, i: nat, reading: Reading<T>, at: (string, nat) -> Option<T>)
    requires i <= |s| && Finds(s, reading, at) && forall k: nat, w :: k < i ==> !reading(s, k, w)
    ensures FirstFrom(s, i, at).Some? ==> First(s, reading, FirstFrom(s, i, at).value)
    ensures FirstFrom(s, i, at) == None ==> Nowhere(s, reading)
    decreases |s| - i
  {
    if i < |s| {
      if at(s, i).Some? {
        assert FirstReading(s, reading, i, at(s, i).value);
      } else {
        assert forall w :: !reading(s, i, w);
        FoundFirst(s, i + 1, reading, at);
      }
    }
  }

  lemma FirstIsOne<T(!new)>(s: string, reading: Reading<T>, at: (string, nat) -> Option<T>, v: T, w: T)
    requires Finds(s, reading, at) && First(s, reading, v) && First(s, reading, w)
    ensures v == w
  {
    var i: nat :| FirstReading(s, reading, i, v);
    var j: nat :| FirstReading(s, reading, j, w);
    assert i == j;
  }

  /** The search finds exactly the first reading. */
  lemma FirstFromIff<T(!new)>(s: string, reading: Reading<T>, at: (string, nat) -> Option<T>, v: T)
    requires Finds(s, reading, at)
    ensures FirstFrom(s, 0, at) == Some(v) <==> First(s, reading, v)
    ensures FirstFrom(s, 0, at) == None <==> Nowhere(s, reading)
  {
    FoundFirst(s, 0, reading, at);
    if First(s, reading, v) {
      var i: nat :| FirstReading(s, reading, i, v);
      if FirstFrom(s, 0, at).Some? {
        FirstIsOne(s, reading, at, v, FirstFrom(s, 0, at).value);
      }
    }
    if FirstFrom(s, 0, at).Some? {
      var i: nat :| FirstReading(s, reading, i, FirstFrom(s, 0, at).value);
    }
  }

  type Numbered = (nat, Option<nat>)

  type Seasonal = (nat, nat, Option<nat>)

  ghost function SeasonEpisodes(): Reading<Seasonal> {
    (s: string, i: nat, v: Seasonal) => ReadsSeasonEpisode(s, i, v.0, v.1, v.2)
  }

  ghost function Episodes(): Reading<Numbered> {
    (s: string, i: nat, v: Numbered) => ReadsEpisode(s, i, v.0, v.1)
  }

  ghost function Brackets(): Reading<Numbered> {
    (s: string, i: nat, v: Numbered) => ReadsBracket(s, i, v.0, v.1)
  }

  ghost function Packs(): Reading<nat> {
    (s: string, i: nat, v: nat) => ReadsPack(s, i, v)
  }

  lemma SeasonEpisodesFound(s: string, v: Seasonal)
    ensures FirstFrom(s, 0, SeasonEpisodeAt) == Some(v) <==> First(s, SeasonEpisodes(), v)
    ensures FirstFrom(s, 0, SeasonEpisodeAt) == None <==> Nowhere(s, SeasonEpisodes())
  {
    hide SeasonEpisodeAt, First, Nowhere;
    var reading := SeasonEpisodes();
    forall k: nat, w: Seasonal | k < |s| ensures reading(s, k, w) <==> SeasonEpisodeAt(s, k) == Some(w) {
      SeasonEpisodeIff(s, k, w.0, w.1, w.2);
    }
    FirstFromIff(s, reading, SeasonEpisodeAt, v);
  }

  lemma EpisodesFound(s: string, v: Numbered)
    ensures FirstFrom(s, 0, EpisodeAt) == Some(v) <==> First(s, Episodes(), v)
    ensures FirstFrom(s, 0, EpisodeAt) == None <==> Nowhere(s, Episodes())
  {
    hide EpisodeAt, First, Nowhere;
    var reading := Episodes();
    forall k: nat, w: Numbered | k < |s| ensures reading(s, k, w) <==> EpisodeAt(s, k) == Some(w) {
      EpisodeIff(s, k, w.0, w.1);
    }
    FirstFromIff(s, reading, EpisodeAt, v);
  }

  lemma BracketsFound(s: string, v: Numbered)
    ensures FirstFrom(s, 0, BracketEpisodeAt) == Some(v) <==> First(s, Brackets(), v)
    ensures FirstFrom(s, 0, BracketEpisodeAt) == None <==> Nowhere(s, Brackets())
  {
    hide BracketEpisodeAt, First, Nowhere;
    var reading := Brackets();
    forall k: nat, w: Numbered | k < |s| ensures reading(s, k, w) <==> BracketEpisodeAt(s, k) == Some(w) {
      BracketIff(s, k, w.0, w.1);
    }
    FirstFromIff(s, reading, BracketEpisodeAt, v);
  }

  lemma PacksFound(s: string, v: nat)
    ensures FirstFrom(s, 0, SeasonPackAt) == Some(v) <==> First(s, Packs(), v)
    ensures FirstFrom(s, 0, SeasonPackAt) == None <==> Nowhere(s, Packs())
  {
    hide SeasonPackAt, First, Nowhere;
    var reading := Packs();
    forall k: nat, w: nat | k < |s| ensures reading(s, k, w) <==> SeasonPackAt(s, k) == Some(w) {
      PackIff(s, k, w);
    }
    FirstFromIff(s, reading, SeasonPackAt, v);
  }

  /** Only the first `第` counts, whether or not it can be read. */
  ghost predicate ChineseSays(s: string, start: nat, end: Option<nat>) {
    exists i: nat :: i < |s| && '第' !in s[..i] && ReadsChinese(s, i, start, end)
  }

  ghost predicate NoChinese(s: string) {
    forall start: nat, end :: !ChineseSays(s, start, end)
  }

  lemma {:induction false} FirstMark(s: string, i: nat) returns (k: nat)
    requires i <= |s| && '第' !in s[..i]
    ensures i <= k <= |s| && '第' !in s[..k] && (k < |s| ==> s[k] == '第')
    ensures FirstFrom(s, i, ChineseEpisodeAt) == if k < |s| then ChineseEpisodeAt(s, k) else None
    decreases |s| - i
  {
    hide ReadsChinese, ExactNumberAt, ChineseRest;
    if i == |s| || s[i] == '第' {
      k := i;
    } else {
      assert s[..i + 1] == s[..i] + [s[i]];
      k := FirstMark(s, i + 1);
    }
  }

  lemma ChineseFound(s: string, start: nat, end: Option<nat>)
    ensures ChineseEpisode(s) == Some((start, end)) <==> ChineseSays(s, start, end)
  {
    hide ReadsChinese, ChineseEpisodeAt;
    var k := FirstMark(s, 0);
    if k < |s| {
      ChineseIff(s, k, start, end);
    }
    if i: nat :| i < |s| && '第' !in s[..i] && ReadsChinese(s, i, start, end) {
      SameMark(s, i, k, start, end);
    }
  }

  lemma OccursInPrefix(s: string, i: nat, k: nat)
    requires i < k <= |s|
    ensures s[i] in s[..k]
  {
    assert s[..k][i] == s[i];
  }

  lemma SameMark(s: string, i: nat, k: nat, start: nat, end: Option<nat>)
    requires i < |s| && k <= |s| && '第' !in s[..i] && '第' !in s[..k] && (k < |s| ==> s[k] == '第')
    requires ReadsChinese(s, i, start, end)
    ensures i == k
  {
    if i < k {
      OccursInPrefix(s, i, k);
    } else if k < i {
      OccursInPrefix(s, k, i);
    }
  }

  lemma NoChineseFound(s: string)
    ensures ChineseEpisode(s) == None <==> NoChinese(s)
  {
    hide ChineseSays, ChineseEpisode;
    if ChineseEpisode(s).Some? {
      ChineseFound(s, ChineseEpisode(s).value.0, ChineseEpisode(s).value.1);
    } else {
      forall start: nat, end ensures !ChineseSays(s, start, end) {
        ChineseFound(s, start, end);
      }
    }
  }

  // ----------------------------------------------------------------- whole titles

  /** A range if it ends behind where it starts, and else one episode. */
  predicate Means(c: Coverage, season: Option<nat>, start: nat, end: Option<nat>) {
    if end.Some? && end.value > start then c == Range(season, start, end.value) else c == Coverage.Episode(season, start)
  }

  ghost predicate NoEpisodes(title: string) {
    Nowhere(Lower(title), SeasonEpisodes()) && Nowhere(Lower(title), Episodes())
  }

  /** The first reading of the first notation that has one, the Chinese and bracketed ones in the title as it is. */
  ghost predicate Says(title: string, c: Coverage) {
    || (exists v: Seasonal :: First(Lower(title), SeasonEpisodes(), v) && Means(c, Some(v.0), v.1, v.2))
    || (Nowhere(Lower(title), SeasonEpisodes()) && exists v: Numbered :: First(Lower(title), Episodes(), v) && Means(c, None, v.0, v.1))
    || (NoEpisodes(title) && exists start: nat, end :: ChineseSays(title, start, end) && Means(c, None, start, end))
    || (NoEpisodes(title) && NoChinese(title) && exists v: Numbered :: First(title, Brackets(), v) && Means(c, None, v.0, v.1))
    || (NoEpisodes(title) && NoChinese(title) && Nowhere(title, Brackets())
        && exists season: nat :: First(Lower(title), Packs(), season) && c == SeasonPack(season))
  }

  lemma MeansIff(c: Coverage, season: Option<nat>, start: nat, end: Option<nat>)
    ensures Means(c, season, start, end) <==> c == RangeOrEpisode(season, start, end)
  {
  }

  /** What the recogniser answers, it reads off the title. */
  lemma RecognizedSays(title: string, c: Coverage)
    requires Recognized(title) == Some(c)
    ensures Says(title, c)
  {
    hide First, Nowhere, ChineseSays, ChineseEpisode, FirstFrom, NoChinese, Means, SeasonEpisodes, Episodes, Brackets, Packs;
    var lower := Lower(title);
    var a := FirstFrom<Seasonal>(lower, 0, SeasonEpisodeAt);
    SeasonEpisodesFound(lower, if a.Some? then a.value else (0, 0, None));
    if a.Some? {
      MeansIff(c, Some(a.value.0), a.value.1, a.value.2);
    } else {
      RecognizedWithoutSeason(title, c);
    }
  }

  lemma RecognizedWithoutSeason(title: string, c: Coverage)
    requires Recognized(title) == Some(c) && FirstFrom<Seasonal>(Lower(title), 0, SeasonEpisodeAt) == None
    ensures Says(title, c)
  {
    hide First, Nowhere, ChineseSays, ChineseEpisode, FirstFrom, NoChinese, Means, SeasonEpisodes, Episodes, Brackets, Packs;
    var lower := Lower(title);
    SeasonEpisodesFound(lower, (0, 0, None));
    var b := FirstFrom<Numbered>(lower, 0, EpisodeAt);
    EpisodesFound(lower, if b.Some? then b.value else (0, None));
    if b.Some? {
      MeansIff(c, None, b.value.0, b.value.1);
    } else {
      NoChineseFound(title);
      var d := FirstFrom<Numbered>(title, 0, BracketEpisodeAt);
      BracketsFound(title, if d.Some? then d.value else (0, None));
      if ChineseEpisode(title).Some? {
        var (start, end) := ChineseEpisode(title).value;
        ChineseFound(title, start, end);
        MeansIff(c, None, start, end);
      } else if d.Some? {
        MeansIff(c, None, d.value.0, d.value.1);
      } else {
        PacksFound(lower, c.packSeason);
      }
    }
  }

  lemma EpisodesSay(title: string, v: Numbered, c: Coverage)
    requires Nowhere(Lower(title), SeasonEpisodes()) && First(Lower(title), Episodes(), v) && Means(c, None, v.0, v.1)
    ensures Recognized(title) == Some(c)
  {
    hide First, Nowhere, FirstFrom, Means, SeasonEpisodes, Episodes, ChineseEpisode;
    SeasonEpisodesFound(Lower(title), (0, 0, None));
    EpisodesFound(Lower(title), v);
    MeansIff(c, None, v.0, v.1);
  }

  lemma SeasonEpisodesSay(title: string, v: Seasonal, c: Coverage)
    requires First(Lower(title), SeasonEpisodes(), v) && Means(c, Some(v.0), v.1, v.2)
    ensures Recognized(title) == Some(c)
  {
    hide First, FirstFrom, Means, SeasonEpisodes, ChineseEpisode;
    SeasonEpisodesFound(Lower(title), v);
    MeansIff(c, Some(v.0), v.1, v.2);
  }

  lemma NoEpisodesFound(title: string)
    requires NoEpisodes(title)
    ensures FirstFrom<Seasonal>(Lower(title), 0, SeasonEpisodeAt) == None
    ensures FirstFrom<Numbered>(Lower(title), 0, EpisodeAt) == None
  {
    hide Nowhere, First, FirstFrom, SeasonEpisodes, Episodes;
    SeasonEpisodesFound(Lower(title), (0, 0, None));
    EpisodesFound(Lower(title), (0, None));
  }

  lemma ChineseSay(title: string, start: nat, end: Option<nat>, c: Coverage)
    requires NoEpisodes(title) && ChineseSays(title, start, end) && Means(c, None, start, end)
    ensures Recognized(title) == Some(c)
  {
    hide NoEpisodes, ChineseSays, FirstFrom, Means, ChineseEpisode;
    NoEpisodesFound(title);
    ChineseFound(title, start, end);
    MeansIff(c, None, start, end);
  }

  lemma BracketsSay(title: string, v: Numbered, c: Coverage)
    requires NoEpisodes(title) && NoChinese(title) && First(title, Brackets(), v) && Means(c, None, v.0, v.1)
    ensures Recognized(title) == Some(c)
  {
    hide NoEpisodes, NoChinese, First, FirstFrom, Means, ChineseEpisode, Brackets;
    NoEpisodesFound(title);
    NoChineseFound(title);
    BracketsFound(title, v);
    MeansIff(c, None, v.0, v.1);
  }

  lemma PacksSay(title: string, season: nat)
    requires NoEpisodes(title) && NoChinese(title) && Nowhere(title, Brackets()) && First(Lower(title), Packs(), season)
    ensures Recognized(title) == Some(SeasonPack(season))
  {
    hide NoEpisodes, NoChinese, First, Nowhere, FirstFrom, ChineseEpisode, Brackets, Packs;
    NoEpisodesFound(title);
    NoChineseFound(title);
    BracketsFound(title, (0, None));
    PacksFound(Lower(title), season);
  }

  /** A title is recognised as a coverage if and only if it says so. */
  lemma RecognizedIff(title: string, c: Coverage)
    ensures Recognized(title) == Some(c) <==> Says(title, c)
  {
    hide First, Nowhere, ChineseSays, Means, SeasonEpisodes, Episodes, Brackets, Packs, NoEpisodes, NoChinese, Recognized;
    if Recognized(title) == Some(c) {
      RecognizedSays(title, c);
    }
    if v: Seasonal :| First(Lower(title), SeasonEpisodes(), v) && Means(c, Some(v.0), v.1, v.2) {
      SeasonEpisodesSay(title, v, c);
    } else if v: Numbered :| Nowhere(Lower(title), SeasonEpisodes()) && First(Lower(title), Episodes(), v) && Means(c, None, v.0, v.1) {
      EpisodesSay(title, v, c);
    } else if start: nat, end :| NoEpisodes(title) && ChineseSays(title, start, end) && Means(c, None, start, end) {
      ChineseSay(title, start, end, c);
    } else if v: Numbered :| NoEpisodes(title) && NoChinese(title) && First(title, Brackets(), v) && Means(c, None, v.0, v.1) {
      BracketsSay(title, v, c);
    } else if season: nat :| NoEpisodes(title) && NoChinese(title) && Nowhere(title, Brackets()) && First(Lower(title), Packs(), season) && c == SeasonPack(season) {
      PacksSay(title, season);
    }
  }

  // --------------------------------------------------------------- titles as text

  predicate Numeral(d: string) {
    d != "" && forall k :: 0 <= k < |d| ==> Digit(d[k])
  }

  /** What a numeral says; numbers beyond 32 bits read as the largest. */
  function Amount(d: string): (n: nat)
    requires Numeral(d)
  {
    NumeralDigits(d);
    if Value(d) > 0xFFFF_FFFF then 0xFFFF_FFFF else Value(d)
  }

  /** The numeral says a 32-bit number. */
  predicate InRange(d: string)
    requires Numeral(d)
  {
    NumeralDigits(d);
    Value(d) <= 0xFFFF_FFFF
  }

  lemma NumeralDigits(d: string)
    requires Numeral(d)
    ensures AllDigits(d)
  {
  }

  predicate NoDigitNext(t: string) {
    t != "" ==> !Digit(t[0])
  }

  lemma RunInText(s: string, i: nat, d: string, rest: string)
    requires Tail(s, i, d + rest) && Numeral(d) && NoDigitNext(rest)
    ensures Tail(s, i + |d|, rest) && DigitRun(s, i, i + |d|) && s[i..i + |d|] == d
  {
    TailStep(s, i, d, rest);
    assert i + |d| < |s| ==> s[i + |d|] == s[i + |d|..][0];
    forall k | i <= k < i + |d| ensures Digit(s[k]) {
      assert s[k] == d[k - i];
    }
  }

  lemma NumberInText(s: string, i: nat, d: string, rest: string)
    requires Tail(s, i, d + rest) && Numeral(d) && NoDigitNext(rest)
    ensures Tail(s, i + |d|, rest) && Number(s, i, Amount(d), i + |d|)
  {
    hide Tail, DigitRun;
    RunInText(s, i, d, rest);
    NumeralDigits(d);
  }

  lemma StandsInText(s: string, i: nat, c: char, rest: string)
    requires Tail(s, i, [c] + rest)
    ensures Stands(s, i, c) && Tail(s, i + 1, rest)
  {
    LetterStep(s, i, c, rest);
  }

  lemma TailBehind(before: string, rest: string)
    ensures Tail(before + rest, |before|, rest)
    ensures before != "" ==> (before + rest)[|before| - 1] == before[|before| - 1]
  {
  }

  /** Nothing that begins in front of `i` can be read so. */
  ghost predicate NoneBeforeThat<T(!new)>(s: string, reading: Reading<T>, i: nat) {
    forall k: nat, w :: k < i ==> !reading(s, k, w)
  }

  lemma BracketFirst(title: string, i: nat, v: Numbered)
    requires ReadsBracket(title, i, v.0, v.1) && NoneBeforeThat(title, Brackets(), i)
    ensures First(title, Brackets(), v)
  {
    hide ReadsBracket;
    assert FirstReading(title, Brackets(), i, v);
  }

  lemma BracketRangeInText(s: string, i: nat, d: string, t: string, dash: char, d': string, t': string, after: string)
    requires Tail(s, i, "[" + (d + t)) && t == [dash] + (d' + t') && t' == "]" + after && (dash == '-' || dash == '~')
    requires Numeral(d) && Numeral(d') && Amount(d) > 0
    ensures ReadsBracket(s, i, Amount(d), Some(Amount(d')))
  {
    hide Tail, Number, Numeral, Amount;
    StandsInText(s, i, '[', d + t);
    NumberInText(s, i + 1, d, t);
    var j := i + 1 + |d|;
    StandsInText(s, j, dash, d' + t');
    NumberInText(s, j + 1, d', t');
    StandsInText(s, j + 1 + |d'|, ']', after);
    assert ReadsBracketEnd(s, j, Some(Amount(d')));
  }

  /** `[01-12]`, with `-` or `~`. */
  lemma BracketRangeIsRead(title: string, before: string, d: string, dash: char, d': string, after: string, c: Coverage)
    requires title == before + ("[" + (d + ([dash] + (d' + ("]" + after))))) && (dash == '-' || dash == '~')
    requires Numeral(d) && Numeral(d') && Amount(d) > 0 && Means(c, None, Amount(d), Some(Amount(d')))
    requires NoEpisodes(title) && NoChinese(title) && NoneBeforeThat(title, Brackets(), |before|)
    ensures Recognized(title) == Some(c)
  {
    hide NoEpisodes, NoChinese, NoneBeforeThat, Tail, Numeral, Means, Recognized, Amount, First, ReadsBracket;
    var t' := "]" + after;
    var t := [dash] + (d' + t');
    TailBehind(before, "[" + (d + t));
    BracketRangeInText(title, |before|, d, t, dash, d', t', after);
    BracketFirst(title, |before|, (Amount(d), Some(Amount(d'))));
    BracketsSay(title, (Amount(d), Some(Amount(d'))), c);
  }

  /** `[01]`. */
  lemma BracketIsRead(title: string, before: string, d: string, after: string)
    requires title == before + ("[" + (d + ("]" + after))) && Numeral(d) && Amount(d) > 0
    requires NoEpisodes(title) && NoChinese(title) && NoneBeforeThat(title, Brackets(), |before|)
    ensures Recognized(title) == Some(Coverage.Episode(None, Amount(d)))
  {
    hide NoEpisodes, NoChinese, NoneBeforeThat, Tail, Number, Numeral, Recognized, Amount;
    var i := |before|;
    TailBehind(before, "[" + (d + ("]" + after)));
    StandsInText(title, i, '[', d + ("]" + after));
    NumberInText(title, i + 1, d, "]" + after);
    StandsInText(title, i + 1 + |d|, ']', after);
    assert ReadsBracketEnd(title, i + 1 + |d|, None);
    assert ReadsBracket(title, i, Amount(d), None);
    hide First, ReadsBracket;
    BracketFirst(title, i, (Amount(d), None));
    BracketsSay(title, (Amount(d), None), Coverage.Episode(None, Amount(d)));
  }

  predicate Blanks(t: string) {
    forall k :: 0 <= k < |t| ==> IsWhitespace(t[k])
  }

  predicate NoBlankNext(t: string) {
    t != "" ==> !IsWhitespace(t[0])
  }

  lemma BlanksInText(s: string, i: nat, blanks: string, rest: string)
    requires Tail(s, i, blanks + rest) && Blanks(blanks) && NoBlankNext(rest)
    ensures Tail(s, i + |blanks|, rest) && BlankRun(s, i, i + |blanks|)
  {
    TailStep(s, i, blanks, rest);
    assert i + |blanks| < |s| ==> s[i + |blanks|] == s[i + |blanks|..][0];
    forall k | i <= k < i + |blanks| ensures IsWhitespace(s[k]) {
      assert s[k] == blanks[k - i];
    }
  }

  /** Either nothing, and then `c` does not follow, or `c`. */
  predicate Maybe(t: string, c: char, rest: string) {
    t == [c] || (t == "" && (rest != "" ==> rest[0] != c))
  }

  lemma MaybeInText(s: string, i: nat, t: string, c: char, rest: string)
    requires Tail(s, i, t + rest) && Maybe(t, c, rest)
    ensures Optional(s, i, c, i + |t|) && Tail(s, i + |t|, rest)
  {
    TailStep(s, i, t, rest);
    if t == "" {
      assert i < |s| ==> s[i] == s[i..][0];
    } else {
      assert s[i] == t[0];
    }
  }

  lemma SmallInText(s: string, i: nat, d: string, rest: string)
    requires Tail(s, i, d + rest) && Numeral(d) && NoDigitNext(rest) && InRange(d)
    ensures Tail(s, i + |d|, rest) && SmallNumber(s, i, Amount(d), i + |d|)
  {
    hide Tail, DigitRun;
    RunInText(s, i, d, rest);
    NumeralDigits(d);
  }

  lemma ChineseStart(title: string, i: nat, d: string, t: string, u: string, t': string, blanks: string, rest: string) returns (m: nat)
    requires Tail(title, i, "第" + (d + t)) && t == u + t' && t' == blanks + rest && Numeral(d) && InRange(d)
    requires NoDigitNext(t) && Maybe(u, '集', t') && Blanks(blanks) && NoBlankNext(rest)
    ensures Tail(title, m, rest) && Stands(title, i, '第')
    ensures forall end :: ReadsChineseEnd(title, m, end) ==> ReadsChinese(title, i, Amount(d), end)
  {
    hide Tail, SmallNumber, Numeral, Amount, InRange, BlankRun, ReadsChineseEnd, Optional, Maybe, NoDigitNext, NoBlankNext, Blanks;
    StandsInText(title, i, '第', d + t);
    SmallInText(title, i + 1, d, t);
    var j := i + 1 + |d|;
    MaybeInText(title, j, u, '集', t');
    var k := j + |u|;
    BlanksInText(title, k, blanks, rest);
    m := k + |blanks|;
    forall end | ReadsChineseEnd(title, m, end) ensures ReadsChinese(title, i, Amount(d), end) {
      assert SmallNumber(title, i + 1, Amount(d), j) && Optional(title, j, '集', k) && BlankRun(title, k, m);
    }
  }

  lemma ChineseHere(title: string, before: string, start: nat, end: Option<nat>, c: Coverage)
    requires |before| < |title| && title[..|before|] == before && '第' !in before
    requires ReadsChinese(title, |before|, start, end) && NoEpisodes(title) && Means(c, None, start, end)
    ensures Recognized(title) == Some(c)
  {
    hide ReadsChinese, NoEpisodes, Means, Recognized;
    assert ChineseSays(title, start, end);
    hide ChineseSays;
    ChineseSay(title, start, end, c);
  }

  /** `第1集`, with or without the `集`, and nothing behind it that makes a range. */
  lemma ChineseIsRead(title: string, before: string, d: string, u: string, blanks: string, rest: string)
    requires title == before + ("第" + (d + (u + (blanks + rest)))) && '第' !in before && NoEpisodes(title)
    requires Numeral(d) && InRange(d)
    requires Maybe(u, '集', blanks + rest) && Blanks(blanks) && NoBlankNext(rest) && NoDigitNext(u + (blanks + rest))
    requires rest != "" ==> rest[0] !in "-~至到"
    ensures Recognized(title) == Some(Coverage.Episode(None, Amount(d)))
  {
    hide ReadsChinese, NoEpisodes, Recognized, Amount, InRange, Numeral, Maybe, Blanks, NoBlankNext, NoDigitNext, Tail;
    var t := u + (blanks + rest);
    TailBehind(before, "第" + (d + t));
    var m := ChineseStart(title, |before|, d, t, u, blanks + rest, blanks, rest);
    BehindText(title, m, rest);
    assert ReadsChineseEnd(title, m, None);
    PrefixIs(before, "第" + (d + t));
    ChineseHere(title, before, Amount(d), None, Coverage.Episode(None, Amount(d)));
  }

  lemma PrefixIs(before: string, more: string)
    ensures (before + more)[..|before|] == before
  {
  }

  lemma ChineseEnd(title: string, m: nat, mark: char, blanks: string, t: string, v: string, t': string, d: string, after: string)
    requires Tail(title, m, [mark] + (blanks + t)) && t == v + t' && t' == d + after && mark in "-~至到"
    requires Blanks(blanks) && NoBlankNext(t) && Maybe(v, '第', t') && Numeral(d) && InRange(d) && NoDigitNext(after)
    ensures ReadsChineseEnd(title, m, Some(Amount(d)))
  {
    hide Tail, SmallNumber, Numeral, Amount, InRange, BlankRun, Optional, Maybe, NoDigitNext, NoBlankNext, Blanks;
    StandsInText(title, m, mark, blanks + t);
    BlanksInText(title, m + 1, blanks, t);
    var b := m + 1 + |blanks|;
    MaybeInText(title, b, v, '第', t');
    SmallInText(title, b + |v|, d, after);
    assert BlankRun(title, m + 1, b) && Optional(title, b, '第', b + |v|) && SmallNumber(title, b + |v|, Amount(d), b + |v| + |d|);
  }

  /** `第1-3集`, `第1集至第3集` and the like, with blanks around the mark. */
  lemma ChineseRangeIsRead(
    title: string, before: string, d: string, u: string, blanks: string, mark: char, blanks': string, v: string, d': string, after: string,
    c: Coverage)
    requires title == before + ("第" + (d + (u + (blanks + ([mark] + (blanks' + (v + (d' + after))))))))
    requires '第' !in before && NoEpisodes(title) && mark in "-~至到" && (u == "" || u == "集") && (v == "" || v == "第")
    requires Numeral(d) && InRange(d) && Numeral(d') && InRange(d') && NoDigitNext(after)
    requires Blanks(blanks) && Blanks(blanks') && Means(c, None, Amount(d), Some(Amount(d')))
    ensures Recognized(title) == Some(c)
  {
    hide ReadsChinese, NoEpisodes, Recognized, Amount, InRange, Numeral, Maybe, Blanks, NoBlankNext, NoDigitNext, Tail, Means, ReadsChineseEnd, IsWhitespace;
    var last := d' + after;
    var next := v + last;
    var rest := [mark] + (blanks' + next);
    MarkIsPlain(mark);
    FirstOfNumeral(v, d', after);
    NothingBefore(u, blanks, mark, blanks' + next);
    var t := u + (blanks + rest);
    TailBehind(before, "第" + (d + t));
    var m := ChineseStart(title, |before|, d, t, u, blanks + rest, blanks, rest);
    ChineseEnd(title, m, mark, blanks', next, v, last, d', after);
    PrefixIs(before, "第" + (d + t));
    ChineseHere(title, before, Amount(d), Some(Amount(d')), c);
  }

  lemma MarkIsPlain(mark: char)
    requires mark in "-~至到"
    ensures !IsWhitespace(mark) && !Digit(mark) && mark != '集'
  {
  }

  lemma FirstOfNumeral(v: string, d: string, after: string)
    requires Numeral(d) && (v == "" || v == "第")
    ensures NoBlankNext(v + (d + after)) && Maybe(v, '第', d + after)
  {
    assert (d + after)[0] == d[0] && Digit(d[0]);
  }

  lemma NothingBefore(u: string, blanks: string, mark: char, more: string)
    requires (u == "" || u == "集") && Blanks(blanks) && !IsWhitespace(mark) && !Digit(mark) && mark != '集'
    ensures NoBlankNext([mark] + more) && Maybe(u, '集', blanks + ([mark] + more)) && NoDigitNext(u + (blanks + ([mark] + more)))
  {
    var t := blanks + ([mark] + more);
    assert t[0] == if blanks == "" then mark else blanks[0];
    assert u == "" ==> u + t == t;
  }

  // ------------------------------------------------------- the Latin notations

  predicate Marks(t: string, marks: string) {
    forall k :: 0 <= k < |t| ==> t[k] in marks
  }

  lemma MarksInText(s: string, i: nat, t: string, marks: string, rest: string)
    requires Tail(s, i, t + rest) && Marks(t, marks) && (rest != "" ==> rest[0] !in marks)
    ensures Tail(s, i + |t|, rest) && MarkRun(s, i, marks, i + |t|)
  {
    TailStep(s, i, t, rest);
    assert i + |t| < |s| ==> s[i + |t|] == s[i + |t|..][0];
    forall k | i <= k < i + |t| ensures s[k] in marks {
      assert s[k] == t[k - i];
    }
  }

  /** What may stand behind a first number without making a range of it. */
  predicate EndsThere(rest: string) {
    rest != "" ==> rest[0] !in "e-_~ " && !Digit(rest[0])
  }

  /** What makes a range of it: `e`, or marks and perhaps `e` and `p`, and then a number with nothing alphanumeric behind. */
  predicate GoesOn(rest: string, mark: string, e: string, p: string, d: string, after: string) {
    && rest == mark + (e + (p + (d + after))) && Marks(mark, "-_~ ") && (e == "" || e == "e") && (p == "" || p == "p")
    && (mark == "" ==> e == "e" && p == "") && Numeral(d) && Amount(d) > 0
    && (after != "" ==> !Letter(after[0]) && !Digit(after[0]))
  }

  lemma EndsThereInText(s: string, i: nat, rest: string)
    requires Tail(s, i, rest) && EndsThere(rest)
    ensures Continues(s, i, None)
  {
    assert i < |s| ==> s[i] == s[i..][0];
    forall j: nat ensures !RangeMark(s, i, j) {
      if i < |s| && !Stands(s, i, 'e') {
        assert s[i] !in "-_~ " by { assert s[i] !in "e-_~ "; }
      }
    }
  }

  lemma GoesOnInText(s: string, i: nat, rest: string, mark: string, e: string, p: string, d: string, after: string)
    requires Tail(s, i, rest) && GoesOn(rest, mark, e, p, d, after)
    ensures Continues(s, i, Some(Amount(d)))
  {
    RangeMarkInText(s, i, mark, e, p, d, after);
    hide RangeMark, Tail, Numeral, Amount, Marks, Number;
    var j := i + |mark| + |e| + |p|;
    NumberInText(s, j, d, after);
    BehindText(s, j + |d|, after);
    assert EndsRange(s, i, Amount(d));
  }

  lemma BehindText(s: string, i: nat, after: string)
    requires Tail(s, i, after)
    ensures i < |s| ==> after != "" && s[i] == after[0]
  {
    assert i < |s| ==> s[i] == s[i..][0];
  }

  lemma RangeMarkInText(s: string, i: nat, mark: string, e: string, p: string, d: string, after: string)
    requires Tail(s, i, mark + (e + (p + (d + after)))) && Marks(mark, "-_~ ") && (e == "" || e == "e") && (p == "" || p == "p")
    requires (mark == "" ==> e == "e" && p == "") && Numeral(d)
    ensures Tail(s, i + |mark| + |e| + |p|, d + after) && RangeMark(s, i, i + |mark| + |e| + |p|)
  {
    DigitFirst(e, p, d, after);
    hide Tail, Numeral, Marks, RangeMark, Maybe;
    if mark == "" {
      assert mark + (e + (p + (d + after))) == "e" + (d + after);
      PlainMarkInText(s, i, d + after);
    } else {
      LongMarkInText(s, i, mark, e, e + (p + (d + after)), p, p + (d + after), d + after);
    }
  }

  lemma PlainMarkInText(s: string, i: nat, t: string)
    requires Tail(s, i, "e" + t)
    ensures Tail(s, i + 1, t) && RangeMark(s, i, i + 1)
  {
    hide Tail;
    StandsInText(s, i, 'e', t);
  }

  lemma LongMarkInText(s: string, i: nat, mark: string, e: string, t: string, p: string, t': string, t'': string)
    requires Tail(s, i, mark + t) && t == e + t' && t' == p + t'' && Marks(mark, "-_~ ") && mark != ""
    requires t != "" && t[0] !in "-_~ " && Maybe(e, 'e', t') && Maybe(p, 'p', t'')
    ensures Tail(s, i + |mark| + |e| + |p|, t'') && RangeMark(s, i, i + |mark| + |e| + |p|)
  {
    hide Tail, Marks, MarkRun, Maybe, Optional;
    MarksInText(s, i, mark, "-_~ ", t);
    var k := i + |mark|;
    MaybeInText(s, k, e, 'e', t');
    MaybeInText(s, k + |e|, p, 'p', t'');
    MarkNotE(s, i, mark, t);
  }

  lemma MarkNotE(s: string, i: nat, mark: string, rest: string)
    requires MarkRun(s, i, "-_~ ", i + |mark|) && mark != ""
    ensures !Stands(s, i, 'e')
  {
    assert s[i] in "-_~ ";
  }

  lemma DigitFirst(e: string, p: string, d: string, after: string)
    requires Numeral(d) && (e == "" || e == "e") && (p == "" || p == "p")
    ensures var t := e + (p + (d + after)); t != "" && t[0] !in "-_~ "
    ensures Maybe(e, 'e', p + (d + after)) && Maybe(p, 'p', d + after)
  {
    assert (d + after)[0] == d[0] && Digit(d[0]);
    assert p == "" ==> p + (d + after) == d + after;
    assert e == "" ==> e + (p + (d + after)) == p + (d + after);
  }

  /** What follows the number of an episode: nothing that makes a range, or a range end. */
  ghost predicate Followed(rest: string, end: Option<nat>) {
    match end
    case None => EndsThere(rest)
    case Some(n) => exists mark, e, p, d, after :: GoesOn(rest, mark, e, p, d, after) && n == Amount(d)
  }

  lemma FollowedInText(s: string, i: nat, rest: string, end: Option<nat>)
    requires Tail(s, i, rest) && Followed(rest, end)
    ensures Continues(s, i, end)
  {
    hide Continues, Tail, EndsThere, Numeral, Amount, Marks;
    if end == None {
      EndsThereInText(s, i, rest);
    } else {
      var mark, e, p, d, after :| GoesOn(rest, mark, e, p, d, after) && end.value == Amount(d);
      GoesOnInText(s, i, rest, mark, e, p, d, after);
    }
  }

  lemma FollowedHere(rest: string, end: Option<nat>)
    requires Followed(rest, end)
    ensures NoDigitNext(rest)
  {
    if end.Some? {
      hide GoesOn, NoDigitNext;
      var mark, e, p, d, after :| GoesOn(rest, mark, e, p, d, after) && end.value == Amount(d);
      NoDigitGoesOn(rest, mark, e, p, d, after);
    }
  }

  lemma NoDigitGoesOn(rest: string, mark: string, e: string, p: string, d: string, after: string)
    requires GoesOn(rest, mark, e, p, d, after)
    ensures NoDigitNext(rest)
  {
    if mark == "" {
      assert rest[0] == 'e';
    } else {
      assert rest[0] == mark[0] && mark[0] in "-_~ ";
    }
  }

  lemma EpisodeInText(s: string, i: nat, p: string, t: string, d: string, rest: string, end: Option<nat>)
    requires Tail(s, i, "e" + (p + t)) && t == d + rest && Maybe(p, 'p', t) && Numeral(d) && Amount(d) > 0
    requires (i > 0 ==> !Letter(s[i - 1])) && Followed(rest, end)
    ensures ReadsEpisode(s, i, Amount(d), end)
  {
    hide Tail, Number, Numeral, Amount, Followed, Maybe, NoDigitNext, Optional, Continues;
    FollowedHere(rest, end);
    StandsInText(s, i, 'e', p + t);
    MaybeInText(s, i + 1, p, 'p', t);
    var j := i + 1 + |p|;
    NumberInText(s, j, d, rest);
    FollowedInText(s, j + |d|, rest, end);
    assert Optional(s, i + 1, 'p', j) && Number(s, j, Amount(d), j + |d|) && Continues(s, j + |d|, end);
  }

  /** `E07`, `EP07`, in either case, alone or as the start of a range. */
  lemma EpisodeIsRead(title: string, before: string, p: string, d: string, rest: string, end: Option<nat>, c: Coverage)
    requires Lower(title) == before + ("e" + (p + (d + rest))) && (p == "" || p == "p") && Numeral(d) && Amount(d) > 0
    requires (before != "" ==> !Letter(before[|before| - 1])) && Followed(rest, end)
    requires Nowhere(Lower(title), SeasonEpisodes()) && NoneBeforeThat(Lower(title), Episodes(), |before|)
    requires Means(c, None, Amount(d), end)
    ensures Recognized(title) == Some(c)
  {
    hide Tail, Numeral, Amount, Followed, Nowhere, Means, Recognized, Maybe, Lower, NoneBeforeThat, SeasonEpisodes, ReadsEpisode;
    var t := d + rest;
    DigitFirst("", p, d, rest);
    TailBehind(before, "e" + (p + t));
    EpisodeInText(Lower(title), |before|, p, t, d, rest, end);
    EpisodeFirst(Lower(title), |before|, (Amount(d), end));
    EpisodesSay(title, (Amount(d), end), c);
  }

  lemma EpisodeFirst(s: string, i: nat, v: Numbered)
    requires ReadsEpisode(s, i, v.0, v.1) && NoneBeforeThat(s, Episodes(), i)
    ensures First(s, Episodes(), v)
  {
    hide ReadsEpisode;
    assert FirstReading(s, Episodes(), i, v);
  }

  lemma SeasonInText(s: string, i: nat, d: string, t: string, separators: string, t': string) returns (j: nat, e: nat)
    requires Tail(s, i, "s" + (d + t)) && t == separators + ("e" + t') && Marks(separators, "._- []") && Numeral(d)
    ensures Stands(s, i, 's') && Number(s, i + 1, Amount(d), j) && MarkRun(s, j, "._- []", e) && Stands(s, e, 'e') && Tail(s, e + 1, t')
  {
    SeparatorsFirst(separators, t');
    hide Tail, Number, Numeral, Amount, NoDigitNext, MarkRun, Marks;
    StandsInText(s, i, 's', d + t);
    NumberInText(s, i + 1, d, t);
    j := i + 1 + |d|;
    MarksInText(s, j, separators, "._- []", "e" + t');
    e := j + |separators|;
    StandsInText(s, e, 'e', t');
  }

  lemma SeasonEpisodeInText(
    s: string, i: nat, d: string, t: string, separators: string, t': string, d': string, rest: string, end: Option<nat>)
    requires Tail(s, i, "s" + (d + t)) && t == separators + ("e" + t') && t' == d' + rest && Marks(separators, "._- []")
    requires Numeral(d) && Amount(d) > 0 && Numeral(d') && Amount(d') > 0 && Followed(rest, end)
    requires i > 0 ==> !Letter(s[i - 1]) && !Digit(s[i - 1])
    ensures ReadsSeasonEpisode(s, i, Amount(d), Amount(d'), end)
  {
    hide Tail, Number, Numeral, Amount, Followed, NoDigitNext, MarkRun, Marks, Continues;
    FollowedHere(rest, end);
    var j, e := SeasonInText(s, i, d, t, separators, t');
    NumberInText(s, e + 1, d', rest);
    FollowedInText(s, e + 1 + |d'|, rest, end);
  }

  /** `S01E02`, with or without separators, alone or as the start of a range. */
  lemma SeasonEpisodeIsRead(
    title: string, before: string, d: string, separators: string, d': string, rest: string, end: Option<nat>, c: Coverage)
    requires Lower(title) == before + ("s" + (d + (separators + ("e" + (d' + rest)))))
    requires Numeral(d) && Amount(d) > 0 && Numeral(d') && Amount(d') > 0 && Marks(separators, "._- []")
    requires (before != "" ==> !Letter(before[|before| - 1]) && !Digit(before[|before| - 1])) && Followed(rest, end)
    requires NoneBeforeThat(Lower(title), SeasonEpisodes(), |before|) && Means(c, Some(Amount(d)), Amount(d'), end)
    ensures Recognized(title) == Some(c)
  {
    hide Tail, Numeral, Amount, Followed, Means, Recognized, Lower, NoneBeforeThat, Marks, ReadsSeasonEpisode;
    var t' := d' + rest;
    var t := separators + ("e" + t');
    TailBehind(before, "s" + (d + t));
    SeasonEpisodeInText(Lower(title), |before|, d, t, separators, t', d', rest, end);
    SeasonEpisodeFirst(Lower(title), |before|, (Amount(d), Amount(d'), end));
    SeasonEpisodesSay(title, (Amount(d), Amount(d'), end), c);
  }

  lemma SeparatorsFirst(separators: string, more: string)
    requires Marks(separators, "._- []")
    ensures NoDigitNext(separators + ("e" + more)) && ("e" + more)[0] !in "._- []"
  {
    var t := separators + ("e" + more);
    if separators == "" {
      assert t[0] == 'e';
    } else {
      assert t[0] == separators[0] && separators[0] in "._- []";
    }
  }

  lemma SeasonEpisodeFirst(s: string, i: nat, v: Seasonal)
    requires ReadsSeasonEpisode(s, i, v.0, v.1, v.2) && NoneBeforeThat(s, SeasonEpisodes(), i)
    ensures First(s, SeasonEpisodes(), v)
  {
    hide ReadsSeasonEpisode;
    assert FirstReading(s, SeasonEpisodes(), i, v);
  }

  /** `S01` with something other than an `e` behind it, or at the end of a title that names a pack. */
  lemma PackIsRead(title: string, before: string, d: string, rest: string)
    requires Lower(title) == before + ("s" + (d + rest)) && Numeral(d) && Amount(d) > 0 && NoDigitNext(rest)
    requires before != "" ==> !Letter(before[|before| - 1]) && !Digit(before[|before| - 1])
    requires if rest == "" then NamesPack(Lower(title)) else rest[0] != 'e'
    requires NoEpisodes(title) && NoChinese(title) && Nowhere(title, Brackets()) && NoneBeforeThat(Lower(title), Packs(), |before|)
    ensures Recognized(title) == Some(SeasonPack(Amount(d)))
  {
    hide Tail, Numeral, Amount, Recognized, Lower, NoneBeforeThat, NoDigitNext, NoEpisodes, NoChinese, Nowhere, Brackets, NamesPack, ReadsPack;
    TailBehind(before, "s" + (d + rest));
    PackInText(Lower(title), |before|, d, rest);
    PackFirst(Lower(title), |before|, Amount(d));
    PacksSay(title, Amount(d));
  }

  lemma PackInText(s: string, i: nat, d: string, rest: string)
    requires Tail(s, i, "s" + (d + rest)) && Numeral(d) && Amount(d) > 0 && NoDigitNext(rest)
    requires i > 0 ==> !Letter(s[i - 1]) && !Digit(s[i - 1])
    requires if rest == "" then NamesPack(s) else rest[0] != 'e'
    ensures ReadsPack(s, i, Amount(d))
  {
    hide Tail, Number, Numeral, Amount, NoDigitNext, NamesPack;
    StandsInText(s, i, 's', d + rest);
    NumberInText(s, i + 1, d, rest);
    var j := i + 1 + |d|;
    BehindText(s, j, rest);
    TailEnds(s, j, rest);
    assert Number(s, i + 1, Amount(d), j) && !Stands(s, j, 'e') && (j < |s| || NamesPack(s));
  }

  lemma TailEnds(s: string, i: nat, rest: string)
    requires Tail(s, i, rest)
    ensures i < |s| <==> rest != ""
  {
  }

  lemma PackFirst(s: string, i: nat, season: nat)
    requires ReadsPack(s, i, season) && NoneBeforeThat(s, Packs(), i)
    ensures First(s, Packs(), season)
  {
    hide ReadsPack;
    assert FirstReading(s, Packs(), i, season);
  }
}
