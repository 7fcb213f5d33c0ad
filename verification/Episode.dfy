/**
 Episode coverage read off titles, and the labels printed for it. Text is a sequence of Unicode
 characters; the scanners only ever compare single characters, so byte offsets play no part.
 */
module Episode {
  import opened Wrappers
  import opened Text
  import opened Decimal

  const U32_MAX: nat := 0xFFFF_FFFF

  datatype Coverage =
    | Episode(season: Option<nat>, episode: nat)
    | Range(season: Option<nat>, start: nat, end: nat)
    | SeasonPack(packSeason: nat)

  predicate Covers(c: Coverage, season: nat, episode: nat) {
    match c
    case Episode(found, foundEpisode) => (found == None || found == Some(season)) && foundEpisode == episode
    case Range(found, start, end) => (found == None || found == Some(season)) && start <= episode <= end
    case SeasonPack(found) => found == season
  }

  // ---------------------------------------------------------------------- labels

  /** `{n:02}`. */
  function Pad2(n: nat): string {
    if n < 10 then "0" + Print(n) else Print(n)
  }

  function Label(c: Coverage): string {
    match c
    case Episode(Some(season), episode) => "S" + Pad2(season) + "E" + Pad2(episode)
    case Episode(None, episode) => "E" + Pad2(episode)
    case Range(Some(season), start, end) => "S" + Pad2(season) + "E" + Pad2(start) + "-E" + Pad2(end)
    case Range(None, start, end) => "E" + Pad2(start) + "-E" + Pad2(end)
    case SeasonPack(season) => "S" + Pad2(season) + " 全季"
  }

  /** The number in decimal, with two digits at least and a leading zero only to that end. */
  predicate TwoDigits(text: string, n: nat) {
    |text| >= 2 && AllDigits(text) && Value(text) == n && (|text| > 2 ==> text[0] != '0')
  }

  /** Labels are `S01E02`, `E02`, `S01E02-E05`, `E02-E05` and `S01 全季`. */
  lemma LabelIs(c: Coverage)
    ensures match c
            case Episode(Some(season), episode) =>
              exists s, e :: TwoDigits(s, season) && TwoDigits(e, episode) && Label(c) == "S" + s + "E" + e
            case Episode(None, episode) => exists e :: TwoDigits(e, episode) && Label(c) == "E" + e
            case Range(Some(season), start, end) =>
              exists s, e, e' :: TwoDigits(s, season) && TwoDigits(e, start) && TwoDigits(e', end) && Label(c) == "S" + s + "E" + e + "-E" + e'
            case Range(None, start, end) =>
              exists e, e' :: TwoDigits(e, start) && TwoDigits(e', end) && Label(c) == "E" + e + "-E" + e'
            case SeasonPack(season) => exists s :: TwoDigits(s, season) && Label(c) == "S" + s + " 全季"
  {
    hide Pad2, TwoDigits;
    match c
    case Episode(Some(season), episode) =>
      Pad2HasTwo(season);
      Pad2HasTwo(episode);
    case Episode(None, episode) => Pad2HasTwo(episode);
    case Range(Some(season), start, end) =>
      Pad2HasTwo(season);
      Pad2HasTwo(start);
      Pad2HasTwo(end);
    case Range(None, start, end) =>
      Pad2HasTwo(start);
      Pad2HasTwo(end);
    case SeasonPack(season) => Pad2HasTwo(season);
  }

  lemma Pad2HasTwo(n: nat)
    ensures TwoDigits(Pad2(n), n)
  {
    Pad2Value(n);
    ValueOfPrint(n);
    if n >= 10 {
      ValueOfPrint(n / 10);
    }
  }

  // --------------------------------------------------------------------- numbers

  function Capped(n: nat): nat {
    if n > U32_MAX then U32_MAX else n
  }

  /** The decimal number at `start`, capped, and where it ends. */
  function NumberAt(s: string, start: nat): (r: Option<(nat, nat)>)
    requires start <= |s|
    ensures r.Some? ==> start < r.value.1 <= |s|
  {
    var end := DigitsEnd(s, start);
    if end == start then None else Some((Capped(Value(s[start..end])), end))
  }

  lemma CappedStep(n: nat, d: nat)
    requires d < 10
    ensures Capped(Capped(Capped(n) * 10) + d) == Capped(10 * n + d)
  {
  }

  lemma AppendDigit(s: string, start: nat, cursor: nat)
    requires start <= cursor < |s| && AllDigits(s[start..cursor]) && IsDigit(s[cursor])
    ensures AllDigits(s[start..cursor + 1])
    ensures Value(s[start..cursor + 1]) == 10 * Value(s[start..cursor]) + DigitValue(s[cursor])
  {
    var next := s[start..cursor + 1];
    assert next == s[start..cursor] + [s[cursor]];
    assert next[..|next| - 1] == s[start..cursor];
  }

  /** Accumulates with saturating arithmetic; that is the decimal value, capped. */
  method ReadNumber(s: string, start: nat) returns (r: Option<(nat, nat)>)
    requires start <= |s|
    ensures r == NumberAt(s, start)
  {
    var cursor, value := start, 0;
    while cursor < |s| && IsDigit(s[cursor])
      invariant start <= cursor <= |s| && DigitsEnd(s, cursor) == DigitsEnd(s, start)
      invariant AllDigits(s[start..cursor]) && value == Capped(Value(s[start..cursor]))
    {
      AppendDigit(s, start, cursor);
      CappedStep(Value(s[start..cursor]), DigitValue(s[cursor]));
      value := Capped(value * 10);
      value := Capped(value + DigitValue(s[cursor]));
      cursor := cursor + 1;
    }
    r := if cursor > start then Some((value, cursor)) else None;
  }

  /** Like `NumberAt`, except that a number beyond 32 bits is refused rather than capped. */
  function ExactNumberAt(s: string, start: nat): (r: Option<(nat, nat)>)
    requires start <= |s|
    ensures r.Some? ==> start < r.value.1 <= |s|
  {
    var end := DigitsEnd(s, start);
    if end == start || Value(s[start..end]) > U32_MAX then None else Some((Value(s[start..end]), end))
  }

  method ReadCharNumber(s: string, start: nat) returns (r: Option<(nat, nat)>)
    requires start <= |s|
    ensures r == ExactNumberAt(s, start)
  {
    var cursor, digits := start, "";
    while cursor < |s| && IsDigit(s[cursor])
      invariant start <= cursor <= |s| && DigitsEnd(s, cursor) == DigitsEnd(s, start)
      invariant digits == s[start..cursor] && AllDigits(digits)
    {
      digits := digits + [s[cursor]];
      cursor := cursor + 1;
    }
    r := if digits != "" && Value(digits) <= U32_MAX then Some((Value(digits), cursor)) else None;
  }

  // -------------------------------------------------------------------- skipping

  predicate IsSeparator(c: char) {
    c == '.' || c == '_' || c == '-' || c == ' ' || c == '[' || c == ']'
  }

  predicate IsRangeSeparator(c: char) {
    c == '-' || c == '_' || c == '~' || c == ' '
  }

  /** The first position from `i` on whose character does not satisfy `p`. */
  function SkipWhile(s: string, i: nat, p: char -> bool): (r: nat)
    requires i <= |s|
    ensures i <= r <= |s|
    decreases |s| - i
  {
    if i < |s| && p(s[i]) then SkipWhile(s, i + 1, p) else i
  }

  method Skip(s: string, start: nat, p: char -> bool) returns (cursor: nat)
    requires start <= |s|
    ensures cursor == SkipWhile(s, start, p)
  {
    cursor := start;
    while cursor < |s| && p(s[cursor])
      invariant start <= cursor <= |s| && SkipWhile(s, cursor, p) == SkipWhile(s, start, p)
    {
      cursor := cursor + 1;
    }
  }

  predicate CharAt(s: string, i: nat, c: char) {
    i < |s| && s[i] == c
  }

  function SkipChar(s: string, i: nat, c: char): (r: nat)
    requires i <= |s|
    ensures i <= r <= |s|
  {
    if CharAt(s, i, c) then i + 1 else i
  }

  // ----------------------------------------------------------------- range ends

  /** A number that nothing alphanumeric follows, and that is not zero. */
  function ClosingNumber(s: string, i: nat): Option<nat>
    requires i <= |s|
  {
    match NumberAt(s, i)
    case None => None
    case Some((value, end)) =>
      if (end == |s| || !IsAsciiAlphanumeric(s[end])) && value > 0 then Some(value) else None
  }

  /** The end of an episode range, after the number at which it starts. */
  function RangeEnd(s: string, i: nat): Option<nat>
    requires i <= |s|
  {
    if CharAt(s, i, 'e') then ClosingNumber(s, i + 1)
    else if i == |s| || !IsRangeSeparator(s[i]) then None
    else ClosingNumber(s, SkipChar(s, SkipChar(s, SkipWhile(s, i, IsRangeSeparator), 'e'), 'p'))
  }

  method ReadRangeEnd(s: string, start: nat) returns (r: Option<nat>)
    requires start <= |s|
    ensures r == RangeEnd(s, start)
  {
    hide NumberAt, SkipWhile, IsAsciiAlphanumeric, IsRangeSeparator;
    var cursor := start;
    if cursor < |s| && s[cursor] == 'e' {
      cursor := cursor + 1;
    } else {
      if cursor >= |s| || !IsRangeSeparator(s[cursor]) {
        return None;
      }
      cursor := Skip(s, cursor, IsRangeSeparator);
      if cursor < |s| && s[cursor] == 'e' {
        cursor := cursor + 1;
      }
      if cursor < |s| && s[cursor] == 'p' {
        cursor := cursor + 1;
      }
    }
    var number := ReadNumber(s, cursor);
    if number == None {
      return None;
    }
    var (value, end) := number.value;
    r := if (end == |s| || !IsAsciiAlphanumeric(s[end])) && value > 0 then Some(value) else None;
  }

  // --------------------------------------------------------------------- finders

  /** The result at the first position, from `i` on, that has one. */
  function FirstFrom<T>(s: string, i: nat, at: (string, nat) -> Option<T>): Option<T>
    requires i <= |s|
    decreases |s| - i
  {
    if i == |s| then None else if at(s, i).Some? then at(s, i) else FirstFrom(s, i + 1, at)
  }

  lemma {:induction false} NowhereIsNone<T>(s: string, i: nat, at: (string, nat) -> Option<T>)
    requires i <= |s| && forall k :: i <= k < |s| ==> at(s, k) == None
    ensures FirstFrom(s, i, at) == None
    decreases |s| - i
  {
    if i < |s| {
      NowhereIsNone(s, i + 1, at);
    }
  }

  lemma {:induction false} FoundSomewhere<T>(s: string, i: nat, at: (string, nat) -> Option<T>) returns (k: nat)
    requires i <= |s| && FirstFrom(s, i, at).Some?
    ensures i <= k < |s| && at(s, k) == FirstFrom(s, i, at)
    decreases |s| - i
  {
    if at(s, i).Some? {
      k := i;
    } else {
      k := FoundSomewhere(s, i + 1, at);
    }
  }

  function SeasonEpisodeAt(s: string, i: nat): Option<(nat, nat, Option<nat>)> {
    if !CharAt(s, i, 's') || (i > 0 && IsAsciiAlphanumeric(s[i - 1])) then None else
    match NumberAt(s, i + 1)
    case None => None
    case Some((season, j)) =>
      var e := SkipWhile(s, j, IsSeparator);
      if !CharAt(s, e, 'e') then None else
      match NumberAt(s, e + 1)
      case None => None
      case Some((episode, end)) =>
        if season > 0 && episode > 0 then Some((season, episode, RangeEnd(s, end))) else None
  }

  method FindSeasonEpisode(s: string) returns (r: Option<(nat, nat, Option<nat>)>)
    ensures r == FirstFrom(s, 0, SeasonEpisodeAt)
  {
    hide NumberAt, SkipWhile, RangeEnd, IsAsciiAlphanumeric;
    for i := 0 to |s|
      invariant FirstFrom(s, 0, SeasonEpisodeAt) == FirstFrom(s, i, SeasonEpisodeAt)
    {
      if s[i] != 's' || (i > 0 && IsAsciiAlphanumeric(s[i - 1])) {
        continue;
      }
      var season := ReadNumber(s, i + 1);
      if season == None {
        continue;
      }
      var cursor := Skip(s, season.value.1, IsSeparator);
      if cursor >= |s| || s[cursor] != 'e' {
        continue;
      }
      var episode := ReadNumber(s, cursor + 1);
      if episode == None {
        continue;
      }
      if season.value.0 > 0 && episode.value.0 > 0 {
        var end := ReadRangeEnd(s, episode.value.1);
        return Some((season.value.0, episode.value.0, end));
      }
    }
    r := None;
  }

  function EpisodeAt(s: string, i: nat): Option<(nat, Option<nat>)> {
    if !CharAt(s, i, 'e') || (i > 0 && IsAsciiAlphabetic(s[i - 1])) then None else
    match NumberAt(s, SkipChar(s, i + 1, 'p'))
    case None => None
    case Some((episode, end)) => if episode > 0 then Some((episode, RangeEnd(s, end))) else None
  }

  method FindEpisode(s: string) returns (r: Option<(nat, Option<nat>)>)
    ensures r == FirstFrom(s, 0, EpisodeAt)
  {
    hide NumberAt, RangeEnd, IsAsciiAlphabetic;
    for i := 0 to |s|
      invariant FirstFrom(s, 0, EpisodeAt) == FirstFrom(s, i, EpisodeAt)
    {
      if s[i] != 'e' || (i > 0 && IsAsciiAlphabetic(s[i - 1])) {
        continue;
      }
      var cursor := i + 1;
      if cursor < |s| && s[cursor] == 'p' {
        cursor := cursor + 1;
      }
      var episode := ReadNumber(s, cursor);
      if episode == None {
        continue;
      }
      if episode.value.0 > 0 {
        var end := ReadRangeEnd(s, episode.value.1);
        return Some((episode.value.0, end));
      }
    }
    r := None;
  }

  predicate IsChineseRange(c: char) {
    c == '-' || c == '~' || c == '至' || c == '到'
  }

  /** The rest of `第…集`, once its first number has been read up to `j`. */
  function ChineseRest(s: string, start: nat, j: nat): Option<(nat, Option<nat>)>
    requires j <= |s|
  {
    var mark := SkipWhile(s, SkipChar(s, j, '集'), IsWhitespace);
    if mark == |s| || !IsChineseRange(s[mark]) then Some((start, None)) else
    match ExactNumberAt(s, SkipChar(s, SkipWhile(s, mark + 1, IsWhitespace), '第'))
    case None => None
    case Some((end, _)) => Some((start, Some(end)))
  }

  method ReadChineseRest(s: string, start: nat, j: nat) returns (r: Option<(nat, Option<nat>)>)
    requires j <= |s|
    ensures r == ChineseRest(s, start, j)
  {
    hide ExactNumberAt, SkipWhile, IsWhitespace, IsChineseRange;
    var cursor := j;
    if cursor < |s| && s[cursor] == '集' {
      cursor := cursor + 1;
    }
    cursor := Skip(s, cursor, IsWhitespace);
    if cursor >= |s| || !IsChineseRange(s[cursor]) {
      return Some((start, None));
    }
    cursor := Skip(s, cursor + 1, IsWhitespace);
    if cursor < |s| && s[cursor] == '第' {
      cursor := cursor + 1;
    }
    var end := ReadCharNumber(s, cursor);
    r := if end == None then None else Some((start, Some(end.value.0)));
  }

  /** What follows the first `第` settles the matter, even if it is nothing usable. */
  function ChineseEpisodeAt(s: string, i: nat): Option<Option<(nat, Option<nat>)>> {
    if !CharAt(s, i, '第') then None else
    match ExactNumberAt(s, i + 1)
    case None => Some(None)
    case Some((start, j)) => Some(ChineseRest(s, start, j))
  }

  function ChineseEpisode(s: string): Option<(nat, Option<nat>)> {
    match FirstFrom<Option<(nat, Option<nat>)>>(s, 0, ChineseEpisodeAt) case None => None case Some(r) => r
  }

  method FindChineseEpisode(s: string) returns (r: Option<(nat, Option<nat>)>)
    ensures r == ChineseEpisode(s)
  {
    hide ExactNumberAt, ChineseRest;
    for i := 0 to |s|
      invariant FirstFrom(s, 0, ChineseEpisodeAt) == FirstFrom(s, i, ChineseEpisodeAt)
    {
      if s[i] == '第' {
        var start := ReadCharNumber(s, i + 1);
        if start == None {
          return None;
        }
        r := ReadChineseRest(s, start.value.0, start.value.1);
        return;
      }
    }
    r := None;
  }

  function BracketEpisodeAt(s: string, i: nat): Option<(nat, Option<nat>)> {
    if !CharAt(s, i, '[') then None else
    match NumberAt(s, i + 1)
    case None => None
    case Some((start, j)) =>
      if start == 0 then None else
      var range := if CharAt(s, j, '-') || CharAt(s, j, '~') then NumberAt(s, j + 1) else None;
      var close := if range.Some? then range.value.1 else j;
      if CharAt(s, close, ']') then Some((start, if range.Some? then Some(range.value.0) else None)) else None
  }

  method FindBracketEpisode(s: string) returns (r: Option<(nat, Option<nat>)>)
    ensures r == FirstFrom(s, 0, BracketEpisodeAt)
  {
    hide NumberAt;
    for i := 0 to |s|
      invariant FirstFrom(s, 0, BracketEpisodeAt) == FirstFrom(s, i, BracketEpisodeAt)
    {
      if s[i] != '[' {
        continue;
      }
      var start := ReadNumber(s, i + 1);
      if start == None || start.value.0 == 0 {
        continue;
      }
      var cursor := start.value.1;
      var end: Option<nat> := None;
      if cursor < |s| && (s[cursor] == '-' || s[cursor] == '~') {
        var second := ReadNumber(s, cursor + 1);
        if second.Some? {
          end := Some(second.value.0);
          cursor := second.value.1;
        }
      }
      if cursor < |s| && s[cursor] == ']' {
        return Some((start.value.0, end));
      }
    }
    r := None;
  }

  predicate MentionsPack(s: string) {
    || Contains(s, "complete") || Contains(s, "season pack") || Contains(s, "full season")
    || Contains(s, "batch") || Contains(s, "collection")
    || Contains(s, "全季") || Contains(s, "全集") || Contains(s, "合集") || Contains(s, "整季")
  }

  function SeasonPackAt(s: string, i: nat): Option<nat> {
    if !CharAt(s, i, 's') || (i > 0 && IsAsciiAlphanumeric(s[i - 1])) then None else
    match NumberAt(s, i + 1)
    case None => None
    case Some((season, end)) =>
      if season > 0 && !CharAt(s, end, 'e') && (MentionsPack(s) || end < |s|) then Some(season) else None
  }

  method FindSeasonPack(s: string) returns (r: Option<nat>)
    ensures r == FirstFrom(s, 0, SeasonPackAt)
  {
    hide NumberAt, MentionsPack, IsAsciiAlphanumeric;
    var pack := MentionsPack(s);
    for i := 0 to |s|
      invariant FirstFrom(s, 0, SeasonPackAt) == FirstFrom(s, i, SeasonPackAt)
    {
      if s[i] == 's' && (i == 0 || !IsAsciiAlphanumeric(s[i - 1])) {
        var number := ReadNumber(s, i + 1);
        if number.Some? {
          var (season, end) := number.value;
          if season > 0 && (end >= |s| || s[end] != 'e') && (pack || end < |s|) {
            return Some(season);
          }
        }
      }
    }
    r := None;
  }

  // ------------------------------------------------------------------ recognising

  function RangeOrEpisode(season: Option<nat>, start: nat, end: Option<nat>): Coverage {
    if end.Some? && end.value > start then Range(season, start, end.value) else Episode(season, start)
  }

  function Recognized(value: string): Option<Coverage> {
    var lower := Lower(value);
    match FirstFrom<(nat, nat, Option<nat>)>(lower, 0, SeasonEpisodeAt)
    case Some((season, episode, end)) => Some(RangeOrEpisode(Some(season), episode, end))
    case None =>
      match FirstFrom<(nat, Option<nat>)>(lower, 0, EpisodeAt)
      case Some((episode, end)) => Some(RangeOrEpisode(None, episode, end))
      case None =>
        match ChineseEpisode(value)
        case Some((episode, end)) => Some(RangeOrEpisode(None, episode, end))
        case None =>
          match FirstFrom<(nat, Option<nat>)>(value, 0, BracketEpisodeAt)
          case Some((episode, end)) => Some(RangeOrEpisode(None, episode, end))
          case None =>
            match FirstFrom<nat>(lower, 0, SeasonPackAt)
            case Some(season) => Some(SeasonPack(season))
            case None => None
  }

  method Recognize(value: string) returns (r: Option<Coverage>)
    ensures r == Recognized(value)
  {
    var lower := Lower(value);
    var seasonEpisode := FindSeasonEpisode(lower);
    if seasonEpisode.Some? {
      var (season, episode, end) := seasonEpisode.value;
      return Some(RangeOrEpisode(Some(season), episode, end));
    }
    var episode := FindEpisode(lower);
    if episode == None {
      episode := FindChineseEpisode(value);
    }
    if episode == None {
      episode := FindBracketEpisode(value);
    }
    if episode.Some? {
      return Some(RangeOrEpisode(None, episode.value.0, episode.value.1));
    }
    var season := FindSeasonPack(lower);
    r := if season == None then None else Some(SeasonPack(season.value));
  }

  function SeasonOf(c: Coverage): Option<nat> {
    match c
    case Episode(season, _) => season
    case Range(season, _, _) => season
    case SeasonPack(season) => Some(season)
  }

  function FirstOf(c: Coverage): nat {
    match c case Episode(_, episode) => episode case Range(_, start, _) => start case SeasonPack(_) => 1
  }

  function LastOf(c: Coverage): nat {
    match c case Episode(_, episode) => episode case Range(_, _, end) => end case SeasonPack(_) => 1
  }

  // --------------------------------------------------- reading printed labels back

  predicate PositiveSeason(season: Option<nat>) {
    season.Some? ==> 0 < season.value <= U32_MAX
  }

  /** Numbers from one up, and a range that has at least two episodes. */
  predicate WellFormed(c: Coverage) {
    match c
    case Episode(season, episode) => PositiveSeason(season) && 0 < episode <= U32_MAX
    case Range(season, start, end) => PositiveSeason(season) && 0 < start < end <= U32_MAX
    case SeasonPack(season) => 0 < season <= U32_MAX
  }

  lemma Pad2Value(n: nat)
    ensures Pad2(n) != "" && AllDigits(Pad2(n)) && Value(Pad2(n)) == n
  {
    ValueOfPrint(n);
    if n < 10 {
      var p := Pad2(n);
      assert p == ['0', DigitChar(n)];
      assert p[..1] == "0" && "0"[..0] == "";
      assert Value("0") == 0;
    }
  }

  /** What is left of the text at `i`. */
  predicate Tail(s: string, i: nat, t: string) {
    i <= |s| && s[i..] == t
  }

  lemma TailStep(s: string, i: nat, a: string, rest: string)
    requires Tail(s, i, a + rest)
    ensures Tail(s, i + |a|, rest) && s[i..i + |a|] == a
    ensures forall k :: 0 <= k < |a| ==> s[i + k] == a[k]
  {
    assert s[i..][|a|..] == rest && s[i..][..|a|] == a;
  }

  lemma LetterStep(s: string, i: nat, c: char, rest: string)
    requires Tail(s, i, [c] + rest)
    ensures CharAt(s, i, c) && Tail(s, i + 1, rest)
  {
    assert s[i] == s[i..][0];
    TailStep(s, i, [c], rest);
  }

  /** A printed number is read back wherever no digit follows it. */
  lemma NumberReadBack(s: string, i: nat, n: nat, after: string)
    requires Tail(s, i, Pad2(n) + after) && n <= U32_MAX
    requires after != "" ==> !IsDigit(after[0])
    ensures Tail(s, i + |Pad2(n)|, after)
    ensures NumberAt(s, i) == Some((n, i + |Pad2(n)|)) && IsDigit(s[i])
  {
    Pad2Value(n);
    TailStep(s, i, Pad2(n), after);
    DigitsEndIs(s, i, i + |Pad2(n)|);
  }

  lemma LowerConcat(a: string, b: string)
    ensures Lower(a + b) == Lower(a) + Lower(b)
  {
  }

  lemma LowerDigits(s: string)
    requires AllDigits(s)
    ensures Lower(s) == s
  {
  }

  /** A label piece: a marker, lowered, and a printed number. */
  lemma LowerPiece(before: string, marker: string, n: nat)
    ensures Lower(before + marker + Pad2(n)) == Lower(before) + Lower(marker) + Pad2(n)
  {
    Pad2Value(n);
    LowerConcat(before + marker, Pad2(n));
    LowerConcat(before, marker);
    LowerDigits(Pad2(n));
  }

  lemma NoSeasonEpisode(s: string)
    requires 's' !in s
    ensures FirstFrom(s, 0, SeasonEpisodeAt) == None
  {
    NowhereIsNone(s, 0, SeasonEpisodeAt);
  }

  lemma NoEpisode(s: string)
    requires 'e' !in s
    ensures FirstFrom(s, 0, EpisodeAt) == None
  {
    NowhereIsNone(s, 0, EpisodeAt);
  }

  lemma NoChineseEpisode(s: string)
    requires '第' !in s
    ensures ChineseEpisode(s) == None
  {
    NowhereIsNone(s, 0, ChineseEpisodeAt);
  }

  lemma NoBracketEpisode(s: string)
    requires '[' !in s
    ensures FirstFrom(s, 0, BracketEpisodeAt) == None
  {
    NowhereIsNone(s, 0, BracketEpisodeAt);
  }

  /** What is printed after the first episode number of a label: nothing, or the end of the range. */
  function RangeSuffix(end: Option<nat>): string {
    if end == None then "" else "-e" + Pad2(end.value)
  }

  predicate EndOk(end: Option<nat>) {
    end.Some? ==> 0 < end.value <= U32_MAX
  }

  /** The lower-case labels. */
  function PlainForm(episode: nat, end: Option<nat>): string {
    "e" + (Pad2(episode) + RangeSuffix(end))
  }

  function SeasonForm(season: nat, episode: nat, end: Option<nat>): string {
    "s" + (Pad2(season) + PlainForm(episode, end))
  }

  lemma RangeEndStep(s: string, i: nat, n: nat)
    requires i + 2 < |s| && s[i] == '-' && s[i + 1] == 'e' && IsDigit(s[i + 2])
    requires NumberAt(s, i + 2) == Some((n, |s|)) && n > 0
    ensures RangeEnd(s, i) == Some(n)
  {
    assert SkipWhile(s, i + 1, IsRangeSeparator) == i + 1;
    assert SkipWhile(s, i, IsRangeSeparator) == i + 1;
  }

  lemma RangeEndReadBack(s: string, i: nat, end: Option<nat>)
    requires Tail(s, i, RangeSuffix(end)) && EndOk(end)
    ensures RangeEnd(s, i) == end
  {
    if end.Some? {
      TailStep(s, i, "-e", Pad2(end.value));
      assert s[i] == "-e"[0] && s[i + 1] == "-e"[1];
      assert Pad2(end.value) + "" == Pad2(end.value);
      NumberReadBack(s, i + 2, end.value, "");
      RangeEndStep(s, i, end.value);
    }
  }

  /** A marker and its number, which stops where `after` begins. */
  lemma MarkedReadBack(s: string, i: nat, c: char, n: nat, after: string) returns (j: nat)
    requires Tail(s, i, [c] + (Pad2(n) + after)) && n <= U32_MAX && (after != "" ==> !IsDigit(after[0]))
    ensures CharAt(s, i, c) && i + 1 < |s| && IsDigit(s[i + 1])
    ensures NumberAt(s, i + 1) == Some((n, j)) && Tail(s, j, after)
  {
    hide NumberAt, Tail, Pad2;
    LetterStep(s, i, c, Pad2(n) + after);
    NumberReadBack(s, i + 1, n, after);
    j := i + 1 + |Pad2(n)|;
  }

  lemma RangeSuffixStart(end: Option<nat>)
    ensures RangeSuffix(end) != "" ==> RangeSuffix(end)[0] == '-'
  {
  }

  lemma EpisodeTailReadBack(s: string, i: nat, episode: nat, end: Option<nat>) returns (k: nat)
    requires Tail(s, i, PlainForm(episode, end)) && episode <= U32_MAX && EndOk(end)
    ensures CharAt(s, i, 'e') && i + 1 < |s| && IsDigit(s[i + 1])
    ensures NumberAt(s, i + 1) == Some((episode, k)) && k <= |s| && RangeEnd(s, k) == end
  {
    hide Tail, NumberAt, RangeEnd, Pad2;
    RangeSuffixStart(end);
    k := MarkedReadBack(s, i, 'e', episode, RangeSuffix(end));
    RangeEndReadBack(s, k, end);
  }

  lemma EpisodeStep(s: string, episode: nat, k: nat)
    requires CharAt(s, 0, 'e') && 1 < |s| && IsDigit(s[1]) && NumberAt(s, 1) == Some((episode, k)) && episode > 0
    ensures FirstFrom(s, 0, EpisodeAt) == Some((episode, RangeEnd(s, k)))
  {
    hide NumberAt, RangeEnd;
  }

  lemma EpisodeReadBack(s: string, episode: nat, end: Option<nat>)
    requires s == PlainForm(episode, end) && 0 < episode <= U32_MAX && EndOk(end)
    ensures FirstFrom(s, 0, EpisodeAt) == Some((episode, end))
  {
    assert Tail(s, 0, PlainForm(episode, end));
    hide Tail, NumberAt, RangeEnd, FirstFrom, EpisodeAt, PlainForm;
    var k := EpisodeTailReadBack(s, 0, episode, end);
    EpisodeStep(s, episode, k);
  }

  lemma SeasonEpisodeStep(s: string, season: nat, j: nat, episode: nat, k: nat)
    requires CharAt(s, 0, 's') && NumberAt(s, 1) == Some((season, j)) && season > 0
    requires CharAt(s, j, 'e') && NumberAt(s, j + 1) == Some((episode, k)) && episode > 0
    ensures FirstFrom(s, 0, SeasonEpisodeAt) == Some((season, episode, RangeEnd(s, k)))
  {
    assert SkipWhile(s, j, IsSeparator) == j;
  }

  lemma SeasonEpisodeReadBack(s: string, season: nat, episode: nat, end: Option<nat>)
    requires s == SeasonForm(season, episode, end)
    requires 0 < season <= U32_MAX && 0 < episode <= U32_MAX && EndOk(end)
    ensures FirstFrom(s, 0, SeasonEpisodeAt) == Some((season, episode, end))
  {
    assert Tail(s, 0, SeasonForm(season, episode, end));
    hide Tail, NumberAt, RangeEnd, FirstFrom, SeasonEpisodeAt, Pad2, PlainForm;
    var j := MarkedReadBack(s, 0, 's', season, PlainForm(episode, end));
    var k := EpisodeTailReadBack(s, j, episode, end);
    SeasonEpisodeStep(s, season, j, episode, k);
  }

  lemma SeasonPackReadBack(s: string, season: nat)
    requires s == "s" + (Pad2(season) + " 全季") && 0 < season <= U32_MAX
    ensures FirstFrom(s, 0, SeasonPackAt) == Some(season)
    ensures SeasonEpisodeAt(s, 0) == None
  {
    var j := MarkedReadBack(s, 0, 's', season, " 全季");
    assert s[j..][0] == ' ' && s[j..][1] == '全';
    assert SkipWhile(s, j + 1, IsSeparator) == j + 1;
    assert SkipWhile(s, j, IsSeparator) == j + 1;
  }

  /** The label of an episode or a range, with or without a season. */
  function EpisodeCoverage(season: Option<nat>, episode: nat, end: Option<nat>): Coverage {
    if end == None then Episode(season, episode) else Range(season, episode, end.value)
  }

  lemma Rejoin(a: string, b: string, c: string)
    ensures a + b + c == a + (b + c)
  {
  }

  /** What is printed from the episode on, and its lower-case form. */
  function PlainText(episode: nat, end: Option<nat>): string {
    if end == None then "E" + Pad2(episode) else "E" + Pad2(episode) + "-E" + Pad2(end.value)
  }

  lemma LowerPlain(episode: nat, end: Option<nat>)
    ensures Lower(PlainText(episode, end)) == PlainForm(episode, end)
  {
    var p := Pad2(episode);
    LowerPiece("", "E", episode);
    assert "" + "E" == "E" && Lower("") + Lower("E") == "e";
    if end == None {
      assert p + "" == p;
    } else {
      LowerPiece("E" + p, "-E", end.value);
      assert Lower("-E") == "-e";
      Rejoin("e" + p, "-e", Pad2(end.value));
      Rejoin("e", p, RangeSuffix(end));
    }
  }

  lemma LowerSeason(season: nat, after: string)
    ensures Lower("S" + Pad2(season) + after) == "s" + (Pad2(season) + Lower(after))
  {
    LowerPiece("", "S", season);
    assert "" + "S" == "S" && Lower("") + Lower("S") == "s";
    LowerConcat("S" + Pad2(season), after);
    Rejoin("s", Pad2(season), Lower(after));
  }

  lemma SeasonLabelText(season: nat, episode: nat, end: Option<nat>)
    ensures Label(EpisodeCoverage(Some(season), episode, end)) == "S" + Pad2(season) + PlainText(episode, end)
  {
    var first, p := "S" + Pad2(season), Pad2(episode);
    Rejoin(first, "E", p);
    if end.Some? {
      Rejoin(first, "E" + p, "-E");
      Rejoin(first, "E" + p + "-E", Pad2(end.value));
    }
  }

  lemma FormLacksS(episode: nat, end: Option<nat>)
    ensures 's' !in PlainForm(episode, end)
  {
    Pad2Value(episode);
    if end.Some? {
      Pad2Value(end.value);
    }
  }

  lemma PlainLabelReadBack(episode: nat, end: Option<nat>)
    requires 0 < episode <= U32_MAX && EndOk(end) && (end.Some? ==> episode < end.value)
    ensures Recognized(Label(EpisodeCoverage(None, episode, end))) == Some(EpisodeCoverage(None, episode, end))
  {
    LowerPlain(episode, end);
    FormLacksS(episode, end);
    NoSeasonEpisode(PlainForm(episode, end));
    EpisodeReadBack(PlainForm(episode, end), episode, end);
  }

  lemma SeasonLabelReadBack(season: nat, episode: nat, end: Option<nat>)
    requires 0 < season <= U32_MAX && 0 < episode <= U32_MAX && EndOk(end) && (end.Some? ==> episode < end.value)
    ensures Recognized(Label(EpisodeCoverage(Some(season), episode, end)))
         == Some(EpisodeCoverage(Some(season), episode, end))
  {
    SeasonLabelText(season, episode, end);
    LowerSeason(season, PlainText(episode, end));
    LowerPlain(episode, end);
    SeasonEpisodeReadBack(SeasonForm(season, episode, end), season, episode, end);
  }

  /** Only the `s` at the front of a lowered pack label starts anything. */
  lemma PackFormShape(s: string, season: nat)
    requires s == "s" + (Pad2(season) + " 全季")
    ensures 'e' !in s && forall k :: 0 < k < |s| ==> s[k] != 's'
  {
    Pad2Value(season);
    var t := Pad2(season) + " 全季";
    assert 'e' !in t && 's' !in t;
    assert s[1..] == t;
  }

  lemma PackLabelReadBack(season: nat)
    requires 0 < season <= U32_MAX
    ensures Recognized(Label(SeasonPack(season))) == Some(SeasonPack(season))
  {
    var value := Label(SeasonPack(season));
    LowerSeason(season, " 全季");
    assert Lower(" 全季") == " 全季";
    var lower := "s" + (Pad2(season) + " 全季");
    PackFormShape(lower, season);
    SeasonPackReadBack(lower, season);
    NowhereIsNone(lower, 0, SeasonEpisodeAt);
    NoEpisode(lower);
    LabelIsPlain(SeasonPack(season));
    NoChineseEpisode(value);
    NoBracketEpisode(value);
  }

  lemma ConcatLacks(a: string, b: string)
    requires '第' !in a && '[' !in a && '第' !in b && '[' !in b
    ensures '第' !in a + b && '[' !in a + b
  {
  }

  lemma NumberIsPlain(n: nat)
    ensures '第' !in Pad2(n) && '[' !in Pad2(n)
  {
    Pad2Value(n);
  }

  lemma PlainTextIsPlain(before: string, episode: nat, end: Option<nat>)
    requires '第' !in before && '[' !in before
    ensures '第' !in before + PlainText(episode, end) && '[' !in before + PlainText(episode, end)
  {
    NumberIsPlain(episode);
    ConcatLacks("E", Pad2(episode));
    if end.Some? {
      NumberIsPlain(end.value);
      ConcatLacks("E" + Pad2(episode), "-E");
      ConcatLacks("E" + Pad2(episode) + "-E", Pad2(end.value));
    }
    ConcatLacks(before, PlainText(episode, end));
  }

  /** No label has a mark of the bracketed or the Chinese notation. */
  lemma LabelIsPlain(c: Coverage)
    ensures '第' !in Label(c) && '[' !in Label(c)
  {
    hide Pad2;
    var season := SeasonOf(c);
    if season.Some? {
      NumberIsPlain(season.value);
      ConcatLacks("S", Pad2(season.value));
    }
    var before := if season.Some? then "S" + Pad2(season.value) else "";
    var last := match c case Range(_, _, end) => Some(end) case _ => None;
    match c
    case SeasonPack(_) => ConcatLacks(before, " 全季");
    case _ =>
      PlainTextIsPlain(before, FirstOf(c), last);
      if season.Some? {
        SeasonLabelText(season.value, FirstOf(c), last);
      } else {
        assert "" + PlainText(FirstOf(c), last) == PlainText(FirstOf(c), last);
      }
  }

  /**
   Printing and reading back: a printed label is recognised as exactly the coverage it was printed
   from when, and only when, the coverage counts from one and a range has at least two episodes.
   */
  lemma LabelRoundTripIff(c: Coverage)
    ensures Recognized(Label(c)) == Some(c) <==> WellFormed(c)
  {
    if WellFormed(c) {
      match c
      case Episode(None, episode) => PlainLabelReadBack(episode, None);
      case Episode(Some(season), episode) => SeasonLabelReadBack(season, episode, None);
      case Range(None, start, end) => PlainLabelReadBack(start, Some(end));
      case Range(Some(season), start, end) => SeasonLabelReadBack(season, start, Some(end));
      case SeasonPack(season) => PackLabelReadBack(season);
    }
    if Recognized(Label(c)) == Some(c) {
      LabelIsPlain(c);
      NoChineseEpisode(Label(c));
      RecognizedIsWellFormed(Label(c), c);
    }
  }

  lemma SeasonEpisodeIsPositive(s: string, season: nat, episode: nat, end: Option<nat>)
    requires FirstFrom(s, 0, SeasonEpisodeAt) == Some((season, episode, end))
    ensures 0 < season <= U32_MAX && 0 < episode <= U32_MAX && EndOk(end)
  {
    var k := FoundSomewhere(s, 0, SeasonEpisodeAt);
  }

  lemma EpisodeIsPositive(s: string, episode: nat, end: Option<nat>)
    requires FirstFrom(s, 0, EpisodeAt) == Some((episode, end))
    ensures 0 < episode <= U32_MAX && EndOk(end)
  {
    var k := FoundSomewhere(s, 0, EpisodeAt);
  }

  lemma BracketIsPositive(s: string, episode: nat, end: Option<nat>)
    requires FirstFrom(s, 0, BracketEpisodeAt) == Some((episode, end))
    ensures 0 < episode <= U32_MAX && (end.Some? ==> end.value <= U32_MAX)
  {
    var k := FoundSomewhere(s, 0, BracketEpisodeAt);
  }

  lemma SeasonPackIsPositive(s: string, season: nat)
    requires FirstFrom(s, 0, SeasonPackAt) == Some(season)
    ensures 0 < season <= U32_MAX
  {
    var k := FoundSomewhere(s, 0, SeasonPackAt);
  }

  /** The title is read by its `第`, and what stands behind that counts from zero. */
  predicate ChineseZero(value: string) {
    && FirstFrom<(nat, nat, Option<nat>)>(Lower(value), 0, SeasonEpisodeAt) == None
    && FirstFrom<(nat, Option<nat>)>(Lower(value), 0, EpisodeAt) == None
    && ChineseEpisode(value).Some? && ChineseEpisode(value).value.0 == 0
  }

  lemma ChineseIsInU32(s: string, start: nat, end: Option<nat>)
    requires ChineseEpisode(s) == Some((start, end))
    ensures start <= U32_MAX && (end.Some? ==> end.value <= U32_MAX)
  {
    var k := FoundSomewhere(s, 0, ChineseEpisodeAt);
  }

  lemma RangeOrEpisodeShape(season: Option<nat>, start: nat, end: Option<nat>)
    requires PositiveSeason(season) && start <= U32_MAX && (end.Some? ==> end.value <= U32_MAX)
    ensures WellFormed(RangeOrEpisode(season, start, end)) <==> start > 0
  {
  }

  /** Numbers count from one in whatever a title is recognised as, unless it is read by its `第` and that says zero. */
  lemma RecognizedIsWellFormed(value: string, c: Coverage)
    requires Recognized(value) == Some(c)
    ensures WellFormed(c) <==> !ChineseZero(value)
  {
    var lower := Lower(value);
    var a := FirstFrom<(nat, nat, Option<nat>)>(lower, 0, SeasonEpisodeAt);
    var b := FirstFrom<(nat, Option<nat>)>(lower, 0, EpisodeAt);
    var chinese := ChineseEpisode(value);
    var d := FirstFrom<(nat, Option<nat>)>(value, 0, BracketEpisodeAt);
    if a.Some? {
      SeasonEpisodeIsPositive(lower, a.value.0, a.value.1, a.value.2);
      RangeOrEpisodeShape(Some(a.value.0), a.value.1, a.value.2);
    } else if b.Some? {
      EpisodeIsPositive(lower, b.value.0, b.value.1);
      RangeOrEpisodeShape(None, b.value.0, b.value.1);
    } else if chinese.Some? {
      ChineseIsInU32(value, chinese.value.0, chinese.value.1);
      RangeOrEpisodeShape(None, chinese.value.0, chinese.value.1);
    } else if d.Some? {
      BracketIsPositive(value, d.value.0, d.value.1);
      RangeOrEpisodeShape(None, d.value.0, d.value.1);
    } else {
      SeasonPackIsPositive(lower, c.packSeason);
    }
  }

  /** A recognised title and its printed label are recognised alike, except exactly when the title is read as starting at zero. */
  lemma RelabellingIsStable(value: string, c: Coverage)
    requires Recognized(value) == Some(c)
    ensures Recognized(Label(c)) == Some(c) <==> !ChineseZero(value)
  {
    RecognizedIsWellFormed(value, c);
    LabelRoundTripIff(c);
  }

  /** It does happen: episode 0 is accepted behind a `第`, and its label is not recognised as it. */
  lemma EpisodeZeroIsLost()
    ensures Recognized("第0集") == Some(Episode(None, 0))
    ensures Recognized(Label(Episode(None, 0))) != Some(Episode(None, 0))
  {
    var s := "第0集";
    NoSeasonEpisode(Lower(s));
    NoEpisode(Lower(s));
    assert s[1..2] == "0" && "0"[..0] == "";
    DigitsEndIs(s, 1, 2);
    assert ExactNumberAt(s, 1) == Some((0, 2));
    assert ChineseRest(s, 0, 2) == Some((0, None));
    LabelRoundTripIff(Episode(None, 0));
  }

  /** Well-formed coverages that cover the same episodes of the same seasons are the same. */
  lemma CoverageIsDetermined(a: Coverage, b: Coverage)
    requires WellFormed(a) && WellFormed(b)
    requires forall season, episode :: Covers(a, season, episode) <==> Covers(b, season, episode)
    ensures a == b
  {
    var season := if SeasonOf(a).Some? then SeasonOf(a).value else if SeasonOf(b).Some? then SeasonOf(b).value else 1;
    assert Covers(a, season, FirstOf(a)) && Covers(a, season, LastOf(a));
    assert Covers(b, season, FirstOf(b)) && Covers(b, season, LastOf(b));
    assert Covers(a, season + 1, FirstOf(a)) == Covers(b, season + 1, FirstOf(a));
    assert Covers(a, season, LastOf(a) + LastOf(b) + 1) == Covers(b, season, LastOf(a) + LastOf(b) + 1);
  }
}
