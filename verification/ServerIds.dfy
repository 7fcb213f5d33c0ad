/** Server identifiers: reduced to a small alphabet, and made unique by numeric suffixes. */
module ServerIds {
  import opened Decimal
  import opened Text

  // ------------------------------------------------------------------ sanitising

  datatype Scan = Scan(out: string, lastDash: bool)

  function ScanChar(scan: Scan, c: char): Scan {
    if IsAsciiAlphanumeric(c) then Scan(scan.out + [LowerChar(c)], false)
    else if c == '_' then (if scan.out == "" then scan else Scan(scan.out + "_", false))
    else if !scan.lastDash && scan.out != "" then Scan(scan.out + "-", true)
    else scan
  }

  function ScanAll(s: string): Scan {
    if s == "" then Scan("", false) else ScanChar(ScanAll(s[..|s| - 1]), s[|s| - 1])
  }

  function TrimDashesStart(s: string): string {
    if s != "" && s[0] == '-' then TrimDashesStart(s[1..]) else s
  }

  function TrimDashesEnd(s: string): string {
    if s != "" && s[|s| - 1] == '-' then TrimDashesEnd(s[..|s| - 1]) else s
  }

  function Sanitize(raw: string): string {
    TrimDashesEnd(TrimDashesStart(ScanAll(Trim(raw)).out))
  }

  method SanitizeId(raw: string) returns (r: string)
    ensures r == Sanitize(raw)
  {
    var s := Trim(raw);
    var out, lastDash := "", false;
    for k := 0 to |s|
      invariant Scan(out, lastDash) == ScanAll(s[..k])
    {
      assert s[..k + 1][..k] == s[..k];
      var c := s[k];
      if IsAsciiAlphanumeric(c) {
        out := out + [LowerChar(c)];
        lastDash := false;
      } else if c == '_' {
        if out != "" {
          out := out + "_";
          lastDash := false;
        }
      } else if !lastDash && out != "" {
        out := out + "-";
        lastDash := true;
      }
    }
    assert s[..|s|] == s;
    r := TrimDashesEnd(TrimDashesStart(out));
  }

  predicate IsIdChar(c: char) {
    'a' <= c <= 'z' || '0' <= c <= '9' || c == '_' || c == '-'
  }

  /** The shape of the scanner's output: no leading dash or underscore, no two dashes in a row. */
  predicate ScanShape(s: string) {
    && (forall k :: 0 <= k < |s| ==> IsIdChar(s[k]))
    && (s != "" ==> s[0] != '-' && s[0] != '_')
    && (forall k :: 0 < k < |s| ==> !(s[k - 1] == '-' && s[k] == '-'))
  }

  /** A sanitised identifier, possibly empty. */
  predicate CleanId(s: string) {
    ScanShape(s) && (s != "" ==> s[|s| - 1] != '-')
  }

  lemma {:induction false} ScanKeepsShape(s: string)
    ensures ScanShape(ScanAll(s).out)
    ensures ScanAll(s).out != "" ==> (ScanAll(s).lastDash <==> ScanAll(s).out[|ScanAll(s).out| - 1] == '-')
    ensures ScanAll(s).out == "" ==> !ScanAll(s).lastDash
  {
    if s != "" {
      ScanKeepsShape(s[..|s| - 1]);
    }
  }

  lemma {:induction false} TrimDashesEndClean(s: string)
    requires ScanShape(s)
    ensures CleanId(TrimDashesEnd(s))
  {
    if s != "" && s[|s| - 1] == '-' {
      TrimDashesEndClean(s[..|s| - 1]);
    }
  }

  /** Sanitising yields a clean identifier. */
  lemma SanitizeIsClean(raw: string)
    ensures CleanId(Sanitize(raw))
  {
    ScanKeepsShape(Trim(raw));
    TrimDashesEndClean(ScanAll(Trim(raw)).out);
  }

  lemma ScanShapeInit(s: string)
    requires ScanShape(s) && s != ""
    ensures var init, last := s[..|s| - 1], s[|s| - 1];
      && ScanShape(init) && IsIdChar(last) && (init == "" ==> last != '-' && last != '_')
      && (last == '-' ==> init[|init| - 1] != '-')
  {
  }

  lemma {:induction false} ScanOfShape(s: string)
    requires ScanShape(s)
    ensures ScanAll(s) == Scan(s, s != "" && s[|s| - 1] == '-')
  {
    if s != "" {
      var init := s[..|s| - 1];
      ScanShapeInit(s);
      hide ScanShape;
      ScanOfShape(init);
      assert s == init + [s[|s| - 1]];
    }
  }

  /** A clean identifier is left alone. */
  lemma SanitizeOfClean(s: string)
    requires CleanId(s)
    ensures Sanitize(s) == s
  {
    hide IsWhitespace, Trim, ScanAll;
    CleanIsTrimmed(s);
    ScanOfShape(s);
  }

  lemma CleanIsTrimmed(s: string)
    requires CleanId(s)
    ensures Trim(s) == s
  {
    hide Trim;
    TrimShape(s);
  }

  // ------------------------------------------------ what sanitising makes of a text

  predicate InWord(c: char) {
    'a' <= c <= 'z' || 'A' <= c <= 'Z' || '0' <= c <= '9' || c == '_'
  }

  predicate IsWord(w: string) {
    w != "" && forall k :: 0 <= k < |w| ==> InWord(w[k])
  }

  predicate IsGap(t: string) {
    forall k :: 0 <= k < |t| ==> !InWord(t[k])
  }

  /** Words with gaps between them; the first begins with a letter or a digit, and the last gap may be empty. */
  predicate WordsAndGaps(words: seq<string>, gaps: seq<string>) {
    && |words| == |gaps| && (words != [] ==> words[0] != "" && words[0][0] != '_')
    && (forall i :: 0 <= i < |words| ==> IsWord(words[i]) && IsGap(gaps[i]))
    && (forall i :: 0 <= i < |gaps| - 1 ==> gaps[i] != "")
  }

  /** Nothing an identifier could begin with. */
  predicate IsLead(t: string) {
    forall k :: 0 <= k < |t| ==> !InWord(t[k]) || t[k] == '_'
  }

  function Spaced(words: seq<string>, gaps: seq<string>): string
    requires |words| == |gaps|
  {
    if words == [] then "" else Spaced(words[..|words| - 1], gaps[..|gaps| - 1]) + words[|words| - 1] + gaps[|gaps| - 1]
  }

  /** The words in lower case with one dash between them. */
  function Dashed(words: seq<string>): string {
    if words == [] then ""
    else if |words| == 1 then Lower(words[0])
    else Dashed(words[..|words| - 1]) + "-" + Lower(words[|words| - 1])
  }

  lemma ScanSnoc(s: string, c: char)
    ensures ScanAll(s + [c]) == ScanChar(ScanAll(s), c)
  {
    assert (s + [c])[..|s|] == s;
  }

  lemma {:induction false} ScanLead(lead: string)
    requires IsLead(lead)
    ensures ScanAll(lead) == Scan("", false)
  {
    if lead != "" {
      var init, c := lead[..|lead| - 1], lead[|lead| - 1];
      assert lead == init + [c];
      ScanLead(init);
      ScanSnoc(init, c);
    }
  }

  lemma ScanWordChar(s: string, c: char)
    requires InWord(c) && (ScanAll(s).out == "" ==> c != '_')
    ensures ScanAll(s + [c]) == Scan(ScanAll(s).out + [LowerChar(c)], false)
  {
    ScanSnoc(s, c);
    hide ScanAll;
    assert c == '_' ==> "_" == [LowerChar(c)];
  }

  lemma LowerSnoc(w: string, c: char)
    ensures Lower(w + [c]) == Lower(w) + [LowerChar(c)]
  {
  }

  lemma {:induction false} ScanWord(s: string, w: string)
    requires IsWord(w) && (ScanAll(s).out == "" ==> w[0] != '_')
    ensures ScanAll(s + w) == Scan(ScanAll(s).out + Lower(w), false)
  {
    hide ScanAll, InWord, LowerChar, Lower;
    var init, c := w[..|w| - 1], w[|w| - 1];
    assert w == init + [c] && s + w == s + init + [c];
    LowerSnoc(init, c);
    if init == "" {
      assert s + init == s;
      assert Lower(init) == "" && "" + [LowerChar(c)] == [LowerChar(c)];
      ScanWordChar(s, c);
    } else {
      ScanWord(s, init);
      ScanWordChar(s + init, c);
      assert ScanAll(s).out + Lower(w) == ScanAll(s).out + Lower(init) + [LowerChar(c)];
    }
  }

  lemma {:induction false} ScanGap(s: string, gap: string)
    requires IsGap(gap) && ScanAll(s).out != "" && !ScanAll(s).lastDash
    ensures ScanAll(s + gap) == if gap == "" then ScanAll(s) else Scan(ScanAll(s).out + "-", true)
  {
    if gap == "" {
      assert s + gap == s;
    } else {
      var init, c := gap[..|gap| - 1], gap[|gap| - 1];
      assert s + gap == s + init + [c];
      ScanGap(s, init);
      ScanSnoc(s + init, c);
    }
  }

  lemma DashedShape(words: seq<string>, gaps: seq<string>)
    requires WordsAndGaps(words, gaps) && words != []
    ensures Dashed(words) != "" && Dashed(words)[|Dashed(words)| - 1] != '-'
  {
    var w := words[|words| - 1];
    assert InWord(w[|w| - 1]);
    assert Lower(w)[|w| - 1] == LowerChar(w[|w| - 1]);
  }

  lemma SplitInit(words: seq<string>, gaps: seq<string>)
    requires WordsAndGaps(words, gaps) && words != []
    ensures WordsAndGaps(words[..|words| - 1], gaps[..|gaps| - 1])
    ensures |words| > 1 ==> gaps[|gaps| - 2] != ""
  {
  }

  lemma DashedSnoc(words: seq<string>, w: string)
    ensures Dashed(words + [w]) == (if words == [] then "" else Dashed(words) + "-") + Lower(w)
  {
    assert (words + [w])[..|words|] == words;
    assert "" + Lower(w) == Lower(w);
  }

  lemma ScanNext(before: string, w: string, gap: string, out: string)
    requires ScanAll(before).out == out && IsWord(w) && IsGap(gap) && (out == "" ==> w[0] != '_')
    ensures ScanAll(before + w + gap) == if gap == "" then Scan(out + Lower(w), false) else Scan(out + Lower(w) + "-", true)
  {
    hide ScanAll, Lower, InWord;
    ScanWord(before, w);
    ScanGap(before + w, gap);
  }

  lemma {:induction false} ScanSpaced(lead: string, words: seq<string>, gaps: seq<string>)
    requires IsLead(lead) && WordsAndGaps(words, gaps) && words != []
    ensures ScanAll(lead + Spaced(words, gaps)) ==
      if gaps[|gaps| - 1] == "" then Scan(Dashed(words), false) else Scan(Dashed(words) + "-", true)
  {
    hide ScanAll, Dashed, Spaced, InWord, Lower;
    var n := |words| - 1;
    var init, before, w, gap := words[..n], gaps[..n], words[n], gaps[n];
    assert words == init + [w] && gaps == before + [gap];
    SplitInit(words, gaps);
    SpacedSnoc(init, before, w, gap);
    DashedSnoc(init, w);
    var t := lead + Spaced(init, before);
    assert lead + Spaced(words, gaps) == t + w + gap;
    if n == 0 {
      NoWords(lead);
      ScanNext(t, w, gap, "");
    } else {
      ScanSpaced(lead, init, before);
      ScanNext(t, w, gap, Dashed(init) + "-");
    }
  }

  lemma NoWords(lead: string)
    requires IsLead(lead)
    ensures ScanAll(lead + Spaced([], [])).out == ""
  {
    assert lead + "" == lead;
    ScanLead(lead);
  }

  lemma OneDash(d: string)
    requires d != "" && d[|d| - 1] != '-'
    ensures TrimDashesEnd(d) == d && TrimDashesEnd(d + "-") == d
  {
    assert (d + "-")[..|d|] == d;
  }

  /** Sanitising takes the words of a text, in lower case and with one dash between them. */
  lemma SanitizeTakesWords(raw: string, lead: string, words: seq<string>, gaps: seq<string>)
    requires IsLead(lead) && WordsAndGaps(words, gaps) && Trim(raw) == lead + Spaced(words, gaps)
    ensures Sanitize(raw) == Dashed(words)
  {
    if words == [] {
      assert lead + "" == lead;
      ScanLead(lead);
    } else {
      ScanSpaced(lead, words, gaps);
      ScanKeepsShape(Trim(raw));
      DashedShape(words, gaps);
      OneDash(Dashed(words));
      hide ScanAll, Dashed, Trim, TrimDashesEnd, Spaced, WordsAndGaps;
    }
  }

  lemma SpacedSnoc(words: seq<string>, gaps: seq<string>, w: string, gap: string)
    requires |words| == |gaps|
    ensures Spaced(words + [w], gaps + [gap]) == Spaced(words, gaps) + w + gap
  {
    assert (words + [w])[..|words|] == words && (gaps + [gap])[..|gaps|] == gaps;
  }

  /** And every text has such words and gaps. */
  lemma {:induction false} EveryTextIsSplit(s: string) returns (lead: string, words: seq<string>, gaps: seq<string>)
    ensures IsLead(lead) && WordsAndGaps(words, gaps) && s == lead + Spaced(words, gaps)
  {
    if s == "" {
      lead, words, gaps := "", [], [];
    } else {
      var c := s[|s| - 1];
      lead, words, gaps := EveryTextIsSplit(s[..|s| - 1]);
      assert s == lead + Spaced(words, gaps) + [c];
      lead, words, gaps := OneMore(lead, words, gaps, c);
    }
  }

  lemma Regroup(t: string, w: string, gap: string, w': string, gap': string, c: char)
    requires w' + gap' == w + gap + [c]
    ensures t + w' + gap' == t + w + gap + [c]
  {
    assert t + w' + gap' == t + (w' + gap');
    assert t + w + gap + [c] == t + (w + gap + [c]);
  }

  lemma Longer(init: seq<string>, gaps: seq<string>, w: string, gap: string, w': string, gap': string, c: char)
    requires |init| == |gaps| && w' + gap' == w + gap + [c]
    ensures Spaced(init + [w'], gaps + [gap']) == Spaced(init + [w], gaps + [gap]) + [c]
  {
    SpacedSnoc(init, gaps, w, gap);
    SpacedSnoc(init, gaps, w', gap');
    hide Spaced;
    Regroup(Spaced(init, gaps), w, gap, w', gap', c);
  }

  lemma OneMoreOfLead(lead: string, c: char) returns (lead': string, words: seq<string>, gaps: seq<string>)
    requires IsLead(lead)
    ensures IsLead(lead') && WordsAndGaps(words, gaps) && lead' + Spaced(words, gaps) == lead + [c]
  {
    if InWord(c) && c != '_' {
      lead', words, gaps := lead, [[c]], [""];
      assert words[..0] == [] && gaps[..0] == [] && "" + [c] + "" == [c];
    } else {
      lead', words, gaps := lead + [c], [], [];
      assert lead' + "" == lead';
    }
  }

  lemma OneMoreOfWords(words: seq<string>, gaps: seq<string>, c: char) returns (words': seq<string>, gaps': seq<string>)
    requires WordsAndGaps(words, gaps) && words != []
    ensures WordsAndGaps(words', gaps') && Spaced(words', gaps') == Spaced(words, gaps) + [c]
  {
    hide Spaced;
    var n := |words| - 1;
    var init, before, w, gap := words[..n], gaps[..n], words[n], gaps[n];
    assert words == init + [w] && gaps == before + [gap];
    if !InWord(c) {
      words', gaps' := init + [w], before + [gap + [c]];
      Longer(init, before, w, gap, w, gap + [c], c);
    } else if gap == "" {
      words', gaps' := init + [w + [c]], before + [""];
      assert (w + [c]) + "" == w + "" + [c];
      Longer(init, before, w, gap, w + [c], "", c);
      assert n > 0 ==> words'[0] == words[0];
    } else {
      words', gaps' := words + [[c]], gaps + [""];
      SpacedSnoc(words, gaps, [c], "");
      assert Spaced(words, gaps) + [c] + "" == Spaced(words, gaps) + [c];
    }
  }

  lemma OneMore(lead: string, words: seq<string>, gaps: seq<string>, c: char)
    returns (lead': string, words': seq<string>, gaps': seq<string>)
    requires IsLead(lead) && WordsAndGaps(words, gaps)
    ensures IsLead(lead') && WordsAndGaps(words', gaps') && lead' + Spaced(words', gaps') == lead + Spaced(words, gaps) + [c]
  {
    assert |words| == |gaps|;
    hide WordsAndGaps;
    if words == [] {
      assert lead + Spaced(words, gaps) == lead;
      lead', words', gaps' := OneMoreOfLead(lead, c);
    } else {
      hide Spaced;
      lead' := lead;
      words', gaps' := OneMoreOfWords(words, gaps, c);
      assert lead + (Spaced(words, gaps) + [c]) == lead + Spaced(words, gaps) + [c];
    }
  }

  // ------------------------------------------------------------------ uniqueness

  function Candidate(base: string, suffix: nat): string {
    base + "-" + Print(suffix)
  }

  lemma CandidateInjective(base: string, i: nat, j: nat)
    requires Candidate(base, i) == Candidate(base, j)
    ensures i == j
  {
    assert Candidate(base, i)[|base| + 1..] == Print(i);
    assert Candidate(base, j)[|base| + 1..] == Print(j);
    PrintInjective(i, j);
  }

  /** The used ids that are candidates with a suffix from `from` on; each failed try uses one up. */
  ghost function Taken(base: string, used: set<string>, from: nat): set<string> {
    set id | id in used && exists k: nat :: k >= from && id == Candidate(base, k)
  }

  lemma TakenShrinks(base: string, used: set<string>, from: nat)
    requires Candidate(base, from) in used
    ensures Taken(base, used, from + 1) < Taken(base, used, from)
  {
    assert Candidate(base, from) in Taken(base, used, from);
    if Candidate(base, from) in Taken(base, used, from + 1) {
      var k: nat :| k >= from + 1 && Candidate(base, from) == Candidate(base, k);
      CandidateInjective(base, from, k);
    }
  }

  /** The first suffix from `from` on whose candidate is free; finitely many ids are used, so there is one. */
  function FirstFree(base: string, used: set<string>, from: nat): (suffix: nat)
    ensures suffix >= from && Candidate(base, suffix) !in used
    ensures forall k :: from <= k < suffix ==> Candidate(base, k) in used
    decreases Taken(base, used, from)
  {
    if Candidate(base, from) !in used then from
    else
      TakenShrinks(base, used, from);
      FirstFree(base, used, from + 1)
  }

  function UniqueId(base: string, used: set<string>): (id: string)
    ensures id !in used
  {
    if base !in used then base else Candidate(base, FirstFree(base, used, 2))
  }

  method FindUniqueId(base: string, used: set<string>) returns (id: string, used': set<string>)
    ensures id == UniqueId(base, used) && used' == used + {id}
  {
    if base !in used {
      return base, used + {base};
    }
    var suffix := 2;
    while Candidate(base, suffix) in used
      invariant suffix >= 2 && FirstFree(base, used, 2) == FirstFree(base, used, suffix)
      decreases Taken(base, used, suffix)
    {
      TakenShrinks(base, used, suffix);
      suffix := suffix + 1;
    }
    id := Candidate(base, suffix);
    used' := used + {id};
  }

  lemma CandidateIsClean(base: string, suffix: nat)
    requires CleanId(base) && base != ""
    ensures CleanId(Candidate(base, suffix)) && Candidate(base, suffix) != ""
  {
    var digits := Print(suffix);
    var id := base + "-" + digits;
    assert forall k :: 0 <= k < |digits| ==> IsDigit(digits[k]);
    assert forall k :: |base| < k < |id| ==> id[k] == digits[k - |base| - 1];
    assert id[|base|] == '-';
  }

  lemma UniqueIdIsClean(base: string, used: set<string>)
    requires CleanId(base) && base != ""
    ensures CleanId(UniqueId(base, used)) && UniqueId(base, used) != ""
  {
    if base in used {
      CandidateIsClean(base, FirstFree(base, used, 2));
    }
  }

  // ------------------------------------------------------------------- fallback

  function Hex(n: nat): (r: string)
    ensures r != "" && forall k :: 0 <= k < |r| ==> IsIdChar(r[k]) && r[k] != '-'
  {
    if n < 16 then [HexDigit(n)] else Hex(n / 16) + [HexDigit(n % 16)]
  }

  /** The number written in hexadecimal, without a superfluous leading zero. */
  lemma {:induction false} HexIs(n: nat)
    ensures HexValue(Hex(n)) == n && (|Hex(n)| > 1 ==> Hex(n)[0] != '0')
    ensures forall k :: 0 <= k < |Hex(n)| ==> Hex(n)[k] in "0123456789abcdef"
  {
    HexDigitListed(n % 16);
    if n >= 16 {
      HexIs(n / 16);
      assert Hex(n)[..|Hex(n)| - 1] == Hex(n / 16);
      if n / 16 < 16 {
        assert Hex(n / 16) == [HexDigit(n / 16)];
      }
    }
  }

  function HexValue(digits: string): nat {
    if digits == "" then 0
    else
      var c := digits[|digits| - 1];
      16 * HexValue(digits[..|digits| - 1]) + (if '0' <= c <= '9' then c as int - 48 else if 'a' <= c <= 'f' then c as int - 87 else 0)
  }

  function FallbackId(hash: nat): string {
    "qb-" + Hex(hash)
  }

  lemma FallbackIsClean(hash: nat)
    ensures CleanId(FallbackId(hash)) && FallbackId(hash) != ""
  {
    var id := FallbackId(hash);
    assert forall k :: 3 <= k < |id| ==> id[k] == Hex(hash)[k - 3];
  }
}
