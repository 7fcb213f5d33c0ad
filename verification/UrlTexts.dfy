/**
 What the URL scanner does to a whole text: plain stretches stay, credentials in URLs go, and a
 second pass changes the text exactly when some URL ends in a hidden value.
 */
module UrlTexts {
  import opened Wrappers
  import opened Text
  import opened UrlRedaction
  import opened UrlScan

  // ---------------------------------------------------------- the grammar of texts

  /** Plain text, a URL, and the punctuation cut off behind it. */
  datatype Span = Span(before: string, url: Url, suffix: string)

  function PrintSpans(spans: seq<Span>, rest: string): string {
    if spans == [] then rest
    else spans[0].before + (PrintUrl(spans[0].url) + (spans[0].suffix + PrintSpans(spans[1..], rest)))
  }

  predicate IsLetter(c: char) { 'a' <= c <= 'z' || 'A' <= c <= 'Z' }

  predicate InScheme(c: char) { IsLetter(c) || '0' <= c <= '9' || c in "+-." }

  /** White space, a quote or an angle bracket. */
  predicate Stops(c: char) { IsWhitespace(c) || c in "\"'<>" }

  const TRAILING := ",.)]}"

  lemma CharactersAgree(c: char)
    ensures InScheme(c) <==> IsSchemeChar(c)
    ensures Stops(c) <==> EndsUrl(c)
    ensures c in TRAILING <==> IsUrlSuffix(c)
  {
  }

  lemma StopsAgree(t: string)
    ensures Lacks(t, Stops) <==> Lacks(t, EndsUrl)
  {
    forall k | 0 <= k < |t| ensures Stops(t[k]) <==> EndsUrl(t[k]) {
      CharactersAgree(t[k]);
    }
  }

  predicate WellFormedScheme(s: string) {
    s != "" && IsLetter(s[0]) && forall k :: 0 <= k < |s| ==> InScheme(s[k])
  }

  /** A URL as the scanner delimits it. */
  predicate ScannedUrl(u: Url) {
    && WellFormedUrl(u) && WellFormedScheme(u.scheme)
    && Lacks(PrintBody(u), Stops) && PrintUrl(u)[|PrintUrl(u)| - 1] !in TRAILING
  }

  /** No `://` of the text has a scheme before it. */
  predicate Quiet(t: string) {
    match FindDelimiter(t) case None => true case Some(d) => SchemeStart(t[..d]) == None && Quiet(t[d + 3..])
  }

  predicate BeforeUrl(t: string) {
    Quiet(t) && (t != "" ==> !InScheme(t[|t| - 1]))
  }

  predicate Punctuation(t: string) {
    forall k :: 0 <= k < |t| ==> t[k] in TRAILING
  }

  /** What may follow a URL and its punctuation. */
  predicate Terminated(t: string) {
    t != "" ==> Stops(t[0])
  }

  predicate Led(spans: seq<Span>, rest: string) {
    if spans == [] then Terminated(rest) else spans[0].before != "" && Stops(spans[0].before[0])
  }

  predicate WellFormedSpans(spans: seq<Span>, rest: string) {
    if spans == [] then Quiet(rest) else
      && BeforeUrl(spans[0].before) && ScannedUrl(spans[0].url) && Punctuation(spans[0].suffix)
      && Led(spans[1..], rest) && WellFormedSpans(spans[1..], rest)
  }

  // ------------------------------------------------- the scanner follows the grammar

  lemma {:induction false} QuietStays(t: string, rewrite: string -> string)
    requires Quiet(t)
    ensures RewrittenText(t, rewrite) == t
    decreases |t|
  {
    match FindDelimiter(t)
    case None =>
    case Some(d) =>
      SplitStep(t, d, rewrite);
      SkipStep(t[..d], t[d + 3..], rewrite);
      QuietStays(t[d + 3..], rewrite);
      DelimiterSplits(t, d);
  }

  lemma DelimiterSplits(t: string, d: nat)
    requires DelimiterAt(t, d)
    ensures t == t[..d] + ("://" + t[d + 3..])
  {
  }

  /** A link: a scheme, its delimiter, and anything. */
  function Link(scheme: string, body: string): string {
    scheme + ("://" + body)
  }

  lemma SchemeLacksColon(scheme: string)
    requires WellFormedScheme(scheme)
    ensures Free(scheme, ":")
  {
  }

  lemma LinkStart(scheme: string, body: string)
    requires WellFormedScheme(scheme)
    ensures Link(scheme, body) != "" && Link(scheme, body)[0] == scheme[0] != '/'
  {
  }

  lemma LinkFirst(scheme: string, body: string)
    requires WellFormedScheme(scheme)
    ensures FindDelimiter(Link(scheme, body)) == Some(|scheme|)
  {
    SchemeLacksColon(scheme);
    FirstDelimiter(scheme, body);
  }

  lemma FindJoin(b: string, x: string, n: nat)
    requires FindDelimiter(b) == None && x != "" && x[0] != '/' && FindDelimiter(x) == Some(n)
    ensures FindDelimiter(b + x) == Some(|b| + n)
  {
    FindInPrefix(b, x);
  }

  lemma LinkFound(b: string, scheme: string, body: string)
    requires FindDelimiter(b) == None && WellFormedScheme(scheme)
    ensures FindDelimiter(b + Link(scheme, body)) == Some(|b| + |scheme|)
  {
    hide FindDelimiter, Link, WellFormedScheme;
    LinkFirst(scheme, body);
    LinkStart(scheme, body);
    FindJoin(b, Link(scheme, body), |scheme|);
  }

  lemma LinkSlices(b: string, scheme: string, body: string)
    ensures (b + Link(scheme, body))[..|b| + |scheme|] == b + scheme
    ensures (b + Link(scheme, body))[|b| + |scheme| + 3..] == body
    ensures |b + Link(scheme, body)| == |b| + |scheme| + 3 + |body|
  {
  }

  lemma RunOpens(b: string, scheme: string, body: string, rewrite: string -> string)
    requires BeforeUrl(b) && WellFormedScheme(scheme)
    ensures RewrittenSplit(b + scheme, body, rewrite) == b + RewrittenFrom(scheme, body, rewrite)
  {
    hide RewrittenFrom, RewrittenSplit;
    RunStartIs(b, scheme);
    assert (b + scheme)[|b|] == scheme[0];
    FromStep(b + scheme, body, |b|, rewrite);
    assert (b + scheme)[..|b|] == b && (b + scheme)[|b|..] == scheme;
  }

  lemma LinkOpens(b: string, scheme: string, body: string, rewrite: string -> string)
    requires FindDelimiter(b) == None && BeforeUrl(b) && WellFormedScheme(scheme)
    ensures RewrittenText(b + Link(scheme, body), rewrite) == b + RewrittenFrom(scheme, body, rewrite)
  {
    hide FindDelimiter, Link, RewrittenFrom, RewrittenText, RewrittenSplit, BeforeUrl, WellFormedScheme;
    LinkFound(b, scheme, body);
    LinkSlices(b, scheme, body);
    SplitStep(b + Link(scheme, body), |b| + |scheme|, rewrite);
    RunOpens(b, scheme, body, rewrite);
  }

  lemma SkipSlices(b: string, x: string, d: nat)
    requires DelimiterAt(b, d)
    ensures (b + x)[..d] == b[..d] && (b + x)[d + 3..] == b[d + 3..] + x
  {
  }

  lemma RejoinPrefix(head: string, b: string, x: string)
    ensures head + ("://" + (b + x)) == head + ("://" + b) + x
  {
  }

  /** Plain text in front of a link is copied, and the link is what is opened next. */
  lemma {:induction false} PlainThenLink(b: string, scheme: string, body: string, rewrite: string -> string)
    requires BeforeUrl(b) && WellFormedScheme(scheme)
    ensures RewrittenText(b + Link(scheme, body), rewrite) == b + RewrittenFrom(scheme, body, rewrite)
    decreases |b|
  {
    var x := Link(scheme, body);
    match FindDelimiter(b)
    case None =>
      LinkOpens(b, scheme, body, rewrite);
    case Some(d) =>
      LinkStart(scheme, body);
      FindInPrefix(b, x);
      SkipSlices(b, x, d);
      SplitStep(b + x, d, rewrite);
      SkipStep(b[..d], b[d + 3..] + x, rewrite);
      PlainThenLink(b[d + 3..], scheme, body, rewrite);
      RejoinPrefix(b[..d], b[d + 3..], RewrittenFrom(scheme, body, rewrite));
      DelimiterSplits(b, d);
  }

  lemma PunctuationIsInside(suffix: string)
    requires Punctuation(suffix)
    ensures Lacks(suffix, EndsUrl)
  {
  }

  lemma UrlAndSuffix(u: Url, suffix: string)
    requires ScannedUrl(u) && Punctuation(suffix)
    ensures var whole := u.scheme + ("://" + (PrintBody(u) + suffix));
      var m := TrimmedLength(whole);
      whole[..m] == PrintUrl(u) && whole[m..] == suffix
  {
    hide PrintBody, WellFormedUrl, WellFormedScheme, Lacks, TrimmedLength, IsUrlSuffix;
    assert u.scheme + ("://" + (PrintBody(u) + suffix)) == PrintUrl(u) + suffix;
    CharactersAgree(PrintUrl(u)[|PrintUrl(u)| - 1]);
    forall k | 0 <= k < |suffix| ensures IsUrlSuffix(suffix[k]) {
      CharactersAgree(suffix[k]);
    }
    TrimmedLengthIs(PrintUrl(u), suffix);
  }

  lemma UrlStops(u: Url, suffix: string, more: string)
    requires ScannedUrl(u) && Punctuation(suffix) && Terminated(more)
    ensures var body, n := PrintBody(u) + suffix + more, |PrintBody(u) + suffix|;
      Until(body, EndsUrl) == n && body[..n] == PrintBody(u) + suffix && body[n..] == more
  {
    hide PrintBody, PrintUrl, WellFormedUrl, WellFormedScheme, Until, IsUrlSuffix;
    hide Stops, EndsUrl;
    PunctuationIsInside(suffix);
    StopsAgree(PrintBody(u));
    if more != "" {
      CharactersAgree(more[0]);
    }
    LacksConcat(PrintBody(u), suffix, EndsUrl);
    UntilIs(PrintBody(u) + suffix, more, EndsUrl);
  }

  lemma UrlThenRest(u: Url, suffix: string, more: string, rewrite: string -> string)
    requires ScannedUrl(u) && Punctuation(suffix) && Terminated(more)
    ensures RewrittenFrom(u.scheme, PrintBody(u) + suffix + more, rewrite)
         == rewrite(PrintUrl(u)) + (suffix + RewrittenText(more, rewrite))
  {
    hide ScannedUrl, Punctuation, PrintBody, PrintUrl, Until, TrimmedLength, RewrittenText;
    UrlStops(u, suffix, more);
    UrlAndSuffix(u, suffix);
  }

  function RewrittenSpans(spans: seq<Span>, rest: string, rewrite: string -> string): string {
    if spans == [] then rest
    else spans[0].before + (rewrite(PrintUrl(spans[0].url)) + (spans[0].suffix + RewrittenSpans(spans[1..], rest, rewrite)))
  }

  lemma LedIsTerminated(spans: seq<Span>, rest: string)
    requires Led(spans, rest)
    ensures Terminated(PrintSpans(spans, rest))
  {
  }

  lemma SpanAsLink(s: Span, more: string)
    ensures s.before + (PrintUrl(s.url) + (s.suffix + more))
         == s.before + Link(s.url.scheme, PrintBody(s.url) + s.suffix + more)
  {
    var u := s.url;
    assert PrintUrl(u) + (s.suffix + more) == Link(u.scheme, PrintBody(u) + s.suffix + more);
  }

  /** Exactly the URLs of the grammar are rewritten. */
  lemma {:induction false} SpansRewritten(spans: seq<Span>, rest: string, rewrite: string -> string)
    requires WellFormedSpans(spans, rest)
    ensures RewrittenText(PrintSpans(spans, rest), rewrite) == RewrittenSpans(spans, rest, rewrite)
  {
    if spans == [] {
      QuietStays(rest, rewrite);
    } else {
      var s, more := spans[0], PrintSpans(spans[1..], rest);
      SpanAsLink(s, more);
      PlainThenLink(s.before, s.url.scheme, PrintBody(s.url) + s.suffix + more, rewrite);
      LedIsTerminated(spans[1..], rest);
      UrlThenRest(s.url, s.suffix, more, rewrite);
      SpansRewritten(spans[1..], rest, rewrite);
    }
  }

  function HideSpans(spans: seq<Span>, isSecret: string -> bool): seq<Span> {
    if spans == [] then []
    else [Span(spans[0].before, HideUrl(spans[0].url, isSecret), spans[0].suffix)] + HideSpans(spans[1..], isSecret)
  }

  lemma {:induction false} SpansHidden(spans: seq<Span>, rest: string, isSecret: string -> bool)
    requires WellFormedSpans(spans, rest)
    ensures RewrittenSpans(spans, rest, UrlRedactor(isSecret)) == PrintSpans(HideSpans(spans, isSecret), rest)
  {
    if spans != [] {
      UrlHidden(spans[0].url, isSecret);
      SpansHidden(spans[1..], rest, isSecret);
      assert HideSpans(spans, isSecret)[1..] == HideSpans(spans[1..], isSecret);
    }
  }

  /**
   Redaction of a text, whatever its plain stretches and URLs are: what lies outside the URLs is
   unchanged, and each URL is redacted as `UrlHidden` says.
   */
  lemma TextHidden(spans: seq<Span>, rest: string, isSecret: string -> bool)
    requires WellFormedSpans(spans, rest)
    ensures RewrittenText(PrintSpans(spans, rest), UrlRedactor(isSecret)) == PrintSpans(HideSpans(spans, isSecret), rest)
  {
    SpansRewritten(spans, rest, UrlRedactor(isSecret));
    SpansHidden(spans, rest, isSecret);
  }

  // ------------------------------------------------------------- what is plain text

  /** The text ends in a scheme, taken as far back as its characters go. */
  ghost predicate EndsInScheme(t: string) {
    exists n :: 0 <= n < |t| && SchemeFrom(t, n)
  }

  predicate SchemeFrom(t: string, n: nat)
    requires n < |t|
  {
    WellFormedScheme(t[n..]) && (n > 0 ==> !InScheme(t[n - 1]))
  }

  lemma SchemeStartIff(head: string)
    ensures SchemeStart(head).Some? <==> EndsInScheme(head)
  {
    if SchemeStart(head).Some? {
      RunStartShape(head);
      assert SchemeFrom(head, RunStart(head));
    }
    if n :| 0 <= n < |head| && SchemeFrom(head, n) {
      SchemeRun(head, n);
    }
  }

  lemma SchemeRun(head: string, n: nat)
    requires n < |head| && SchemeFrom(head, n)
    ensures SchemeStart(head) == Some(n)
  {
    assert head == head[..n] + head[n..];
    forall k | 0 <= k < |head[n..]| ensures IsSchemeChar(head[n..][k]) {
      CharactersAgree(head[n..][k]);
    }
    RunStartIs(head[..n], head[n..]);
  }

  /** What stands behind a delimiter is searched as if it began there. */
  lemma SchemeBehind(a: string, b: string)
    requires a == "" || a[|a| - 1] == '/'
    ensures EndsInScheme(a + b) <==> EndsInScheme(b)
  {
    RunStartBehind(a, b);
    SchemeStartIff(a + b);
    SchemeStartIff(b);
  }

  /** A `://` with a scheme before it. */
  ghost predicate SchemeAt(t: string, k: nat) {
    DelimiterAt(t, k) && EndsInScheme(t[..k])
  }

  lemma BehindDelimiter(t: string, d: nat, j: nat)
    requires DelimiterAt(t, d) && d + 3 + j <= |t|
    ensures SchemeAt(t[d + 3..], j) <==> SchemeAt(t, d + 3 + j)
  {
    var a, b := t[..d + 3], t[d + 3..][..j];
    assert t[..d + 3 + j] == a + b;
    SchemeBehind(a, b);
  }

  /** Plain text is text in which no `://` has a scheme before it. */
  lemma {:induction false} QuietIff(t: string)
    ensures Quiet(t) <==> forall k: nat :: !SchemeAt(t, k)
    decreases |t|
  {
    hide EndsInScheme;
    match FindDelimiter(t)
    case None =>
      forall k: nat ensures !SchemeAt(t, k) {
        if DelimiterAt(t, k) {
          NoDelimiterBefore(t, k);
        }
      }
    case Some(d) =>
      SchemeStartIff(t[..d]);
      QuietIff(t[d + 3..]);
      assert SchemeStart(t[..d]).Some? <==> SchemeAt(t, d);
      forall k: nat | SchemeAt(t, k) && k != d ensures k >= d + 3 && SchemeAt(t[d + 3..], k - d - 3) {
        NoDelimiterBefore(t, k);
        BehindDelimiter(t, d, k - d - 3);
      }
      var rest := t[d + 3..];
      if j: nat :| SchemeAt(rest, j) {
        BehindDelimiter(t, d, j);
      }
  }

  // -------------------------------------------------------- every text is in the grammar

  lemma {:induction false} FindLocal(a: string, b: string, d: nat)
    requires FindDelimiter(a + b) == Some(d) && d + 3 <= |a|
    ensures FindDelimiter(a) == Some(d)
  {
    if d > 0 {
      assert (a + b)[1..] == a[1..] + b;
      FindLocal(a[1..], b, d - 1);
      FindLocalStep(a, b);
    }
  }

  lemma FindLocalStep(a: string, b: string)
    requires !DelimiterAt(a + b, 0)
    ensures !DelimiterAt(a, 0)
  {
  }

  lemma {:induction false} FindStill(a: string, b: string, d: nat)
    requires FindDelimiter(a) == Some(d)
    ensures FindDelimiter(a + b) == Some(d)
  {
    if d > 0 {
      assert (a + b)[1..] == a[1..] + b;
      FindStill(a[1..], b, d - 1);
      assert !DelimiterAt(a, 0);
      FindStillStep(a, b);
    }
  }

  lemma FindStillStep(a: string, b: string)
    requires !DelimiterAt(a, 0) && |a| >= 3
    ensures !DelimiterAt(a + b, 0)
  {
  }

  /** A head without a scheme, its `://`, and quiet text make quiet text. */
  lemma QuietPrefix(t: string, d: nat, b: string)
    requires FindDelimiter(t) == Some(d) && d + 3 <= |t| && SchemeStart(t[..d]) == None && Quiet(b)
    ensures Quiet(t[..d + 3] + b)
  {
    var head := t[..d + 3];
    assert t == head + t[d + 3..];
    FindLocal(head, t[d + 3..], d);
    FindStill(head, b, d);
    assert (head + b)[..d] == t[..d] && (head + b)[d + 3..] == b;
  }

  lemma BeforeUrlPrefix(t: string, d: nat, b: string)
    requires FindDelimiter(t) == Some(d) && d + 3 <= |t| && SchemeStart(t[..d]) == None && BeforeUrl(b)
    ensures BeforeUrl(t[..d + 3] + b)
  {
    QuietPrefix(t, d, b);
    assert !InScheme(t[d + 2]);
    hide InScheme, Quiet, SchemeStart, FindDelimiter;
    var whole := t[..d + 3] + b;
    assert whole[|whole| - 1] == if b == "" then t[d + 2] else b[|b| - 1];
  }

  lemma NoneBefore(a: string, b: string, d: nat)
    requires FindDelimiter(a + b) == Some(d) && |a| <= d
    ensures FindDelimiter(a) == None
  {
    if FindDelimiter(a).Some? {
      FindStill(a, b, FindDelimiter(a).value);
    }
  }

  lemma SchemeShape(head: string, start: nat)
    requires SchemeStart(head) == Some(start)
    ensures start < |head| && WellFormedScheme(head[start..])
    ensures head[..start] != "" ==> !InScheme(head[..start][start - 1])
  {
    RunStartShape(head);
  }

  lemma HeadIsBeforeUrl(t: string, d: nat, start: nat)
    requires FindDelimiter(t) == Some(d) && d + 3 <= |t| && SchemeStart(t[..d]) == Some(start)
    ensures start < d && BeforeUrl(t[..start]) && WellFormedScheme(t[start..d])
  {
    hide FindDelimiter, SchemeStart, WellFormedScheme, InScheme;
    SchemeShape(t[..d], start);
    SliceOfSlice(t, 0, start, d);
    assert t[0..d] == t[..d] && t[0..start] == t[..start];
    NoneInFront(t, d, start);
  }

  lemma NoneInFront(t: string, d: nat, start: nat)
    requires FindDelimiter(t) == Some(d) && start <= d && d + 3 <= |t|
    ensures FindDelimiter(t[..start]) == None
  {
    hide FindDelimiter;
    assert t == t[..start] + t[start..];
    NoneBefore(t[..start], t[start..], d);
  }

  lemma CutWhole(scheme: string, inside: string, k: nat)
    requires k <= |inside|
    ensures Link(scheme, inside)[..|scheme| + 3 + k] == Link(scheme, inside[..k])
    ensures Link(scheme, inside)[|scheme| + 3 + k..] == inside[k..]
    ensures inside == inside[..k] + inside[k..] && |Link(scheme, inside)| == |scheme| + 3 + |inside|
  {
  }

  lemma PunctuationCut(whole: string)
    ensures Punctuation(whole[TrimmedLength(whole)..])
    ensures whole[..TrimmedLength(whole)] != "" ==> whole[..TrimmedLength(whole)][TrimmedLength(whole) - 1] !in TRAILING
  {
    TrimmedLengthShape(whole);
  }

  /** Trimming never reaches the delimiter of a link. */
  lemma TrimStops(scheme: string, inside: string) returns (k: nat)
    ensures k <= |inside| && TrimmedLength(Link(scheme, inside)) == |scheme| + 3 + k
  {
    var whole := Link(scheme, inside);
    TrimmedLengthShape(whole);
    assert whole[|scheme| + 2] == '/' && |whole| == |scheme| + 3 + |inside|;
    k := TrimmedLength(whole) - |scheme| - 3;
  }

  /** The first URL of a text, with the punctuation behind it. */
  lemma ParseLink(scheme: string, inside: string) returns (u: Url, suffix: string)
    requires WellFormedScheme(scheme) && Lacks(inside, EndsUrl)
    ensures ScannedUrl(u) && u.scheme == scheme && Punctuation(suffix) && PrintBody(u) + suffix == inside
  {
    hide Stops, EndsUrl, InScheme, TrimmedLength;
    var k := TrimStops(scheme, inside);
    CutWhole(scheme, inside, k);
    PunctuationCut(Link(scheme, inside));
    SchemeLacksColon(scheme);
    u := ParseUrl(scheme, inside[..k]);
    suffix := inside[k..];
    LacksConcat(inside[..k], suffix, EndsUrl);
    StopsAgree(PrintBody(u));
  }

  lemma FirstCharacter(spans: seq<Span>, rest: string)
    requires spans != [] && WellFormedSpans(spans, rest)
    ensures PrintSpans(spans, rest) != ""
    ensures spans[0].before == "" ==> !Stops(PrintSpans(spans, rest)[0])
    ensures spans[0].before != "" ==> PrintSpans(spans, rest)[0] == spans[0].before[0]
  {
    hide Lacks, Quiet, Led, WellFormedUrl, PrintBody, Punctuation;
    var s := spans[0];
    if s.before == "" {
      SchemeStartsIt(s.url.scheme, PrintSpans(spans, rest));
    }
  }

  lemma SchemeStartsIt(scheme: string, t: string)
    requires WellFormedScheme(scheme) && scheme <= t
    ensures t != "" && !Stops(t[0])
  {
    assert t[0] == scheme[0];
  }

  lemma LedByText(spans: seq<Span>, rest: string)
    requires WellFormedSpans(spans, rest) && Terminated(PrintSpans(spans, rest))
    ensures Led(spans, rest)
  {
    hide Stops, WellFormedSpans;
    if spans != [] {
      FirstCharacter(spans, rest);
    }
  }

  lemma Assoc(a: string, b: string, c: string)
    ensures a + b + c == a + (b + c)
  {
  }

  lemma PrefixedSpans(t: string, d: nat, spans: seq<Span>, rest: string) returns (spans': seq<Span>, rest': string)
    requires FindDelimiter(t) == Some(d) && d + 3 <= |t| && SchemeStart(t[..d]) == None
    requires WellFormedSpans(spans, rest) && PrintSpans(spans, rest) == t[d + 3..]
    ensures WellFormedSpans(spans', rest') && PrintSpans(spans', rest') == t
  {
    var head := t[..d + 3];
    assert t == head + t[d + 3..];
    if spans == [] {
      spans', rest' := [], head + rest;
      QuietPrefix(t, d, rest);
    } else {
      var s := spans[0];
      var first := Span(head + s.before, s.url, s.suffix);
      spans', rest' := [first] + spans[1..], rest;
      assert spans'[1..] == spans[1..];
      BeforeUrlPrefix(t, d, s.before);
      Assoc(head, s.before, PrintUrl(s.url) + (s.suffix + PrintSpans(spans[1..], rest)));
    }
  }

  /** A text splits into plain stretches and URLs, so `TextHidden` speaks of every text. */
  lemma {:induction false} ParseText(t: string) returns (spans: seq<Span>, rest: string)
    ensures WellFormedSpans(spans, rest) && PrintSpans(spans, rest) == t
    decreases |t|
  {
    match FindDelimiter(t)
    case None =>
      spans, rest := [], t;
    case Some(d) =>
      match SchemeStart(t[..d]) {
        case None =>
          spans, rest := ParseText(t[d + 3..]);
          spans, rest := PrefixedSpans(t, d, spans, rest);
        case Some(start) =>
          spans, rest := ParseAtLink(t, d, start);
      }
  }

  lemma {:induction false} ParseAtLink(t: string, d: nat, start: nat) returns (spans: seq<Span>, rest: string)
    requires FindDelimiter(t) == Some(d) && d + 3 <= |t| && SchemeStart(t[..d]) == Some(start)
    ensures WellFormedSpans(spans, rest) && PrintSpans(spans, rest) == t
    decreases |t|, 0
  {
    hide FindDelimiter, SchemeStart, BeforeUrl, ScannedUrl, WellFormedScheme, WellFormedSpans, PrintSpans,
         PrintBody, PrintUrl, Punctuation, Until, EndsUrl;
    HeadIsBeforeUrl(t, d, start);
    var body := t[d + 3..];
    UntilShape(body, EndsUrl);
    var n := Until(body, EndsUrl);
    if n < |body| {
      CharactersAgree(body[n]);
    }
    var u, suffix := ParseLink(t[start..d], body[..n]);
    var tail, rest' := ParseText(body[n..]);
    var first := Span(t[..start], u, suffix);
    SpanText(t, start, d, first, body[n..]);
    spans, rest := FirstSpan(first, tail, rest'), rest';
  }

  /** One more span in front. */
  function FirstSpan(first: Span, tail: seq<Span>, rest: string): (spans: seq<Span>)
    requires BeforeUrl(first.before) && ScannedUrl(first.url) && Punctuation(first.suffix)
    requires WellFormedSpans(tail, rest) && Terminated(PrintSpans(tail, rest))
    ensures WellFormedSpans(spans, rest)
    ensures PrintSpans(spans, rest) == first.before + (PrintUrl(first.url) + (first.suffix + PrintSpans(tail, rest)))
  {
    LedByText(tail, rest);
    assert ([first] + tail)[1..] == tail;
    [first] + tail
  }

  lemma SpanText(t: string, start: nat, d: nat, s: Span, more: string)
    requires start <= d && DelimiterAt(t, d) && s.before == t[..start] && s.url.scheme == t[start..d]
    requires PrintBody(s.url) + s.suffix + more == t[d + 3..]
    ensures t == s.before + (PrintUrl(s.url) + (s.suffix + more))
  {
    SpanAsLink(s, more);
    LinkAround(t, start, d);
  }

  lemma LinkAround(t: string, start: nat, d: nat)
    requires start <= d && DelimiterAt(t, d)
    ensures t == t[..start] + Link(t[start..d], t[d + 3..])
  {
    DelimiterSplits(t, d);
    assert t[..d] == t[..start] + t[start..d];
  }

  // ------------------------------------------------------------------ a second pass

  function LastComponent(q: Query): Component {
    match q case Last(c) => c case More(_, _, rest) => LastComponent(rest)
  }

  /** The query ends the URL, and a secret value ends the query. */
  predicate EndsHidden(u: Url, isSecret: string -> bool) {
    && u.tail.WithQuery? && u.tail.fragment == ""
    && LastComponent(u.tail.query).Pair? && isSecret(LastComponent(u.tail.query).key)
  }

  lemma {:induction false} HiddenQueryIsWellFormed(q: Query, isSecret: string -> bool)
    requires WellFormedQuery(q)
    ensures WellFormedQuery(HideQuery(q, isSecret)) && HideQuery(HideQuery(q, isSecret), isSecret) == HideQuery(q, isSecret)
    ensures LastComponent(HideQuery(q, isSecret)) == HideComponent(LastComponent(q), isSecret)
  {
    if q.More? {
      HiddenQueryIsWellFormed(q.rest, isSecret);
    }
  }

  lemma HiddenUrlIsWellFormed(u: Url, isSecret: string -> bool)
    requires WellFormedUrl(u)
    ensures WellFormedUrl(HideUrl(u, isSecret)) && HideUrl(HideUrl(u, isSecret), isSecret) == HideUrl(u, isSecret)
  {
    if u.tail.WithQuery? {
      HiddenQueryIsWellFormed(u.tail.query, isSecret);
    }
  }

  lemma {:induction false} HiddenQueryLacksEnd(q: Query, isSecret: string -> bool)
    requires Lacks(PrintQuery(q), EndsUrl)
    ensures Lacks(PrintQuery(HideQuery(q, isSecret)), EndsUrl)
  {
    var c, hidden := q.component, HideComponent(q.component, isSecret);
    if q.More? {
      LacksConcat(PrintComponent(c), PrintSeparator(q.separator) + PrintQuery(q.rest), EndsUrl);
      LacksConcat(PrintSeparator(q.separator), PrintQuery(q.rest), EndsUrl);
      HiddenQueryLacksEnd(q.rest, isSecret);
      LacksConcat(PrintSeparator(q.separator), PrintQuery(HideQuery(q.rest, isSecret)), EndsUrl);
      LacksConcat(PrintComponent(hidden), PrintSeparator(q.separator) + PrintQuery(HideQuery(q.rest, isSecret)), EndsUrl);
    }
    HiddenComponentLacksEnd(c, isSecret);
  }

  lemma MarkerLacksEnd()
    ensures Lacks("=" + REDACTED, EndsUrl)
  {
  }

  lemma HiddenComponentLacksEnd(c: Component, isSecret: string -> bool)
    requires Lacks(PrintComponent(c), EndsUrl)
    ensures Lacks(PrintComponent(HideComponent(c, isSecret)), EndsUrl)
  {
    if c.Pair? {
      MarkerLacksEnd();
      hide EndsUrl, Lacks;
      LacksConcat(c.key, "=" + c.value, EndsUrl);
      LacksConcat(c.key, "=" + REDACTED, EndsUrl);
    }
  }

  lemma HiddenAuthorityLacksEnd(user: string, host: string)
    requires Lacks(PrintAuthority(Some(user), host), EndsUrl)
    ensures Lacks(PrintAuthority(Some(REDACTED), host), EndsUrl)
  {
    LacksConcat(user, "@" + host, EndsUrl);
    LacksConcat(REDACTED, "@" + host, EndsUrl);
  }

  lemma HiddenTailLacksEnd(query: Query, fragment: string, isSecret: string -> bool)
    requires Lacks(PrintTail(WithQuery(query, fragment)), EndsUrl)
    ensures Lacks(PrintTail(WithQuery(HideQuery(query, isSecret), fragment)), EndsUrl)
  {
    LacksConcat("?", PrintQuery(query) + fragment, EndsUrl);
    LacksConcat(PrintQuery(query), fragment, EndsUrl);
    HiddenQueryLacksEnd(query, isSecret);
    LacksConcat(PrintQuery(HideQuery(query, isSecret)), fragment, EndsUrl);
    LacksConcat("?", PrintQuery(HideQuery(query, isSecret)) + fragment, EndsUrl);
  }

  lemma HiddenBodyLacksEnd(u: Url, isSecret: string -> bool)
    requires Lacks(PrintBody(u), EndsUrl)
    ensures Lacks(PrintBody(HideUrl(u, isSecret)), EndsUrl)
  {
    var h := HideUrl(u, isSecret);
    LacksConcat(PrintAuthority(u.userinfo, u.host), u.path + PrintTail(u.tail), EndsUrl);
    LacksConcat(u.path, PrintTail(u.tail), EndsUrl);
    if u.userinfo.Some? {
      HiddenAuthorityLacksEnd(u.userinfo.value, u.host);
    }
    if u.tail.WithQuery? {
      HiddenTailLacksEnd(u.tail.query, u.tail.fragment, isSecret);
    }
    LacksConcat(u.path, PrintTail(h.tail), EndsUrl);
    LacksConcat(PrintAuthority(h.userinfo, h.host), u.path + PrintTail(h.tail), EndsUrl);
  }

  /** Two texts that are both empty or end in the same character. */
  predicate SameEnd(a: string, b: string) {
    (a == "" <==> b == "") && (a != "" ==> b != "" && a[|a| - 1] == b[|b| - 1])
  }

  lemma SameEndConcat(a: string, b: string, x: string, y: string)
    requires SameEnd(x, y) && (x == "" ==> SameEnd(a, b))
    ensures SameEnd(a + x, b + y)
  {
  }

  lemma {:induction false} HiddenQueryEnd(q: Query, isSecret: string -> bool)
    requires !(LastComponent(q).Pair? && isSecret(LastComponent(q).key))
    ensures SameEnd(PrintQuery(q), PrintQuery(HideQuery(q, isSecret)))
  {
    if q.More? {
      HiddenQueryEnd(q.rest, isSecret);
      SameEndConcat(PrintSeparator(q.separator), PrintSeparator(q.separator), PrintQuery(q.rest), PrintQuery(HideQuery(q.rest, isSecret)));
      SameEndConcat(PrintComponent(q.component), PrintComponent(HideComponent(q.component, isSecret)),
                    PrintSeparator(q.separator) + PrintQuery(q.rest), PrintSeparator(q.separator) + PrintQuery(HideQuery(q.rest, isSecret)));
    }
  }

  lemma HiddenTailEnd(tail: Tail, isSecret: string -> bool)
    requires !(tail.WithQuery? && tail.fragment == "" && LastComponent(tail.query).Pair? && isSecret(LastComponent(tail.query).key))
    ensures SameEnd(PrintTail(tail), PrintTail(HideTail(tail, isSecret)))
  {
    if tail.WithQuery? {
      var q, h := PrintQuery(tail.query), PrintQuery(HideQuery(tail.query, isSecret));
      if tail.fragment == "" {
        HiddenQueryEnd(tail.query, isSecret);
      }
      SameEndConcat(q, h, tail.fragment, tail.fragment);
      SameEndConcat("?", "?", q + tail.fragment, h + tail.fragment);
    }
  }

  lemma HiddenAuthorityEnd(userinfo: Option<string>, host: string)
    ensures SameEnd(PrintAuthority(userinfo, host), PrintAuthority(if userinfo.Some? then Some(REDACTED) else None, host))
  {
    if userinfo.Some? {
      SameEndConcat(userinfo.value, REDACTED, "@" + host, "@" + host);
    }
  }

  lemma HiddenUrlEnd(u: Url, isSecret: string -> bool)
    requires !EndsHidden(u, isSecret)
    ensures SameEnd(PrintUrl(u), PrintUrl(HideUrl(u, isSecret)))
  {
    var h := HideUrl(u, isSecret);
    HiddenTailEnd(u.tail, isSecret);
    HiddenAuthorityEnd(u.userinfo, u.host);
    SameEndConcat(u.path, u.path, PrintTail(u.tail), PrintTail(h.tail));
    SameEndConcat(PrintAuthority(u.userinfo, u.host), PrintAuthority(h.userinfo, h.host),
                  u.path + PrintTail(u.tail), u.path + PrintTail(h.tail));
    SameEndConcat("://", "://", PrintBody(u), PrintBody(h));
    SameEndConcat(u.scheme, h.scheme, "://" + PrintBody(u), "://" + PrintBody(h));
  }

  /** A redacted URL is scanned again as it stands, unless a hidden value ends it. */
  lemma HiddenUrlIsScanned(u: Url, isSecret: string -> bool)
    requires ScannedUrl(u) && !EndsHidden(u, isSecret)
    ensures ScannedUrl(HideUrl(u, isSecret))
  {
    HiddenUrlIsWellFormed(u, isSecret);
    HiddenBodyLacksEnd(u, isSecret);
    HiddenUrlEnd(u, isSecret);
  }

  /** What the second pass takes for a hidden value at the end of a URL: its `]` is trimmed off. */
  const CUT := "[REDACTED"

  function CutQuery(q: Query, isSecret: string -> bool): Query {
    match q
    case Last(c) => Last(if c.Pair? then Pair(c.key, CUT) else c)
    case More(c, separator, rest) => More(HideComponent(c, isSecret), separator, CutQuery(rest, isSecret))
  }

  function CutUrl(u: Url, isSecret: string -> bool): Url
    requires u.tail.WithQuery?
  {
    HideUrl(u, isSecret).(tail := WithQuery(CutQuery(u.tail.query, isSecret), ""))
  }

  lemma {:induction false} CutQueryShape(q: Query, isSecret: string -> bool)
    requires WellFormedQuery(q) && LastComponent(q).Pair? && isSecret(LastComponent(q).key)
    ensures WellFormedQuery(CutQuery(q, isSecret))
    ensures HideQuery(CutQuery(q, isSecret), isSecret) == HideQuery(q, isSecret)
  {
    if q.More? {
      CutQueryShape(q.rest, isSecret);
    }
  }

  lemma {:induction false} CutQueryText(q: Query, isSecret: string -> bool)
    requires LastComponent(q).Pair? && isSecret(LastComponent(q).key)
    ensures PrintQuery(HideQuery(q, isSecret)) == PrintQuery(CutQuery(q, isSecret)) + "]"
    ensures SameEnd(PrintQuery(CutQuery(q, isSecret)), CUT)
  {
    match q
    case Last(c) =>
      assert REDACTED == CUT + "]";
      Regroup(c.key, "=", CUT, "]");
      SameEndConcat("=", "", CUT, CUT);
      SameEndConcat(c.key, "", "=" + CUT, CUT);
      assert "" + CUT == CUT;
    case More(c, separator, rest) =>
      CutQueryText(rest, isSecret);
      var first, cut := PrintComponent(HideComponent(c, isSecret)), PrintQuery(CutQuery(rest, isSecret));
      Regroup(first, PrintSeparator(separator), cut, "]");
      SameEndConcat(PrintSeparator(separator), "", cut, CUT);
      SameEndConcat(first, "", PrintSeparator(separator) + cut, CUT);
      assert "" + CUT == CUT;
  }

  lemma Regroup(a: string, b: string, c: string, d: string)
    ensures a + (b + (c + d)) == a + (b + c) + d
  {
  }

  lemma CutBodyText(u: Url, isSecret: string -> bool)
    requires EndsHidden(u, isSecret)
    ensures PrintBody(HideUrl(u, isSecret)) == PrintBody(CutUrl(u, isSecret)) + "]"
    ensures SameEnd(PrintBody(CutUrl(u, isSecret)), CUT)
  {
    var h, c := HideUrl(u, isSecret), CutUrl(u, isSecret);
    var q := PrintQuery(CutQuery(u.tail.query, isSecret));
    CutQueryText(u.tail.query, isSecret);
    assert q + "" == q && (q + "]") + "" == q + "]";
    assert PrintTail(h.tail) == PrintTail(c.tail) + "]";
    Regroup(PrintAuthority(h.userinfo, h.host), h.path, PrintTail(c.tail), "]");
    CutBodyEnd(PrintAuthority(h.userinfo, h.host), h.path, q);
  }

  lemma CutBodyEnd(authority: string, path: string, q: string)
    requires SameEnd(q, CUT)
    ensures SameEnd(authority + (path + ("?" + (q + ""))), CUT)
  {
    assert q + "" == q;
    SameEndConcat("?", "", q, CUT);
    SameEndConcat(path, "", "?" + q, CUT);
    SameEndConcat(authority, "", path + ("?" + q), CUT);
    assert "" + CUT == CUT;
  }

  lemma CutUrlText(u: Url, isSecret: string -> bool)
    requires EndsHidden(u, isSecret)
    ensures PrintUrl(HideUrl(u, isSecret)) == PrintUrl(CutUrl(u, isSecret)) + "]"
    ensures SameEnd(PrintUrl(CutUrl(u, isSecret)), CUT)
  {
    CutBodyText(u, isSecret);
    var body := PrintBody(CutUrl(u, isSecret));
    Regroup(u.scheme, "://", body, "]");
    SameEndConcat("://", "", body, CUT);
    SameEndConcat(u.scheme, "", "://" + body, CUT);
    assert "" + CUT == CUT;
  }

  lemma CutUrlIsWellFormed(u: Url, isSecret: string -> bool)
    requires WellFormedUrl(u) && EndsHidden(u, isSecret)
    ensures WellFormedUrl(CutUrl(u, isSecret)) && HideUrl(CutUrl(u, isSecret), isSecret) == HideUrl(u, isSecret)
  {
    CutQueryShape(u.tail.query, isSecret);
  }

  lemma CutBodyLacksEnd(u: Url, isSecret: string -> bool)
    requires Lacks(PrintBody(u), EndsUrl) && EndsHidden(u, isSecret)
    ensures Lacks(PrintBody(CutUrl(u, isSecret)), EndsUrl)
  {
    HiddenBodyLacksEnd(u, isSecret);
    CutBodyText(u, isSecret);
    LacksConcat(PrintBody(CutUrl(u, isSecret)), "]", EndsUrl);
  }

  lemma EndsLikeCut(t: string)
    requires SameEnd(t, CUT)
    ensures t != "" && t[|t| - 1] !in TRAILING
  {
    assert CUT[|CUT| - 1] == 'D';
  }

  /** The second pass scans the cut URL, and hides in it what the first pass hid. */
  lemma CutUrlIsScanned(u: Url, isSecret: string -> bool)
    requires ScannedUrl(u) && EndsHidden(u, isSecret)
    ensures ScannedUrl(CutUrl(u, isSecret)) && HideUrl(CutUrl(u, isSecret), isSecret) == HideUrl(u, isSecret)
  {
    CutUrlIsWellFormed(u, isSecret);
    CutBodyLacksEnd(u, isSecret);
    CutUrlText(u, isSecret);
    EndsLikeCut(PrintUrl(CutUrl(u, isSecret)));
  }

  /** How a redacted span is scanned the second time. */
  function AgainSpan(s: Span, isSecret: string -> bool): Span {
    if EndsHidden(s.url, isSecret) then Span(s.before, CutUrl(s.url, isSecret), "]" + s.suffix)
    else Span(s.before, HideUrl(s.url, isSecret), s.suffix)
  }

  function AgainSpans(spans: seq<Span>, isSecret: string -> bool): seq<Span> {
    if spans == [] then [] else [AgainSpan(spans[0], isSecret)] + AgainSpans(spans[1..], isSecret)
  }

  /** How many URLs end in a hidden value. */
  function HiddenEnds(spans: seq<Span>, isSecret: string -> bool): nat {
    if spans == [] then 0 else (if EndsHidden(spans[0].url, isSecret) then 1 else 0) + HiddenEnds(spans[1..], isSecret)
  }

  lemma AgainSpanText(s: Span, more: string, isSecret: string -> bool)
    ensures s.before + (PrintUrl(HideUrl(s.url, isSecret)) + (s.suffix + more))
         == AgainSpan(s, isSecret).before + (PrintUrl(AgainSpan(s, isSecret).url) + (AgainSpan(s, isSecret).suffix + more))
  {
    if EndsHidden(s.url, isSecret) {
      CutUrlText(s.url, isSecret);
      PunctuationMoves(PrintUrl(CutUrl(s.url, isSecret)), s.suffix, more);
    }
  }

  lemma PunctuationMoves(url: string, suffix: string, more: string)
    ensures url + "]" + (suffix + more) == url + ("]" + suffix + more)
  {
  }

  lemma AgainSpanIsWellFormed(s: Span, isSecret: string -> bool)
    requires BeforeUrl(s.before) && ScannedUrl(s.url) && Punctuation(s.suffix)
    ensures ScannedUrl(AgainSpan(s, isSecret).url) && Punctuation(AgainSpan(s, isSecret).suffix)
  {
    hide BeforeUrl, ScannedUrl, CutUrl, HideUrl, EndsHidden;
    if EndsHidden(s.url, isSecret) {
      CutUrlIsScanned(s.url, isSecret);
    } else {
      HiddenUrlIsScanned(s.url, isSecret);
    }
  }

  /** The redacted text, split as the second pass splits it. */
  lemma {:induction false} AgainSpansAreIt(spans: seq<Span>, rest: string, isSecret: string -> bool)
    requires WellFormedSpans(spans, rest)
    ensures WellFormedSpans(AgainSpans(spans, isSecret), rest)
    ensures Led(spans, rest) ==> Led(AgainSpans(spans, isSecret), rest)
    ensures PrintSpans(AgainSpans(spans, isSecret), rest) == PrintSpans(HideSpans(spans, isSecret), rest)
  {
    if spans != [] {
      AgainSpansAreIt(spans[1..], rest, isSecret);
      AgainSpanIsWellFormed(spans[0], isSecret);
      assert AgainSpans(spans, isSecret)[1..] == AgainSpans(spans[1..], isSecret);
      assert HideSpans(spans, isSecret)[1..] == HideSpans(spans[1..], isSecret);
      AgainSpanText(spans[0], PrintSpans(AgainSpans(spans[1..], isSecret), rest), isSecret);
    }
  }

  lemma AgainSpanHidden(s: Span, isSecret: string -> bool)
    requires ScannedUrl(s.url)
    ensures HideUrl(AgainSpan(s, isSecret).url, isSecret) == HideUrl(s.url, isSecret)
    ensures !EndsHidden(s.url, isSecret) ==> AgainSpan(s, isSecret).suffix == s.suffix
    ensures EndsHidden(s.url, isSecret) ==> AgainSpan(s, isSecret).suffix == "]" + s.suffix
  {
    if EndsHidden(s.url, isSecret) {
      CutUrlIsScanned(s.url, isSecret);
    } else {
      HiddenUrlIsWellFormed(s.url, isSecret);
    }
  }

  /** The second pass writes one more `]` behind each URL that ends in a hidden value. */
  lemma {:induction false} AgainSpansHidden(spans: seq<Span>, rest: string, isSecret: string -> bool)
    requires WellFormedSpans(spans, rest)
    ensures |PrintSpans(HideSpans(AgainSpans(spans, isSecret), isSecret), rest)|
         == |PrintSpans(HideSpans(spans, isSecret), rest)| + HiddenEnds(spans, isSecret)
    ensures HiddenEnds(spans, isSecret) == 0 ==>
      PrintSpans(HideSpans(AgainSpans(spans, isSecret), isSecret), rest) == PrintSpans(HideSpans(spans, isSecret), rest)
  {
    if spans != [] {
      AgainSpansHidden(spans[1..], rest, isSecret);
      AgainSpanHidden(spans[0], isSecret);
      assert AgainSpans(spans, isSecret)[1..] == AgainSpans(spans[1..], isSecret);
      HideSpansStep(spans, isSecret);
      HideSpansStep(AgainSpans(spans, isSecret), isSecret);
    }
  }

  lemma HideSpansStep(spans: seq<Span>, isSecret: string -> bool)
    requires spans != []
    ensures HideSpans(spans, isSecret) != [] && HideSpans(spans, isSecret)[1..] == HideSpans(spans[1..], isSecret)
    ensures HideSpans(spans, isSecret)[0] == Span(spans[0].before, HideUrl(spans[0].url, isSecret), spans[0].suffix)
  {
  }

  /**
   Redacting twice: the second pass adds exactly one character for each URL that ends in a hidden
   value, so it changes nothing if and only if no URL does.
   */
  lemma SecondPassIff(spans: seq<Span>, rest: string, isSecret: string -> bool)
    requires WellFormedSpans(spans, rest)
    ensures var redact := t => RewrittenText(t, UrlRedactor(isSecret));
      var once := redact(PrintSpans(spans, rest));
      && |redact(once)| == |once| + HiddenEnds(spans, isSecret)
      && (redact(once) == once <==> HiddenEnds(spans, isSecret) == 0)
  {
    TextHidden(spans, rest, isSecret);
    AgainSpansAreIt(spans, rest, isSecret);
    TextHidden(AgainSpans(spans, isSecret), rest, isSecret);
    AgainSpansHidden(spans, rest, isSecret);
  }

  function ExampleUrl(): Url {
    Url("http", None, "a", "", WithQuery(Last(Pair("token", "x")), ""))
  }

  lemma ExampleText()
    ensures PrintBody(ExampleUrl()) == "a?token=x" && PrintUrl(ExampleUrl()) == "http://a?token=x"
  {
    assert PrintComponent(Pair("token", "x")) == "token=x";
  }

  lemma ExampleIsWellFormed()
    ensures WellFormedUrl(ExampleUrl()) && WellFormedScheme("http")
  {
    hide PrintUrl, PrintBody;
  }

  lemma ExampleLacksStops()
    ensures Lacks("a?token=x", Stops)
  {
  }

  lemma ExampleIsScanned()
    ensures PrintUrl(ExampleUrl()) == "http://a?token=x" && ScannedUrl(ExampleUrl())
  {
    hide PrintUrl, PrintBody, WellFormedUrl, WellFormedScheme, Stops;
    ExampleText();
    ExampleIsWellFormed();
    assert "http://a?token=x"[15] == 'x';
    ExampleLacksStops();
  }

  /** It can change something: `http://a?token=x` gains a bracket. */
  lemma SecondPassCanDiffer(isSecret: string -> bool)
    requires isSecret("token")
    ensures var redact := t => RewrittenText(t, UrlRedactor(isSecret));
      redact(redact("http://a?token=x")) != redact("http://a?token=x")
  {
    hide ScannedUrl, PrintUrl, PrintBody, WellFormedUrl;
    ExampleIsScanned();
    var spans := [Span("", ExampleUrl(), "")];
    assert spans[1..] == [];
    assert PrintSpans(spans, "") == "http://a?token=x";
    assert HiddenEnds(spans, isSecret) == 1;
    SecondPassIff(spans, "", isSecret);
  }
}
