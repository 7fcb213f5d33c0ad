/**
 Credentials in one URL. Redaction is proved against a grammar: it rewrites the user information
 and the values of the secret components of the query, and nothing else.
 */
module UrlRedaction {
  import opened Wrappers
  import opened Text

  const REDACTED := "[REDACTED]"

  predicate EndsUrl(c: char) { IsWhitespace(c) || c == '"' || c == '\'' || c == '<' || c == '>' }

  predicate EndsAuthority(c: char) { c == '/' || c == '?' || c == '#' }

  predicate IsQuestion(c: char) { c == '?' }

  predicate IsHash(c: char) { c == '#' }

  predicate IsQuerySeparator(c: char) { c == '&' || c == ';' }

  predicate IsEquals(c: char) { c == '=' }

  // ------------------------------------------------------------------- searching

  predicate Lacks(t: string, p: char -> bool) {
    forall k :: 0 <= k < |t| ==> !p(t[k])
  }

  /** The length of the longest initial stretch without a character of the given kind. */
  function Until(t: string, p: char -> bool): (n: nat)
    ensures n <= |t|
  {
    if t == "" || p(t[0]) then 0 else Until(t[1..], p) + 1
  }

  lemma {:induction false} UntilShape(t: string, p: char -> bool)
    ensures Lacks(t[..Until(t, p)], p) && (Until(t, p) < |t| ==> p(t[Until(t, p)]))
  {
    if t != "" && !p(t[0]) {
      UntilShape(t[1..], p);
      assert t[..Until(t, p)] == [t[0]] + t[1..][..Until(t[1..], p)];
    }
  }

  lemma {:induction false} UntilIs(a: string, b: string, p: char -> bool)
    requires Lacks(a, p) && (b != "" ==> p(b[0]))
    ensures Until(a + b, p) == |a| && (a + b)[..|a|] == a && (a + b)[|a|..] == b
  {
    if a == "" {
      assert a + b == b;
    } else {
      assert (a + b)[1..] == a[1..] + b;
      UntilIs(a[1..], b, p);
    }
  }

  predicate DelimiterAt(t: string, k: nat) {
    k + 3 <= |t| && t[k] == ':' && t[k + 1] == '/' && t[k + 2] == '/'
  }

  /** `t.find("://")`. */
  function FindDelimiter(t: string): (r: Option<nat>)
    ensures r.Some? ==> DelimiterAt(t, r.value)
  {
    if DelimiterAt(t, 0) then Some(0)
    else if t == "" then None
    else match FindDelimiter(t[1..]) case None => None case Some(d) => Some(d + 1)
  }

  lemma {:induction false} NoDelimiterBefore(t: string, k: nat)
    requires DelimiterAt(t, k)
    ensures FindDelimiter(t).Some? && FindDelimiter(t).value <= k
  {
    if k > 0 {
      NoDelimiterBefore(t[1..], k - 1);
    }
  }

  /** Text that is not followed by a slash can be searched on its own. */
  lemma {:induction false} FindInPrefix(a: string, b: string)
    requires b != "" ==> b[0] != '/'
    ensures FindDelimiter(a + b) ==
      if FindDelimiter(a).Some? then FindDelimiter(a)
      else if FindDelimiter(b).Some? then Some(|a| + FindDelimiter(b).value) else None
  {
    if a == "" {
      assert a + b == b;
    } else {
      assert (a + b)[1..] == a[1..] + b;
      FindInPrefix(a[1..], b);
      FindStep(a, b);
    }
  }

  lemma FindStep(a: string, b: string)
    requires a != "" && (b != "" ==> b[0] != '/')
    ensures DelimiterAt(a + b, 0) == DelimiterAt(a, 0)
  {
  }

  /** The position of the last `@`. */
  function LastAt(s: string): (r: Option<nat>)
    ensures r.Some? ==> r.value < |s|
  {
    if s == "" then None else if s[|s| - 1] == '@' then Some(|s| - 1) else LastAt(s[..|s| - 1])
  }

  // ------------------------------------------------------------------- redacting

  function RedactedComponent(component: string, isSecret: string -> bool): string {
    var k := Until(component, IsEquals);
    if k == |component| || !isSecret(component[..k]) then component else component[..k] + "=" + REDACTED
  }

  function RedactedQuery(query: string, isSecret: string -> bool): string {
    var k := Until(query, IsQuerySeparator);
    if k == |query| then RedactedComponent(query, isSecret)
    else RedactedComponent(query[..k], isSecret) + ([query[k]] + RedactedQuery(query[k + 1..], isSecret))
  }

  function RedactedAuthority(authority: string): string {
    match LastAt(authority)
    case None => authority
    case Some(at) => REDACTED + "@" + authority[at + 1..]
  }

  function RedactedRemainder(remainder: string, isSecret: string -> bool): string {
    var q := Until(remainder, IsQuestion);
    if q == |remainder| then remainder
    else
      var value := remainder[q + 1..];
      var end := Until(value, IsHash);
      remainder[..q] + ("?" + (RedactedQuery(value[..end], isSecret) + value[end..]))
  }

  /** Everything after the `://`. */
  function RedactedBody(body: string, isSecret: string -> bool): string {
    var a := Until(body, EndsAuthority);
    RedactedAuthority(body[..a]) + RedactedRemainder(body[a..], isSecret)
  }

  function RedactedUrl(value: string, isSecret: string -> bool): string {
    match FindDelimiter(value)
    case None => value
    case Some(d) => value[..d] + ("://" + RedactedBody(value[d + 3..], isSecret))
  }

  function UrlRedactor(isSecret: string -> bool): string -> string {
    url => RedactedUrl(url, isSecret)
  }

  // -------------------------------------------------------------- the query loop

  /** The components before `start` are written, and none ends before `offset`. */
  predicate QueryScan(query: string, start: nat, offset: nat, output: string, isSecret: string -> bool) {
    && start <= offset <= |query| && Lacks(query[start..offset], IsQuerySeparator)
    && output + RedactedQuery(query[start..], isSecret) == RedactedQuery(query, isSecret)
  }

  lemma Rejoin(a: string, b: string, c: string, d: string)
    ensures a + (b + (c + d)) == a + b + c + d
  {
  }

  lemma QueryStep(query: string, start: nat, offset: nat, isSecret: string -> bool)
    requires start <= offset < |query|
    requires Lacks(query[start..offset], IsQuerySeparator) && IsQuerySeparator(query[offset])
    ensures RedactedQuery(query[start..], isSecret)
         == RedactedComponent(query[start..offset], isSecret) + ([query[offset]] + RedactedQuery(query[offset + 1..], isSecret))
  {
    hide RedactedComponent;
    UntilIs(query[start..offset], query[offset..], IsQuerySeparator);
    assert query[start..] == query[start..offset] + query[offset..];
    assert query[start..][offset - start + 1..] == query[offset + 1..];
  }

  lemma QueryCut(query: string, start: nat, offset: nat, output: string, isSecret: string -> bool)
    requires offset < |query| && IsQuerySeparator(query[offset]) && QueryScan(query, start, offset, output, isSecret)
    ensures QueryScan(query, offset + 1, offset + 1,
                      output + RedactedComponent(query[start..offset], isSecret) + [query[offset]], isSecret)
  {
    hide RedactedComponent, RedactedQuery;
    QueryStep(query, start, offset, isSecret);
    Rejoin(output, RedactedComponent(query[start..offset], isSecret), [query[offset]], RedactedQuery(query[offset + 1..], isSecret));
  }

  lemma QueryOn(query: string, start: nat, offset: nat, output: string, isSecret: string -> bool)
    requires offset < |query| && !IsQuerySeparator(query[offset]) && QueryScan(query, start, offset, output, isSecret)
    ensures QueryScan(query, start, offset + 1, output, isSecret)
  {
    hide RedactedQuery;
    assert query[start..offset + 1] == query[start..offset] + [query[offset]];
  }

  lemma SingleComponent(query: string, isSecret: string -> bool)
    requires Lacks(query, IsQuerySeparator)
    ensures RedactedQuery(query, isSecret) == RedactedComponent(query, isSecret)
  {
    assert query + "" == query;
    UntilIs(query, "", IsQuerySeparator);
  }

  lemma QueryEnd(query: string, start: nat, output: string, isSecret: string -> bool)
    requires QueryScan(query, start, |query|, output, isSecret)
    ensures output + RedactedComponent(query[start..], isSecret) == RedactedQuery(query, isSecret)
  {
    assert query[start..] == query[start..|query|];
    SingleComponent(query[start..], isSecret);
  }

  method RedactQuery(query: string, isSecret: string -> bool) returns (output: string)
    ensures output == RedactedQuery(query, isSecret)
  {
    hide RedactedComponent, RedactedQuery;
    output := "";
    var start, offset := 0, 0;
    while offset < |query|
      invariant QueryScan(query, start, offset, output, isSecret)
    {
      if IsQuerySeparator(query[offset]) {
        QueryCut(query, start, offset, output, isSecret);
        output := output + RedactedComponent(query[start..offset], isSecret);
        output := output + [query[offset]];
        start := offset + 1;
      } else {
        QueryOn(query, start, offset, output, isSecret);
      }
      offset := offset + 1;
    }
    QueryEnd(query, start, output, isSecret);
    output := output + RedactedComponent(query[start..], isSecret);
  }

  // --------------------------------------------------------- the grammar of queries

  datatype Component = Bare(text: string) | Pair(key: string, value: string)

  datatype Separator = Ampersand | Semicolon

  datatype Query = Last(component: Component) | More(component: Component, separator: Separator, rest: Query)

  /** None of these characters is in the text. */
  predicate Free(t: string, marks: string) {
    forall k :: 0 <= k < |t| ==> t[k] !in marks
  }

  function PrintSeparator(separator: Separator): (t: string)
    ensures |t| == 1
  {
    match separator case Ampersand => "&" case Semicolon => ";"
  }

  function PrintComponent(c: Component): string {
    match c case Bare(text) => text case Pair(key, value) => key + ("=" + value)
  }

  function PrintQuery(q: Query): string {
    match q
    case Last(c) => PrintComponent(c)
    case More(c, separator, rest) => PrintComponent(c) + (PrintSeparator(separator) + PrintQuery(rest))
  }

  /** Text of one component: no separator, and not the start of the fragment. */
  predicate InComponent(t: string) {
    Free(t, "&;#")
  }

  lemma InComponentLacks(t: string)
    ensures InComponent(t) <==> Lacks(t, IsQuerySeparator) && Lacks(t, IsHash)
  {
    if InComponent(t) {
      assert forall k :: 0 <= k < |t| ==> t[k] !in "&;#";
    }
    if Lacks(t, IsQuerySeparator) && Lacks(t, IsHash) {
      assert forall k :: 0 <= k < |t| ==> !IsQuerySeparator(t[k]) && !IsHash(t[k]);
    }
  }

  predicate WellFormedComponent(c: Component) {
    match c
    case Bare(text) => InComponent(text) && Free(text, "=")
    case Pair(key, value) => InComponent(key) && InComponent(value) && Free(key, "=")
  }

  predicate WellFormedQuery(q: Query) {
    && WellFormedComponent(q.component)
    && (q.More? ==> WellFormedQuery(q.rest))
  }

  function HideComponent(c: Component, isSecret: string -> bool): Component {
    if c.Pair? && isSecret(c.key) then Pair(c.key, REDACTED) else c
  }

  function HideQuery(q: Query, isSecret: string -> bool): Query {
    match q
    case Last(c) => Last(HideComponent(c, isSecret))
    case More(c, separator, rest) => More(HideComponent(c, isSecret), separator, HideQuery(rest, isSecret))
  }

  lemma LacksConcat(a: string, b: string, p: char -> bool)
    ensures Lacks(a + b, p) <==> Lacks(a, p) && Lacks(b, p)
  {
    if Lacks(a + b, p) {
      assert forall k :: 0 <= k < |a| ==> a[k] == (a + b)[k];
      assert forall k :: 0 <= k < |b| ==> b[k] == (a + b)[|a| + k];
    }
  }

  lemma FreeConcat(a: string, b: string, marks: string)
    ensures Free(a + b, marks) <==> Free(a, marks) && Free(b, marks)
  {
    if Free(a + b, marks) {
      assert forall k :: 0 <= k < |a| ==> a[k] == (a + b)[k];
      assert forall k :: 0 <= k < |b| ==> b[k] == (a + b)[|a| + k];
    }
  }

  lemma ComponentLacks(c: Component)
    requires WellFormedComponent(c)
    ensures InComponent(PrintComponent(c))
    ensures Lacks(PrintComponent(c), IsQuerySeparator) && Lacks(PrintComponent(c), IsHash)
  {
    if c.Pair? {
      FreeConcat("=", c.value, "&;#");
      FreeConcat(c.key, "=" + c.value, "&;#");
    }
    InComponentLacks(PrintComponent(c));
  }

  lemma {:induction false} QueryLacksHash(q: Query)
    requires WellFormedQuery(q)
    ensures Lacks(PrintQuery(q), IsHash)
  {
    ComponentLacks(q.component);
    if q.More? {
      QueryLacksHash(q.rest);
      LacksConcat(PrintSeparator(q.separator), PrintQuery(q.rest), IsHash);
      LacksConcat(PrintComponent(q.component), PrintSeparator(q.separator) + PrintQuery(q.rest), IsHash);
    }
  }

  lemma ComponentHidden(c: Component, isSecret: string -> bool)
    requires WellFormedComponent(c)
    ensures RedactedComponent(PrintComponent(c), isSecret) == PrintComponent(HideComponent(c, isSecret))
  {
    match c
    case Bare(text) =>
      UntilIs(text, "", IsEquals);
      assert text + "" == text;
    case Pair(key, value) =>
      UntilIs(key, "=" + value, IsEquals);
      assert key + "=" + REDACTED == key + ("=" + REDACTED);
  }

  lemma ComponentThenRest(first: string, separator: Separator, rest: string, isSecret: string -> bool)
    requires Lacks(first, IsQuerySeparator)
    ensures RedactedQuery(first + (PrintSeparator(separator) + rest), isSecret)
         == RedactedComponent(first, isSecret) + (PrintSeparator(separator) + RedactedQuery(rest, isSecret))
  {
    hide RedactedComponent;
    var mark := PrintSeparator(separator);
    UntilIs(first, mark + rest, IsQuerySeparator);
    assert mark == [mark[0]];
    QueryTail(first, mark[0], rest);
  }

  /** The query redactor replaces the values of secret components, and nothing else. */
  lemma {:induction false} QueryHidden(q: Query, isSecret: string -> bool)
    requires WellFormedQuery(q)
    ensures RedactedQuery(PrintQuery(q), isSecret) == PrintQuery(HideQuery(q, isSecret))
  {
    var first := PrintComponent(q.component);
    ComponentLacks(q.component);
    ComponentHidden(q.component, isSecret);
    match q
    case Last(_) =>
      SingleComponent(first, isSecret);
    case More(_, separator, rest) =>
      QueryHidden(rest, isSecret);
      hide PrintComponent, RedactedComponent, HideComponent, WellFormedComponent, Lacks, RedactedQuery;
      ComponentThenRest(first, separator, PrintQuery(rest), isSecret);
  }

  lemma QueryTail(first: string, separator: char, rest: string)
    ensures (first + ([separator] + rest))[|first|] == separator
    ensures (first + ([separator] + rest))[|first| + 1..] == rest
  {
  }

  lemma ParseComponent(t: string) returns (c: Component)
    requires InComponent(t)
    ensures WellFormedComponent(c) && PrintComponent(c) == t
  {
    var k := Until(t, IsEquals);
    UntilShape(t, IsEquals);
    if k == |t| {
      assert t[..k] == t;
      c := Bare(t);
    } else {
      c := Pair(t[..k], t[k + 1..]);
      assert t == t[..k] + ("=" + t[k + 1..]);
      FreeConcat(t[..k], "=" + t[k + 1..], "&;#");
      FreeConcat("=", t[k + 1..], "&;#");
    }
  }

  lemma SeparatorOf(c: char) returns (separator: Separator)
    requires IsQuerySeparator(c)
    ensures PrintSeparator(separator) == [c]
  {
    separator := if c == '&' then Ampersand else Semicolon;
  }

  /** Every text without a `#` is a query. */
  lemma {:induction false} ParseQuery(t: string) returns (q: Query)
    requires Lacks(t, IsHash)
    ensures WellFormedQuery(q) && PrintQuery(q) == t
    decreases |t|
  {
    var k := Until(t, IsQuerySeparator);
    UntilShape(t, IsQuerySeparator);
    assert t == t[..k] + t[k..];
    LacksConcat(t[..k], t[k..], IsHash);
    InComponentLacks(t[..k]);
    var c := ParseComponent(t[..k]);
    if k == |t| {
      q := Last(c);
    } else {
      assert t[k..] == [t[k]] + t[k + 1..];
      LacksConcat([t[k]], t[k + 1..], IsHash);
      var rest := ParseQuery(t[k + 1..]);
      var separator := SeparatorOf(t[k]);
      q := More(c, separator, rest);
    }
  }

  // ------------------------------------------------------------ the grammar of URLs

  /** What follows the path; the query runs from the first `?` to the next `#`. */
  datatype Tail = NoQuery | WithQuery(query: Query, fragment: string)

  datatype Url = Url(scheme: string, userinfo: Option<string>, host: string, path: string, tail: Tail)

  function PrintAuthority(userinfo: Option<string>, host: string): string {
    match userinfo case None => host case Some(user) => user + ("@" + host)
  }

  function PrintTail(tail: Tail): string {
    match tail case NoQuery => "" case WithQuery(query, fragment) => "?" + (PrintQuery(query) + fragment)
  }

  function PrintBody(u: Url): string {
    PrintAuthority(u.userinfo, u.host) + (u.path + PrintTail(u.tail))
  }

  function PrintUrl(u: Url): string {
    u.scheme + ("://" + PrintBody(u))
  }

  predicate WellFormedAuthority(userinfo: Option<string>, host: string) {
    Free(host, "@/?#") && (userinfo.Some? ==> Free(userinfo.value, "/?#"))
  }

  predicate WellFormedTail(tail: Tail) {
    tail.WithQuery? ==> WellFormedQuery(tail.query) && (tail.fragment != "" ==> tail.fragment[0] == '#')
  }

  predicate WellFormedUrl(u: Url) {
    && Free(u.scheme, ":")
    && WellFormedAuthority(u.userinfo, u.host)
    && Free(u.path, "?") && (u.path != "" ==> u.path[0] in "/#")
    && WellFormedTail(u.tail)
  }

  lemma FreeOf(t: string)
    ensures Free(t, "/?#") <==> Lacks(t, EndsAuthority)
    ensures Free(t, "@/?#") <==> '@' !in t && Lacks(t, EndsAuthority)
    ensures Free(t, "?") <==> Lacks(t, IsQuestion)
  {
    assert forall c :: c in "/?#" <==> EndsAuthority(c);
    assert forall c :: c in "@/?#" <==> c == '@' || EndsAuthority(c);
    assert forall c :: c in "?" <==> IsQuestion(c);
    assert Free(t, "/?#") ==> forall k :: 0 <= k < |t| ==> !EndsAuthority(t[k]);
  }

  function HideTail(tail: Tail, isSecret: string -> bool): Tail {
    if tail.NoQuery? then tail else WithQuery(HideQuery(tail.query, isSecret), tail.fragment)
  }

  function HideUrl(u: Url, isSecret: string -> bool): Url {
    Url(u.scheme, if u.userinfo.Some? then Some(REDACTED) else None, u.host, u.path, HideTail(u.tail, isSecret))
  }

  lemma {:induction false} LastAtIs(a: string, b: string)
    requires '@' !in b
    ensures LastAt(a + ("@" + b)) == Some(|a|)
  {
    var s := a + ("@" + b);
    if b != "" {
      assert s[|s| - 1] == b[|b| - 1];
      assert s[..|s| - 1] == a + ("@" + b[..|b| - 1]);
      LastAtIs(a, b[..|b| - 1]);
    }
  }

  lemma {:induction false} NoLastAt(s: string)
    requires '@' !in s
    ensures LastAt(s) == None
  {
    if s != "" {
      NoLastAt(s[..|s| - 1]);
    }
  }

  lemma AuthorityHidden(userinfo: Option<string>, host: string)
    requires WellFormedAuthority(userinfo, host)
    ensures RedactedAuthority(PrintAuthority(userinfo, host))
         == PrintAuthority(if userinfo.Some? then Some(REDACTED) else None, host)
  {
    FreeOf(host);
    match userinfo
    case None =>
      NoLastAt(host);
    case Some(user) =>
      LastAtIs(user, host);
      assert (user + ("@" + host))[|user| + 1..] == host;
      assert REDACTED + "@" + host == REDACTED + ("@" + host);
  }

  lemma AuthorityLacks(userinfo: Option<string>, host: string)
    requires WellFormedAuthority(userinfo, host)
    ensures Lacks(PrintAuthority(userinfo, host), EndsAuthority)
  {
    FreeOf(host);
    if userinfo.Some? {
      FreeOf(userinfo.value);
      LacksConcat("@", host, EndsAuthority);
      LacksConcat(userinfo.value, "@" + host, EndsAuthority);
    }
  }

  lemma QueryPartHidden(before: string, query: Query, fragment: string, isSecret: string -> bool)
    requires Lacks(before, IsQuestion) && WellFormedTail(WithQuery(query, fragment))
    ensures RedactedRemainder(before + ("?" + (PrintQuery(query) + fragment)), isSecret)
         == before + ("?" + (PrintQuery(HideQuery(query, isSecret)) + fragment))
  {
    hide PrintQuery, RedactedQuery, HideQuery, WellFormedQuery;
    var value := PrintQuery(query) + fragment;
    UntilIs(before, "?" + value, IsQuestion);
    assert (before + ("?" + value))[|before| + 1..] == value;
    QueryLacksHash(query);
    UntilIs(PrintQuery(query), fragment, IsHash);
    QueryHidden(query, isSecret);
  }

  lemma RemainderHidden(path: string, tail: Tail, isSecret: string -> bool)
    requires Lacks(path, IsQuestion) && WellFormedTail(tail)
    ensures RedactedRemainder(path + PrintTail(tail), isSecret) == path + PrintTail(HideTail(tail, isSecret))
  {
    match tail
    case NoQuery =>
      UntilIs(path, "", IsQuestion);
      assert path + "" == path;
    case WithQuery(query, fragment) =>
      QueryPartHidden(path, query, fragment, isSecret);
  }

  lemma BodyHidden(u: Url, isSecret: string -> bool)
    requires WellFormedUrl(u)
    ensures RedactedBody(PrintBody(u), isSecret) == PrintBody(HideUrl(u, isSecret))
  {
    FreeOf(u.path);
    AuthorityLacks(u.userinfo, u.host);
    UntilIs(PrintAuthority(u.userinfo, u.host), u.path + PrintTail(u.tail), EndsAuthority);
    AuthorityHidden(u.userinfo, u.host);
    RemainderHidden(u.path, u.tail, isSecret);
  }

  lemma {:induction false} FirstDelimiter(scheme: string, body: string)
    requires Free(scheme, ":")
    ensures FindDelimiter(scheme + ("://" + body)) == Some(|scheme|)
  {
    var t := scheme + ("://" + body);
    if scheme != "" {
      assert t[1..] == scheme[1..] + ("://" + body);
      FirstDelimiter(scheme[1..], body);
      assert t[0] == scheme[0];
    }
  }

  /**
   Redaction of a URL, whatever its parts are: user information becomes the marker, so do the
   values of secret components of the query, and every other character stays where it was.
   */
  lemma UrlHidden(u: Url, isSecret: string -> bool)
    requires WellFormedUrl(u)
    ensures RedactedUrl(PrintUrl(u), isSecret) == PrintUrl(HideUrl(u, isSecret))
  {
    FirstDelimiter(u.scheme, PrintBody(u));
    assert PrintUrl(u)[..|u.scheme|] == u.scheme && PrintUrl(u)[|u.scheme| + 3..] == PrintBody(u);
    BodyHidden(u, isSecret);
  }

  // ------------------------------------------------------- one secret value, anywhere

  /** Nothing, or text that ends where a component of the query begins. */
  predicate BeforeComponent(t: string) {
    t == "" || t[|t| - 1] == '&' || t[|t| - 1] == ';'
  }

  /** Nothing, or text that begins where a component of the query ends. */
  predicate AfterComponent(t: string) {
    t == "" || t[0] == '&' || t[0] == ';'
  }

  /** The components on both sides of a separator are redacted on their own. */
  lemma {:induction false} QueryConcat(left: string, separator: Separator, right: string, isSecret: string -> bool)
    ensures RedactedQuery(left + (PrintSeparator(separator) + right), isSecret)
         == RedactedQuery(left, isSecret) + (PrintSeparator(separator) + RedactedQuery(right, isSecret))
    decreases |left|
  {
    var mark, k := PrintSeparator(separator), Until(left, IsQuerySeparator);
    UntilShape(left, IsQuerySeparator);
    if k == |left| {
      assert left[..k] == left;
      ComponentThenRest(left, separator, right, isSecret);
    } else {
      var first, rest := left[..k], left[k + 1..];
      var inner := SeparatorOf(left[k]);
      hide RedactedQuery, RedactedComponent;
      QueryConcat(rest, separator, right, isSecret);
      SplitThere(left, k, mark + right);
      assert PrintSeparator(inner) == [left[k]];
      ComponentThenRest(first, inner, rest, isSecret);
      ComponentThenRest(first, inner, rest + (mark + right), isSecret);
      RejoinTwo(RedactedComponent(first, isSecret), [left[k]], RedactedQuery(rest, isSecret), mark + RedactedQuery(right, isSecret));
    }
  }

  lemma SplitThere(t: string, k: nat, more: string)
    requires k < |t|
    ensures t == t[..k] + ([t[k]] + t[k + 1..])
    ensures t + more == t[..k] + ([t[k]] + (t[k + 1..] + more))
  {
  }

  lemma RejoinTwo(a: string, b: string, c: string, d: string)
    ensures a + (b + (c + d)) == a + (b + c) + d
  {
  }

  /** The value of a secret key becomes the marker, wherever in a query the component stands. */
  lemma SecretValueHidden(left: string, key: string, value: string, right: string, isSecret: string -> bool)
    requires BeforeComponent(left) && AfterComponent(right)
    requires Free(key, "&;#=") && Free(value, "&;#") && isSecret(key)
    ensures RedactedQuery(left + ((key + ("=" + value)) + right), isSecret)
         == RedactedQuery(left, isSecret) + ((key + ("=" + "[REDACTED]")) + RedactedQuery(right, isSecret))
  {
    hide RedactedComponent;
    var c := Pair(key, value);
    assert Free(key, "&;#") && Free(key, "=");
    ComponentLacks(c);
    ComponentHidden(c, isSecret);
    ComponentBefore(PrintComponent(c), right, isSecret);
    ComponentBehind(left, PrintComponent(c) + right, isSecret);
  }

  lemma ComponentBefore(component: string, right: string, isSecret: string -> bool)
    requires Lacks(component, IsQuerySeparator) && AfterComponent(right)
    ensures RedactedQuery(component + right, isSecret) == RedactedComponent(component, isSecret) + RedactedQuery(right, isSecret)
  {
    NothingHidden(isSecret);
    hide RedactedComponent, RedactedQuery;
    if right == "" {
      assert component + right == component;
      SingleComponent(component, isSecret);
      assert RedactedComponent(component, isSecret) + "" == RedactedComponent(component, isSecret);
    } else {
      var separator := SeparatorOf(right[0]);
      var rest := right[1..];
      assert right == PrintSeparator(separator) + rest;
      ComponentThenRest(component, separator, rest, isSecret);
      SeparatorFirst(separator, rest, isSecret);
    }
  }

  lemma SeparatorFirst(separator: Separator, rest: string, isSecret: string -> bool)
    ensures RedactedQuery(PrintSeparator(separator) + rest, isSecret) == PrintSeparator(separator) + RedactedQuery(rest, isSecret)
  {
    NothingHidden(isSecret);
    hide RedactedComponent, RedactedQuery;
    ComponentThenRest("", separator, rest, isSecret);
    Unpadded(PrintSeparator(separator) + rest);
    Unpadded(PrintSeparator(separator) + RedactedQuery(rest, isSecret));
  }

  lemma Unpadded(t: string)
    ensures "" + t == t
  {
  }

  lemma NothingHidden(isSecret: string -> bool)
    ensures RedactedComponent("", isSecret) == "" && RedactedQuery("", isSecret) == ""
  {
  }

  lemma ComponentBehind(left: string, right: string, isSecret: string -> bool)
    requires BeforeComponent(left)
    ensures RedactedQuery(left + right, isSecret) == RedactedQuery(left, isSecret) + RedactedQuery(right, isSecret)
  {
    NothingHidden(isSecret);
    hide RedactedQuery;
    if left == "" {
      assert left + right == right;
    } else {
      var init, last := left[..|left| - 1], left[|left| - 1];
      var separator := SeparatorOf(last);
      QueryConcat(init, separator, right, isSecret);
      QueryConcat(init, separator, "", isSecret);
      assert left + right == init + (PrintSeparator(separator) + right);
      assert left == init + (PrintSeparator(separator) + "");
    }
  }

  /**
   From a whole URL: the value of a secret key after `?`, `&` or `;`, up to the next `&`, `;`, `#` or
   the end, becomes the marker; what stands around it is redacted as it would be without it.
   */
  lemma SecretValueInUrl(
    scheme: string, front: string, left: string, key: string, value: string, right: string, fragment: string, isSecret: string -> bool)
    requires Free(scheme, ":") && Free(front, "?") && Free(left, "#") && Free(right, "#")
    requires BeforeComponent(left) && AfterComponent(right) && (fragment != "" ==> fragment[0] == '#')
    requires Free(key, "&;#=") && Free(value, "&;#") && isSecret(key)
    ensures RedactedUrl(scheme + ("://" + (front + ("?" + ((left + ((key + ("=" + value)) + right)) + fragment)))), isSecret)
         == RedactedUrl(scheme + ("://" + front), isSecret) + ("?" +
              ((RedactedQuery(left, isSecret) + ((key + ("=" + "[REDACTED]")) + RedactedQuery(right, isSecret))) + fragment))
  {
    hide RedactedQuery, RedactedUrl;
    var query := left + ((key + ("=" + value)) + right);
    FreeConcat("=", value, "#");
    FreeConcat(key, "=" + value, "#");
    FreeConcat(key + ("=" + value), right, "#");
    FreeConcat(left, (key + ("=" + value)) + right, "#");
    SecretValueHidden(left, key, value, right, isSecret);
    QueryOfUrl(scheme, front, query, fragment, isSecret);
  }

  /** A query is redacted on its own, whatever stands before and behind it. */
  lemma QueryOfUrl(scheme: string, front: string, query: string, fragment: string, isSecret: string -> bool)
    requires Free(scheme, ":") && Free(front, "?") && Free(query, "#") && (fragment != "" ==> fragment[0] == '#')
    ensures RedactedUrl(scheme + ("://" + (front + ("?" + (query + fragment)))), isSecret)
         == RedactedUrl(scheme + ("://" + front), isSecret) + ("?" + (RedactedQuery(query, isSecret) + fragment))
  {
    hide RedactedQuery, RedactedBody;
    UrlAt(scheme, front, isSecret);
    UrlAt(scheme, front + ("?" + (query + fragment)), isSecret);
    QueryOfBody(front, query, fragment, isSecret);
    RejoinTwo(scheme, "://", RedactedBody(front, isSecret), "?" + (RedactedQuery(query, isSecret) + fragment));
  }

  lemma UrlAt(scheme: string, body: string, isSecret: string -> bool)
    requires Free(scheme, ":")
    ensures RedactedUrl(scheme + ("://" + body), isSecret) == scheme + ("://" + RedactedBody(body, isSecret))
  {
    hide RedactedBody;
    FirstDelimiter(scheme, body);
    var url := scheme + ("://" + body);
    assert url[..|scheme|] == scheme && url[|scheme| + 3..] == body;
  }

  lemma QueryOfBody(front: string, query: string, fragment: string, isSecret: string -> bool)
    requires Free(front, "?") && Free(query, "#") && (fragment != "" ==> fragment[0] == '#')
    ensures RedactedBody(front + ("?" + (query + fragment)), isSecret)
         == RedactedBody(front, isSecret) + ("?" + (RedactedQuery(query, isSecret) + fragment))
  {
    hide RedactedQuery, RedactedAuthority, RedactedRemainder;
    var more, a := "?" + (query + fragment), Until(front, EndsAuthority);
    UntilShape(front, EndsAuthority);
    var authority, path := front[..a], front[a..];
    assert front == authority + path;
    UntilIs(authority, path + more, EndsAuthority);
    assert front + more == authority + (path + more);
    FreeConcat(authority, path, "?");
    FreeOf(path);
    QueryOfRemainder(path, query, fragment, isSecret);
    assert RedactedAuthority(authority) + (path + ("?" + (RedactedQuery(query, isSecret) + fragment)))
        == RedactedAuthority(authority) + path + ("?" + (RedactedQuery(query, isSecret) + fragment));
  }

  lemma QueryOfRemainder(path: string, query: string, fragment: string, isSecret: string -> bool)
    requires Lacks(path, IsQuestion) && Free(query, "#") && (fragment != "" ==> fragment[0] == '#')
    ensures RedactedRemainder(path, isSecret) == path
    ensures RedactedRemainder(path + ("?" + (query + fragment)), isSecret) == path + ("?" + (RedactedQuery(query, isSecret) + fragment))
  {
    hide RedactedQuery;
    UntilIs(path, "", IsQuestion);
    assert path + "" == path;
    UntilIs(path, "?" + (query + fragment), IsQuestion);
    assert (path + ("?" + (query + fragment)))[|path| + 1..] == query + fragment;
    HashFree(query);
    UntilIs(query, fragment, IsHash);
  }

  lemma HashFree(t: string)
    requires Free(t, "#")
    ensures Lacks(t, IsHash)
  {
    assert forall k :: 0 <= k < |t| ==> t[k] !in "#";
  }

  lemma {:induction false} LastAtShape(s: string)
    ensures LastAt(s) == None ==> '@' !in s
    ensures LastAt(s).Some? ==> s[LastAt(s).value] == '@' && '@' !in s[LastAt(s).value + 1..]
  {
    if s != "" && s[|s| - 1] != '@' {
      var init := s[..|s| - 1];
      LastAtShape(init);
      assert s == init + [s[|s| - 1]];
      if LastAt(s).Some? {
        assert s[LastAt(s).value + 1..] == init[LastAt(s).value + 1..] + [s[|s| - 1]];
      }
    }
  }

  lemma ParseAuthority(t: string) returns (userinfo: Option<string>, host: string)
    requires Lacks(t, EndsAuthority)
    ensures WellFormedAuthority(userinfo, host) && PrintAuthority(userinfo, host) == t
  {
    LastAtShape(t);
    var at := LastAt(t);
    FreeOf(t);
    if at == None {
      userinfo, host := None, t;
    } else {
      userinfo, host := Some(t[..at.value]), t[at.value + 1..];
      FreeOf(t[..at.value]);
      FreeOf(host);
      assert t == t[..at.value] + ("@" + host);
      LacksConcat(t[..at.value], "@" + host, EndsAuthority);
      LacksConcat("@", host, EndsAuthority);
    }
  }

  lemma ParseRemainder(t: string) returns (path: string, tail: Tail)
    ensures Free(path, "?") && WellFormedTail(tail) && path + PrintTail(tail) == t
    ensures path != "" ==> t != "" && path[0] == t[0]
  {
    var q := Until(t, IsQuestion);
    UntilShape(t, IsQuestion);
    path := t[..q];
    FreeOf(path);
    if q == |t| {
      tail := NoQuery;
    } else {
      var value := t[q + 1..];
      var end := Until(value, IsHash);
      UntilShape(value, IsHash);
      var query := ParseQuery(value[..end]);
      tail := WithQuery(query, value[end..]);
      assert value == value[..end] + value[end..];
      MarkSplits(t, q);
    }
  }

  lemma MarkSplits(t: string, q: nat)
    requires q < |t|
    ensures t == t[..q] + ([t[q]] + t[q + 1..])
  {
  }

  /** Every text after a scheme and its `://` is the body of a well-formed URL. */
  lemma ParseUrl(scheme: string, body: string) returns (u: Url)
    requires Free(scheme, ":")
    ensures WellFormedUrl(u) && u.scheme == scheme && PrintBody(u) == body
  {
    hide Until, PrintAuthority, PrintTail, WellFormedAuthority, WellFormedTail;
    var a := Until(body, EndsAuthority);
    UntilShape(body, EndsAuthority);
    var userinfo, host := ParseAuthority(body[..a]);
    var path, tail := ParseRemainder(body[a..]);
    u := Url(scheme, userinfo, host, path, tail);
    assert body == body[..a] + body[a..];
  }
}
