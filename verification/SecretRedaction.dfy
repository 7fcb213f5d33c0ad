/**
 Configured secrets: which strings they are, and how a text is cut into copied characters and
 secrets. The secrets are kept longest first, so the first that matches is the longest that does.
 */
module SecretRedaction {
  import opened Wrappers
  import opened Text
  import opened ConfigNormalize
  import UrlRedaction
  import UrlScan

  const REDACTED := UrlRedaction.REDACTED
  const MAX_DIAGNOSTIC_CHARS: nat := 1000

  // ------------------------------------------------------------------ the ranking

  /** Bytes in UTF-8. */
  function Utf8Length(s: string): nat {
    if s == "" then 0 else Utf8Length(s[1..]) + CharLength(s[0])
  }

  function CharLength(c: char): nat {
    var n := c as int;
    if n < 0x80 then 1 else if n < 0x800 then 2 else if n < 0x1_0000 then 3 else 4
  }

  /** Longer secrets come first, equally long ones in alphabetical order. */
  predicate Ahead(a: string, b: string) {
    Utf8Length(a) > Utf8Length(b) || (Utf8Length(a) == Utf8Length(b) && LexGreater(b, a))
  }

  predicate Ranked(secrets: seq<string>) {
    forall i, j :: 0 <= i < j < |secrets| ==> !Ahead(secrets[j], secrets[i])
  }

  predicate StrictlyRanked(secrets: seq<string>) {
    forall i, j :: 0 <= i < j < |secrets| ==> Ahead(secrets[i], secrets[j])
  }

  lemma AheadIsTotal(a: string, b: string)
    ensures !(Ahead(a, b) && Ahead(b, a)) && (a != b ==> Ahead(a, b) || Ahead(b, a))
  {
    LexAsymmetric(a, b);
  }

  /** What does not belong ahead stays behind: the order is total. */
  lemma AheadIsTransitive(a: string, b: string, c: string)
    requires !Ahead(b, a) && !Ahead(c, b)
    ensures !Ahead(c, a)
  {
    AheadIsTotal(a, b);
    AheadIsTotal(b, c);
    AheadIsTotal(a, c);
    if a != b && b != c && LexGreater(b, a) && LexGreater(c, b) {
      LexTransitive(c, b, a);
    }
  }

  function InsertSecret(secrets: seq<string>, secret: string): seq<string> {
    if secrets == [] || !Ahead(secret, secrets[|secrets| - 1]) then secrets + [secret]
    else InsertSecret(secrets[..|secrets| - 1], secret) + [secrets[|secrets| - 1]]
  }

  function SortSecrets(secrets: seq<string>): seq<string> {
    if secrets == [] then [] else InsertSecret(SortSecrets(secrets[..|secrets| - 1]), secrets[|secrets| - 1])
  }

  /** Drops repetitions that stand side by side. */
  function Dedup(secrets: seq<string>): seq<string> {
    if |secrets| <= 1 then secrets
    else if secrets[0] == secrets[1] then Dedup(secrets[1..])
    else [secrets[0]] + Dedup(secrets[1..])
  }

  ghost predicate SameElements(a: seq<string>, b: seq<string>) {
    forall s :: s in a <==> s in b
  }

  lemma RankedSnoc(secrets: seq<string>, last: string)
    requires Ranked(secrets) && forall s :: s in secrets ==> !Ahead(last, s)
    ensures Ranked(secrets + [last])
  {
  }

  lemma NoneAheadOfLast(secrets: seq<string>, secret: string)
    requires Ranked(secrets) && secrets != [] && !Ahead(secret, secrets[|secrets| - 1])
    ensures forall s :: s in secrets ==> !Ahead(secret, s)
  {
    var last := secrets[|secrets| - 1];
    AheadIsTotal(last, last);
    forall s | s in secrets ensures !Ahead(secret, s) {
      var i :| 0 <= i < |secrets| && secrets[i] == s;
      assert i < |secrets| - 1 ==> !Ahead(last, s);
      AheadIsTransitive(s, last, secret);
    }
  }

  lemma {:induction false} InsertRanks(secrets: seq<string>, secret: string)
    requires Ranked(secrets)
    ensures Ranked(InsertSecret(secrets, secret)) && SameElements(InsertSecret(secrets, secret), secrets + [secret])
  {
    if secrets == [] || !Ahead(secret, secrets[|secrets| - 1]) {
      if secrets != [] {
        NoneAheadOfLast(secrets, secret);
      }
      RankedSnoc(secrets, secret);
    } else {
      var init, last := secrets[..|secrets| - 1], secrets[|secrets| - 1];
      InsertRanks(init, secret);
      AheadIsTotal(secret, last);
      assert forall s :: s in init ==> !Ahead(last, s);
      RankedSnoc(InsertSecret(init, secret), last);
      assert secrets == init + [last];
    }
  }

  lemma {:induction false} SortRanks(secrets: seq<string>)
    ensures Ranked(SortSecrets(secrets)) && SameElements(SortSecrets(secrets), secrets)
  {
    if secrets != [] {
      var init, last := secrets[..|secrets| - 1], secrets[|secrets| - 1];
      SortRanks(init);
      InsertRanks(SortSecrets(init), last);
      assert secrets == init + [last];
    }
  }

  /** A new head goes ahead of everything behind it. */
  lemma HeadIsAhead(secrets: seq<string>)
    requires Ranked(secrets) && |secrets| > 1 && secrets[0] != secrets[1]
    ensures forall s :: s in secrets[1..] ==> Ahead(secrets[0], s)
  {
    var a, b := secrets[0], secrets[1];
    forall s | s in secrets[1..] ensures Ahead(a, s) {
      var i :| 1 <= i < |secrets| && secrets[i] == s;
      AheadIsTotal(a, b);
      AheadIsTotal(s, s);
      AheadIsTotal(a, s);
      assert !Ahead(s, a) && !Ahead(b, a) && (i > 1 ==> !Ahead(s, b));
    }
  }

  lemma {:induction false} DedupRanks(secrets: seq<string>)
    requires Ranked(secrets)
    ensures StrictlyRanked(Dedup(secrets)) && SameElements(Dedup(secrets), secrets)
  {
    if |secrets| > 1 {
      DedupRanks(secrets[1..]);
      assert secrets == [secrets[0]] + secrets[1..];
      if secrets[0] == secrets[1] {
        assert secrets[1] == secrets[1..][0];
      } else {
        HeadIsAhead(secrets);
      }
    }
  }

  // ------------------------------------------------------- which strings are secrets

  predicate FieldSecret(value: string, s: string) {
    s != "" && (s == value || s == Trim(value))
  }

  function TrimQuotesStart(s: string): string {
    if s != "" && s[0] == '"' then TrimQuotesStart(s[1..]) else s
  }

  function TrimQuotesEnd(s: string): string {
    if s != "" && s[|s| - 1] == '"' then TrimQuotesEnd(s[..|s| - 1]) else s
  }

  /** The value of `name=value`, bare. */
  function CookieValue(component: string): Option<string> {
    var k := UrlRedaction.Until(component, UrlRedaction.IsEquals);
    if k == |component| then None else Some(TrimQuotesEnd(TrimQuotesStart(Trim(component[k + 1..]))))
  }

  predicate CookieSecret(component: string, s: string) {
    CookieValue(component) == Some(s) && |s| >= 4
  }

  predicate Quotes(t: string) {
    forall k :: 0 <= k < |t| ==> t[k] == '"'
  }

  lemma {:induction false} QuotesStart(q: string, t: string)
    requires Quotes(q) && (t != "" ==> t[0] != '"')
    ensures TrimQuotesStart(q + t) == t
  {
    if q == "" {
      assert q + t == t;
    } else {
      assert (q + t)[1..] == q[1..] + t;
      QuotesStart(q[1..], t);
    }
  }

  lemma {:induction false} QuotesEnd(t: string, q: string)
    requires Quotes(q) && (t != "" ==> t[|t| - 1] != '"')
    ensures TrimQuotesEnd(t + q) == t
  {
    if q == "" {
      assert t + q == t;
    } else {
      assert (t + q)[..|t + q| - 1] == t + q[..|q| - 1];
      QuotesEnd(t, q[..|q| - 1]);
    }
  }

  /** A cookie is `name=value`, with blanks around the value and quotes inside them; nothing else has a value. */
  lemma CookieValueIs(name: string, given: string, q: string, value: string, q': string)
    requires '=' !in name && Trim(given) == q + (value + q') && Quotes(q) && Quotes(q') && (value == "" ==> q' == "")
    requires value != "" ==> value[0] != '"' && value[|value| - 1] != '"'
    ensures CookieValue(name + ("=" + given)) == Some(value) && CookieValue(name) == None
  {
    var component := name + ("=" + given);
    UrlRedaction.UntilIs(name, "=" + given, UrlRedaction.IsEquals);
    UrlRedaction.UntilIs(name, "", UrlRedaction.IsEquals);
    assert name + "" == name && component[|name| + 1..] == given;
    hide Trim, UrlRedaction.Until;
    QuotesStart(q, value + q');
    QuotesEnd(value, q');
  }

  predicate PasswordSecret(servers: seq<Server>, s: string) {
    exists k :: 0 <= k < |servers| && FieldSecret(servers[k].password, s)
  }

  predicate ComponentSecret(components: seq<string>, s: string) {
    exists k :: 0 <= k < |components| && CookieSecret(components[k], s)
  }

  predicate IsSecret(config: FileConfig, s: string) {
    || FieldSecret(config.tmdbApiKey, s) || FieldSecret(config.mteamApiKey, s)
    || FieldSecret(config.doubanCookie, s) || FieldSecret(config.management.adminToken, s)
    || PasswordSecret(config.servers, s)
    || ComponentSecret(Split(config.doubanCookie, ';'), s)
  }

  function AddConfiguredSecret(secrets: seq<string>, value: string): (out: seq<string>)
    ensures forall s :: s in out <==> s in secrets || FieldSecret(value, s)
  {
    var added := if value != "" then secrets + [value] else secrets;
    if Trim(value) != "" && Trim(value) != value then added + [Trim(value)] else added
  }

  lemma PasswordSnoc(servers: seq<Server>, i: nat, s: string)
    requires i < |servers|
    ensures PasswordSecret(servers[..i + 1], s) <==> PasswordSecret(servers[..i], s) || FieldSecret(servers[i].password, s)
  {
    if FieldSecret(servers[i].password, s) {
      assert servers[..i + 1][i] == servers[i];
    }
    if PasswordSecret(servers[..i], s) {
      var k :| 0 <= k < i && FieldSecret(servers[..i][k].password, s);
      assert servers[..i + 1][k] == servers[..i][k];
    }
  }

  lemma ComponentSnoc(components: seq<string>, i: nat, s: string)
    requires i < |components|
    ensures ComponentSecret(components[..i + 1], s) <==> ComponentSecret(components[..i], s) || CookieSecret(components[i], s)
  {
    if CookieSecret(components[i], s) {
      assert components[..i + 1][i] == components[i];
    }
    if ComponentSecret(components[..i], s) {
      var k :| 0 <= k < i && CookieSecret(components[..i][k], s);
      assert components[..i + 1][k] == components[..i][k];
    }
  }

  ghost predicate WithPasswords(secrets: seq<string>, servers: seq<Server>, out: seq<string>) {
    forall s :: s in out <==> s in secrets || PasswordSecret(servers, s)
  }

  ghost predicate WithComponents(secrets: seq<string>, components: seq<string>, out: seq<string>) {
    forall s :: s in out <==> s in secrets || ComponentSecret(components, s)
  }

  lemma PasswordAdded(secrets: seq<string>, servers: seq<Server>, i: nat, out: seq<string>)
    requires i < |servers| && WithPasswords(secrets, servers[..i], out)
    ensures WithPasswords(secrets, servers[..i + 1], AddConfiguredSecret(out, servers[i].password))
  {
    forall s {
      PasswordSnoc(servers, i, s);
    }
  }

  lemma ComponentAdded(secrets: seq<string>, components: seq<string>, i: nat, out: seq<string>, added: seq<string>)
    requires i < |components| && WithComponents(secrets, components[..i], out)
    requires forall s :: s in added <==> s in out || CookieSecret(components[i], s)
    ensures WithComponents(secrets, components[..i + 1], added)
  {
    forall s {
      ComponentSnoc(components, i, s);
    }
  }

  method AddPasswords(secrets: seq<string>, servers: seq<Server>) returns (out: seq<string>)
    ensures WithPasswords(secrets, servers, out)
  {
    out := secrets;
    for i := 0 to |servers|
      invariant WithPasswords(secrets, servers[..i], out)
    {
      PasswordAdded(secrets, servers, i, out);
      out := AddConfiguredSecret(out, servers[i].password);
    }
    assert servers[..|servers|] == servers;
  }

  method AddCookieComponents(secrets: seq<string>, components: seq<string>) returns (out: seq<string>)
    ensures WithComponents(secrets, components, out)
  {
    out := secrets;
    for i := 0 to |components|
      invariant WithComponents(secrets, components[..i], out)
    {
      var before := out;
      var value := CookieValue(components[i]);
      if value.Some? && |value.value| >= 4 {
        out := out + [value.value];
      }
      ComponentAdded(secrets, components, i, before, out);
    }
    assert components[..|components|] == components;
  }

  /** Exactly the configured secrets, each once, longest first, and none of them empty. */
  method FromConfig(config: FileConfig) returns (secrets: seq<string>)
    ensures forall s :: s in secrets <==> IsSecret(config, s)
    ensures StrictlyRanked(secrets) && "" !in secrets
  {
    secrets := AddConfiguredSecret([], config.tmdbApiKey);
    secrets := AddConfiguredSecret(secrets, config.mteamApiKey);
    secrets := AddConfiguredSecret(secrets, config.doubanCookie);
    secrets := AddConfiguredSecret(secrets, config.management.adminToken);
    secrets := AddPasswords(secrets, config.servers);
    secrets := AddCookieComponents(secrets, Split(config.doubanCookie, ';'));
    SortRanks(secrets);
    DedupRanks(SortSecrets(secrets));
    secrets := Dedup(SortSecrets(secrets));
  }

  // ------------------------------------------------------------------- segmentation

  /** A character that is copied, or a secret that is hidden. */
  datatype Piece = Copied(c: char) | Hidden(secret: string)

  function TextOf(pieces: seq<Piece>): string {
    if pieces == [] then "" else PieceText(pieces[0]) + TextOf(pieces[1..])
  }

  function PieceText(p: Piece): string {
    match p case Copied(c) => [c] case Hidden(secret) => secret
  }

  function Render(pieces: seq<Piece>): string {
    if pieces == [] then ""
    else (match pieces[0] case Copied(c) => [c] case Hidden(_) => REDACTED) + Render(pieces[1..])
  }

  /** No secret starts where the text does. */
  predicate NoneStarts(text: string, secrets: seq<string>) {
    forall s :: s in secrets ==> !(s <= text)
  }

  predicate LongestStart(x: string, text: string, secrets: seq<string>) {
    x in secrets && x <= text && forall s :: s in secrets && s <= text ==> |s| <= |x|
  }

  /** Every copied character starts no secret, and every hidden secret is the longest that starts there. */
  predicate Fits(pieces: seq<Piece>, secrets: seq<string>) {
    pieces == [] ||
    ((match pieces[0]
      case Copied(_) => NoneStarts(TextOf(pieces), secrets)
      case Hidden(x) => LongestStart(x, TextOf(pieces), secrets)) && Fits(pieces[1..], secrets))
  }

  function FirstMatch(secrets: seq<string>, text: string): (r: Option<string>)
    ensures r.Some? ==> r.value in secrets && r.value <= text
  {
    if secrets == [] then None
    else if secrets[0] <= text then Some(secrets[0])
    else FirstMatch(secrets[1..], text)
  }

  function Segments(text: string, secrets: seq<string>): seq<Piece>
    requires "" !in secrets
  {
    if text == "" then [] else
    match FirstMatch(secrets, text)
    case None => [Copied(text[0])] + Segments(text[1..], secrets)
    case Some(s) => [Hidden(s)] + Segments(text[|s|..], secrets)
  }

  lemma {:induction false} NoMatch(secrets: seq<string>, text: string)
    requires FirstMatch(secrets, text) == None
    ensures NoneStarts(text, secrets)
  {
    if secrets != [] {
      NoMatch(secrets[1..], text);
      assert secrets == [secrets[0]] + secrets[1..];
    }
  }

  lemma {:induction false} PrefixIsShorter(a: string, b: string)
    requires a < b
    ensures Utf8Length(a) < Utf8Length(b)
  {
    if a != "" {
      assert a[0] == b[0] && a[1..] < b[1..];
      PrefixIsShorter(a[1..], b[1..]);
    }
  }

  lemma AheadIsLonger(x: string, s: string, text: string)
    requires Ahead(x, s) && x <= text && s <= text
    ensures |s| <= |x|
  {
    if |s| > |x| {
      assert x == text[..|x|] && s == text[..|s|];
      PrefixIsShorter(x, s);
    }
  }

  /** In a ranked list the first match is the longest one. */
  lemma {:induction false} FirstIsLongest(secrets: seq<string>, text: string)
    requires StrictlyRanked(secrets) && FirstMatch(secrets, text).Some?
    ensures LongestStart(FirstMatch(secrets, text).value, text, secrets)
  {
    var x := FirstMatch(secrets, text).value;
    if secrets[0] <= text {
      forall s | s in secrets && s <= text ensures |s| <= |x| {
        if s != x {
          var i :| 0 <= i < |secrets| && secrets[i] == s;
          AheadIsLonger(x, s, text);
        }
      }
    } else {
      FirstIsLongest(secrets[1..], text);
    }
  }

  /** The segmentation loses nothing of the text, and hides at every point the longest secret. */
  lemma {:induction false} SegmentsFit(text: string, secrets: seq<string>)
    requires StrictlyRanked(secrets) && "" !in secrets
    ensures TextOf(Segments(text, secrets)) == text && Fits(Segments(text, secrets), secrets)
    decreases |text|
  {
    hide StrictlyRanked, NoneStarts, FirstMatch;
    if text != "" {
      match FirstMatch(secrets, text)
      case None =>
        NoMatch(secrets, text);
        SegmentsFit(text[1..], secrets);
        assert Segments(text, secrets)[1..] == Segments(text[1..], secrets);
      case Some(s) =>
        FirstIsLongest(secrets, text);
        SegmentsFit(text[|s|..], secrets);
        assert Segments(text, secrets)[1..] == Segments(text[|s|..], secrets);
    }
  }

  lemma LongestIsUnique(x: string, y: string, text: string, secrets: seq<string>)
    requires LongestStart(x, text, secrets) && LongestStart(y, text, secrets)
    ensures x == y
  {
    assert x == text[..|x|] && y == text[..|y|];
  }

  lemma CopiedStep(c: char, rest: string, secrets: seq<string>)
    requires StrictlyRanked(secrets) && "" !in secrets && NoneStarts([c] + rest, secrets)
    ensures Segments([c] + rest, secrets) == [Copied(c)] + Segments(rest, secrets)
  {
    assert FirstMatch(secrets, [c] + rest) == None;
    assert ([c] + rest)[1..] == rest;
  }

  lemma HiddenStep(x: string, rest: string, secrets: seq<string>)
    requires StrictlyRanked(secrets) && "" !in secrets && LongestStart(x, x + rest, secrets)
    ensures Segments(x + rest, secrets) == [Hidden(x)] + Segments(rest, secrets)
  {
    if FirstMatch(secrets, x + rest) == None {
      NoMatch(secrets, x + rest);
    } else {
      FirstIsLongest(secrets, x + rest);
      LongestIsUnique(x, FirstMatch(secrets, x + rest).value, x + rest, secrets);
      assert (x + rest)[|x|..] == rest;
    }
  }

  /** It is the only segmentation that does. */
  lemma {:induction false} SegmentsUnique(pieces: seq<Piece>, secrets: seq<string>)
    requires StrictlyRanked(secrets) && "" !in secrets && Fits(pieces, secrets)
    ensures pieces == Segments(TextOf(pieces), secrets)
  {
    hide Segments, StrictlyRanked, NoneStarts, LongestStart;
    if pieces == [] {
      EmptySegments(secrets);
    } else {
      SegmentsUnique(pieces[1..], secrets);
      var rest := TextOf(pieces[1..]);
      match pieces[0] {
        case Copied(c) => CopiedStep(c, rest, secrets);
        case Hidden(x) => HiddenStep(x, rest, secrets);
      }
      assert pieces == [pieces[0]] + pieces[1..];
    }
  }

  lemma EmptySegments(secrets: seq<string>)
    requires "" !in secrets
    ensures Segments("", secrets) == []
  {
  }

  // ---------------------------------------------------------------------- redaction

  lemma SegmentsStep(value: string, offset: nat, secrets: seq<string>)
    requires offset < |value| && "" !in secrets
    ensures Render(Segments(value[offset..], secrets)) ==
      match FirstMatch(secrets, value[offset..])
      case None => [value[offset]] + Render(Segments(value[offset + 1..], secrets))
      case Some(s) => REDACTED + Render(Segments(value[offset + |s|..], secrets))
  {
    var t := value[offset..];
    match FirstMatch(secrets, t)
    case None =>
      assert t[1..] == value[offset + 1..];
    case Some(s) =>
      assert t[|s|..] == value[offset + |s|..];
  }

  predicate SecretScan(value: string, offset: nat, output: string, secrets: seq<string>)
    requires "" !in secrets
  {
    offset <= |value| && output + Render(Segments(value[offset..], secrets)) == Render(Segments(value, secrets))
  }

  lemma ScanStart(value: string, secrets: seq<string>)
    requires "" !in secrets
    ensures SecretScan(value, 0, "", secrets)
  {
    assert value[0..] == value;
  }

  lemma ScanStep(value: string, offset: nat, output: string, secrets: seq<string>)
    requires "" !in secrets && offset < |value| && SecretScan(value, offset, output, secrets)
    ensures match FirstMatch(secrets, value[offset..])
      case None => SecretScan(value, offset + 1, output + [value[offset]], secrets)
      case Some(s) => SecretScan(value, offset + |s|, output + REDACTED, secrets)
  {
    hide Segments, Render, FirstMatch;
    SegmentsStep(value, offset, secrets);
  }

  lemma ScanEnd(value: string, output: string, secrets: seq<string>)
    requires "" !in secrets && SecretScan(value, |value|, output, secrets)
    ensures output == Render(Segments(value, secrets))
  {
    assert value[|value|..] == "";
  }

  method RedactConfiguredSecrets(value: string, secrets: seq<string>) returns (output: string)
    requires "" !in secrets
    ensures output == Render(Segments(value, secrets))
  {
    hide SecretScan, Segments, Render;
    output := "";
    var offset := 0;
    ScanStart(value, secrets);
    while offset < |value|
      invariant offset <= |value| && SecretScan(value, offset, output, secrets)
    {
      var found := FirstMatch(secrets, value[offset..]);
      ScanStep(value, offset, output, secrets);
      if found.Some? {
        output := output + REDACTED;
        offset := offset + |found.value|;
      } else {
        output := output + [value[offset]];
        offset := offset + 1;
      }
    }
    ScanEnd(value, output, secrets);
  }

  // ------------------------------------------------------------- what can survive

  /** Laid over `x` at offset `d`, the marker agrees with it wherever both have a character. */
  predicate AgreesAt(x: string, d: int) {
    forall p :: 0 <= p < |x| && 0 <= p - d < |REDACTED| ==> x[p] == REDACTED[p - d]
  }

  /** The marker can be laid over a part of `x`. */
  predicate MarkerOverlaps(x: string) {
    exists d :: -|REDACTED| < d < |x| && AgreesAt(x, d)
  }

  lemma MarkerAhead(x: string, more: string)
    requires x <= REDACTED + more
    ensures AgreesAt(x, 0)
  {
    assert forall p :: 0 <= p < |x| ==> x[p] == (REDACTED + more)[p];
  }

  /** The marker can be laid over `x` from some character of it on. */
  predicate OverlapsFrom(x: string) {
    exists d :: 0 <= d < |x| && AgreesAt(x, d)
  }

  /** What the output begins with was copied, unless it reaches a marker. */
  lemma {:induction false} CopiedPrefix(pieces: seq<Piece>, x: string)
    requires x <= Render(pieces)
    ensures x <= TextOf(pieces) || OverlapsFrom(x)
  {
    if x != "" {
      var rest := pieces[1..];
      match pieces[0] {
        case Hidden(_) =>
          MarkerAhead(x, Render(rest));
        case Copied(c) =>
          assert Render(pieces)[1..] == Render(rest);
          CopiedPrefix(rest, x[1..]);
          if OverlapsFrom(x[1..]) {
            ShiftedOverlap(x);
          } else {
            assert x == [c] + x[1..];
          }
      }
    }
  }

  lemma ShiftedOverlap(x: string)
    requires x != "" && OverlapsFrom(x[1..])
    ensures OverlapsFrom(x)
  {
    var d :| 0 <= d < |x[1..]| && AgreesAt(x[1..], d);
    forall p | 0 <= p < |x| && 0 <= p - (d + 1) < |REDACTED| ensures x[p] == REDACTED[p - (d + 1)] {
      assert x[1..][p - 1] == REDACTED[p - 1 - d];
    }
    assert AgreesAt(x, d + 1);
  }

  lemma MarkerStart(x: string, i: nat, more: string)
    requires i < |REDACTED| && OccursAt(REDACTED + more, i, x)
    ensures AgreesAt(x, 0 - i)
  {
    var t := REDACTED + more;
    forall p | 0 <= p < |x| && 0 <= p + i < |REDACTED| ensures x[p] == REDACTED[p + i] {
      assert t[i..i + |x|][p] == t[i + p];
    }
  }

  lemma OccursLater(head: string, t: string, i: nat, x: string)
    requires OccursAt(head + t, i, x) && i >= |head|
    ensures OccursAt(t, i - |head|, x)
  {
    assert (head + t)[i..i + |x|] == t[i - |head|..i - |head| + |x|];
  }

  /** A secret that occurs in the output lies partly under a marker. */
  lemma {:induction false} SurvivorOverlaps(pieces: seq<Piece>, secrets: seq<string>, x: string, i: nat)
    requires Fits(pieces, secrets) && x in secrets && x != "" && OccursAt(Render(pieces), i, x)
    ensures MarkerOverlaps(x)
  {
    hide AgreesAt, LongestStart;
    var rest := pieces[1..];
    match pieces[0] {
      case Hidden(_) =>
        if i < |REDACTED| {
          MarkerStart(x, i, Render(rest));
        } else {
          OccursLater(REDACTED, Render(rest), i, x);
          SurvivorOverlaps(rest, secrets, x, i - |REDACTED|);
        }
      case Copied(c) =>
        if i == 0 {
          assert x <= Render(pieces);
          CopiedPrefix(pieces, x);
        } else {
          OccursLater([c], Render(rest), i, x);
          SurvivorOverlaps(rest, secrets, x, i - 1);
        }
    }
  }

  /** So one that the marker cannot overlap occurs nowhere in the output. */
  lemma NoneSurvives(pieces: seq<Piece>, secrets: seq<string>, x: string)
    requires Fits(pieces, secrets) && x in secrets && x != "" && !MarkerOverlaps(x)
    ensures !Contains(Render(pieces), x)
  {
    if i :| 0 <= i <= |Render(pieces)| && OccursAt(Render(pieces), i, x) {
      SurvivorOverlaps(pieces, secrets, x, i);
    }
  }

  /** Some configuration and some text leave the secret in the output. */
  ghost predicate CanSurvive(x: string) {
    exists secrets, text :: SurvivesIn(x, secrets, text)
  }

  ghost predicate SurvivesIn(x: string, secrets: seq<string>, text: string) {
    && StrictlyRanked(secrets) && "" !in secrets && x in secrets
    && Contains(Render(Segments(text, secrets)), x)
  }

  function Repeat(c: char, n: nat): string {
    seq(n, _ => c)
  }

  function CopyAll(t: string): (pieces: seq<Piece>)
    ensures |pieces| == |t|
  {
    if t == "" then [] else [Copied(t[0])] + CopyAll(t[1..])
  }

  lemma {:induction false} CopyAllBefore(t: string, rest: seq<Piece>)
    ensures TextOf(CopyAll(t) + rest) == t + TextOf(rest)
    ensures Render(CopyAll(t) + rest) == t + Render(rest)
  {
    hide TextOf, Render;
    if t == "" {
      assert CopyAll(t) + rest == rest && "" + TextOf(rest) == TextOf(rest) && "" + Render(rest) == Render(rest);
    } else {
      CopyAllBefore(t[1..], rest);
      ConsCopied(t[0], CopyAll(t[1..]) + rest);
      CopyAllCons(t, rest);
      ConsString(t, TextOf(rest));
      ConsString(t, Render(rest));
    }
  }

  lemma ConsCopied(c: char, rest: seq<Piece>)
    ensures TextOf([Copied(c)] + rest) == [c] + TextOf(rest) && Render([Copied(c)] + rest) == [c] + Render(rest)
  {
    assert ([Copied(c)] + rest)[1..] == rest;
  }

  lemma CopyAllCons(t: string, rest: seq<Piece>)
    requires t != ""
    ensures CopyAll(t) + rest == [Copied(t[0])] + (CopyAll(t[1..]) + rest)
  {
  }

  lemma ConsString(t: string, more: string)
    requires t != ""
    ensures t + more == [t[0]] + (t[1..] + more)
  {
  }

  lemma FitsCopied(c: char, rest: seq<Piece>, secrets: seq<string>)
    requires Fits(rest, secrets) && NoneStarts([c] + TextOf(rest), secrets)
    ensures Fits([Copied(c)] + rest, secrets)
  {
    ConsCopied(c, rest);
    assert ([Copied(c)] + rest)[1..] == rest;
  }

  lemma FitsHidden(x: string, rest: seq<Piece>, secrets: seq<string>)
    requires Fits(rest, secrets) && LongestStart(x, x + TextOf(rest), secrets)
    ensures Fits([Hidden(x)] + rest, secrets)
    ensures TextOf([Hidden(x)] + rest) == x + TextOf(rest) && Render([Hidden(x)] + rest) == REDACTED + Render(rest)
  {
    assert ([Hidden(x)] + rest)[1..] == rest;
  }

  /** Copying a stretch fits where no secret starts inside it. */
  lemma {:induction false} CopyAllFits(t: string, rest: seq<Piece>, secrets: seq<string>)
    requires Fits(rest, secrets)
    requires forall j :: 0 <= j < |t| ==> NoneStarts(t[j..] + TextOf(rest), secrets)
    ensures Fits(CopyAll(t) + rest, secrets)
  {
    hide NoneStarts, Fits, TextOf, Render;
    if t == "" {
      assert CopyAll(t) + rest == rest;
    } else {
      forall j | 0 <= j < |t[1..]| ensures NoneStarts(t[1..][j..] + TextOf(rest), secrets) {
        assert t[1..][j..] == t[j + 1..];
      }
      CopyAllFits(t[1..], rest, secrets);
      CopyAllBefore(t[1..], rest);
      CopyAllCons(t, rest);
      ConsString(t, TextOf(rest));
      assert t[0..] == t && NoneStarts(t[0..] + TextOf(rest), secrets);
      FitsCopied(t[0], CopyAll(t[1..]) + rest, secrets);
    }
  }

  /** A character other than two given ones. */
  function OtherChar(a: char, b: char): (c: char)
    ensures c != a && c != b
  {
    if a != 'x' && b != 'x' then 'x' else if a != 'y' && b != 'y' then 'y' else 'z'
  }

  /** What is copied before and after a hidden decoy, so that the marker lands on the overlap. */
  function Before(x: string, d: int): string
    requires d < |x|
  {
    if d <= 0 then "" else x[..d]
  }

  function Behind(x: string, d: int): (r: string)
    requires -|REDACTED| < d
    ensures |r| < |x| || x == ""
  {
    if d + |REDACTED| >= |x| then "" else x[d + |REDACTED|..]
  }

  /** Longer than `x`, and of a character that ends neither `x` nor what is copied before it. */
  function Decoy(x: string, d: int): (r: string)
    requires x != "" && d < |x|
    ensures |r| == |x| + 1
  {
    Repeat(OtherChar(x[|x| - 1], if d <= 0 then x[0] else x[d - 1]), |x| + 1)
  }

  lemma DecoyStartsAlone(x: string, d: int, j: nat)
    requires x != "" && -|REDACTED| < d < |x| && j < |Before(x, d)|
    ensures var t := Before(x, d)[j..] + (Decoy(x, d) + Behind(x, d)); !(x <= t) && !(Decoy(x, d) <= t)
  {
    var before, decoy := Before(x, d)[j..], Decoy(x, d);
    var t := before + (decoy + Behind(x, d));
    assert t[|before| - 1] == x[d - 1] && decoy[|before| - 1] != x[d - 1];
    assert |before| <= |x| - 1 < |before| + |decoy| && t[|x| - 1] == decoy[|x| - 1 - |before|];
  }

  /** Where the marker and what is copied around it meet `x`. */
  lemma DecoyChar(x: string, d: int, p: nat)
    requires -|REDACTED| < d < |x| && AgreesAt(x, d) && p < |x|
    ensures var t, i := Before(x, d) + (REDACTED + Behind(x, d)), if d < 0 then -d else 0;
      i + p < |t| && t[i + p] == x[p]
  {
    var before, behind := Before(x, d), Behind(x, d);
    var t, i := before + (REDACTED + behind), if d < 0 then -d else 0;
    if p < d {
      assert t[p] == before[p];
    } else if p - d < |REDACTED| {
      assert t[i + p] == REDACTED[p - d];
    } else {
      assert t[i + p] == behind[p - d - |REDACTED|];
    }
  }

  lemma RenderedDecoy(x: string, d: int)
    requires x != "" && -|REDACTED| < d < |x| && AgreesAt(x, d)
    ensures Contains(Before(x, d) + (REDACTED + Behind(x, d)), x)
  {
    hide Before, Behind, AgreesAt;
    var t := Before(x, d) + (REDACTED + Behind(x, d));
    var i := if d < 0 then -d else 0;
    forall p | 0 <= p < |x| ensures i + p < |t| && t[i + p] == x[p] {
      DecoyChar(x, d, p);
    }
    DecoyChar(x, d, |x| - 1);
    assert t[i..i + |x|] == x;
    assert OccursAt(t, i, x);
  }

  ghost predicate XAndDecoy(secrets: seq<string>, x: string, d: int)
    requires x != "" && d < |x|
  {
    forall s :: s in secrets <==> s == x || s == Decoy(x, d)
  }

  /** Nothing is long enough to start in what is copied behind the decoy. */
  lemma BehindIsCopied(x: string, d: int, secrets: seq<string>)
    requires x != "" && -|REDACTED| < d < |x| && XAndDecoy(secrets, x, d)
    ensures Fits(CopyAll(Behind(x, d)) + [], secrets)
    ensures TextOf(CopyAll(Behind(x, d)) + []) == Behind(x, d) && Render(CopyAll(Behind(x, d)) + []) == Behind(x, d)
  {
    var behind := Behind(x, d);
    assert TextOf([]) == "" && Render([]) == "" && behind + "" == behind;
    forall j | 0 <= j < |behind| ensures NoneStarts(behind[j..] + TextOf([]), secrets) {
      assert |behind[j..] + TextOf([])| < |x|;
    }
    CopyAllBefore(behind, []);
    CopyAllFits(behind, [], secrets);
  }

  lemma BeforeIsCopied(x: string, d: int, secrets: seq<string>, rest: seq<Piece>)
    requires x != "" && -|REDACTED| < d < |x| && XAndDecoy(secrets, x, d)
    requires Fits(rest, secrets) && TextOf(rest) == Decoy(x, d) + Behind(x, d)
    ensures Fits(CopyAll(Before(x, d)) + rest, secrets)
    ensures Render(CopyAll(Before(x, d)) + rest) == Before(x, d) + Render(rest)
    ensures TextOf(CopyAll(Before(x, d)) + rest) == Before(x, d) + TextOf(rest)
  {
    hide Fits, Decoy, Behind, Before;
    forall j | 0 <= j < |Before(x, d)| ensures NoneStarts(Before(x, d)[j..] + TextOf(rest), secrets) {
      DecoyStartsAlone(x, d, j);
    }
    CopyAllFits(Before(x, d), rest, secrets);
    CopyAllBefore(Before(x, d), rest);
  }

  /** The pieces in which the decoy is hidden and everything else copied. */
  lemma DecoyPieces(x: string, d: int, secrets: seq<string>) returns (pieces: seq<Piece>)
    requires x != "" && -|REDACTED| < d < |x| && XAndDecoy(secrets, x, d)
    ensures Fits(pieces, secrets) && Render(pieces) == Before(x, d) + (REDACTED + Behind(x, d))
    ensures TextOf(pieces) == Before(x, d) + (Decoy(x, d) + Behind(x, d))
  {
    hide Fits, TextOf, Render, Behind, Before;
    var decoy, tail := Decoy(x, d), CopyAll(Behind(x, d)) + [];
    BehindIsCopied(x, d, secrets);
    assert LongestStart(decoy, decoy + TextOf(tail), secrets);
    FitsHidden(decoy, tail, secrets);
    BeforeIsCopied(x, d, secrets, [Hidden(decoy)] + tail);
    pieces := CopyAll(Before(x, d)) + ([Hidden(decoy)] + tail);
  }

  /** A secret the marker can overlap does survive: hide a decoy so that the marker falls on it. */
  lemma OverlapSurvives(x: string, d: int)
    requires x != "" && -|REDACTED| < d < |x| && AgreesAt(x, d)
    ensures CanSurvive(x)
  {
    hide StrictlyRanked, Fits;
    var secrets := RankedPair(x, Decoy(x, d));
    var pieces := DecoyPieces(x, d, secrets);
    SegmentsUnique(pieces, secrets);
    RenderedDecoy(x, d);
    assert SurvivesIn(x, secrets, TextOf(pieces));
  }

  /** A secret can survive redaction, in some text beside some other secrets, if and only if the marker can overlap it. */
  lemma SurvivesIff(x: string)
    requires x != ""
    ensures CanSurvive(x) <==> MarkerOverlaps(x)
  {
    if CanSurvive(x) && !MarkerOverlaps(x) {
      var secrets, text :| SurvivesIn(x, secrets, text);
      SegmentsFit(text, secrets);
      NoneSurvives(Segments(text, secrets), secrets, x);
    }
    if MarkerOverlaps(x) {
      var d :| -|REDACTED| < d < |x| && AgreesAt(x, d);
      OverlapSurvives(x, d);
    }
  }

  /** For one, `]a` beside itself: the text `]aa` becomes `[REDACTED]a`. */
  lemma BracketSecretSurvives()
    ensures SurvivesIn("]a", ["]a"], "]aa")
  {
    var pieces := [Hidden("]a"), Copied('a')];
    assert pieces[1..] == [Copied('a')] && [Copied('a')][1..] == [];
    assert TextOf([Copied('a')]) == "a" && TextOf(pieces) == "]aa";
    assert Render([Copied('a')]) == "a" && Render(pieces) == "[REDACTED]a";
    SegmentsUnique(pieces, ["]a"]);
    assert "[REDACTED]a"[9..11] == "]a" && OccursAt("[REDACTED]a", 9, "]a");
  }

  /** Without brackets, and not a part of the marker itself, a secret is safe. */
  lemma PlainSecretIsSafe(x: string)
    requires '[' !in x && ']' !in x && !Contains(REDACTED, x)
    ensures !MarkerOverlaps(x)
  {
    if d :| -|REDACTED| < d < |x| && AgreesAt(x, d) {
      if d >= 0 {
        assert x[d] == REDACTED[0];
      } else if d + |REDACTED| <= |x| {
        assert x[d + |REDACTED| - 1] == REDACTED[|REDACTED| - 1];
      } else {
        assert REDACTED[-d..-d + |x|] == x;
        assert OccursAt(REDACTED, -d, x);
      }
    }
  }

  // ------------------------------------------------------------------ the whole path

  function Shown(value: string, secrets: seq<string>, isSecretKey: string -> bool): string
    requires "" !in secrets
  {
    var urls := UrlScan.RewrittenText(value, UrlRedaction.UrlRedactor(isSecretKey));
    var trimmed := Trim(Render(Segments(urls, secrets)));
    if |trimmed| <= MAX_DIAGNOSTIC_CHARS then trimmed else trimmed[..MAX_DIAGNOSTIC_CHARS]
  }

  lemma SliceOfSlice(s: string, j: nat, n: nat, i: nat, m: nat)
    requires j + n <= |s| && i + m <= n
    ensures s[j..j + n][i..i + m] == s[j + i..j + i + m]
  {
    var inner, outer := s[j..j + n][i..i + m], s[j + i..j + i + m];
    assert forall k :: 0 <= k < m ==> inner[k] == outer[k];
  }

  lemma StretchOfStretch(a: string, b: string, c: string)
    requires Contains(b, a) && Contains(c, b)
    ensures Contains(c, a)
  {
    var i :| 0 <= i <= |b| && OccursAt(b, i, a);
    var j :| 0 <= j <= |c| && OccursAt(c, j, b);
    SliceOfSlice(c, j, |b|, i, |a|);
    assert OccursAt(c, j + i, a);
  }

  lemma SliceIsStretch(s: string, i: nat, j: nat)
    requires i <= j <= |s|
    ensures Contains(s, s[i..j])
  {
    assert OccursAt(s, i, s[i..j]);
  }

  lemma {:induction false} TrimStartIsStretch(s: string)
    ensures Contains(s, TrimStart(s))
  {
    assert s[0..|s|] == s;
    SliceIsStretch(s, 0, |s|);
    if s != "" && IsWhitespace(s[0]) {
      assert s[1..|s|] == s[1..];
      TrimStartIsStretch(s[1..]);
      SliceIsStretch(s, 1, |s|);
      StretchOfStretch(TrimStart(s[1..]), s[1..], s);
    }
  }

  lemma {:induction false} TrimEndIsStretch(s: string)
    ensures Contains(s, TrimEnd(s))
  {
    assert s[0..|s|] == s;
    SliceIsStretch(s, 0, |s|);
    if s != "" && IsWhitespace(s[|s| - 1]) {
      assert s[0..|s| - 1] == s[..|s| - 1];
      TrimEndIsStretch(s[..|s| - 1]);
      SliceIsStretch(s, 0, |s| - 1);
      StretchOfStretch(TrimEnd(s[..|s| - 1]), s[..|s| - 1], s);
    }
  }

  /** Trimming and cutting only take away. */
  lemma ShownIsStretch(value: string, secrets: seq<string>, isSecretKey: string -> bool)
    requires "" !in secrets
    ensures var urls := UrlScan.RewrittenText(value, UrlRedaction.UrlRedactor(isSecretKey));
      Contains(Render(Segments(urls, secrets)), Shown(value, secrets, isSecretKey))
  {
    var rendered := Render(Segments(UrlScan.RewrittenText(value, UrlRedaction.UrlRedactor(isSecretKey)), secrets));
    var start, trimmed := TrimStart(rendered), Trim(rendered);
    TrimStartIsStretch(rendered);
    TrimEndIsStretch(start);
    StretchOfStretch(trimmed, start, rendered);
    if |trimmed| > MAX_DIAGNOSTIC_CHARS {
      SliceIsStretch(trimmed, 0, MAX_DIAGNOSTIC_CHARS);
      assert trimmed[0..MAX_DIAGNOSTIC_CHARS] == trimmed[..MAX_DIAGNOSTIC_CHARS];
      StretchOfStretch(trimmed[..MAX_DIAGNOSTIC_CHARS], trimmed, rendered);
    }
  }

  /** What is shown is what is rendered, trimmed, or the first thousand characters of that. */
  lemma ShownIs(value: string, secrets: seq<string>, isSecretKey: string -> bool)
    requires "" !in secrets
    ensures var t := Trim(Render(Segments(UrlScan.RewrittenText(value, UrlRedaction.UrlRedactor(isSecretKey)), secrets)));
      && Shown(value, secrets, isSecretKey) <= t
      && |Shown(value, secrets, isSecretKey)| == if |t| <= 1000 then |t| else 1000
  {
  }

  /** No configured secret that the marker cannot overlap is shown. */
  lemma ShownLacksSecrets(value: string, secrets: seq<string>, isSecretKey: string -> bool, x: string)
    requires StrictlyRanked(secrets) && "" !in secrets && x in secrets && !MarkerOverlaps(x)
    ensures !Contains(Shown(value, secrets, isSecretKey), x)
  {
    var urls := UrlScan.RewrittenText(value, UrlRedaction.UrlRedactor(isSecretKey));
    var rendered := Render(Segments(urls, secrets));
    SegmentsFit(urls, secrets);
    NoneSurvives(Segments(urls, secrets), secrets, x);
    ShownIsStretch(value, secrets, isSecretKey);
    if Contains(Shown(value, secrets, isSecretKey), x) {
      StretchOfStretch(x, Shown(value, secrets, isSecretKey), rendered);
    }
  }

  /** URLs first, then configured secrets, then trimming and the cap; no secret clear of the marker is shown. */
  method Redact(value: string, secrets: seq<string>, isSecretKey: string -> bool) returns (output: string)
    requires StrictlyRanked(secrets) && "" !in secrets
    ensures output == Shown(value, secrets, isSecretKey) && |output| <= 1000
    ensures forall x :: x in secrets && !MarkerOverlaps(x) ==> !Contains(output, x)
  {
    var urls := UrlScan.RedactEmbeddedUrls(value, isSecretKey);
    var configured := RedactConfiguredSecrets(urls, secrets);
    output := Trim(configured);
    if |output| > MAX_DIAGNOSTIC_CHARS {
      output := output[..MAX_DIAGNOSTIC_CHARS];
    }
    forall x | x in secrets && !MarkerOverlaps(x) ensures !Contains(output, x) {
      ShownLacksSecrets(value, secrets, isSecretKey, x);
    }
  }

  // --------------------------------------- what can survive the whole path

  /** For this configuration and this text, the secret is in what is shown. */
  ghost predicate ShownIn(x: string, config: FileConfig, value: string, secrets: seq<string>, isSecretKey: string -> bool) {
    && (forall s :: s in secrets <==> IsSecret(config, s)) && StrictlyRanked(secrets) && "" !in secrets
    && x in secrets && Contains(Shown(value, secrets, isSecretKey), x)
  }

  ghost predicate CanBeShown(x: string, isSecretKey: string -> bool) {
    exists config, value, secrets :: ShownIn(x, config, value, secrets, isSecretKey)
  }

  /** Two keys, and nothing else secret. */
  function TwoSecrets(x: string, y: string): FileConfig {
    DefaultConfig().(tmdbApiKey := x, mteamApiKey := y)
  }

  lemma TrimmedFieldSecret(value: string, s: string)
    requires Trimmed(value)
    ensures FieldSecret(value, s) <==> s != "" && s == value
  {
    TrimShape(value);
  }

  lemma TwoSecretsAreSecret(x: string, y: string, s: string)
    requires x != "" && y != "" && Trimmed(x) && Trimmed(y)
    ensures IsSecret(TwoSecrets(x, y), s) <==> s == x || s == y
  {
    TrimmedFieldSecret(x, s);
    TrimmedFieldSecret(y, s);
    TrimmedFieldSecret("", s);
    assert Split("", ';') == [""] && CookieValue("") == None;
  }

  predicate NeitherColonNorSlash(t: string) {
    forall i :: 0 <= i < |t| ==> t[i] != ':' && t[i] != '/'
  }

  lemma DelimiterBeside(a: string, y: string, b: string, k: nat)
    requires |y| >= 2 && NeitherColonNorSlash(y) && UrlRedaction.DelimiterAt(a + (y + b), k)
    ensures UrlRedaction.DelimiterAt(a, k) || (k >= |a| + |y| && UrlRedaction.DelimiterAt(b, k - |a| - |y|))
  {
    var t := a + (y + b);
    assert forall p :: 0 <= p < |t| ==>
      t[p] == if p < |a| then a[p] else if p < |a| + |y| then y[p - |a|] else b[p - |a| - |y|];
  }

  /** The text with the decoy has a `://` only where the secret has. */
  lemma DecoyTextDelimiter(x: string, d: int, k: nat)
    requires x != "" && -|REDACTED| < d < |x|
    requires UrlRedaction.DelimiterAt(Before(x, d) + (Decoy(x, d) + Behind(x, d)), k)
    ensures exists i :: 0 <= i <= |x| && UrlRedaction.DelimiterAt(x, i)
  {
    var before, decoy, behind := Before(x, d), Decoy(x, d), Behind(x, d);
    assert NeitherColonNorSlash(decoy);
    DelimiterBeside(before, decoy, behind, k);
    if UrlRedaction.DelimiterAt(before, k) {
      assert UrlRedaction.DelimiterAt(x, k);
    } else {
      assert UrlRedaction.DelimiterAt(x, d + |REDACTED| + (k - |before| - |decoy|));
    }
  }

  lemma NoDelimiterContains(x: string, i: nat)
    requires UrlRedaction.DelimiterAt(x, i)
    ensures Contains(x, "://")
  {
    assert x[i..i + 3] == "://";
    assert OccursAt(x, i, "://");
  }

  /** So the URL pass leaves it alone. */
  lemma DecoyTextStays(x: string, d: int, rewrite: string -> string)
    requires x != "" && -|REDACTED| < d < |x| && !Contains(x, "://")
    ensures var t := Before(x, d) + (Decoy(x, d) + Behind(x, d)); UrlScan.RewrittenText(t, rewrite) == t
  {
    var t := Before(x, d) + (Decoy(x, d) + Behind(x, d));
    if UrlRedaction.FindDelimiter(t).Some? {
      var k := UrlRedaction.FindDelimiter(t).value;
      DecoyTextDelimiter(x, d, k);
      var i :| 0 <= i <= |x| && UrlRedaction.DelimiterAt(x, i);
      NoDelimiterContains(x, i);
    }
  }

  /** And trimming and the cap leave what is rendered alone. */
  lemma DecoyRenderingStays(x: string, d: int)
    requires x != "" && Trimmed(x) && -|REDACTED| < d < |x| && |x| + |REDACTED| <= MAX_DIAGNOSTIC_CHARS
    ensures var r := Before(x, d) + (REDACTED + Behind(x, d)); Trim(r) == r && |r| <= MAX_DIAGNOSTIC_CHARS
  {
    var before, behind := Before(x, d), Behind(x, d);
    var r := before + (REDACTED + behind);
    assert r[0] == if before == "" then REDACTED[0] else x[0];
    assert r[|r| - 1] == if behind == "" then REDACTED[|REDACTED| - 1] else x[|x| - 1];
    assert |before| + |behind| <= |x|;
    TrimShape(r);
  }

  /** The decoy's text is shown with the secret in it. */
  lemma DecoyIsShown(x: string, d: int, secrets: seq<string>, isSecretKey: string -> bool) returns (value: string)
    requires x != "" && Trimmed(x) && !Contains(x, "://") && |x| + |REDACTED| <= MAX_DIAGNOSTIC_CHARS
    requires -|REDACTED| < d < |x| && AgreesAt(x, d)
    requires XAndDecoy(secrets, x, d) && StrictlyRanked(secrets) && "" !in secrets
    ensures Contains(Shown(value, secrets, isSecretKey), x)
  {
    hide Before, Behind, Decoy, Fits, StrictlyRanked, AgreesAt, UrlScan.RewrittenText, Segments, Render, TextOf, XAndDecoy, Trim, Contains;
    var pieces := DecoyPieces(x, d, secrets);
    value := TextOf(pieces);
    SegmentsUnique(pieces, secrets);
    RenderedDecoy(x, d);
    DecoyTextStays(x, d, UrlRedaction.UrlRedactor(isSecretKey));
    DecoyRenderingStays(x, d);
  }

  lemma RankedPair(x: string, y: string) returns (secrets: seq<string>)
    requires x != "" && y != ""
    ensures StrictlyRanked(secrets) && "" !in secrets && forall s :: s in secrets <==> s == x || s == y
  {
    var given := [x, y];
    SortRanks(given);
    DedupRanks(SortSecrets(given));
    secrets := Dedup(SortSecrets(given));
  }

  lemma OverlapIsShown(x: string, d: int, isSecretKey: string -> bool)
    requires x != "" && Trimmed(x) && !Contains(x, "://") && |x| + |REDACTED| <= MAX_DIAGNOSTIC_CHARS
    requires -|REDACTED| < d < |x| && AgreesAt(x, d)
    ensures CanBeShown(x, isSecretKey)
  {
    hide Decoy, StrictlyRanked, AgreesAt, IsSecret, Shown, Contains;
    var decoy := Decoy(x, d);
    DecoyIsTrimmed(x, d);
    var secrets := RankedPair(x, decoy);
    forall s ensures s in secrets <==> IsSecret(TwoSecrets(x, decoy), s) {
      TwoSecretsAreSecret(x, decoy, s);
    }
    var value := DecoyIsShown(x, d, secrets, isSecretKey);
    assert ShownIn(x, TwoSecrets(x, decoy), value, secrets, isSecretKey);
  }

  lemma DecoyIsTrimmed(x: string, d: int)
    requires x != "" && d < |x|
    ensures Trimmed(Decoy(x, d)) && Decoy(x, d) != ""
  {
  }

  /**
   A configured secret can be shown, for some configuration and some text, only if the marker can
   overlap it; and if it can, and the secret is trimmed, fits under the cap with the marker and holds
   no `://`, then it is shown for some.
   */
  lemma ShownIff(x: string, isSecretKey: string -> bool)
    requires x != ""
    ensures CanBeShown(x, isSecretKey) ==> MarkerOverlaps(x)
    ensures Trimmed(x) && !Contains(x, "://") && |x| <= 990 ==>
      (CanBeShown(x, isSecretKey) <==> MarkerOverlaps(x))
  {
    if CanBeShown(x, isSecretKey) {
      var config, value, secrets :| ShownIn(x, config, value, secrets, isSecretKey);
      if !MarkerOverlaps(x) {
        ShownLacksSecrets(value, secrets, isSecretKey, x);
      }
    } else if MarkerOverlaps(x) && Trimmed(x) && !Contains(x, "://") && |x| + |REDACTED| <= MAX_DIAGNOSTIC_CHARS {
      var d :| -|REDACTED| < d < |x| && AgreesAt(x, d);
      OverlapIsShown(x, d, isSecretKey);
    }
  }
}
