/**
 Which keys of a URL's query name a secret. The key is percent-decoded, trimmed and put in lower
 case, and `-` and `.` count as `_`, so a secret key is recognised however it is spelled.
 */
module QueryKeys {
  import opened Wrappers
  import opened Text
  import opened UrlRedaction

  // -------------------------------------------------------------------- decoding

  function HexNibble(c: char): Option<nat> {
    if '0' <= c <= '9' then Some(c as int - 48)
    else if 'a' <= c <= 'f' then Some(c as int - 97 + 10)
    else if 'A' <= c <= 'F' then Some(c as int - 65 + 10)
    else None
  }

  /** The byte that `%` and two digits at `i` stand for. */
  function EscapeAt(t: string, i: nat): (r: Option<nat>)
    ensures r.Some? ==> r.value < 256 && i + 2 < |t|
  {
    if i + 2 < |t| && t[i] == '%' && HexNibble(t[i + 1]).Some? && HexNibble(t[i + 2]).Some? then
      Some(16 * HexNibble(t[i + 1]).value + HexNibble(t[i + 2]).value)
    else None
  }

  function DecodeFrom(t: string, i: nat): string
    decreases |t| - i
  {
    if i >= |t| then ""
    else if EscapeAt(t, i).Some? then [EscapeAt(t, i).value as char] + DecodeFrom(t, i + 3)
    else [t[i]] + DecodeFrom(t, i + 1)
  }

  method PercentDecode(value: string) returns (output: string)
    ensures output == DecodeFrom(value, 0)
  {
    output := "";
    var offset := 0;
    while offset < |value|
      invariant output + DecodeFrom(value, offset) == DecodeFrom(value, 0)
    {
      var escaped := EscapeAt(value, offset);
      if escaped.Some? {
        StepJoins(output, escaped.value as char, DecodeFrom(value, offset + 3));
        output := output + [escaped.value as char];
        offset := offset + 3;
      } else {
        StepJoins(output, value[offset], DecodeFrom(value, offset + 1));
        output := output + [value[offset]];
        offset := offset + 1;
      }
    }
    assert output + "" == output;
  }

  lemma StepJoins(output: string, c: char, rest: string)
    ensures output + ([c] + rest) == output + [c] + rest
  {
  }

  // -------------------------------------------------------------------- the test

  function CanonChar(c: char): char {
    if c == '-' || c == '.' then '_' else LowerChar(c)
  }

  /** Lower case, with `-` and `.` as `_`. */
  function Canon(t: string): (r: string)
    ensures |r| == |t| && forall k :: 0 <= k < |t| ==> r[k] == CanonChar(t[k])
  {
    seq(|t|, k requires 0 <= k < |t| => CanonChar(t[k]))
  }

  function Compact(t: string): string {
    if t == "" then "" else (if t[0] == '_' then "" else [t[0]]) + Compact(t[1..])
  }

  predicate EndsWith(t: string, suffix: string) {
    |suffix| <= |t| && t[|t| - |suffix|..] == suffix
  }

  predicate NamedSecret(t: string) {
    || t == "key" || t == "apikey" || t == "api_key" || t == "passkey" || t == "password" || t == "passwd" || t == "pwd"
    || t == "secret" || t == "client_secret" || t == "token" || t == "access_token" || t == "refresh_token" || t == "id_token"
    || t == "auth" || t == "authorization" || t == "cookie" || t == "session" || t == "session_id" || t == "signature" || t == "sig"
    || EndsWith(t, "_key") || EndsWith(t, "_token") || EndsWith(t, "_secret") || EndsWith(t, "_password")
    || Contains(t, "credential") || Contains(t, "signature") || Contains(t, "authorization") || "x_amz_security_token" <= t
  }

  predicate CompactSecret(t: string) {
    || t == "apikey" || t == "passkey" || t == "password" || t == "clientsecret" || t == "token" || t == "accesstoken"
    || t == "refreshtoken" || t == "idtoken" || t == "authtoken" || t == "authorization" || t == "sessionid" || t == "signature"
    || EndsWith(t, "token") || EndsWith(t, "secret") || EndsWith(t, "password")
  }

  predicate IsSecretQueryKey(key: string) {
    var normalized := Canon(Trim(DecodeFrom(key, 0)));
    NamedSecret(normalized) || CompactSecret(Compact(normalized))
  }

  // ---------------------------------------------------------- spellings of one key

  /** A character as it is, or as `%` and two hexadecimal digits. */
  datatype Spelling = Plain(c: char) | Escaped(high: char, low: char)

  predicate SpelledOk(p: Spelling) {
    match p case Plain(c) => c != '%' case Escaped(high, low) => HexNibble(high).Some? && HexNibble(low).Some?
  }

  predicate AllSpelledOk(ps: seq<Spelling>) {
    forall k :: 0 <= k < |ps| ==> SpelledOk(ps[k])
  }

  function Meant(p: Spelling): char
    requires SpelledOk(p)
  {
    match p case Plain(c) => c case Escaped(high, low) => (16 * HexNibble(high).value + HexNibble(low).value) as char
  }

  function MeantAll(ps: seq<Spelling>): (r: string)
    requires AllSpelledOk(ps)
    ensures |r| == |ps| && forall k :: 0 <= k < |ps| ==> r[k] == Meant(ps[k])
  {
    seq(|ps|, k requires 0 <= k < |ps| => Meant(ps[k]))
  }

  function Spell(ps: seq<Spelling>): string {
    if ps == [] then "" else SpellOne(ps[0]) + Spell(ps[1..])
  }

  function SpellOne(p: Spelling): string {
    match p case Plain(c) => [c] case Escaped(high, low) => ['%', high, low]
  }

  /** Decoding gives back what is meant, whichever characters are escaped. */
  lemma {:induction false} DecodeOfSpell(before: string, ps: seq<Spelling>)
    requires AllSpelledOk(ps)
    ensures DecodeFrom(before + Spell(ps), |before|) == MeantAll(ps)
    decreases |ps|
  {
    if ps != [] {
      var p, rest := ps[0], ps[1..];
      var head := before + SpellOne(p);
      DecodeOfSpell(head, rest);
      MeantCons(ps);
      assert before + Spell(ps) == head + Spell(rest);
      hide Spell, MeantAll, DecodeFrom, SpellOne, Meant, AllSpelledOk;
      DecodeStep(before, p, Spell(rest));
    }
  }

  lemma MeantCons(ps: seq<Spelling>)
    requires ps != [] && AllSpelledOk(ps)
    ensures AllSpelledOk(ps[1..]) && SpelledOk(ps[0]) && MeantAll(ps) == [Meant(ps[0])] + MeantAll(ps[1..])
  {
    hide Meant;
  }

  lemma DecodeStep(before: string, p: Spelling, rest: string)
    requires SpelledOk(p)
    ensures var t := (before + SpellOne(p)) + rest; DecodeFrom(t, |before|) == [Meant(p)] + DecodeFrom(t, |before + SpellOne(p)|)
  {
    var head := SpellOne(p);
    var t := (before + head) + rest;
    assert t[|before|] == head[0];
    if p.Escaped? {
      assert t[|before| + 1] == p.high && t[|before| + 2] == p.low;
    }
  }

  /** The same letters but for case, with `-`, `.` and `_` for each other. */
  predicate SameKey(a: string, b: string) {
    |a| == |b| && forall k :: 0 <= k < |a| ==> SameChar(a[k], b[k])
  }

  predicate SameChar(a: char, b: char) {
    a == b || (a in "-._" && b in "-._") || Capital(a, b) || Capital(b, a)
  }

  /** A capital and its small letter. */
  predicate Capital(a: char, b: char) {
    'A' <= a <= 'Z' && b as int == a as int + ('a' as int - 'A' as int)
  }

  lemma SameCanon(a: string, b: string)
    requires SameKey(a, b)
    ensures Canon(a) == Canon(b)
  {
    forall k | 0 <= k < |a| ensures CanonChar(a[k]) == CanonChar(b[k]) {
      assert SameChar(a[k], b[k]);
    }
  }

  lemma CanonKeepsBlanks(c: char)
    ensures IsWhitespace(CanonChar(c)) <==> IsWhitespace(c)
  {
  }

  lemma {:induction false} CanonOfTrimStart(s: string)
    ensures Canon(TrimStart(s)) == TrimStart(Canon(s))
  {
    if s != "" {
      CanonKeepsBlanks(s[0]);
      if IsWhitespace(s[0]) {
        assert Canon(s)[1..] == Canon(s[1..]);
        CanonOfTrimStart(s[1..]);
      }
    }
  }

  lemma {:induction false} CanonOfTrimEnd(s: string)
    ensures Canon(TrimEnd(s)) == TrimEnd(Canon(s))
  {
    if s != "" {
      CanonKeepsBlanks(s[|s| - 1]);
      if IsWhitespace(s[|s| - 1]) {
        assert Canon(s)[..|s| - 1] == Canon(s[..|s| - 1]);
        CanonOfTrimEnd(s[..|s| - 1]);
      }
    }
  }

  /**
   No disguise changes what a key is taken for: two keys that mean the same but for case and for which
   separators they use are both secret or neither is, whichever of their characters are escaped.
   */
  lemma DisguiseIsSeen(ps: seq<Spelling>, qs: seq<Spelling>)
    requires AllSpelledOk(ps) && AllSpelledOk(qs) && SameKey(MeantAll(ps), MeantAll(qs))
    ensures IsSecretQueryKey(Spell(ps)) <==> IsSecretQueryKey(Spell(qs))
  {
    hide NamedSecret, CompactSecret, Compact, Spell, MeantAll, CanonChar, Trim;
    DecodeOfSpell("", ps);
    DecodeOfSpell("", qs);
    assert "" + Spell(ps) == Spell(ps) && "" + Spell(qs) == Spell(qs);
    SameCanon(MeantAll(ps), MeantAll(qs));
    CanonOfTrim(MeantAll(ps));
    CanonOfTrim(MeantAll(qs));
  }

  lemma CanonOfTrim(s: string)
    ensures Canon(Trim(s)) == Trim(Canon(s))
  {
    CanonOfTrimStart(s);
    CanonOfTrimEnd(TrimStart(s));
  }

  function PlainSpelling(key: string): (ps: seq<Spelling>)
    ensures |ps| == |key| && forall k :: 0 <= k < |key| ==> ps[k] == Plain(key[k])
  {
    seq(|key|, k requires 0 <= k < |key| => Plain(key[k]))
  }

  lemma {:induction false} SpellPlain(key: string)
    ensures Spell(PlainSpelling(key)) == key
  {
    if key != "" {
      assert PlainSpelling(key)[1..] == PlainSpelling(key[1..]);
      SpellPlain(key[1..]);
    }
  }

  predicate PlainName(key: string) {
    forall k :: 0 <= k < |key| ==> 'a' <= key[k] <= 'z' || key[k] == '_'
  }

  lemma PlainNameStays(key: string)
    requires PlainName(key)
    ensures Trim(key) == key && Canon(key) == key && '%' !in key
  {
    hide Trim;
    assert Trimmed(key);
    TrimShape(key);
  }

  lemma PlainMeans(name: string)
    requires '%' !in name
    ensures AllSpelledOk(PlainSpelling(name)) && MeantAll(PlainSpelling(name)) == name
  {
  }

  /** In small letters and underscores a key stands for itself. */
  lemma PlainKeyIsSecret(key: string)
    requires PlainName(key)
    ensures IsSecretQueryKey(key) <==> NamedSecret(key) || CompactSecret(Compact(key))
  {
    hide NamedSecret, CompactSecret, Compact, PlainName, Trim, Canon, Spell, DecodeFrom;
    PlainNameStays(key);
    SpellPlain(key);
    PlainMeans(key);
    DecodeOfSpell("", PlainSpelling(key));
    assert "" + key == key;
  }

  /** Some names of secrets, and what makes any name one. */
  predicate Names(name: string) {
    || name in ["key", "apikey", "api_key", "passkey", "passwd", "pwd", "auth", "cookie", "session", "session_id", "signature", "sig", "authorization"]
    || EndsWith(name, "_key") || Contains(name, "credential") || "x_amz_security_token" <= name
    || EndsWith(Compact(name), "token") || EndsWith(Compact(name), "secret") || EndsWith(Compact(name), "password")
  }

  lemma NamesAreSecret(name: string)
    requires Names(name)
    ensures NamedSecret(name) || CompactSecret(Compact(name))
  {
    hide EndsWith, Contains, Compact;
  }

  /** Such a key is secret however it is spelled. */
  lemma SecretHoweverSpelled(name: string, ps: seq<Spelling>)
    requires PlainName(name) && Names(name) && AllSpelledOk(ps) && SameKey(MeantAll(ps), name)
    ensures IsSecretQueryKey(Spell(ps))
  {
    hide NamedSecret, CompactSecret, Compact, Spell, MeantAll, IsSecretQueryKey, Names, PlainName, SameKey, AllSpelledOk;
    PlainKeyIsSecret(name);
    NamesAreSecret(name);
    PlainNameStays(name);
    PlainMeans(name);
    SpellPlain(name);
    DisguiseIsSeen(ps, PlainSpelling(name));
  }

  // --------------------------------------------------------- in a whole URL

  predicate KeyCharacters(ps: seq<Spelling>) {
    forall k :: 0 <= k < |ps| ==> ps[k].Plain? ==> ps[k].c !in "&;#="
  }

  lemma {:induction false} SpellIsFree(ps: seq<Spelling>)
    requires AllSpelledOk(ps) && KeyCharacters(ps)
    ensures Free(Spell(ps), "&;#=")
  {
    if ps != [] {
      SpellIsFree(ps[1..]);
      HeadIsFree(ps[0]);
      FreeConcat(SpellOne(ps[0]), Spell(ps[1..]), "&;#=");
    }
  }

  lemma HeadIsFree(p: Spelling)
    requires SpelledOk(p) && (p.Plain? ==> p.c !in "&;#=")
    ensures Free(SpellOne(p), "&;#=")
  {
  }

  /** The value of a key that means `token` is replaced in every URL, however the key is spelled. */
  lemma TokenIsHidden(
    scheme: string, front: string, left: string, ps: seq<Spelling>, value: string, right: string, fragment: string)
    requires Free(scheme, ":") && Free(front, "?") && Free(left, "#") && Free(right, "#")
    requires BeforeComponent(left) && AfterComponent(right) && (fragment != "" ==> fragment[0] == '#')
    requires AllSpelledOk(ps) && KeyCharacters(ps) && SameKey(MeantAll(ps), "token") && Free(value, "&;#")
    ensures RedactedUrl(scheme + ("://" + (front + ("?" + ((left + ((Spell(ps) + ("=" + value)) + right)) + fragment)))), IsSecretQueryKey)
         == RedactedUrl(scheme + ("://" + front), IsSecretQueryKey) + ("?" +
              ((RedactedQuery(left, IsSecretQueryKey) + ((Spell(ps) + ("=" + "[REDACTED]")) + RedactedQuery(right, IsSecretQueryKey))) + fragment))
  {
    hide RedactedUrl, RedactedQuery, IsSecretQueryKey, Spell, MeantAll, SameKey, AllSpelledOk;
    TokenIsCompact();
    SecretHoweverSpelled("token", ps);
    SpellIsFree(ps);
    SecretValueInUrl(scheme, front, left, Spell(ps), value, right, fragment, IsSecretQueryKey);
  }

  lemma TokenIsCompact()
    ensures EndsWith(Compact("token"), "token")
  {
    assert "token"[1..] == "oken" && "oken"[1..] == "ken" && "ken"[1..] == "en" && "en"[1..] == "n" && "n"[1..] == "";
  }
}
