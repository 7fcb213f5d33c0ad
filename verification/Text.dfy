/** The string operations of the standard library that the modelled code relies on. */
module Text {

  /** The Unicode White_Space property. */
  predicate IsWhitespace(c: char) {
    var n := c as int;
    || 0x09 <= n <= 0x0D || n == 0x20 || n == 0x85 || n == 0xA0 || n == 0x1680
    || 0x2000 <= n <= 0x200A || n == 0x2028 || n == 0x2029 || n == 0x202F || n == 0x205F || n == 0x3000
  }

  /** The same characters, one by one. */
  const WHITE_SPACE := "\t\n\U{0B}\U{0C}\r \U{85}\U{A0}\U{1680}\U{2000}\U{2001}\U{2002}\U{2003}\U{2004}\U{2005}\U{2006}" +
    "\U{2007}\U{2008}\U{2009}\U{200A}\U{2028}\U{2029}\U{202F}\U{205F}\U{3000}"

  lemma WhitespaceListed(c: char)
    ensures IsWhitespace(c) <==> c in WHITE_SPACE
  {
  }

  function TrimStart(s: string): string {
    if s != "" && IsWhitespace(s[0]) then TrimStart(s[1..]) else s
  }

  function TrimEnd(s: string): string {
    if s != "" && IsWhitespace(s[|s| - 1]) then TrimEnd(s[..|s| - 1]) else s
  }

  function Trim(s: string): string {
    TrimEnd(TrimStart(s))
  }

  predicate Trimmed(s: string) {
    s != "" ==> !IsWhitespace(s[0]) && !IsWhitespace(s[|s| - 1])
  }

  lemma {:induction false} TrimStartShape(s: string)
    ensures TrimStart(s) != "" ==> !IsWhitespace(TrimStart(s)[0])
    ensures forall c :: c in TrimStart(s) ==> c in s
  {
    if s != "" && IsWhitespace(s[0]) {
      TrimStartShape(s[1..]);
    }
  }

  lemma {:induction false} TrimEndShape(s: string)
    requires s != "" ==> !IsWhitespace(s[0])
    ensures Trimmed(TrimEnd(s))
    ensures forall c :: c in TrimEnd(s) ==> c in s
  {
    if s != "" && IsWhitespace(s[|s| - 1]) {
      TrimEndShape(s[..|s| - 1]);
    }
  }

  /** Trimming yields a trimmed string of the original's characters, and leaves a trimmed string alone. */
  lemma TrimShape(s: string)
    ensures Trimmed(Trim(s)) && Trim(Trim(s)) == Trim(s)
    ensures forall c :: c in Trim(s) ==> c in s
    ensures Trimmed(s) ==> Trim(s) == s
  {
    TrimStartShape(s);
    TrimEndShape(TrimStart(s));
  }

  predicate IsAsciiUpper(c: char) { 'A' <= c <= 'Z' }

  predicate IsAsciiAlphabetic(c: char) { 'A' <= c <= 'Z' || 'a' <= c <= 'z' }

  predicate IsAsciiAlphanumeric(c: char) { IsAsciiAlphabetic(c) || '0' <= c <= '9' }

  predicate IsHexDigit(c: char) { '0' <= c <= '9' || 'a' <= c <= 'f' || 'A' <= c <= 'F' }

  function HexDigit(n: nat): char
    requires n < 16
  {
    if n < 10 then ('0' as int + n) as char else ('a' as int + n - 10) as char
  }

  function LowerChar(c: char): char {
    if IsAsciiUpper(c) then (c as int + 32) as char else c
  }

  function Lower(s: string): (r: string)
    ensures |r| == |s| && forall k :: 0 <= k < |s| ==> r[k] == LowerChar(s[k])
  {
    seq(|s|, k requires 0 <= k < |s| => LowerChar(s[k]))
  }

  /** The capitals become the small letters in their place in the alphabet, and nothing else changes. */
  lemma LowerLetters(c: char, k: nat)
    requires k < 26
    ensures c == "ABCDEFGHIJKLMNOPQRSTUVWXYZ"[k] ==> LowerChar(c) == "abcdefghijklmnopqrstuvwxyz"[k]
    ensures !('A' <= c <= 'Z') ==> LowerChar(c) == c
  {
    AlphabetsAre(k);
  }

  lemma AlphabetsAre(k: nat)
    requires k < 26
    ensures "ABCDEFGHIJKLMNOPQRSTUVWXYZ"[k] == (65 + k) as char && "abcdefghijklmnopqrstuvwxyz"[k] == (97 + k) as char
  {
  }

  lemma HexDigitListed(n: nat)
    requires n < 16
    ensures HexDigit(n) == "0123456789abcdef"[n]
  {
  }

  /** The pieces between the separators; always at least one. */
  function Split(s: string, separator: char): (r: seq<string>)
    ensures |r| >= 1
  {
    if s == "" then [""]
    else
      var rest := Split(s[1..], separator);
      if s[0] == separator then [""] + rest
      else [[s[0]] + rest[0]] + rest[1..]
  }

  lemma {:induction false} SplitAt(piece: string, separator: char, rest: string)
    requires separator !in piece
    ensures Split(piece, separator) == [piece]
    ensures Split(piece + [separator] + rest, separator) == [piece] + Split(rest, separator)
  {
    if piece == "" {
      assert "" + [separator] + rest == [separator] + rest;
      assert ([separator] + rest)[1..] == rest;
    } else {
      SplitAt(piece[1..], separator, rest);
      var whole := piece + [separator] + rest;
      assert whole[1..] == piece[1..] + [separator] + rest;
      assert [piece[0]] + piece[1..] == piece;
    }
  }

  /** Character by character, as Rust compares strings. */
  predicate LexGreater(a: string, b: string) {
    if a == "" then false
    else if b == "" then true
    else if a[0] != b[0] then a[0] > b[0]
    else LexGreater(a[1..], b[1..])
  }

  lemma {:induction false} LexAsymmetric(a: string, b: string)
    ensures !(LexGreater(a, b) && LexGreater(b, a))
    ensures a != b ==> LexGreater(a, b) || LexGreater(b, a)
  {
    if a != "" && b != "" && a[0] == b[0] {
      LexAsymmetric(a[1..], b[1..]);
      assert a == [a[0]] + a[1..] && b == [b[0]] + b[1..];
    }
  }

  lemma {:induction false} LexTransitive(a: string, b: string, c: string)
    requires LexGreater(a, b) && LexGreater(b, c)
    ensures LexGreater(a, c)
  {
    if b != "" && c != "" && a[0] == b[0] == c[0] {
      LexTransitive(a[1..], b[1..], c[1..]);
    }
  }

  /** Up to some position the texts agree, and there `a` ends or has the smaller character. */
  predicate ComesFirst(a: string, b: string) {
    exists k :: 0 <= k < |b| && DiffersAt(a, b, k)
  }

  predicate DiffersAt(a: string, b: string, k: nat)
    requires k < |b|
  {
    k <= |a| && a[..k] == b[..k] && (k < |a| ==> a[k] < b[k])
  }

  /** The comparison goes by the first difference. */
  lemma {:induction false} FirstDifference(a: string, b: string)
    ensures LexGreater(b, a) <==> ComesFirst(a, b)
  {
    if a == "" {
      assert b != "" ==> DiffersAt(a, b, 0);
    } else if b != "" {
      if a[0] != b[0] {
        assert a[0] < b[0] ==> DiffersAt(a, b, 0);
      } else {
        FirstDifference(a[1..], b[1..]);
        if k :| 0 <= k < |b[1..]| && DiffersAt(a[1..], b[1..], k) {
          DifferenceShifts(a, b, k);
        }
        if k :| 0 <= k < |b| && DiffersAt(a, b, k) {
          assert k > 0;
          DifferenceShifts(a, b, k - 1);
        }
      }
    }
  }

  lemma DifferenceShifts(a: string, b: string, k: nat)
    requires a != "" && b != "" && a[0] == b[0] && k < |b| - 1
    ensures DiffersAt(a[1..], b[1..], k) <==> DiffersAt(a, b, k + 1)
  {
    if k < |a| {
      assert a[..k + 1] == [a[0]] + a[1..][..k] && b[..k + 1] == [b[0]] + b[1..][..k];
      assert a[..k + 1][1..] == a[1..][..k] && b[..k + 1][1..] == b[1..][..k];
    }
  }

  lemma ComesFirstTransitive(a: string, b: string, c: string)
    requires ComesFirst(a, b) && ComesFirst(b, c)
    ensures ComesFirst(a, c)
  {
    FirstDifference(a, b);
    FirstDifference(b, c);
    LexTransitive(c, b, a);
    FirstDifference(a, c);
  }

  lemma {:induction false} TrimStartBlank(s: string)
    ensures TrimStart(s) == "" <==> forall c :: c in s ==> IsWhitespace(c)
  {
    if s != "" && IsWhitespace(s[0]) {
      TrimStartBlank(s[1..]);
      assert s == [s[0]] + s[1..];
    }
  }

  lemma {:induction false} TrimEndBlank(s: string)
    ensures TrimEnd(s) == "" <==> forall c :: c in s ==> IsWhitespace(c)
  {
    if s != "" && IsWhitespace(s[|s| - 1]) {
      TrimEndBlank(s[..|s| - 1]);
      assert s == s[..|s| - 1] + [s[|s| - 1]];
    }
  }

  /** Some character of it is not white space. */
  predicate NotBlank(s: string) {
    exists k :: 0 <= k < |s| && !IsWhitespace(s[k])
  }

  lemma NotBlankIff(s: string)
    ensures NotBlank(s) <==> Trim(s) != ""
  {
    TrimStartBlank(s);
    TrimEndBlank(TrimStart(s));
    TrimStartShape(s);
    if TrimStart(s) != "" {
      assert TrimStart(s)[0] in TrimStart(s);
      var k :| 0 <= k < |s| && s[k] == TrimStart(s)[0];
    }
  }

  /** Trimming cuts white space off both ends, and only that. */
  lemma TrimCuts(s: string) returns (before: string, behind: string)
    ensures s == before + Trim(s) + behind && Trimmed(Trim(s))
    ensures forall k :: 0 <= k < |before| ==> IsWhitespace(before[k])
    ensures forall k :: 0 <= k < |behind| ==> IsWhitespace(behind[k])
  {
    TrimShape(s);
    before := TrimStartCuts(s);
    behind := TrimEndCuts(TrimStart(s));
  }

  lemma {:induction false} TrimStartCuts(s: string) returns (before: string)
    ensures s == before + TrimStart(s) && forall k :: 0 <= k < |before| ==> IsWhitespace(before[k])
  {
    if s != "" && IsWhitespace(s[0]) {
      before := TrimStartCuts(s[1..]);
      before := [s[0]] + before;
    } else {
      before := "";
    }
  }

  lemma {:induction false} TrimEndCuts(s: string) returns (behind: string)
    ensures s == TrimEnd(s) + behind && forall k :: 0 <= k < |behind| ==> IsWhitespace(behind[k])
  {
    if s != "" && IsWhitespace(s[|s| - 1]) {
      behind := TrimEndCuts(s[..|s| - 1]);
      behind := behind + [s[|s| - 1]];
    } else {
      behind := "";
    }
  }

  predicate OccursAt(s: string, i: nat, word: string) {
    i + |word| <= |s| && s[i..i + |word|] == word
  }

  predicate Contains(s: string, word: string) {
    exists i :: 0 <= i <= |s| && OccursAt(s, i, word)
  }
}
