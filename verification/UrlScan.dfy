/**
 The URLs embedded in a text. The scanner is proved for any rewriting of URLs, and then against a
 grammar of texts: plain stretches with URLs between them.
 */
module UrlScan {
  import opened Wrappers
  import opened Text
  import opened UrlRedaction

  predicate IsSchemeChar(c: char) { IsAsciiAlphanumeric(c) || c == '+' || c == '-' || c == '.' }

  predicate IsUrlSuffix(c: char) { c == ',' || c == '.' || c == ')' || c == ']' || c == '}' }

  /** Where the trailing run of scheme characters begins. */
  function RunStart(s: string): (n: nat)
    ensures n <= |s|
  {
    if s != "" && IsSchemeChar(s[|s| - 1]) then RunStart(s[..|s| - 1]) else |s|
  }

  lemma {:induction false} RunStartShape(s: string)
    ensures RunStart(s) > 0 ==> !IsSchemeChar(s[RunStart(s) - 1])
    ensures forall k :: RunStart(s) <= k < |s| ==> IsSchemeChar(s[k])
  {
    if s != "" && IsSchemeChar(s[|s| - 1]) {
      RunStartShape(s[..|s| - 1]);
    }
  }

  lemma {:induction false} RunStartIs(a: string, b: string)
    requires a != "" ==> !IsSchemeChar(a[|a| - 1])
    requires forall k :: 0 <= k < |b| ==> IsSchemeChar(b[k])
    ensures RunStart(a + b) == |a|
  {
    if b == "" {
      assert a + b == a;
    } else {
      assert (a + b)[..|a + b| - 1] == a + b[..|b| - 1];
      RunStartIs(a, b[..|b| - 1]);
    }
  }

  /** The start of the URL scheme that ends where `head` does. */
  function SchemeStart(head: string): (r: Option<nat>)
    ensures r.Some? ==> r.value < |head|
  {
    var n := RunStart(head);
    if n < |head| && IsAsciiAlphabetic(head[n]) then Some(n) else None
  }

  /** The length that remains once trailing punctuation is cut. */
  function TrimmedLength(s: string): (n: nat)
    ensures n <= |s|
  {
    if s != "" && IsUrlSuffix(s[|s| - 1]) then TrimmedLength(s[..|s| - 1]) else |s|
  }

  lemma {:induction false} TrimmedLengthShape(s: string)
    ensures TrimmedLength(s) > 0 ==> !IsUrlSuffix(s[TrimmedLength(s) - 1])
    ensures forall k :: TrimmedLength(s) <= k < |s| ==> IsUrlSuffix(s[k])
  {
    if s != "" && IsUrlSuffix(s[|s| - 1]) {
      TrimmedLengthShape(s[..|s| - 1]);
    }
  }

  lemma {:induction false} TrimmedLengthIs(a: string, b: string)
    requires a != "" && !IsUrlSuffix(a[|a| - 1])
    requires forall k :: 0 <= k < |b| ==> IsUrlSuffix(b[k])
    ensures TrimmedLength(a + b) == |a| && (a + b)[..|a|] == a && (a + b)[|a|..] == b
  {
    if b == "" {
      assert a + b == a;
    } else {
      assert (a + b)[..|a + b| - 1] == a + b[..|b| - 1];
      TrimmedLengthIs(a, b[..|b| - 1]);
    }
  }

  /** A scheme and what follows its `://`: the URL, its punctuation, and the rest. */
  function RewrittenFrom(scheme: string, body: string, rewrite: string -> string): string
    decreases |body|, 2
  {
    var n := Until(body, EndsUrl);
    var whole := scheme + ("://" + body[..n]);
    var m := TrimmedLength(whole);
    rewrite(whole[..m]) + (whole[m..] + RewrittenText(body[n..], rewrite))
  }

  function RewrittenText(t: string, rewrite: string -> string): string
    decreases |t|, 1
  {
    match FindDelimiter(t)
    case None => t
    case Some(d) => RewrittenSplit(t[..d], t[d + 3..], rewrite)
  }

  /** The text around its first `://`. */
  function RewrittenSplit(head: string, body: string, rewrite: string -> string): string
    decreases |body|, 3
  {
    match SchemeStart(head)
    case None => head + ("://" + RewrittenText(body, rewrite))
    case Some(start) => head[..start] + RewrittenFrom(head[start..], body, rewrite)
  }

  method UrlSchemeStart(value: string, delimiter: nat) returns (r: Option<nat>)
    requires delimiter <= |value|
    ensures r == SchemeStart(value[..delimiter])
  {
    var start := delimiter;
    while start > 0 && IsSchemeChar(value[start - 1])
      invariant 0 <= start <= delimiter && RunStart(value[..start]) == RunStart(value[..delimiter])
    {
      assert value[..start][..start - 1] == value[..start - 1];
      start := start - 1;
    }
    r := if start < delimiter && IsAsciiAlphabetic(value[start]) then Some(start) else None;
  }

  method UrlEnd(value: string, start: nat) returns (end: nat)
    requires start <= |value|
    ensures end == start + Until(value[start..], EndsUrl)
  {
    for offset := start to |value|
      invariant start + Until(value[start..], EndsUrl) == offset + Until(value[offset..], EndsUrl)
    {
      if EndsUrl(value[offset]) {
        return offset;
      }
      assert value[offset..][1..] == value[offset + 1..];
    }
    end := |value|;
  }

  method TrimUrlSuffix(value: string, start: nat, end: nat) returns (urlEnd: nat, suffixStart: nat)
    requires start <= end <= |value|
    ensures suffixStart == end && urlEnd == start + TrimmedLength(value[start..end])
  {
    suffixStart := end;
    urlEnd := end;
    while urlEnd > start && IsUrlSuffix(value[urlEnd - 1])
      invariant start <= urlEnd <= end
      invariant TrimmedLength(value[start..urlEnd]) == TrimmedLength(value[start..end])
    {
      assert value[start..urlEnd][..urlEnd - start - 1] == value[start..urlEnd - 1];
      urlEnd := urlEnd - 1;
    }
  }

  /** What the scan has written, what it has only passed, and what it has still to search. */
  predicate TextScan(value: string, copied: nat, from: nat, output: string, rewrite: string -> string) {
    && copied <= from <= |value|
    && output + (value[copied..from] + RewrittenText(value[from..], rewrite)) == RewrittenText(value, rewrite)
  }

  /** No scheme reaches back across `from`. */
  predicate Barrier(value: string, from: nat) {
    from <= |value| && (from == 0 || from == |value| || EndsUrl(value[from]) || !IsSchemeChar(value[from - 1]))
  }

  lemma {:induction false} RunStartBehind(a: string, b: string)
    requires a == "" || !IsSchemeChar(a[|a| - 1]) || (b != "" && !IsSchemeChar(b[0]))
    ensures RunStart(a + b) == |a| + RunStart(b)
  {
    if b == "" || !IsSchemeChar(b[|b| - 1]) {
      assert b == "" ==> a + b == a;
    } else {
      assert (a + b)[..|a + b| - 1] == a + b[..|b| - 1];
      RunStartBehind(a, b[..|b| - 1]);
    }
  }

  /** The scheme is looked for in the whole text, but found in the part still to be searched. */
  lemma SchemeIsAhead(value: string, from: nat, delimiter: nat)
    requires Barrier(value, from) && from <= delimiter < |value| && !EndsUrl(value[delimiter])
    ensures SchemeStart(value[..delimiter]) ==
      match SchemeStart(value[from..delimiter]) case None => None case Some(start) => Some(from + start)
  {
    var a, b := value[..from], value[from..delimiter];
    assert value[..delimiter] == a + b;
    RunStartBehind(a, b);
  }

  lemma FoundAhead(value: string, from: nat, d: nat)
    requires from <= |value| && FindDelimiter(value[from..]) == Some(d)
    ensures from + d + 3 <= |value| && DelimiterAt(value, from + d)
    ensures value[from..][..d] == value[from..from + d] && value[from..][d + 3..] == value[from + d + 3..]
  {
    var t := value[from..];
    assert t[..d] == value[from..from + d];
    assert t[d] == value[from + d] && t[d + 1] == value[from + d + 1] && t[d + 2] == value[from + d + 2];
  }

  lemma SplitStep(t: string, d: nat, rewrite: string -> string)
    requires d + 3 <= |t| && FindDelimiter(t) == Some(d)
    ensures RewrittenText(t, rewrite) == RewrittenSplit(t[..d], t[d + 3..], rewrite)
  {
  }

  lemma SplitAhead(value: string, from: nat, d: nat, rewrite: string -> string)
    requires from + d + 3 <= |value| && FindDelimiter(value[from..]) == Some(d)
    ensures RewrittenText(value[from..], rewrite)
         == RewrittenSplit(value[from..from + d], value[from + d + 3..], rewrite)
  {
    FoundAhead(value, from, d);
    SplitStep(value[from..], d, rewrite);
  }

  lemma SkipStep(head: string, body: string, rewrite: string -> string)
    requires SchemeStart(head) == None
    ensures RewrittenSplit(head, body, rewrite) == head + ("://" + RewrittenText(body, rewrite))
  {
  }

  lemma RejoinSkip(output: string, skipped: string, head: string, rest: string, found: string, joined: string)
    requires found == head + ("://" + rest) && joined == skipped + (head + "://")
    ensures output + (skipped + found) == output + (joined + rest)
  {
  }

  lemma TextSkip(value: string, copied: nat, from: nat, output: string, d: nat, rewrite: string -> string)
    requires TextScan(value, copied, from, output, rewrite)
    requires FindDelimiter(value[from..]) == Some(d) && from + d + 3 <= |value|
    requires SchemeStart(value[from..from + d]) == None
    ensures TextScan(value, copied, from + d + 3, output, rewrite)
  {
    hide RewrittenText, RewrittenSplit, FindDelimiter, SchemeStart;
    FoundAhead(value, from, d);
    SplitAhead(value, from, d, rewrite);
    SkipStep(value[from..from + d], value[from + d + 3..], rewrite);
    SkipSlice(value, copied, from, from + d);
    RejoinSkip(output, value[copied..from], value[from..from + d], RewrittenText(value[from + d + 3..], rewrite),
               RewrittenText(value[from..], rewrite), value[copied..from + d + 3]);
  }

  lemma DelimiterIsBarrier(value: string, delimiter: nat)
    requires DelimiterAt(value, delimiter)
    ensures Barrier(value, delimiter + 3)
  {
  }

  lemma SkipSlice(value: string, copied: nat, from: nat, delimiter: nat)
    requires copied <= from <= delimiter && DelimiterAt(value, delimiter)
    ensures value[copied..delimiter + 3] == value[copied..from] + (value[from..delimiter] + "://")
  {
    assert value[delimiter..delimiter + 3] == "://";
    assert value[copied..delimiter + 3] == value[copied..from] + value[from..delimiter] + value[delimiter..delimiter + 3];
  }

  /** A URL of `value`: its scheme from `start`, its delimiter, its untrimmed and its trimmed end. */
  predicate UrlSpan(value: string, start: nat, delimiter: nat, urlEnd: nat, end: nat) {
    && start < delimiter && delimiter + 3 <= end <= |value| && start <= urlEnd <= end
    && SchemeStart(value[..delimiter]) == Some(start)
    && end == delimiter + 3 + Until(value[delimiter + 3..], EndsUrl)
    && urlEnd == start + TrimmedLength(value[start..end])
  }

  lemma DelimiterSlice(value: string, start: nat, delimiter: nat, end: nat)
    requires start <= delimiter && delimiter + 3 <= end <= |value| && DelimiterAt(value, delimiter)
    ensures value[start..end] == value[start..delimiter] + ("://" + value[delimiter + 3..end])
  {
  }

  lemma SliceOfSlice(value: string, i: nat, j: nat, k: nat)
    requires i <= j <= k <= |value|
    ensures value[i..k][..j - i] == value[i..j] && value[i..k][j - i..] == value[j..k]
  {
  }

  lemma TailSlices(value: string, i: nat, j: nat)
    requires i <= j <= |value|
    ensures value[i..][..j - i] == value[i..j] && value[i..][j - i..] == value[j..]
  {
  }

  lemma RewrittenFromIs(scheme: string, body: string, n: nat, whole: string, m: nat, rewrite: string -> string)
    requires n == Until(body, EndsUrl) && whole == scheme + ("://" + body[..n]) && m == TrimmedLength(whole)
    ensures RewrittenFrom(scheme, body, rewrite) == rewrite(whole[..m]) + (whole[m..] + RewrittenText(body[n..], rewrite))
  {
  }

  lemma RewrittenFromSpan(value: string, start: nat, delimiter: nat, urlEnd: nat, end: nat, rewrite: string -> string)
    requires UrlSpan(value, start, delimiter, urlEnd, end) && DelimiterAt(value, delimiter)
    ensures RewrittenFrom(value[start..delimiter], value[delimiter + 3..], rewrite)
         == rewrite(value[start..urlEnd]) + (value[urlEnd..end] + RewrittenText(value[end..], rewrite))
  {
    hide RewrittenFrom, RewrittenText, TrimmedLength, Until, SchemeStart, EndsUrl;
    DelimiterSlice(value, start, delimiter, end);
    TailSlices(value, delimiter + 3, end);
    SliceOfSlice(value, start, urlEnd, end);
    RewrittenFromIs(value[start..delimiter], value[delimiter + 3..], end - delimiter - 3,
                    value[start..end], urlEnd - start, rewrite);
  }

  lemma FromStep(head: string, body: string, start: nat, rewrite: string -> string)
    requires start < |head| && SchemeStart(head) == Some(start)
    ensures RewrittenSplit(head, body, rewrite) == head[..start] + RewrittenFrom(head[start..], body, rewrite)
  {
  }

  lemma HeadOpen(value: string, from: nat, start: nat, delimiter: nat, body: string, rewrite: string -> string)
    requires from <= start < delimiter <= |value|
    requires SchemeStart(value[from..delimiter]) == Some(start - from)
    ensures RewrittenSplit(value[from..delimiter], body, rewrite)
         == value[from..start] + RewrittenFrom(value[start..delimiter], body, rewrite)
  {
    SliceOfSlice(value, from, start, delimiter);
    FromStep(value[from..delimiter], body, start - from, rewrite);
  }

  lemma TextOpen(value: string, from: nat, start: nat, delimiter: nat, rewrite: string -> string)
    requires from <= start < delimiter && delimiter + 3 <= |value|
    requires FindDelimiter(value[from..]) == Some(delimiter - from)
    requires SchemeStart(value[from..delimiter]) == Some(start - from)
    ensures RewrittenText(value[from..], rewrite)
         == value[from..start] + RewrittenFrom(value[start..delimiter], value[delimiter + 3..], rewrite)
  {
    hide RewrittenText, RewrittenSplit, RewrittenFrom, FindDelimiter, SchemeStart;
    SplitAhead(value, from, delimiter - from, rewrite);
    HeadOpen(value, from, start, delimiter, value[delimiter + 3..], rewrite);
  }

  lemma RejoinUrl(output: string, skipped: string, before: string, copied: string,
                  found: string, url: string, suffix: string, rest: string)
    requires copied == skipped + before && found == url + (suffix + rest)
    ensures output + (skipped + (before + found)) == output + copied + url + suffix + ("" + rest)
  {
  }

  lemma SlicesJoin(value: string, i: nat, j: nat, k: nat)
    requires i <= j <= k <= |value|
    ensures value[i..k] == value[i..j] + value[j..k]
  {
  }

  lemma UrlSpanIsAhead(value: string, from: nat, start: nat, delimiter: nat)
    requires Barrier(value, from) && from <= delimiter && DelimiterAt(value, delimiter)
    requires SchemeStart(value[..delimiter]) == Some(start)
    ensures from <= start < delimiter && SchemeStart(value[from..delimiter]) == Some(start - from)
  {
    SchemeIsAhead(value, from, delimiter);
  }

  lemma UrlSpanEndsAtBarrier(value: string, start: nat, delimiter: nat, urlEnd: nat, end: nat)
    requires UrlSpan(value, start, delimiter, urlEnd, end)
    ensures Barrier(value, end)
  {
    UntilShape(value[delimiter + 3..], EndsUrl);
    assert end < |value| ==> value[end] == value[delimiter + 3..][end - delimiter - 3];
  }

  lemma TextUrl(value: string, copied: nat, from: nat, output: string,
                start: nat, delimiter: nat, urlEnd: nat, end: nat, rewrite: string -> string)
    requires TextScan(value, copied, from, output, rewrite) && Barrier(value, from)
    requires from <= delimiter && FindDelimiter(value[from..]) == Some(delimiter - from)
    requires DelimiterAt(value, delimiter) && UrlSpan(value, start, delimiter, urlEnd, end)
    ensures copied <= from <= start
    ensures TextScan(value, end, end,
                     output + value[copied..start] + rewrite(value[start..urlEnd]) + value[urlEnd..end], rewrite)
  {
    UrlSpanIsAhead(value, from, start, delimiter);
    TextOpen(value, from, start, delimiter, rewrite);
    RewrittenFromSpan(value, start, delimiter, urlEnd, end, rewrite);
    SlicesJoin(value, copied, from, start);
    RejoinUrl(output, value[copied..from], value[from..start], value[copied..start],
              RewrittenFrom(value[start..delimiter], value[delimiter + 3..], rewrite),
              rewrite(value[start..urlEnd]), value[urlEnd..end], RewrittenText(value[end..], rewrite));
    assert value[end..end] == "";
  }

  lemma TextStart(value: string, rewrite: string -> string)
    ensures TextScan(value, 0, 0, "", rewrite) && Barrier(value, 0)
  {
    assert value[0..] == value && value[0..0] == "";
  }

  lemma TextDone(value: string, copied: nat, from: nat, output: string, rewrite: string -> string)
    requires TextScan(value, copied, from, output, rewrite) && FindDelimiter(value[from..]) == None
    ensures output + value[copied..] == RewrittenText(value, rewrite)
  {
    assert value[copied..] == value[copied..from] + value[from..];
  }

  /** Writes the text up to the URL, the URL without its credentials, and its punctuation. */
  method CopyUrl(value: string, copiedUntil: nat, ghost searchFrom: nat, written: string,
                 start: nat, delimiter: nat, rewrite: string -> string)
    returns (output: string, suffixStart: nat)
    requires TextScan(value, copiedUntil, searchFrom, written, rewrite) && Barrier(value, searchFrom)
    requires searchFrom <= delimiter && DelimiterAt(value, delimiter)
    requires FindDelimiter(value[searchFrom..]) == Some(delimiter - searchFrom)
    requires SchemeStart(value[..delimiter]) == Some(start)
    ensures delimiter + 3 <= suffixStart <= |value| && TextScan(value, suffixStart, suffixStart, output, rewrite)
    ensures Barrier(value, suffixStart)
  {
    var end := UrlEnd(value, delimiter + 3);
    var urlEnd;
    urlEnd, suffixStart := TrimUrlSuffix(value, start, end);
    TextUrl(value, copiedUntil, searchFrom, written, start, delimiter, urlEnd, end, rewrite);
    UrlSpanEndsAtBarrier(value, start, delimiter, urlEnd, end);
    output := written + value[copiedUntil..start];
    output := output + rewrite(value[start..urlEnd]);
    output := output + value[urlEnd..suffixStart];
  }

  /** The scan over the whole text; a URL never starts before what is already copied. */
  method RedactEmbeddedUrls(value: string, isSecret: string -> bool) returns (output: string)
    ensures output == RewrittenText(value, UrlRedactor(isSecret))
  {
    hide TextScan, Barrier, RewrittenText;
    var rewrite := UrlRedactor(isSecret);
    output := "";
    var copiedUntil, searchFrom := 0, 0;
    TextStart(value, rewrite);
    var found := FindDelimiter(value);
    assert value[0..] == value;
    while found.Some?
      invariant TextScan(value, copiedUntil, searchFrom, output, rewrite) && Barrier(value, searchFrom)
      invariant copiedUntil <= searchFrom <= |value| && found == FindDelimiter(value[searchFrom..])
      decreases |value| - searchFrom
    {
      var delimiter := searchFrom + found.value;
      FoundAhead(value, searchFrom, found.value);
      var start := UrlSchemeStart(value, delimiter);
      if start == None {
        SchemeIsAhead(value, searchFrom, delimiter);
        TextSkip(value, copiedUntil, searchFrom, output, found.value, rewrite);
        DelimiterIsBarrier(value, delimiter);
        searchFrom := delimiter + 3;
      } else {
        output, copiedUntil := CopyUrl(value, copiedUntil, searchFrom, output, start.value, delimiter, rewrite);
        searchFrom := copiedUntil;
      }
      found := FindDelimiter(value[searchFrom..]);
    }
    TextDone(value, copiedUntil, searchFrom, output, rewrite);
    output := output + value[copiedUntil..];
  }
}
