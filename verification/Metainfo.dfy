/**
 Metainfo validation: the hash of the original bytes of the top-level `info` dictionary, for
 exactly the files that are one well-formed dictionary holding exactly one of them.
 */
module Metainfo {
  import opened Wrappers
  import opened Decimal
  import opened Bencode

  /** A value at this depth is refused. */
  const MAX_DEPTH: nat := 64

  const INFO := "info"

  /** How many nested values may still be opened when one is read at `depth`. */
  function LevelsAt(depth: nat): nat {
    if depth >= MAX_DEPTH then 0 else MAX_DEPTH - depth
  }

  /** Where the body of a container ends: at its closing `e`. */
  function BodyEnd(b: Slice, i: nat, levels: nat, dictionary: bool): Option<nat>
    requires i <= |b|
  {
    if dictionary then
      match ParseEntries(b, i, levels) case None => None case Some(p) => Some(p.end)
    else
      match ParseItems(b, i, levels) case None => None case Some(p) => Some(p.end)
  }

  /** Where the next element of a body ends: a key and a value in a dictionary, a value in a list. */
  function ElementEnd(b: Slice, i: nat, levels: nat, dictionary: bool): (r: Option<nat>)
    requires i <= |b|
    ensures r.Some? ==> i < r.value <= |b|
  {
    if dictionary then
      match ParseEntry(b, i, levels) case None => None case Some(p) => Some(p.end)
    else
      match ParseValue(b, i, levels) case None => None case Some(p) => Some(p.end)
  }

  lemma BodyStep(b: Slice, i: nat, levels: nat, dictionary: bool)
    requires i < |b| && b[i] != 'e'
    ensures BodyEnd(b, i, levels, dictionary) ==
      match ElementEnd(b, i, levels, dictionary)
      case None => None
      case Some(j) => BodyEnd(b, j, levels, dictionary)
  {
  }

  class Parser {
    const bytes: Slice
    var offset: nat

    ghost predicate Valid()
      reads this
    {
      offset <= |bytes|
    }

    constructor (bytes: Slice)
      ensures Valid() && this.bytes == bytes && offset == 0
    {
      this.bytes := bytes;
      offset := 0;
    }

    function Peek(): Option<char>
      requires Valid()
      reads this
    {
      if offset < |bytes| then Some(bytes[offset]) else None
    }

    method Take() returns (r: Option<char>)
      requires Valid()
      modifies this
      ensures Valid() && r == old(Peek())
      ensures offset == if r.Some? then old(offset) + 1 else old(offset)
    {
      r := Peek();
      if r.Some? {
        offset := offset + 1;
      }
    }

    /** Advances over digits; `false` when the input ends inside them. */
    method SkipDigits() returns (ok: bool)
      requires Valid()
      modifies this
      ensures Valid() && offset == DigitsEnd(bytes, old(offset))
      ensures ok <==> offset < |bytes|
    {
      while offset < |bytes| && IsDigit(bytes[offset])
        invariant Valid() && DigitsEnd(bytes, offset) == DigitsEnd(bytes, old(offset))
      {
        offset := offset + 1;
      }
      ok := offset < |bytes|;
    }

    method ReadString() returns (r: Option<string>)
      requires Valid()
      modifies this
      ensures Valid()
      ensures match ParseString(bytes, old(offset))
              case None => r == None
              case Some(p) => r == Some(p.value) && offset == p.end
    {
      var start := offset;
      var ok := SkipDigits();
      if !ok {
        return None;
      }
      var digits := bytes[start..offset];
      if digits == "" || (|digits| > 1 && digits[0] == '0') || bytes[offset] != ':' {
        return None;
      }
      offset := offset + 1;
      var length := Value(digits);
      if length > USIZE_MAX || offset + length > USIZE_MAX || offset + length > |bytes| {
        return None;
      }
      r := Some(bytes[offset..offset + length]);
      offset := offset + length;
    }

    /** Reads the numeral after `i`; the caller has seen the `i`. */
    method ReadInt() returns (ok: bool)
      requires Valid() && Peek() == Some('i')
      modifies this
      ensures Valid()
      ensures match ParseInt(bytes, old(offset))
              case None => !ok
              case Some(p) => ok && offset == p.end
    {
      offset := offset + 1;
      var start := offset;
      if Peek() == Some('-') {
        offset := offset + 1;
      }
      var digits := offset;
      ok := SkipDigits();
      if !ok {
        return;
      }
      var number := bytes[digits..offset];
      if number == "" || (|number| > 1 && number[0] == '0') || bytes[start..offset] == "-0" || bytes[offset] != 'e' {
        MinusZero(bytes, start, digits, offset);
        return false;
      }
      MinusZero(bytes, start, digits, offset);
      offset := offset + 1;
    }

    method ReadValue(depth: nat) returns (ok: bool)
      requires Valid()
      modifies this
      ensures Valid()
      ensures match ParseValue(bytes, old(offset), LevelsAt(depth))
              case None => !ok
              case Some(p) => ok && offset == p.end
      decreases |bytes| - offset
    {
      if depth >= MAX_DEPTH || Peek() == None {
        return false;
      }
      if Peek() == Some('d') || Peek() == Some('l') {
        ok := ReadContainer(depth);
      } else if Peek() == Some('i') {
        ok := ReadInt();
      } else if IsDigit(bytes[offset]) {
        var s := ReadString();
        ok := s.Some?;
      } else {
        ok := false;
      }
    }

    method ReadContainer(depth: nat) returns (ok: bool)
      requires Valid() && depth < MAX_DEPTH && (Peek() == Some('d') || Peek() == Some('l'))
      modifies this
      ensures Valid()
      ensures match ParseValue(bytes, old(offset), LevelsAt(depth))
              case None => !ok
              case Some(p) => ok && offset == p.end
      decreases |bytes| - offset, 0
    {
      var dictionary := Peek() == Some('d');
      var taken := Take();
      ghost var start, levels := offset, LevelsAt(depth + 1);
      while Peek() != Some('e')
        invariant Valid() && start <= offset
        invariant BodyEnd(bytes, offset, levels, dictionary) == BodyEnd(bytes, start, levels, dictionary)
        decreases |bytes| - offset
      {
        if Peek() == None {
          return false;
        }
        BodyStep(bytes, offset, levels, dictionary);
        if dictionary {
          var key := ReadString();
          if key == None {
            return false;
          }
        }
        ok := ReadValue(depth + 1);
        if !ok {
          return;
        }
      }
      taken := Take();
      ok := true;
    }
  }

  /** The source compares the text with `-0`; that is a sign followed by the numeral for zero. */
  lemma MinusZero(b: Slice, start: nat, digits: nat, end: nat)
    requires start <= digits <= end <= |b| && AllDigits(b[digits..end])
    requires digits == if start < |b| && b[start] == '-' then start + 1 else start
    ensures Canonical(b[digits..end]) ==> (b[start..end] == "-0" <==> digits == start + 1 && Value(b[digits..end]) == 0)
  {
    var ds := b[digits..end];
    if digits == start + 1 {
      assert b[start..end] == "-" + ds;
      if Canonical(ds) && Value(ds) == 0 {
        PrintOfValue(ds);
        assert ds == "0";
      }
      if b[start..end] == "-0" {
        assert ds == b[start..end][1..] == "0";
        assert Value("0") == 0;
      }
    } else if start < end {
      assert b[start..end][0] == b[start];
    }
  }

  // ------------------------------------------------------------- the info hash

  /** The values stored under `info`, in order of appearance. */
  function InfoValues(entries: seq<Entry>): seq<Tree> {
    if entries == [] then []
    else
      var init := InfoValues(entries[..|entries| - 1]);
      var last := entries[|entries| - 1];
      if last.key == "info" then init + [last.value] else init
  }

  /** `b` is one dictionary within the depth cap whose only `info` entry is the non-empty dictionary `info`. */
  ghost predicate IsMetainfo(b: string, entries: seq<Entry>, info: Tree) {
    && b == Encode(Dict(entries))
    && EntryLevels(entries) <= 64
    && InfoValues(entries) == [info]
    && info.Dict? && info.entries != []
  }

  /** The slice that gets hashed. */
  function InfoSlice(b: Slice): Option<string> {
    if b == "" || b[0] != 'd' then None else
    match ParseEntries(b, 1, MAX_DEPTH)
    case None => None
    case Some(Parsed(entries, j)) =>
      if j + 1 == |b| then SelectInfo(InfoValues(entries)) else None
  }

  function SelectInfo(infos: seq<Tree>): Option<string> {
    if |infos| == 1 && infos[0].Dict? && infos[0].entries != [] then Some(Encode(infos[0])) else None
  }

  lemma HashedIsMetainfo(b: Slice, s: string) returns (entries: seq<Entry>, info: Tree)
    requires InfoSlice(b) == Some(s)
    ensures IsMetainfo(b, entries, info) && s == Encode(info)
  {
    hide Encode, EncodeEntries, EntryLevels, ParseEntries, InfoValues;
    var parsed := ParseEntries(b, 1, MAX_DEPTH).value;
    entries := parsed.value;
    info := InfoValues(entries)[0];
    ParseEntriesSound(b, 1, MAX_DEPTH, entries, parsed.end);
    DictAt(b, 0, entries);
    assert b[0..0 + |Encode(Dict(entries))|] == b;
  }

  /** Sound and complete: a slice is hashed exactly for metainfo files, and it is the text of their `info` value. */
  lemma InfoSliceIff(b: Slice, s: string)
    ensures InfoSlice(b) == Some(s) <==> exists entries, info :: IsMetainfo(b, entries, info) && s == Encode(info)
  {
    hide InfoSlice, IsMetainfo, Encode;
    if InfoSlice(b) == Some(s) {
      var entries, info := HashedIsMetainfo(b, s);
    }
    forall entries, info | IsMetainfo(b, entries, info) && s == Encode(info)
      ensures InfoSlice(b) == Some(s)
    {
      MetainfoParses(b, entries, info);
    }
  }

  lemma MetainfoParses(b: Slice, entries: seq<Entry>, info: Tree)
    requires IsMetainfo(b, entries, info)
    ensures InfoSlice(b) == Some(Encode(info))
  {
    assert b[0..0 + |Encode(Dict(entries))|] == b;
    DictAt(b, 0, entries);
    ParseEntriesComplete(b, 1, MAX_DEPTH, entries, EncodeEntries(entries));
  }

  /** The tree behind an accepted file is unique. */
  lemma MetainfoUnique(b: Slice, es: seq<Entry>, info: Tree, es': seq<Entry>, info': Tree)
    requires IsMetainfo(b, es, info) && IsMetainfo(b, es', info')
    ensures es == es' && info == info'
  {
    assert b == Encode(Dict(es)) + "" == Encode(Dict(es')) + "";
    EncodingIsPrefixFree(Dict(es), Dict(es'), "", "");
  }

  /** No proper prefix, and so no proper extension, of an accepted file is accepted. */
  lemma AcceptedFilesArePrefixFree(b: Slice, c: Slice)
    requires b <= c && InfoSlice(b).Some? && InfoSlice(c).Some?
    ensures b == c
  {
    InfoSliceIff(b, InfoSlice(b).value);
    InfoSliceIff(c, InfoSlice(c).value);
    var es, info :| IsMetainfo(b, es, info);
    var es', info' :| IsMetainfo(c, es', info');
    var rest := c[|b|..];
    assert c == Encode(Dict(es)) + rest == Encode(Dict(es')) + "";
    EncodingIsPrefixFree(Dict(es), Dict(es'), rest, "");
  }

  /** The `info` slice really is a contiguous part of the file, so nothing is re-encoded. */
  lemma {:induction false} InfoIsInside(entries: seq<Entry>, info: Tree)
    requires info in InfoValues(entries)
    ensures exists before, after :: EncodeEntries(entries) == before + Encode(info) + after
  {
    hide Encode, EncodeEntries, EncodeString;
    var init, last := entries[..|entries| - 1], entries[|entries| - 1];
    EncodeEntriesSnoc(init, last);
    assert entries == init + [last];
    if last.key == INFO && info == last.value {
      var before := EncodeEntries(init) + EncodeString(last.key);
      assert EncodeEntries(entries) == before + Encode(info) + "";
    } else {
      InfoIsInside(init, info);
      var before, after :| EncodeEntries(init) == before + Encode(info) + after;
      assert EncodeEntries(entries) == before + Encode(info) + (after + EncodeEntry(last));
    }
  }

  lemma {:induction false} EncodeEntriesSnoc(init: seq<Entry>, last: Entry)
    ensures EncodeEntries(init + [last]) == EncodeEntries(init) + EncodeEntry(last)
  {
    var all := init + [last];
    if init == [] {
      assert all[1..] == [];
      assert EncodeEntries(all) == EncodeEntry(last) + EncodeEntries([]);
    } else {
      assert all[1..] == init[1..] + [last];
      EncodeEntriesSnoc(init[1..], last);
      var first := EncodeEntry(init[0]);
      assert first + (EncodeEntries(init[1..]) + EncodeEntry(last)) == first + EncodeEntries(init[1..]) + EncodeEntry(last);
    }
  }

  // -------------------------------------------------------------- the validator

  /** The entries from 1 on are those already read, `seen`, followed by those from `i` on. */
  ghost predicate ReadSoFar(b: Slice, seen: seq<Entry>, i: nat) {
    && 1 <= |b| && i <= |b|
    && ParseEntries(b, 1, MAX_DEPTH) ==
         match ParseEntries(b, i, MAX_DEPTH)
         case None => None
         case Some(Parsed(rest, end)) => Some(Parsed(seen + rest, end))
  }

  lemma NothingRead(b: Slice)
    requires 1 <= |b|
    ensures ReadSoFar(b, [], 1)
  {
    if ParseEntries(b, 1, MAX_DEPTH).Some? {
      var rest := ParseEntries(b, 1, MAX_DEPTH).value.value;
      assert [] + rest == rest;
    }
  }

  lemma EverythingRead(b: Slice, seen: seq<Entry>, i: nat)
    requires ReadSoFar(b, seen, i) && i < |b| && b[i] == 'e'
    ensures ParseEntries(b, 1, MAX_DEPTH) == Some(Parsed(seen, i))
  {
    assert seen + [] == seen;
  }

  lemma NothingLeft(b: Slice, seen: seq<Entry>, i: nat)
    requires ReadSoFar(b, seen, i) && i == |b|
    ensures ParseEntries(b, 1, MAX_DEPTH) == None
  {
  }

  lemma ReadEntry(b: Slice, seen: seq<Entry>, i: nat)
    requires ReadSoFar(b, seen, i) && i < |b| && b[i] != 'e'
    ensures match ParseEntry(b, i, MAX_DEPTH)
            case None => ParseEntries(b, 1, MAX_DEPTH) == None
            case Some(Parsed(entry, j)) => ReadSoFar(b, seen + [entry], j)
  {
    if ParseEntry(b, i, MAX_DEPTH).Some? {
      var Parsed(entry, j) := ParseEntry(b, i, MAX_DEPTH).value;
      if ParseEntries(b, j, MAX_DEPTH).Some? {
        var rest := ParseEntries(b, j, MAX_DEPTH).value.value;
        assert seen + ([entry] + rest) == seen + [entry] + rest;
      }
    }
  }

  lemma {:induction false} InfoValuesConcat(es: seq<Entry>, fs: seq<Entry>)
    ensures InfoValues(es + fs) == InfoValues(es) + InfoValues(fs)
  {
    if fs == [] {
      assert es + fs == es;
    } else {
      var init := fs[..|fs| - 1];
      assert (es + fs)[..|es + fs| - 1] == es + init;
      InfoValuesConcat(es, init);
    }
  }

  /** Once a second `info`, or one that is not a non-empty dictionary, has been read, nothing is hashed. */
  lemma DoomedEntry(b: Slice, seen: seq<Entry>, i: nat, v: Tree)
    requires ReadSoFar(b, seen + [Entry(INFO, v)], i) && b[0] == 'd'
    requires InfoValues(seen) != [] || !v.Dict? || v.entries == []
    ensures InfoSlice(b) == None
  {
    if ParseEntries(b, i, MAX_DEPTH).Some? {
      var rest := ParseEntries(b, i, MAX_DEPTH).value.value;
      InfoValuesConcat(seen + [Entry(INFO, v)], rest);
      InfoValuesConcat(seen, [Entry(INFO, v)]);
      assert InfoValues([Entry(INFO, v)]) == [v];
    }
  }

  /** The checks made before an `info` value is read are right: it could not have led to a hash. */
  lemma DoomedKey(b: Slice, seen: seq<Entry>, i: nat)
    requires ReadSoFar(b, seen, i) && b[0] == 'd' && i < |b| && b[i] != 'e'
    requires ParseString(b, i).Some? && ParseString(b, i).value.value == INFO
    requires var k := ParseString(b, i).value.end; InfoValues(seen) != [] || k == |b| || b[k] != 'd'
    ensures InfoSlice(b) == None
  {
    ReadEntry(b, seen, i);
    if ParseEntry(b, i, MAX_DEPTH).Some? {
      var Parsed(entry, j) := ParseEntry(b, i, MAX_DEPTH).value;
      DoomedEntry(b, seen, j, entry.value);
    }
  }

  lemma SeenWith(seen: seq<Entry>, entry: Entry)
    ensures InfoValues(seen + [entry]) == if entry.key == INFO then InfoValues(seen) + [entry.value] else InfoValues(seen)
  {
    assert (seen + [entry])[..|seen|] == seen;
  }

  lemma InfoText(b: Slice, start: nat, v: Tree, end: nat)
    requires start < |b| && b[start] == 'd' && ParseValue(b, start, MAX_DEPTH) == Some(Parsed(v, end))
    ensures v.Dict? && b[start..end] == Encode(v) && (end - start <= 2 <==> v.entries == [])
  {
    ParseValueSound(b, start, MAX_DEPTH, v, end);
    DictAt("", 0, v.entries);
    if v.entries != [] {
      StringStarts(v.entries[0].key);
      assert EncodeEntries(v.entries) == EncodeEntry(v.entries[0]) + EncodeEntries(v.entries[1..]);
    }
  }

  /** The digest stands for lower-case SHA-1 hex; what matters is which bytes it is applied to. */
  method InfoHash(bytes: Slice, digest: string -> string) returns (r: Option<string>)
    ensures r == match InfoSlice(bytes) case None => None case Some(info) => Some(digest(info))
  {
    hide ReadSoFar, ParseEntries;
    var parser := new Parser(bytes);
    var first := parser.Take();
    if first != Some('d') {
      return None;
    }
    var info: Option<string> := None;
    ghost var seen: seq<Entry> := [];
    NothingRead(bytes);
    while parser.Peek() != Some('e')
      invariant parser.Valid() && parser.bytes == bytes && ReadSoFar(bytes, seen, parser.offset)
      invariant InfoValues(seen) == [] ==> info == None
      invariant InfoValues(seen) != [] ==> info.Some? && SelectInfo(InfoValues(seen)) == info
      decreases |bytes| - parser.offset
    {
      ghost var at := parser.offset;
      if parser.Peek() == None {
        NothingLeft(bytes, seen, at);
        return None;
      }
      ReadEntry(bytes, seen, at);
      var key := parser.ReadString();
      if key == None {
        return None;
      }
      var start := parser.offset;
      if key.value == INFO && (info.Some? || parser.Peek() != Some('d')) {
        DoomedKey(bytes, seen, at);
        return None;
      }
      var ok := parser.ReadValue(0);
      if !ok {
        return None;
      }
      ghost var Parsed(v, end) := ParseValue(bytes, start, MAX_DEPTH).value;
      assert ParseEntry(bytes, at, MAX_DEPTH) == Some(Parsed(Entry(key.value, v), end));
      SeenWith(seen, Entry(key.value, v));
      if key.value == INFO {
        InfoText(bytes, start, v, end);
        if parser.offset - start <= 2 {
          DoomedEntry(bytes, seen, end, v);
          return None;
        }
        info := Some(bytes[start..parser.offset]);
      }
      seen := seen + [Entry(key.value, v)];
    }
    EverythingRead(bytes, seen, parser.offset);
    var last := parser.Take();
    if parser.offset != |bytes| || info == None {
      return None;
    }
    r := Some(digest(info.value));
  }
}
