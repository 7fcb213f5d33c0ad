/**
 Bencoded trees and the recursive-descent parser that recognises them, on the text of one
 immutable slice. A byte is a `char` below 256; nothing here depends on that bound.
 Keys are neither sorted nor required to be distinct: the validator does not check either.
 */
module Bencode {
  import opened Wrappers
  import opened Decimal

  const USIZE_MAX: nat := 0xFFFF_FFFF_FFFF_FFFF
  const ISIZE_MAX: nat := 0x7FFF_FFFF_FFFF_FFFF

  /** A slice never holds more than `isize::MAX` bytes. */
  type Slice = s: string | |s| <= ISIZE_MAX

  datatype Tree =
    | Int(n: int)
    | Str(s: string)
    | List(items: seq<Tree>)
    | Dict(entries: seq<Entry>)

  datatype Entry = Entry(key: string, value: Tree)

  // ---------------------------------------------------------------- encoding

  function EncodeString(s: string): string {
    Print(|s|) + ":" + s
  }

  function EncodeInt(n: int): string {
    "i" + (if n < 0 then "-" + Print(-n) else Print(n)) + "e"
  }

  function Encode(v: Tree): (r: string)
    decreases v, 0
  {
    match v
    case Int(n) => EncodeInt(n)
    case Str(s) => EncodeString(s)
    case List(items) => "l" + EncodeItems(items) + "e"
    case Dict(entries) => "d" + EncodeEntries(entries) + "e"
  }

  function EncodeItems(items: seq<Tree>): string
    decreases items, 1
  {
    if items == [] then "" else Encode(items[0]) + EncodeItems(items[1..])
  }

  function EncodeEntries(entries: seq<Entry>): string
    decreases entries, 1
  {
    if entries == [] then ""
    else EncodeEntry(entries[0]) + EncodeEntries(entries[1..])
  }

  function EncodeEntry(entry: Entry): string
    decreases entry, 1
  {
    EncodeString(entry.key) + Encode(entry.value)
  }

  function Max(a: nat, b: nat): nat { if a < b then b else a }

  /** How many container levels, counting the value itself, a tree needs. */
  function Levels(v: Tree): (r: nat)
    ensures r >= 1
    decreases v, 0
  {
    match v
    case Int(_) => 1
    case Str(_) => 1
    case List(items) => 1 + ItemLevels(items)
    case Dict(entries) => 1 + EntryLevels(entries)
  }

  function ItemLevels(items: seq<Tree>): nat
    decreases items, 1
  {
    if items == [] then 0 else Max(Levels(items[0]), ItemLevels(items[1..]))
  }

  function EntryLevels(entries: seq<Entry>): nat
    decreases entries, 1
  {
    if entries == [] then 0 else Max(Levels(entries[0].value), EntryLevels(entries[1..]))
  }

  // ----------------------------------------------------------------- parsing

  datatype Parsed<+T> = Parsed(value: T, end: nat)

  /** A canonical numeral and its closing character. */
  function ParseNumeral(b: string, i: nat, closing: char): (r: Option<Parsed<nat>>)
    requires i <= |b|
    ensures r.Some? ==> i < r.value.end <= |b|
  {
    var e := DigitsEnd(b, i);
    if e == |b| || !Canonical(b[i..e]) || b[e] != closing then None
    else Some(Parsed(Value(b[i..e]), e + 1))
  }

  function ParseString(b: Slice, i: nat): (r: Option<Parsed<string>>)
    requires i <= |b|
    ensures r.Some? ==> i < r.value.end <= |b|
  {
    match ParseNumeral(b, i, ':')
    case None => None
    case Some(Parsed(length, start)) =>
      if length > USIZE_MAX || start + length > USIZE_MAX || start + length > |b| then None
      else Some(Parsed(b[start..start + length], start + length))
  }

  function ParseInt(b: Slice, i: nat): (r: Option<Parsed<int>>)
    requires i < |b| && b[i] == 'i'
    ensures r.Some? ==> i < r.value.end <= |b|
  {
    var negative := i + 1 < |b| && b[i + 1] == '-';
    match ParseNumeral(b, if negative then i + 2 else i + 1, 'e')
    case None => None
    case Some(Parsed(n, j)) =>
      if negative && n == 0 then None
      else Some(Parsed(if negative then 0 - n else n as int, j))
  }

  /** `levels` is how many nested values may still be opened, this one included. */
  function ParseValue(b: Slice, i: nat, levels: nat): (r: Option<Parsed<Tree>>)
    requires i <= |b|
    ensures r.Some? ==> i < r.value.end <= |b|
    decreases levels, |b| - i, 0
  {
    if levels == 0 || i == |b| then None
    else if b[i] == 'd' then
      match ParseEntries(b, i + 1, levels - 1)
      case None => None
      case Some(Parsed(entries, j)) => Some(Parsed(Dict(entries), j + 1))
    else if b[i] == 'l' then
      match ParseItems(b, i + 1, levels - 1)
      case None => None
      case Some(Parsed(items, j)) => Some(Parsed(List(items), j + 1))
    else if b[i] == 'i' then
      match ParseInt(b, i)
      case None => None
      case Some(Parsed(n, j)) => Some(Parsed(Int(n), j))
    else if IsDigit(b[i]) then
      match ParseString(b, i)
      case None => None
      case Some(Parsed(s, j)) => Some(Parsed(Str(s), j))
    else None
  }

  /** The items up to, and not including, the closing `e`. */
  function ParseItems(b: Slice, i: nat, levels: nat): (r: Option<Parsed<seq<Tree>>>)
    requires i <= |b|
    ensures r.Some? ==> i <= r.value.end < |b| && b[r.value.end] == 'e'
    decreases levels, |b| - i, 1
  {
    if i == |b| then None
    else if b[i] == 'e' then Some(Parsed([], i))
    else
      match ParseValue(b, i, levels)
      case None => None
      case Some(Parsed(v, j)) =>
        match ParseItems(b, j, levels)
        case None => None
        case Some(Parsed(rest, end)) => Some(Parsed([v] + rest, end))
  }

  function ParseEntry(b: Slice, i: nat, levels: nat): (r: Option<Parsed<Entry>>)
    requires i <= |b|
    ensures r.Some? ==> i < r.value.end <= |b|
    decreases levels, |b| - i, 1
  {
    match ParseString(b, i)
    case None => None
    case Some(Parsed(key, k)) =>
      match ParseValue(b, k, levels)
      case None => None
      case Some(Parsed(v, j)) => Some(Parsed(Entry(key, v), j))
  }

  function ParseEntries(b: Slice, i: nat, levels: nat): (r: Option<Parsed<seq<Entry>>>)
    requires i <= |b|
    ensures r.Some? ==> i <= r.value.end < |b| && b[r.value.end] == 'e'
    decreases levels, |b| - i, 2
  {
    if i == |b| then None
    else if b[i] == 'e' then Some(Parsed([], i))
    else
      match ParseEntry(b, i, levels)
      case None => None
      case Some(Parsed(entry, j)) =>
        match ParseEntries(b, j, levels)
        case None => None
        case Some(Parsed(rest, end)) => Some(Parsed([entry] + rest, end))
  }

  // ------------------------------------------------- parsing inverts encoding

  /** `w` stands in `b` at position `i`. */
  predicate At(b: string, i: nat, w: string) {
    i + |w| <= |b| && b[i..i + |w|] == w
  }

  lemma AtConcat(b: string, i: nat, u: string, v: string)
    ensures At(b, i, u + v) <==> At(b, i, u) && At(b, i + |u|, v)
  {
    if At(b, i, u + v) {
      assert b[i..i + |u|] == (u + v)[..|u|];
      assert b[i + |u|..i + |u| + |v|] == (u + v)[|u|..];
    }
    if At(b, i, u) && At(b, i + |u|, v) {
      assert b[i..i + |u + v|] == b[i..i + |u|] + b[i + |u|..i + |u| + |v|];
    }
  }

  lemma ParseNumeralSound(b: string, i: nat, closing: char)
    requires i <= |b| && ParseNumeral(b, i, closing).Some?
    ensures var p := ParseNumeral(b, i, closing).value;
      At(b, i, Print(p.value) + [closing]) && p.end == i + |Print(p.value)| + 1
  {
    var e := DigitsEnd(b, i);
    PrintOfValue(b[i..e]);
    assert b[i..e + 1] == b[i..e] + [closing];
  }

  lemma ParseNumeralComplete(b: string, i: nat, n: nat, closing: char)
    requires At(b, i, Print(n) + [closing]) && !IsDigit(closing)
    ensures ParseNumeral(b, i, closing) == Some(Parsed(n, i + |Print(n)| + 1))
    ensures i < |b| && b[i] == Print(n)[0] && IsDigit(b[i])
  {
    var ds := Print(n);
    AtConcat(b, i, ds, [closing]);
    assert b[i + |ds|] == b[i + |ds|..i + |ds| + 1][0];
    ValueOfPrint(n);
    DigitsEndIs(b, i, i + |ds|);
    assert b[i] == b[i..i + |ds|][0];
  }

  lemma ParseStringSound(b: Slice, i: nat)
    requires i <= |b| && ParseString(b, i).Some?
    ensures var p := ParseString(b, i).value; At(b, i, EncodeString(p.value)) && p.end == i + |EncodeString(p.value)|
  {
    var p := ParseString(b, i).value;
    ParseNumeralSound(b, i, ':');
    AtConcat(b, i, Print(|p.value|) + ":", p.value);
  }

  lemma ParseStringComplete(b: Slice, i: nat, s: string)
    requires At(b, i, EncodeString(s))
    ensures ParseString(b, i) == Some(Parsed(s, i + |EncodeString(s)|))
    ensures i < |b| && IsDigit(b[i])
  {
    AtConcat(b, i, Print(|s|) + ":", s);
    ParseNumeralComplete(b, i, |s|, ':');
  }

  lemma ParseIntSound(b: Slice, i: nat)
    requires i < |b| && b[i] == 'i' && ParseInt(b, i).Some?
    ensures var p := ParseInt(b, i).value; At(b, i, EncodeInt(p.value)) && p.end == i + |EncodeInt(p.value)|
  {
    hide ParseNumeral, Print;
    var p := ParseInt(b, i).value;
    var sign := if p.value < 0 then "-" else "";
    var digits := Print(if p.value < 0 then -p.value else p.value);
    ParseNumeralSound(b, i + 1 + |sign|, 'e');
    assert b[i..i + 1 + |sign|] == "i" + sign;
    AtConcat(b, i, "i" + sign, digits + "e");
    assert EncodeInt(p.value) == ("i" + sign) + (digits + "e");
  }

  lemma ParseIntComplete(b: Slice, i: nat, n: int)
    requires At(b, i, EncodeInt(n))
    ensures i < |b| && b[i] == 'i' && ParseInt(b, i) == Some(Parsed(n, i + |EncodeInt(n)|))
  {
    hide ParseNumeral, Print;
    var sign := if n < 0 then "-" else "";
    var magnitude := if n < 0 then -n else n;
    assert EncodeInt(n) == ("i" + sign) + (Print(magnitude) + "e");
    AtConcat(b, i, "i" + sign, Print(magnitude) + "e");
    var opening := b[i..i + 1 + |sign|];
    assert b[i] == opening[0] && (n < 0 ==> b[i + 1] == opening[1]);
    ParseNumeralComplete(b, i + 1 + |sign|, magnitude, 'e');
  }

  lemma SealedContainer(b: string, i: nat, opening: char, body: string)
    ensures At(b, i, [opening] + body + "e") <==>
      i < |b| && b[i] == opening && At(b, i + 1, body) && i + 1 + |body| < |b| && b[i + 1 + |body|] == 'e'
  {
    AtConcat(b, i, [opening] + body, "e");
    AtConcat(b, i, [opening], body);
    assert i < |b| ==> b[i..i + 1] == [b[i]];
    assert i + 1 + |body| < |b| ==> b[i + 1 + |body|..i + 2 + |body|] == [b[i + 1 + |body|]];
  }

  lemma ListAt(b: string, i: nat, items: seq<Tree>)
    ensures At(b, i, Encode(List(items))) <==>
      i < |b| && b[i] == 'l' && At(b, i + 1, EncodeItems(items)) &&
      i + 1 + |EncodeItems(items)| < |b| && b[i + 1 + |EncodeItems(items)|] == 'e'
    ensures |Encode(List(items))| == |EncodeItems(items)| + 2
  {
    SealedContainer(b, i, 'l', EncodeItems(items));
  }

  lemma DictAt(b: string, i: nat, entries: seq<Entry>)
    ensures At(b, i, Encode(Dict(entries))) <==>
      i < |b| && b[i] == 'd' && At(b, i + 1, EncodeEntries(entries)) &&
      i + 1 + |EncodeEntries(entries)| < |b| && b[i + 1 + |EncodeEntries(entries)|] == 'e'
    ensures |Encode(Dict(entries))| == |EncodeEntries(entries)| + 2
  {
    SealedContainer(b, i, 'd', EncodeEntries(entries));
  }

  /** What the parser accepts is the encoding of the tree it returns, within the allowed depth. */
  lemma {:induction false} ParseValueSound(b: Slice, i: nat, levels: nat, v: Tree, j: nat)
    requires i <= |b| && ParseValue(b, i, levels) == Some(Parsed(v, j))
    ensures At(b, i, Encode(v)) && j == i + |Encode(v)| && Levels(v) <= levels
    decreases levels, |b| - i, 0
  {
    hide EncodeItems, EncodeEntries, ItemLevels, EntryLevels, ParseItems, ParseEntries, ParseEntry;
    if v.Dict? {
      ParseEntriesSound(b, i + 1, levels - 1, v.entries, j - 1);
      DictAt(b, i, v.entries);
    } else if v.List? {
      ParseItemsSound(b, i + 1, levels - 1, v.items, j - 1);
      ListAt(b, i, v.items);
    } else {
      ParseLeafSound(b, i, levels, v, j);
    }
  }

  lemma ParseLeafSound(b: Slice, i: nat, levels: nat, v: Tree, j: nat)
    requires i <= |b| && ParseValue(b, i, levels) == Some(Parsed(v, j)) && (v.Int? || v.Str?)
    ensures At(b, i, Encode(v)) && j == i + |Encode(v)| && levels > 0
  {
    if v.Int? {
      ParseIntSound(b, i);
    } else {
      ParseStringSound(b, i);
    }
  }

  lemma {:induction false} ParseItemsSound(b: Slice, i: nat, levels: nat, items: seq<Tree>, j: nat)
    requires i <= |b| && ParseItems(b, i, levels) == Some(Parsed(items, j))
    ensures At(b, i, EncodeItems(items)) && j == i + |EncodeItems(items)| && ItemLevels(items) <= levels
    decreases levels, |b| - i, 1
  {
    if b[i] != 'e' {
      var Parsed(v, k) := ParseValue(b, i, levels).value;
      var Parsed(rest, end) := ParseItems(b, k, levels).value;
      assert items[0] == v && items[1..] == rest;
      ParseValueSound(b, i, levels, v, k);
      ParseItemsSound(b, k, levels, rest, end);
      AtConcat(b, i, Encode(v), EncodeItems(rest));
    }
  }

  lemma {:induction false} ParseEntrySound(b: Slice, i: nat, levels: nat, entry: Entry, j: nat)
    requires i <= |b| && ParseEntry(b, i, levels) == Some(Parsed(entry, j))
    ensures At(b, i, EncodeEntry(entry)) && j == i + |EncodeEntry(entry)| && Levels(entry.value) <= levels
    decreases levels, |b| - i, 1
  {
    hide Encode, EncodeString, ParseString, ParseValue, Levels;
    var k := ParseString(b, i).value.end;
    ParseStringSound(b, i);
    ParseValueSound(b, k, levels, entry.value, j);
    AtConcat(b, i, EncodeString(entry.key), Encode(entry.value));
  }

  lemma {:induction false} ParseEntriesSound(b: Slice, i: nat, levels: nat, entries: seq<Entry>, j: nat)
    requires i <= |b| && ParseEntries(b, i, levels) == Some(Parsed(entries, j))
    ensures At(b, i, EncodeEntries(entries)) && j == i + |EncodeEntries(entries)| && EntryLevels(entries) <= levels
    decreases levels, |b| - i, 2
  {
    if b[i] != 'e' {
      var Parsed(entry, k) := ParseEntry(b, i, levels).value;
      var Parsed(rest, end) := ParseEntries(b, k, levels).value;
      assert entries[0] == entry && entries[1..] == rest;
      ParseEntrySound(b, i, levels, entry, k);
      ParseEntriesSound(b, k, levels, rest, end);
      AtConcat(b, i, EncodeEntry(entry), EncodeEntries(rest));
    }
  }

  lemma EncodeStarts(v: Tree)
    ensures Encode(v) != "" && Encode(v)[0] != 'e'
  {
    match v
    case Int(n) =>
    case Str(s) => StringStarts(s);
    case List(items) =>
    case Dict(entries) =>
  }

  lemma StringStarts(s: string)
    ensures EncodeString(s) != "" && IsDigit(EncodeString(s)[0])
  {
    assert EncodeString(s)[0] == Print(|s|)[0];
  }

  lemma ParseLeafComplete(b: Slice, i: nat, levels: nat, v: Tree)
    requires At(b, i, Encode(v)) && levels > 0 && (v.Int? || v.Str?)
    ensures ParseValue(b, i, levels) == Some(Parsed(v, i + |Encode(v)|))
  {
    if v.Int? {
      ParseIntComplete(b, i, v.n);
    } else {
      ParseStringComplete(b, i, v.s);
    }
  }

  lemma ParsedEntry(b: Slice, i: nat, levels: nat, entry: Entry, k: nat, j: nat)
    requires i <= |b| && ParseString(b, i) == Some(Parsed(entry.key, k))
    requires ParseValue(b, k, levels) == Some(Parsed(entry.value, j))
    ensures ParseEntry(b, i, levels) == Some(Parsed(entry, j))
  {
  }

  /** Wherever the encoding of a tree within the depth stands, the parser returns exactly that tree. */
  lemma {:induction false} ParseValueComplete(b: Slice, i: nat, levels: nat, v: Tree)
    requires At(b, i, Encode(v)) && Levels(v) <= levels
    ensures ParseValue(b, i, levels) == Some(Parsed(v, i + |Encode(v)|))
    decreases v, 0
  {
    hide EncodeItems, EncodeEntries, ItemLevels, EntryLevels, ParseItems, ParseEntries, ParseEntry;
    if v.List? {
      ListAt(b, i, v.items);
      ParseItemsComplete(b, i + 1, levels - 1, v.items, EncodeItems(v.items));
    } else if v.Dict? {
      DictAt(b, i, v.entries);
      ParseEntriesComplete(b, i + 1, levels - 1, v.entries, EncodeEntries(v.entries));
    } else {
      ParseLeafComplete(b, i, levels, v);
    }
  }

  lemma {:induction false} ParseItemsComplete(b: Slice, i: nat, levels: nat, items: seq<Tree>, text: string)
    requires text == EncodeItems(items) && At(b, i, text) && ItemLevels(items) <= levels
    requires i + |text| < |b| && b[i + |text|] == 'e'
    ensures ParseItems(b, i, levels) == Some(Parsed(items, i + |text|))
    decreases items, 1
  {
    hide Encode, EncodeEntry, EncodeEntries, Levels, EntryLevels, ParseValue, ParseEntry, ParseEntries;
    if items != [] {
      var v, rest := items[0], items[1..];
      var first, others := Encode(v), EncodeItems(rest);
      assert items == [v] + rest;
      AtConcat(b, i, first, others);
      EncodeStarts(v);
      assert b[i] == b[i..i + |first|][0];
      ParseValueComplete(b, i, levels, v);
      ParseItemsComplete(b, i + |first|, levels, rest, others);
    }
  }

  lemma {:induction false} ParseEntryComplete(b: Slice, i: nat, levels: nat, entry: Entry, text: string)
    requires text == EncodeEntry(entry) && At(b, i, text) && Levels(entry.value) <= levels
    ensures i < |b| && b[i] != 'e' && ParseEntry(b, i, levels) == Some(Parsed(entry, i + |text|))
    decreases entry, 1
  {
    hide Encode, EncodeString, ParseString, ParseValue, ParseEntry, Levels;
    var k := i + |EncodeString(entry.key)|;
    AtConcat(b, i, EncodeString(entry.key), Encode(entry.value));
    ParseStringComplete(b, i, entry.key);
    ParseValueComplete(b, k, levels, entry.value);
    ParsedEntry(b, i, levels, entry, k, i + |text|);
  }

  lemma {:induction false} ParseEntriesComplete(b: Slice, i: nat, levels: nat, entries: seq<Entry>, text: string)
    requires text == EncodeEntries(entries) && At(b, i, text) && EntryLevels(entries) <= levels
    requires i + |text| < |b| && b[i + |text|] == 'e'
    ensures ParseEntries(b, i, levels) == Some(Parsed(entries, i + |text|))
    decreases entries, 1
  {
    hide Encode, EncodeEntry, EncodeItems, EncodeString, Levels, ItemLevels, ParseValue, ParseEntry, ParseItems, ParseString;
    if entries != [] {
      var entry, rest := entries[0], entries[1..];
      var first, others := EncodeEntry(entry), EncodeEntries(rest);
      assert entries == [entry] + rest;
      AtConcat(b, i, first, others);
      ParseEntryComplete(b, i, levels, entry, first);
      ParseEntriesComplete(b, i + |first|, levels, rest, others);
    }
  }

  /** Encodings are uniquely readable and none is a proper prefix of another. */
  lemma EncodingIsPrefixFree(v: Tree, w: Tree, x: string, y: string)
    requires Encode(v) + x == Encode(w) + y && |Encode(v) + x| <= ISIZE_MAX
    ensures v == w && x == y
  {
    var b: Slice := Encode(v) + x;
    var levels := Max(Levels(v), Levels(w));
    assert b[..|Encode(v)|] == Encode(v);
    assert b[..|Encode(w)|] == Encode(w);
    ParseValueComplete(b, 0, levels, v);
    ParseValueComplete(b, 0, levels, w);
    assert x == b[|Encode(v)|..] == y;
  }
}
