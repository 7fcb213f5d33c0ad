/**
 The stable key of an external effect: a digest over length-framed identity components, so that
 no two different identities feed the digest the same bytes. The digest itself is a parameter.
 */
module EffectKey {
  import opened Wrappers
  import opened Text

  type Byte = c: char | (c as int) < 256 witness 'x'

  const DOMAIN := "tmdb-mteam-hub/external-effect/v1\0"

  datatype Operation = QbAddTorrent | HardlinkFiles

  function Label(operation: Operation): string {
    match operation
    case QbAddTorrent => "qb_add_torrent"
    case HardlinkFiles => "hardlink_files"
  }

  function KeyPrefix(operation: Operation): string {
    match operation
    case QbAddTorrent => "download:v1:"
    case HardlinkFiles => "link:v1:"
  }

  // --------------------------------------------------------------- length frames

  function Power256(width: nat): nat {
    if width == 0 then 1 else 256 * Power256(width - 1)
  }

  lemma EightBytesHold64Bits()
    ensures Power256(8) == 0x1_0000_0000_0000_0000
  {
    assert Power256(4) == 0x1_0000_0000;
  }

  function BigEndian(n: nat, width: nat): (r: string)
    ensures |r| == width
  {
    if width == 0 then "" else BigEndian(n / 256, width - 1) + [(n % 256) as char]
  }

  function BigEndianValue(bytes: string): nat {
    if bytes == "" then 0 else 256 * BigEndianValue(bytes[..|bytes| - 1]) + bytes[|bytes| - 1] as nat
  }

  lemma {:induction false} BigEndianRoundTrip(n: nat, width: nat)
    requires n < Power256(width)
    ensures BigEndianValue(BigEndian(n, width)) == n
  {
    if width > 0 {
      BigEndianRoundTrip(n / 256, width - 1);
      assert BigEndian(n, width)[..width - 1] == BigEndian(n / 256, width - 1);
    }
  }

  function Frame(component: string): string {
    BigEndian(|component|, 8) + component
  }

  function Frames(components: seq<string>): string {
    if components == [] then "" else Frames(components[..|components| - 1]) + Frame(components[|components| - 1])
  }

  function HashInput(account: string, subject: string, torrent: string, operation: Operation): string {
    DOMAIN + Frames([account, subject, torrent, Label(operation)])
  }

  /** A component fits when its length fits the eight bytes of its frame. */
  predicate Fits(component: string) {
    |component| < Power256(8)
  }

  /** Reads one frame; what is left follows it. */
  function ReadFrame(bytes: string): Option<(string, string)> {
    if |bytes| < 8 then None else
    var length := BigEndianValue(bytes[..8]);
    if 8 + length > |bytes| then None else Some((bytes[8..8 + length], bytes[8 + length..]))
  }

  lemma ReadFrameOfFrame(component: string, rest: string)
    requires Fits(component)
    ensures ReadFrame(Frame(component) + rest) == Some((component, rest))
  {
    var bytes := Frame(component) + rest;
    BigEndianRoundTrip(|component|, 8);
    assert bytes[..8] == BigEndian(|component|, 8);
    assert bytes[8..8 + |component|] == component;
    assert bytes[8 + |component|..] == rest;
  }

  /** Reads `n` frames. */
  function ReadFrames(bytes: string, n: nat): Option<seq<string>> {
    if n == 0 then Some([]) else
    match ReadFrame(bytes)
    case None => None
    case Some((component, rest)) =>
      match ReadFrames(rest, n - 1)
      case None => None
      case Some(others) => Some([component] + others)
  }

  lemma FramesSnoc(components: seq<string>, last: string)
    ensures Frames(components + [last]) == Frames(components) + Frame(last)
  {
    assert (components + [last])[..|components|] == components;
  }

  lemma Rejoin(a: string, b: string, c: string)
    ensures a + b + c == a + (b + c)
  {
  }

  lemma FramesOfOne(component: string)
    ensures Frames([component]) == Frame(component) + Frames([])
  {
    hide Frame;
    FramesSnoc([], component);
    assert [] + [component] == [component];
    assert Frames([]) == "" && "" + Frame(component) == Frame(component) + "";
  }

  lemma {:induction false} FramesCons(components: seq<string>)
    requires components != []
    ensures Frames(components) == Frame(components[0]) + Frames(components[1..])
    decreases |components|
  {
    hide Frame, Frames;
    var n := |components|;
    if n == 1 {
      FramesOfOne(components[0]);
      assert components == [components[0]] && components[1..] == [];
    } else {
      var first, middle, last := components[0], components[1..n - 1], components[n - 1];
      FramesCons([first] + middle);
      FramesSnoc([first] + middle, last);
      FramesSnoc(middle, last);
      assert components == [first] + middle + [last] && components[1..] == middle + [last];
      assert ([first] + middle)[1..] == middle;
      Rejoin(Frame(first), Frames(middle), Frame(last));
    }
  }

  /** The frames can be read back, so distinct component lists are framed distinctly. */
  lemma {:induction false} FramesRoundTrip(components: seq<string>)
    requires forall c :: c in components ==> Fits(c)
    ensures ReadFrames(Frames(components), |components|) == Some(components)
  {
    if components != [] {
      FramesCons(components);
      ReadFrameOfFrame(components[0], Frames(components[1..]));
      FramesRoundTrip(components[1..]);
      assert [components[0]] + components[1..] == components;
    }
  }

  /** The bytes that are hashed determine account, subject, torrent and operation. */
  lemma HashInputInjective(
    account: string, subject: string, torrent: string, operation: Operation,
    account': string, subject': string, torrent': string, operation': Operation)
    requires Fits(account) && Fits(subject) && Fits(torrent)
    requires Fits(account') && Fits(subject') && Fits(torrent')
    requires HashInput(account, subject, torrent, operation) == HashInput(account', subject', torrent', operation')
    ensures account == account' && subject == subject' && torrent == torrent' && operation == operation'
  {
    var a := [account, subject, torrent, Label(operation)];
    var b := [account', subject', torrent', Label(operation')];
    EightBytesHold64Bits();
    assert Frames(a) == HashInput(account, subject, torrent, operation)[|DOMAIN|..];
    assert Frames(b) == HashInput(account', subject', torrent', operation')[|DOMAIN|..];
    FramesRoundTrip(a);
    FramesRoundTrip(b);
    assert a[0] == b[0] && a[1] == b[1] && a[2] == b[2] && a[3] == b[3];
    assert Label(QbAddTorrent)[0] != Label(HardlinkFiles)[0];
  }

  /** The incremental hash context, as the bytes it has been fed. */
  method FeedHash(account: string, subject: string, torrent: string, operation: Operation) returns (fed: string)
    ensures fed == HashInput(account, subject, torrent, operation)
  {
    var components := [account, subject, torrent, Label(operation)];
    fed := DOMAIN;
    for k := 0 to |components|
      invariant fed == DOMAIN + Frames(components[..k])
    {
      assert components[..k + 1][..k] == components[..k];
      fed := fed + BigEndian(|components[k]|, 8);
      fed := fed + components[k];
    }
    assert components[..4] == components;
  }

  // ---------------------------------------------------------------- the key text

  function Hex(bytes: seq<Byte>): (r: string)
    ensures |r| == 2 * |bytes| && forall c :: c in r ==> IsHexDigit(c)
  {
    if bytes == [] then ""
    else
      var last := bytes[|bytes| - 1] as int;
      Hex(bytes[..|bytes| - 1]) + [HexDigit(last / 16), HexDigit(last % 16)]
  }

  function StableKey(account: string, subject: string, torrent: string, operation: Operation, digest: string -> seq<Byte>): string {
    KeyPrefix(operation) + Hex(digest(HashInput(account, subject, torrent, operation)))
  }

  /** The two digits of a byte tell it from every other. */
  lemma DigitsInjective(x: Byte, y: Byte)
    requires HexDigit(x as int / 16) == HexDigit(y as int / 16) && HexDigit(x as int % 16) == HexDigit(y as int % 16)
    ensures x == y
  {
  }

  lemma HexLast(a: seq<Byte>)
    requires a != []
    ensures var m := |a| - 1;
      && Hex(a)[..2 * m] == Hex(a[..m])
      && Hex(a)[2 * m] == HexDigit(a[m] as int / 16) && Hex(a)[2 * m + 1] == HexDigit(a[m] as int % 16)
  {
  }

  lemma {:induction false} HexInjective(a: seq<Byte>, b: seq<Byte>)
    requires Hex(a) == Hex(b)
    ensures a == b
  {
    hide Hex, HexDigit;
    if a != [] && b != [] {
      var m := |a| - 1;
      HexLast(a);
      HexLast(b);
      HexInjective(a[..m], b[..m]);
      DigitsInjective(a[m], b[m]);
      assert a == a[..m] + [a[m]] && b == b[..m] + [b[m]];
    }
  }

  /** Two identities share a key only if they are the same or the digest collides on their two inputs. */
  lemma SharedKeyMeansCollision(
    account: string, subject: string, torrent: string, operation: Operation,
    account': string, subject': string, torrent': string, operation': Operation, digest: string -> seq<Byte>)
    requires Fits(account) && Fits(subject) && Fits(torrent)
    requires Fits(account') && Fits(subject') && Fits(torrent')
    requires StableKey(account, subject, torrent, operation, digest) == StableKey(account', subject', torrent', operation', digest)
    ensures operation == operation'
    ensures var x, y := HashInput(account, subject, torrent, operation), HashInput(account', subject', torrent', operation');
      digest(x) == digest(y) && (x == y <==> account == account' && subject == subject' && torrent == torrent')
  {
    var x, y := HashInput(account, subject, torrent, operation), HashInput(account', subject', torrent', operation');
    var k, k' := StableKey(account, subject, torrent, operation, digest), StableKey(account', subject', torrent', operation', digest);
    assert k[0] == KeyPrefix(operation)[0] && k'[0] == KeyPrefix(operation')[0];
    assert Hex(digest(x)) == k[|KeyPrefix(operation)|..] == Hex(digest(y));
    HexInjective(digest(x), digest(y));
    if x == y {
      HashInputInjective(account, subject, torrent, operation, account', subject', torrent', operation');
    }
  }

  lemma HexDigitIsPlain(c: char)
    requires IsHexDigit(c)
    ensures c != ',' && !IsWhitespace(c)
  {
  }

  lemma PrefixIsPlain(operation: Operation, c: char)
    requires c in KeyPrefix(operation)
    ensures c != ',' && !IsWhitespace(c)
  {
  }

  /** Every byte as two digits of `0123456789abcdef`, the higher half first. */
  lemma {:induction false} HexIs(bytes: seq<Byte>, k: nat)
    requires k < |bytes|
    ensures Hex(bytes)[2 * k] == "0123456789abcdef"[bytes[k] as int / 16]
    ensures Hex(bytes)[2 * k + 1] == "0123456789abcdef"[bytes[k] as int % 16]
  {
    HexLast(bytes);
    HexDigitListed(bytes[k] as int / 16);
    HexDigitListed(bytes[k] as int % 16);
    if k < |bytes| - 1 {
      HexIs(bytes[..|bytes| - 1], k);
      assert Hex(bytes)[2 * k] == Hex(bytes)[..2 * (|bytes| - 1)][2 * k];
      assert Hex(bytes)[2 * k + 1] == Hex(bytes)[..2 * (|bytes| - 1)][2 * k + 1];
    }
  }

  lemma LastByte(n: nat, width: nat)
    requires width > 0
    ensures BigEndian(n, width)[..width - 1] == BigEndian(n / 256, width - 1)
    ensures BigEndian(n, width)[width - 1] as nat == n % 256
  {
  }

  /** The byte that stands before the last `k`. */
  lemma {:induction false} ByteAt(n: nat, width: nat, k: nat)
    requires k < width
    ensures BigEndian(n, width)[width - 1 - k] as nat == Shifted(n, k) % 256
  {
    LastByte(n, width);
    if k > 0 {
      ByteAt(n / 256, width - 1, k - 1);
      assert BigEndian(n, width)[width - 1 - k] == BigEndian(n / 256, width - 1)[width - 2 - (k - 1)];
    }
  }

  /** What is left when the last `k` bytes are cut off. */
  function Shifted(n: nat, k: nat): nat {
    if k == 0 then n else Shifted(n / 256, k - 1)
  }

  /** A length as eight bytes, the most significant first. */
  lemma LengthBytes(n: nat)
    requires n < 0x1_0000_0000_0000_0000
    ensures var b := BigEndian(n, 8);
      && |b| == 8
      && n == b[0] as nat * 0x100_0000_0000_0000 + b[1] as nat * 0x1_0000_0000_0000 + b[2] as nat * 0x100_0000_0000
            + b[3] as nat * 0x1_0000_0000 + b[4] as nat * 0x100_0000 + b[5] as nat * 0x1_0000 + b[6] as nat * 0x100 + b[7] as nat
  {
    hide BigEndian;
    ByteAt(n, 8, 0);
    ByteAt(n, 8, 1);
    ByteAt(n, 8, 2);
    ByteAt(n, 8, 3);
    ByteAt(n, 8, 4);
    ByteAt(n, 8, 5);
    ByteAt(n, 8, 6);
    ByteAt(n, 8, 7);
    EightDigits(n);
  }

  lemma EightDigits(n: nat)
    requires n < 0x1_0000_0000_0000_0000
    ensures n == Shifted(n, 7) % 256 * 0x100_0000_0000_0000 + Shifted(n, 6) % 256 * 0x1_0000_0000_0000
               + Shifted(n, 5) % 256 * 0x100_0000_0000 + Shifted(n, 4) % 256 * 0x1_0000_0000 + Shifted(n, 3) % 256 * 0x100_0000
               + Shifted(n, 2) % 256 * 0x1_0000 + Shifted(n, 1) % 256 * 0x100 + Shifted(n, 0) % 256
  {
    hide Shifted;
    FourDigits(n, 0);
    FourDigits(n, 4);
    ShiftedNext(n, 0);
    ShiftedNext(n, 7);
  }

  lemma FourDigits(n: nat, k: nat)
    ensures Shifted(n, k) == Shifted(n, k + 4) * 0x1_0000_0000 + Shifted(n, k + 3) % 256 * 0x100_0000
               + Shifted(n, k + 2) % 256 * 0x1_0000 + Shifted(n, k + 1) % 256 * 0x100 + Shifted(n, k) % 256
  {
    hide Shifted;
    ShiftedNext(n, k);
    ShiftedNext(n, k + 1);
    ShiftedNext(n, k + 2);
    ShiftedNext(n, k + 3);
  }

  lemma {:induction false} ShiftedNext(n: nat, k: nat)
    ensures Shifted(n, 0) == n && Shifted(n, k + 1) == Shifted(n, k) / 256
  {
    if k > 0 {
      ShiftedNext(n / 256, k - 1);
    }
  }

  /** What is hashed, written out: the domain, and each component behind its length. */
  lemma HashInputIs(account: string, subject: string, torrent: string, operation: Operation)
    ensures HashInput(account, subject, torrent, operation) ==
      "tmdb-mteam-hub/external-effect/v1\0"
      + (((BigEndian(|account|, 8) + account) + (BigEndian(|subject|, 8) + subject)) + (BigEndian(|torrent|, 8) + torrent)
         + (BigEndian(14, 8) + (if operation == QbAddTorrent then "qb_add_torrent" else "hardlink_files")))
  {
    var name := Label(operation);
    assert |name| == 14;
    assert Frames([]) == "" && "" + Frame(account) == Frame(account);
    hide Frames, Frame, BigEndian, Label;
    FramesSnoc([], account);
    FramesSnoc([account], subject);
    FramesSnoc([account, subject], torrent);
    FramesSnoc([account, subject, torrent], name);
    assert [] + [account] == [account] && [account] + [subject] == [account, subject];
    assert [account, subject] + [torrent] == [account, subject, torrent];
    assert [account, subject, torrent] + [name] == [account, subject, torrent, name];
    FrameIs(account);
    FrameIs(subject);
    FrameIs(torrent);
    FrameIs(name);
    LabelIs(operation);
  }

  lemma LabelIs(operation: Operation)
    ensures Label(operation) == if operation == QbAddTorrent then "qb_add_torrent" else "hardlink_files"
  {
  }

  lemma FrameIs(component: string)
    ensures Frame(component) == BigEndian(|component|, 8) + component
  {
  }

  /** The key, written out. */
  lemma KeyIs(account: string, subject: string, torrent: string, operation: Operation, digest: string -> seq<Byte>)
    ensures StableKey(account, subject, torrent, operation, digest) ==
      (if operation == QbAddTorrent then "download:v1:" else "link:v1:") + Hex(digest(HashInput(account, subject, torrent, operation)))
  {
  }

  /** The key survives qB's comma-separated tag lists: non-empty, trimmed and free of commas. */
  lemma KeyIsSafeTag(account: string, subject: string, torrent: string, operation: Operation, digest: string -> seq<Byte>)
    ensures var key := StableKey(account, subject, torrent, operation, digest);
      key != "" && Trimmed(key) && ',' !in key
  {
    hide Hex, HashInput, IsHexDigit, IsWhitespace;
    var key := StableKey(account, subject, torrent, operation, digest);
    forall c | c in key ensures c != ',' && !IsWhitespace(c) {
      if c !in KeyPrefix(operation) {
        HexDigitIsPlain(c);
      } else {
        PrefixIsPlain(operation, c);
      }
    }
    assert key[0] in key && key[|key| - 1] in key;
  }
}
