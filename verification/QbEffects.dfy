/**
 The qBittorrent add effect: list by stable tag, list by hash, merge, reconcile, and only then add.
 First one call against a server that may refuse to answer; then every interleaving of calls for
 any number of keys, with crashes, lost requests, lost responses and changes by others.
 */
module QbEffects {
  import opened Wrappers
  import opened Text
  import opened QbReconcile
  import opened StringSet

  /** A torrent as the server lists it; tags are one comma-separated string. */
  datatype Info = Info(hash: string, name: string, tags: string)

  function ParseTags(tags: string): set<string> {
    set piece | piece in Split(tags, ',') && Trim(piece) != "" :: Trim(piece)
  }

  // ---------------------------------------------------------- tags on the wire

  /** How the server writes a tag list. */
  function JoinTags(tags: seq<string>): string {
    if tags == [] then ""
    else if |tags| == 1 then tags[0]
    else tags[0] + [','] + (" " + JoinTags(tags[1..]))
  }

  predicate WireTag(tag: string) {
    tag != "" && Trimmed(tag) && ',' !in tag
  }

  lemma TrimPadded(pad: string, tag: string)
    requires pad == "" || pad == " "
    requires Trimmed(tag)
    ensures Trim(pad + tag) == tag
  {
    TrimShape(tag);
    if pad == " " {
      assert (" " + tag)[1..] == tag;
    } else {
      assert pad + tag == tag;
    }
  }

  lemma PieceParsed(pad: string, tag: string)
    requires pad == "" || pad == " "
    requires WireTag(tag)
    ensures ParseTags(pad + tag) == {tag}
    ensures forall rest :: ParseTags(pad + tag + [','] + rest) == {tag} + ParseTags(rest)
  {
    hide Split, Trim, Trimmed;
    TrimPadded(pad, tag);
    SplitAt(pad + tag, ',', "");
    forall rest ensures ParseTags(pad + tag + [','] + rest) == {tag} + ParseTags(rest) {
      SplitAt(pad + tag, ',', rest);
      SplitParsed(pad + tag + [','] + rest, pad + tag, rest);
    }
  }

  lemma SplitParsed(tags: string, piece: string, rest: string)
    requires Split(tags, ',') == [piece] + Split(rest, ',') && Trim(piece) != ""
    ensures ParseTags(tags) == {Trim(piece)} + ParseTags(rest)
  {
    hide Split, Trim;
    assert forall p :: p in Split(tags, ',') <==> p == piece || p in Split(rest, ',');
  }

  /** Tags without commas or outer blanks come back as they were written. */
  lemma {:induction false} ParseTagsOfJoin(pad: string, tags: seq<string>)
    requires pad == "" || pad == " "
    requires tags != [] && forall t :: t in tags ==> WireTag(t)
    ensures ParseTags(pad + JoinTags(tags)) == set t | t in tags
    decreases |tags|
  {
    hide ParseTags, WireTag;
    assert tags[0] in tags;
    PieceParsed(pad, tags[0]);
    if |tags| > 1 {
      var rest := " " + JoinTags(tags[1..]);
      assert pad + JoinTags(tags) == pad + tags[0] + [','] + rest;
      ParseTagsOfJoin(" ", tags[1..]);
      assert forall t :: t in tags <==> t == tags[0] || t in tags[1..];
    }
  }

  /** From `i` to `j` stands one piece of the list: no comma in it, and a comma or nothing on both sides. */
  predicate PieceFrom(tags: string, i: nat, j: nat) {
    && i <= j <= |tags| && ',' !in tags[i..j]
    && (i > 0 ==> tags[i - 1] == ',') && (j < |tags| ==> tags[j] == ',')
  }

  lemma {:induction false} PiecesAre(tags: string, piece: string)
    ensures piece in Split(tags, ',') <==> exists i: nat, j: nat :: PieceFrom(tags, i, j) && tags[i..j] == piece
    decreases |tags|
  {
    var n := FirstComma(tags);
    if n == |tags| {
      SplitAt(tags, ',', "");
      OnePiece(tags, piece);
    } else {
      var first, rest := tags[..n], tags[n + 1..];
      assert tags == first + [','] + rest;
      SplitAt(first, ',', rest);
      PiecesAre(rest, piece);
      hide Split;
      PieceOrLater(tags, n, rest, piece);
    }
  }

  lemma {:induction false} FirstComma(t: string) returns (n: nat)
    ensures n <= |t| && ',' !in t[..n] && (n < |t| ==> t[n] == ',')
  {
    if t == "" || t[0] == ',' {
      n := 0;
    } else {
      n := FirstComma(t[1..]);
      assert t[..n + 1] == [t[0]] + t[1..][..n];
      n := n + 1;
    }
  }

  lemma OnePiece(tags: string, piece: string)
    requires ',' !in tags
    ensures (exists i: nat, j: nat :: PieceFrom(tags, i, j) && tags[i..j] == piece) <==> piece == tags
  {
    assert tags[0..|tags|] == tags && PieceFrom(tags, 0, |tags|);
    NoComma(tags, 0, |tags|);
  }

  lemma NoComma(tags: string, i: nat, j: nat)
    requires i <= j <= |tags| && ',' !in tags[i..j]
    ensures forall k :: i <= k < j ==> tags[k] != ','
  {
    forall k | i <= k < j ensures tags[k] in tags[i..j] {
      assert tags[i..j][k - i] == tags[k];
    }
  }

  lemma PieceOrLater(tags: string, n: nat, rest: string, piece: string)
    requires n < |tags| && ',' !in tags[..n] && tags[n] == ',' && rest == tags[n + 1..]
    ensures (exists i: nat, j: nat :: PieceFrom(tags, i, j) && tags[i..j] == piece) <==>
      piece == tags[..n] || exists i: nat, j: nat :: PieceFrom(rest, i, j) && rest[i..j] == piece
  {
    assert tags[0..n] == tags[..n] && PieceFrom(tags, 0, n);
    if i: nat, j: nat :| PieceFrom(tags, i, j) && tags[i..j] == piece {
      if i <= n {
        FirstPiece(tags, n, i, j);
      } else {
        assert rest[i - n - 1..j - n - 1] == tags[i..j];
        assert i - n - 1 > 0 ==> rest[i - n - 2] == tags[i - 1];
        assert PieceFrom(rest, i - n - 1, j - n - 1);
      }
    }
    if i: nat, j: nat :| PieceFrom(rest, i, j) && rest[i..j] == piece {
      assert rest[i..j] == tags[i + n + 1..j + n + 1];
      assert i > 0 ==> tags[i + n] == rest[i - 1];
      assert PieceFrom(tags, i + n + 1, j + n + 1);
    }
  }

  lemma FirstPiece(tags: string, n: nat, i: nat, j: nat)
    requires n < |tags| && ',' !in tags[..n] && tags[n] == ',' && PieceFrom(tags, i, j) && i <= n
    ensures i == 0 && j == n
  {
    assert tags[0..n] == tags[..n];
    NoComma(tags, 0, n);
    NoComma(tags, i, j);
  }

  /** The tags of a list, whatever it looks like: what stands between its commas, trimmed, unless that is nothing. */
  lemma TagsAre(tags: string, t: string)
    ensures t in ParseTags(tags) <==> t != "" && exists i: nat, j: nat :: PieceFrom(tags, i, j) && Trim(tags[i..j]) == t
  {
    hide Split, Trim;
    if t in ParseTags(tags) {
      var piece :| piece in Split(tags, ',') && Trim(piece) == t;
      PiecesAre(tags, piece);
    }
    if i: nat, j: nat :| t != "" && PieceFrom(tags, i, j) && Trim(tags[i..j]) == t {
      PiecesAre(tags, tags[i..j]);
    }
  }

  // ------------------------------------------------------------------- merging

  predicate AllValid(infos: seq<Info>) {
    forall i :: 0 <= i < |infos| ==> NormalizeHash(infos[i].hash).Ok?
  }

  function Observe(info: Info): Observation
    requires NormalizeHash(info.hash).Ok?
  {
    Observation(NormalizeHash(info.hash).value, info.name, ParseTags(info.tags))
  }

  function ObserveAll(infos: seq<Info>): (r: seq<Observation>)
    requires AllValid(infos)
    ensures |r| == |infos| && forall i :: 0 <= i < |infos| ==> r[i] == Observe(infos[i])
  {
    seq(|infos|, i requires 0 <= i < |infos| => Observe(infos[i]))
  }

  /** The first non-empty name given for a hash. */
  function FirstName(observations: seq<Observation>, hash: Hash): string {
    if observations == [] then ""
    else
      var name, last := FirstName(observations[..|observations| - 1], hash), observations[|observations| - 1];
      if name == "" && last.hash == hash then last.name else name
  }

  /** It names the hash, and nothing before it does. */
  predicate FirstNaming(observations: seq<Observation>, hash: Hash, k: nat) {
    && k < |observations| && observations[k].hash == hash && observations[k].name != ""
    && forall j :: 0 <= j < k && observations[j].hash == hash ==> observations[j].name == ""
  }

  /** The name given to a hash is the first that is not empty. */
  lemma {:induction false} FirstNameIs(observations: seq<Observation>, hash: Hash)
    ensures forall k: nat :: FirstNaming(observations, hash, k) ==> FirstName(observations, hash) == observations[k].name
    ensures FirstName(observations, hash) != "" ==> exists k: nat :: FirstNaming(observations, hash, k)
  {
    if observations != [] {
      var init, n := observations[..|observations| - 1], |observations| - 1;
      FirstNameIs(init, hash);
      forall k: nat | k < n ensures FirstNaming(observations, hash, k) <==> FirstNaming(init, hash, k) {
      }
      if FirstName(init, hash) == "" {
        forall k: nat | k < n ensures !FirstNaming(init, hash, k) {
        }
        NoNaming(init, hash, n);
        assert observations[n].hash == hash && observations[n].name != "" ==> FirstNaming(observations, hash, n);
      } else {
        var k: nat :| FirstNaming(init, hash, k);
        assert FirstNaming(observations, hash, k);
        assert !FirstNaming(observations, hash, n);
      }
    }
  }

  lemma {:induction false} NoNaming(observations: seq<Observation>, hash: Hash, n: nat)
    requires n <= |observations| && forall k: nat :: k < n ==> !FirstNaming(observations, hash, k)
    ensures forall j :: 0 <= j < n && observations[j].hash == hash ==> observations[j].name == ""
  {
    if n > 0 {
      NoNaming(observations, hash, n - 1);
      assert !FirstNaming(observations, hash, n - 1);
    }
  }

  datatype Merged = Merged(name: string, tags: set<string>)

  /** What the observations say, hash by hash, as it accumulates. */
  ghost predicate MergesTo(observations: seq<Observation>, merged: map<Hash, Merged>) {
    && merged.Keys == HashesOf(observations)
    && (forall h :: h in merged ==> merged[h].tags == TagsSeen(observations, h))
    && (forall h :: h in merged ==> merged[h].name == FirstName(observations, h))
  }

  function MergeInto(merged: map<Hash, Merged>, o: Observation): map<Hash, Merged> {
    var entry := if o.hash in merged then merged[o.hash] else Merged("", {});
    merged[o.hash := Merged(if entry.name == "" && o.name != "" then o.name else entry.name, entry.tags + o.tags)]
  }

  lemma {:induction false} NoName(observations: seq<Observation>, hash: Hash)
    requires forall o :: o in observations ==> o.hash != hash
    ensures FirstName(observations, hash) == ""
  {
    if observations != [] {
      var init, last := observations[..|observations| - 1], observations[|observations| - 1];
      assert last in observations && forall o :: o in init ==> o in observations;
      NoName(init, hash);
    }
  }

  lemma TagsSeenSnoc(observations: seq<Observation>, o: Observation, h: Hash)
    ensures TagsSeen(observations + [o], h) == TagsSeen(observations, h) + if h == o.hash then o.tags else {}
  {
    var all := observations + [o];
    assert forall p :: p in all <==> p in observations || p == o;
    assert forall t :: t in TagsSeen(all, h) <==> t in TagsSeen(observations, h) || (h == o.hash && t in o.tags);
  }

  lemma FirstNameSnoc(observations: seq<Observation>, o: Observation, h: Hash)
    ensures FirstName(observations + [o], h)
         == if FirstName(observations, h) == "" && o.hash == h then o.name else FirstName(observations, h)
  {
    assert (observations + [o])[..|observations|] == observations;
  }

  lemma HashesSnoc(observations: seq<Observation>, o: Observation)
    ensures HashesOf(observations + [o]) == HashesOf(observations) + {o.hash}
  {
    assert forall p :: p in observations + [o] <==> p in observations || p == o;
  }

  lemma MergeOne(observations: seq<Observation>, merged: map<Hash, Merged>, o: Observation)
    requires MergesTo(observations, merged)
    ensures MergesTo(observations + [o], MergeInto(merged, o))
  {
    hide TagsSeen, FirstName, HashesOf;
    var all, after := observations + [o], MergeInto(merged, o);
    HashesSnoc(observations, o);
    if o.hash !in merged {
      NothingSeen(observations, o.hash);
    }
    forall h | h in after ensures after[h].tags == TagsSeen(all, h) && after[h].name == FirstName(all, h) {
      TagsSeenSnoc(observations, o, h);
      FirstNameSnoc(observations, o, h);
    }
  }

  lemma NothingSeen(observations: seq<Observation>, hash: Hash)
    requires hash !in HashesOf(observations)
    ensures TagsSeen(observations, hash) == {} && FirstName(observations, hash) == ""
  {
    NoName(observations, hash);
  }

  function HashSeq(observations: seq<Observation>): (r: seq<Hash>)
    ensures |r| == |observations| && forall i :: 0 <= i < |r| ==> r[i] == observations[i].hash
  {
    seq(|observations|, i requires 0 <= i < |observations| => observations[i].hash)
  }

  /** One observation per hash, in order, with the first name given and every tag seen. */
  ghost predicate IsMerged(observations: seq<Observation>, merged: seq<Observation>) {
    && Ascending(HashSeq(merged))
    && (forall h :: h in HashSeq(merged) <==> h in HashesOf(observations))
    && forall i :: 0 <= i < |merged| ==> MergedEntry(observations, merged[i])
  }

  ghost predicate MergedEntry(observations: seq<Observation>, o: Observation) {
    o == Observation(o.hash, FirstName(observations, o.hash), TagsSeen(observations, o.hash))
  }

  /** Which settles the merged list. */
  lemma MergedIsUnique(observations: seq<Observation>, a: seq<Observation>, b: seq<Observation>)
    requires IsMerged(observations, a) && IsMerged(observations, b)
    ensures a == b
  {
    AscendingUnique(HashSeq(a), HashSeq(b));
    forall i | 0 <= i < |a| ensures a[i] == b[i] {
      assert HashSeq(a)[i] == a[i].hash && HashSeq(b)[i] == b[i].hash;
      assert MergedEntry(observations, a[i]) && MergedEntry(observations, b[i]);
    }
  }

  lemma MergedHashes(observations: seq<Observation>, merged: seq<Observation>)
    requires IsMerged(observations, merged)
    ensures HashesOf(merged) == HashesOf(observations)
  {
    forall h ensures h in HashesOf(merged) <==> h in HashSeq(merged) {
      if h in HashesOf(merged) {
        var o :| o in merged && o.hash == h;
        var i :| 0 <= i < |merged| && merged[i] == o;
        assert HashSeq(merged)[i] == h;
      }
      if h in HashSeq(merged) {
        var i :| 0 <= i < |merged| && HashSeq(merged)[i] == h;
        assert merged[i] in merged;
      }
    }
  }

  lemma MergedSeen(observations: seq<Observation>, merged: seq<Observation>, h: Hash)
    requires IsMerged(observations, merged)
    ensures TagsSeen(merged, h) == TagsSeen(observations, h)
  {
    MergedHashes(observations, merged);
    if h in HashesOf(observations) {
      var i :| 0 <= i < |merged| && HashSeq(merged)[i] == h;
      assert MergedEntry(observations, merged[i]) && merged[i] in merged;
      forall o | o in merged && o.hash == h ensures o.tags == TagsSeen(observations, h) {
        var k :| 0 <= k < |merged| && merged[k] == o;
        assert MergedEntry(observations, merged[k]);
      }
    } else {
      NothingSeen(observations, h);
      NothingSeen(merged, h);
    }
  }

  /** Merging keeps the union view, so it cannot change a verdict. */
  lemma MergingKeepsVerdict(request: Request, observations: seq<Observation>, merged: seq<Observation>, da: Decision, db: Decision)
    requires IsMerged(observations, merged)
    requires IsVerdict(request, UnionOf(observations), VerdictOf(da)) && IsVerdict(request, UnionOf(merged), VerdictOf(db))
    ensures UnionOf(merged) == UnionOf(observations) && VerdictOf(da) == VerdictOf(db)
  {
    MergedHashes(observations, merged);
    forall h ensures TagsSeen(merged, h) == TagsSeen(observations, h) {
      MergedSeen(observations, merged, h);
    }
    UnionBySeen(merged, observations);
    SameUnionSameVerdict(request, observations, merged, da, db);
  }

  lemma ObserveNext(infos: seq<Info>, k: nat)
    requires k < |infos| && AllValid(infos[..k])
    ensures AllValid(infos[..k + 1]) <==> NormalizeHash(infos[k].hash).Ok?
    ensures AllValid(infos[..k + 1]) ==> ObserveAll(infos[..k + 1]) == ObserveAll(infos[..k]) + [Observe(infos[k])]
    ensures AllValid(infos) ==> AllValid(infos[..k + 1])
  {
    assert infos[..k + 1] == infos[..k] + [infos[k]];
  }

  method MergeObservations(tagged: seq<Info>, hashed: seq<Info>) returns (r: Result<seq<Observation>, IdentityError>)
    ensures r.Ok? <==> AllValid(tagged + hashed)
    ensures r.Err? ==> r.error == InvalidQbHash("observed_hash")
    ensures r.Ok? ==> IsMerged(ObserveAll(tagged + hashed), r.value)
  {
    hide MergesTo, IsMerged;
    var infos := tagged + hashed;
    var merged: map<Hash, Merged> := map[];
    ghost var seen: seq<Observation> := [];
    NothingMerged();
    for k := 0 to |infos|
      invariant AllValid(infos[..k]) && seen == ObserveAll(infos[..k])
      invariant MergesTo(seen, merged)
    {
      ObserveNext(infos, k);
      var hash := NormalizeHash(infos[k].hash);
      if hash.Err? {
        return Err(hash.error);
      }
      var entry := if hash.value in merged then merged[hash.value] else Merged("", {});
      var name := if entry.name == "" && infos[k].name != "" then infos[k].name else entry.name;
      MergeOne(seen, merged, Observe(infos[k]));
      merged := merged[hash.value := Merged(name, entry.tags + ParseTags(infos[k].tags))];
      seen := seen + [Observe(infos[k])];
    }
    assert infos[..|infos|] == infos;
    var out := Flatten(merged, seen);
    r := Ok(out);
  }

  lemma NothingMerged()
    ensures MergesTo([], map[])
  {
  }

  method Flatten(merged: map<Hash, Merged>, ghost observations: seq<Observation>) returns (out: seq<Observation>)
    requires MergesTo(observations, merged)
    ensures IsMerged(observations, out)
  {
    var hashes := InOrder(merged.Keys);
    out := [];
    for i := 0 to |hashes|
      invariant |out| == i && forall k :: 0 <= k < i ==> out[k].hash == hashes[k] && MergedEntry(observations, out[k])
    {
      var h := hashes[i];
      assert h in hashes;
      out := out + [Observation(h, merged[h].name, merged[h].tags)];
    }
    assert HashSeq(out) == hashes;
  }

  // ------------------------------------------------------------------ one call

  function WithTag(infos: seq<Info>, tag: string): seq<Info> {
    if infos == [] then []
    else if tag in ParseTags(infos[0].tags) then [infos[0]] + WithTag(infos[1..], tag)
    else WithTag(infos[1..], tag)
  }

  function WithHash(infos: seq<Info>, hash: Hash): seq<Info> {
    if infos == [] then []
    else if NormalizeHash(infos[0].hash) == Ok(hash) then [infos[0]] + WithHash(infos[1..], hash)
    else WithHash(infos[1..], hash)
  }

  lemma {:induction false} WithTagMembers(infos: seq<Info>, tag: string)
    ensures forall info :: info in WithTag(infos, tag) <==> info in infos && tag in ParseTags(info.tags)
  {
    if infos != [] {
      WithTagMembers(infos[1..], tag);
    }
  }

  lemma {:induction false} WithHashMembers(infos: seq<Info>, hash: Hash)
    ensures forall info :: info in WithHash(infos, hash) <==> info in infos && NormalizeHash(info.hash) == Ok(hash)
  {
    if infos != [] {
      WithHashMembers(infos[1..], hash);
    }
  }

  /** What the two listings show of the server, in the order they are merged. */
  function Visible(infos: seq<Info>, request: Request): seq<Info> {
    WithTag(infos, request.key) +
    (if request.authoritative.Some? then WithHash(infos, request.authoritative.value.0) else [])
  }

  datatype Stage = InspectTag | InspectHash | AddStage

  datatype EnsureOutcome =
    | Added(key: string)
    | Reconciled(torrent: Observation, matchedBy: MatchedBy)

  datatype EnsureError =
    | Transport(stage: Stage)
    | InvalidObservation(error: IdentityError)
    | ConflictFound(conflict: ReconciliationConflict)

  /** How the server treats an add: not at all, or accepted with the response delivered or lost. */
  datatype AddFate = LostBefore | Accepted(delivered: bool)

  /** The server behind the transport, with what the network will do to the next call. */
  class QbServer {
    var torrents: seq<Info>
    const tagListingFails: bool
    const hashListingFails: bool
    const fate: AddFate
    /** What an accepted add puts on the server. */
    const added: Info

    constructor (torrents: seq<Info>, tagListingFails: bool, hashListingFails: bool, fate: AddFate, added: Info)
      ensures this.torrents == torrents && this.tagListingFails == tagListingFails
      ensures this.hashListingFails == hashListingFails && this.fate == fate && this.added == added
    {
      this.torrents := torrents;
      this.tagListingFails := tagListingFails;
      this.hashListingFails := hashListingFails;
      this.fate := fate;
      this.added := added;
    }

    method ListByExactTag(tag: string) returns (r: Option<seq<Info>>)
      ensures r == if tagListingFails then None else Some(WithTag(torrents, tag))
    {
      r := if tagListingFails then None else Some(WithTag(torrents, tag));
    }

    method ListByHash(hash: Hash) returns (r: Option<seq<Info>>)
      ensures r == if hashListingFails then None else Some(WithHash(torrents, hash))
    {
      r := if hashListingFails then None else Some(WithHash(torrents, hash));
    }

    method Add() returns (ok: bool)
      modifies this
      ensures torrents == if fate.Accepted? then old(torrents) + [added] else old(torrents)
      ensures ok == (fate == Accepted(true))
    {
      if fate.Accepted? {
        torrents := torrents + [added];
      }
      ok := fate == Accepted(true);
    }
  }

  /** What a call returns once both listings have answered with valid observations. */
  ghost predicate Answers(
    request: Request, server: QbServer, observed: seq<Observation>, verdict: Verdict, r: Result<EnsureOutcome, EnsureError>)
  {
    match verdict
    case Existing(hash, matched) =>
      r == Ok(Reconciled(Observation(hash, FirstName(observed, hash), TagsSeen(observed, hash)), matched))
    case Refuse(conflict) => r == Err(ConflictFound(conflict))
    case MayAdd => r == if server.fate == Accepted(true) then Ok(Added(request.key)) else Err(Transport(AddStage))
  }

  /** Reconciling the merged observations is reconciling all of them. */
  lemma ReconciledOverAll(request: Request, observed: seq<Observation>, merged: seq<Observation>, decision: Decision)
    requires IsMerged(observed, merged) && IsVerdict(request, UnionOf(merged), VerdictOf(decision))
    requires decision.UseExisting? ==> FirstSeen(merged, decision.torrent.hash) == Some(decision.torrent)
    ensures IsVerdict(request, UnionOf(observed), VerdictOf(decision))
    ensures decision.UseExisting? ==> MergedEntry(observed, decision.torrent)
  {
    MergedHashes(observed, merged);
    forall h ensures TagsSeen(merged, h) == TagsSeen(observed, h) {
      MergedSeen(observed, merged, h);
    }
    UnionBySeen(merged, observed);
    if decision.UseExisting? {
      FirstSeenShape(merged, decision.torrent.hash);
      var i :| 0 <= i < |merged| && merged[i] == decision.torrent;
      assert MergedEntry(observed, merged[i]);
    }
  }

  class QbEffectAdapter {
    const server: QbServer

    constructor (server: QbServer)
      ensures this.server == server
    {
      this.server := server;
    }

    /** Adds at most once, and only when neither the tag nor the hash is on the server. */
    method Ensure(request: Request) returns (r: Result<EnsureOutcome, EnsureError>, ghost verdict: Verdict)
      modifies server
      ensures var visible := Visible(old(server.torrents), request);
        if server.tagListingFails then r == Err(Transport(InspectTag)) && server.torrents == old(server.torrents)
        else if request.authoritative.Some? && server.hashListingFails then
          r == Err(Transport(InspectHash)) && server.torrents == old(server.torrents)
        else if !AllValid(visible) then
          r == Err(InvalidObservation(InvalidQbHash("observed_hash"))) && server.torrents == old(server.torrents)
        else
          && IsVerdict(request, UnionOf(ObserveAll(visible)), verdict)
          && Answers(request, server, ObserveAll(visible), verdict, r)
          && server.torrents ==
             if verdict == MayAdd && server.fate.Accepted? then old(server.torrents) + [server.added] else old(server.torrents)
    {
      verdict := MayAdd;
      var tagged := server.ListByExactTag(request.key);
      if tagged == None {
        return Err(Transport(InspectTag)), MayAdd;
      }
      var hashed: seq<Info> := [];
      if request.authoritative.Some? {
        var listed := server.ListByHash(request.authoritative.value.0);
        if listed == None {
          return Err(Transport(InspectHash)), MayAdd;
        }
        hashed := listed.value;
      }
      var observations := MergeObservations(tagged.value, hashed);
      if observations.Err? {
        return Err(InvalidObservation(observations.error)), MayAdd;
      }
      var decision := Reconcile(request, observations.value);
      verdict := VerdictOf(decision);
      ReconciledOverAll(request, ObserveAll(tagged.value + hashed), observations.value, decision);
      match decision {
        case UseExisting(torrent, matched) => r := Ok(Reconciled(torrent, matched));
        case Conflict(conflict) => r := Err(ConflictFound(conflict));
        case Add =>
          var ok := server.Add();
          r := if ok then Ok(Added(request.key)) else Err(Transport(AddStage));
      }
    }
  }

  ghost predicate Carries(infos: seq<Info>, hash: Hash, tag: string) {
    exists info :: info in infos && NormalizeHash(info.hash) == Ok(hash) && tag in ParseTags(info.tags)
  }

  ghost predicate Lists(infos: seq<Info>, hash: Hash) {
    exists info :: info in infos && NormalizeHash(info.hash) == Ok(hash)
  }

  lemma TaggedIff(infos: seq<Info>, tag: string, hash: Hash)
    requires AllValid(infos)
    ensures hash in Tagged(UnionOf(ObserveAll(infos)), tag) <==> Carries(infos, hash, tag)
  {
    var observed := ObserveAll(infos);
    TaggedMembers(observed, tag);
    if hash in Tagged(UnionOf(observed), tag) {
      var o :| o in observed && o.hash == hash && tag in o.tags;
      var i :| 0 <= i < |observed| && observed[i] == o;
      assert infos[i] in infos;
    }
    if Carries(infos, hash, tag) {
      var info :| info in infos && NormalizeHash(info.hash) == Ok(hash) && tag in ParseTags(info.tags);
      var i :| 0 <= i < |infos| && infos[i] == info;
      assert observed[i] in observed;
    }
  }

  lemma ListedIff(infos: seq<Info>, hash: Hash)
    requires AllValid(infos)
    ensures hash in UnionOf(ObserveAll(infos)) <==> Lists(infos, hash)
  {
    var observed := ObserveAll(infos);
    if hash in UnionOf(observed) {
      var o :| o in observed && o.hash == hash;
      var i :| 0 <= i < |observed| && observed[i] == o;
      assert infos[i] in infos;
    }
    if Lists(infos, hash) {
      var info :| info in infos && NormalizeHash(info.hash) == Ok(hash);
      var i :| 0 <= i < |infos| && infos[i] == info;
      assert observed[i] in observed;
    }
  }

  /** A listing shows every torrent with the tag and, if one is known, every torrent with the hash. */
  lemma VisibleMembers(infos: seq<Info>, request: Request)
    ensures forall info :: info in Visible(infos, request) <==>
      info in infos &&
      (request.key in ParseTags(info.tags) ||
       (request.authoritative.Some? && NormalizeHash(info.hash) == Ok(request.authoritative.value.0)))
  {
    WithTagMembers(infos, request.key);
    if request.authoritative.Some? {
      WithHashMembers(infos, request.authoritative.value.0);
    }
  }

  /** Looking by tag and by hash is enough: the whole server would give the same verdict. */
  lemma VisibleSuffices(request: Request, infos: seq<Info>, v: Verdict)
    requires AllValid(infos) && AllValid(Visible(infos, request))
    ensures IsVerdict(request, UnionOf(ObserveAll(Visible(infos, request))), v) <==>
            IsVerdict(request, UnionOf(ObserveAll(infos)), v)
  {
    var visible := Visible(infos, request);
    var seen, all := UnionOf(ObserveAll(visible)), UnionOf(ObserveAll(infos));
    VisibleMembers(infos, request);
    forall h ensures h in Tagged(seen, request.key) <==> h in Tagged(all, request.key) {
      TaggedIff(visible, request.key, h);
      TaggedIff(infos, request.key, h);
    }
    if request.authoritative.Some? {
      ListedIff(visible, request.authoritative.value.0);
      ListedIff(infos, request.authoritative.value.0);
    }
    SameTaggedSameVerdict(request, seen, all, v);
  }

  /** Of the union view a verdict uses only the tagged hashes and whether the authoritative hash is there. */
  lemma SameTaggedSameVerdict(request: Request, u: Union, u': Union, v: Verdict)
    requires Tagged(u, request.key) == Tagged(u', request.key)
    requires request.authoritative.Some? ==> (request.authoritative.value.0 in u <==> request.authoritative.value.0 in u')
    ensures IsVerdict(request, u, v) <==> IsVerdict(request, u', v)
  {
  }

  /** No torrent of `infos` carries the tag under another hash. */
  ghost predicate OnlyUnder(infos: seq<Info>, tag: string, hash: Hash) {
    forall info :: info in infos && tag in ParseTags(info.tags) ==> NormalizeHash(info.hash) == Ok(hash)
  }

  lemma TaggedAfterAdd(before: seq<Info>, added: Info, tag: string)
    requires AllValid(before + [added]) && tag in ParseTags(added.tags) && NormalizeHash(added.hash).Ok?
    ensures var hash, tagged := NormalizeHash(added.hash).value, Tagged(UnionOf(ObserveAll(before + [added])), tag);
      hash in tagged && (tagged == {hash} <==> OnlyUnder(before, tag, hash))
  {
    var infos, hash := before + [added], NormalizeHash(added.hash).value;
    var tagged := Tagged(UnionOf(ObserveAll(infos)), tag);
    assert added in infos;
    TaggedIff(infos, tag, hash);
    if OnlyUnder(before, tag, hash) {
      forall h | h in tagged ensures h == hash {
        TaggedIff(infos, tag, h);
      }
    } else {
      var info :| info in before && tag in ParseTags(info.tags) && NormalizeHash(info.hash) != Ok(hash);
      var i :| 0 <= i < |before| && before[i] == info;
      assert infos[i] == info && info in infos;
      TaggedIff(infos, tag, NormalizeHash(info.hash).value);
      assert NormalizeHash(info.hash).value in tagged;
    }
  }

  /** Once an add has been accepted, the next undisturbed call finds it and adds nothing, unless the tag or hash disagree. */
  lemma AcceptedAddIsFound(request: Request, before: seq<Info>, added: Info, v: Verdict)
    requires AllValid(before + [added]) && request.key in ParseTags(added.tags) && NormalizeHash(added.hash).Ok?
    requires IsVerdict(request, UnionOf(ObserveAll(before + [added])), v)
    ensures v != MayAdd
    ensures var hash := NormalizeHash(added.hash).value;
      v.Existing? <==> OnlyUnder(before, request.key, hash) &&
                       (request.authoritative.Some? ==> request.authoritative.value.0 == hash)
    ensures v.Existing? ==> v.hash == NormalizeHash(added.hash).value
  {
    TaggedAfterAdd(before, added, request.key);
    VerdictCounts(request, UnionOf(ObserveAll(before + [added])), v);
  }

  // ------------------------------------------------ every run, for every key

  /**
   Where a call for one key stands. Every call brings its own request, made from the hashes known by
   then; `TagListed` and `Inspected` hold what it has observed so far, and between `Adding` and
   `AddAccepted` the server takes the add.
   */
  datatype Phase =
    | Idle
    | TagListed(request: Request, u: Union)
    | Inspected(request: Request, u: Union)
    | Adding(request: Request)
    | AddAccepted

  datatype State = State(server: Union, phase: map<string, Phase>)

  datatype Step =
    | ListTag(request: Request)
    | ListHash(key: string)
    | DecideAndSend(key: string, verdict: Verdict)
    | Accept(key: string, hash: Hash)
    | EndCall(key: string)          // a response, a failed inspection, a lost request or response, a crash
    | Others(server: Union)         // whatever other people and programs do to the server

  /** The part of the server that a listing by tag shows. */
  function ShownByTag(server: Union, tag: string): Union {
    map h | h in server && tag in server[h] :: server[h]
  }

  /** And the part that a listing by the hash of a request shows, if it has one. */
  function ShownByHash(server: Union, request: Request): Union {
    match request.authoritative
    case None => map[]
    case Some((hash, _)) => map h | h in server && h == hash :: server[h]
  }

  function Join(u: Union, v: Union): Union {
    map h | h in u.Keys + v.Keys :: (if h in u then u[h] else {}) + (if h in v then v[h] else {})
  }

  predicate IsTagged(server: Union, tag: string) {
    Tagged(server, tag) != {}
  }

  /** The server has the torrent a request asks for by its hash. */
  predicate HasItsHash(server: Union, request: Request) {
    request.authoritative.Some? && request.authoritative.value.0 in server
  }

  ghost predicate Enabled(s: State, step: Step) {
    match step
    case ListTag(request) => request.key in s.phase && s.phase[request.key].Idle?
    case ListHash(key) => key in s.phase && s.phase[key].TagListed?
    case DecideAndSend(key, v) =>
      key in s.phase && s.phase[key].Inspected? && IsVerdict(s.phase[key].request, s.phase[key].u, v)
    case Accept(key, _) => key in s.phase && s.phase[key].Adding?
    case EndCall(key) => key in s.phase
    case Others(_) => true
  }

  ghost function Apply(s: State, step: Step): State
    requires Enabled(s, step)
  {
    match step
    case ListTag(request) => s.(phase := s.phase[request.key := TagListed(request, ShownByTag(s.server, request.key))])
    case ListHash(key) =>
      var TagListed(request, u) := s.phase[key];
      s.(phase := s.phase[key := Inspected(request, Join(u, ShownByHash(s.server, request)))])
    case DecideAndSend(key, v) => s.(phase := s.phase[key := if v == MayAdd then Adding(s.phase[key].request) else Idle])
    case Accept(key, hash) =>
      var tags := if hash in s.server then s.server[hash] else {};
      State(s.server[hash := tags + {key}], s.phase[key := AddAccepted])
    case EndCall(key) => s.(phase := s.phase[key := Idle])
    case Others(server) => s.(server := server)
  }

  /** A call for a key carries a request for that key. */
  predicate OwnRequest(s: State, key: string)
    requires key in s.phase
  {
    match s.phase[key]
    case TagListed(request, _) => request.key == key
    case Inspected(request, _) => request.key == key
    case Adding(request) => request.key == key
    case _ => true
  }

  /** A run, from a moment at which no call is under way. */
  ghost predicate Run(steps: seq<Step>, states: seq<State>) {
    && |states| == |steps| + 1
    && (forall key :: key in states[0].phase ==> states[0].phase[key].Idle?)
    && forall k :: 0 <= k < |steps| ==> Enabled(states[k], steps[k]) && states[k + 1] == Apply(states[k], steps[k])
  }

  lemma {:induction false} RunOwnsRequests(steps: seq<Step>, states: seq<State>, k: nat, key: string)
    requires Run(steps, states) && k <= |steps| && key in states[k].phase
    ensures OwnRequest(states[k], key)
  {
    if k > 0 {
      RunOwnsRequests(steps, states, k - 1, key);
    }
  }

  /** Step `i` listed the server by tag for this request. */
  predicate ListedByTag(steps: seq<Step>, i: nat, request: Request) {
    i < |steps| && steps[i] == ListTag(request)
  }

  /** Step `m` listed it by hash. */
  predicate ListedByHash(steps: seq<Step>, m: nat, key: string) {
    m < |steps| && steps[m] == ListHash(key)
  }

  /** No inspection is under way. */
  predicate Resting(s: State, key: string) {
    key in s.phase && (s.phase[key].Idle? || s.phase[key].AddAccepted?)
  }

  /** Where what a call has observed since step `from` comes from. */
  ghost predicate Sourced(steps: seq<Step>, states: seq<State>, from: nat, k: nat, key: string)
    requires k <= |steps| < |states| && key in states[k].phase
  {
    match states[k].phase[key]
    case TagListed(request, u) =>
      exists i :: from <= i < k && ListedByTag(steps, i, request) && u == ShownByTag(states[i].server, key)
    case Inspected(request, u) =>
      exists i, m :: from <= i < m < k && ListedByTag(steps, i, request) && ListedByHash(steps, m, key)
        && u == Join(ShownByTag(states[i].server, key), ShownByHash(states[m].server, request))
    case Adding(request) =>
      exists i, m :: from <= i < m < k && SawNothing(steps, states, i, m, request, key)
    case _ => true
  }

  /** Listing by tag at `i` and by hash at `m` showed neither. */
  ghost predicate SawNothing(steps: seq<Step>, states: seq<State>, i: nat, m: nat, request: Request, key: string)
    requires i < |states| && m < |states|
  {
    && ListedByTag(steps, i, request) && ListedByHash(steps, m, key)
    && !IsTagged(states[i].server, key) && !HasItsHash(states[m].server, request)
  }

  /** An inspection shows every tagged torrent, and the torrent with the hash. */
  lemma InspectionShows(request: Request, byTag: Union, byHash: Union)
    ensures var u := Join(ShownByTag(byTag, request.key), ShownByHash(byHash, request));
      && Tagged(byTag, request.key) <= Tagged(u, request.key)
      && (HasItsHash(byHash, request) ==> request.authoritative.value.0 in u)
  {
    var u := Join(ShownByTag(byTag, request.key), ShownByHash(byHash, request));
    forall h | h in Tagged(byTag, request.key) ensures h in Tagged(u, request.key) {
      assert h in ShownByTag(byTag, request.key);
    }
  }

  /** An inspection that authorises an add saw neither the tag nor the hash where it looked. */
  lemma MayAddSawNothing(request: Request, byTag: Union, byHash: Union)
    requires IsVerdict(request, Join(ShownByTag(byTag, request.key), ShownByHash(byHash, request)), MayAdd)
    ensures !IsTagged(byTag, request.key) && !HasItsHash(byHash, request)
  {
    InspectionShows(request, byTag, byHash);
  }

  lemma TagStep(steps: seq<Step>, states: seq<State>, from: nat, k: nat, key: string)
    requires Run(steps, states) && from <= k < |steps| && key in states[k].phase
    requires steps[k].ListTag? && steps[k].request.key == key
    ensures key in states[k + 1].phase && Sourced(steps, states, from, k + 1, key)
  {
    assert states[k + 1] == Apply(states[k], steps[k]);
    assert ListedByTag(steps, k, steps[k].request);
  }

  lemma HashStep(steps: seq<Step>, states: seq<State>, from: nat, k: nat, key: string)
    requires Run(steps, states) && from <= k < |steps| && key in states[k].phase
    requires steps[k] == ListHash(key) && Sourced(steps, states, from, k, key)
    ensures key in states[k + 1].phase && Sourced(steps, states, from, k + 1, key)
  {
    assert Enabled(states[k], steps[k]) && states[k + 1] == Apply(states[k], steps[k]);
    var TagListed(request, u) := states[k].phase[key];
    var i :| from <= i < k && ListedByTag(steps, i, request) && u == ShownByTag(states[i].server, key);
    assert ListedByHash(steps, k, key);
  }

  lemma DecideStep(steps: seq<Step>, states: seq<State>, from: nat, k: nat, key: string)
    requires Run(steps, states) && from <= k < |steps| && key in states[k].phase
    requires steps[k] == DecideAndSend(key, MayAdd)
    requires Sourced(steps, states, from, k, key) && OwnRequest(states[k], key)
    ensures key in states[k + 1].phase && Sourced(steps, states, from, k + 1, key)
  {
    hide ShownByTag, ShownByHash, Join, IsVerdict, IsTagged, HasItsHash;
    assert Enabled(states[k], steps[k]) && states[k + 1] == Apply(states[k], steps[k]);
    var Inspected(request, u) := states[k].phase[key];
    var i, m :| from <= i < m < k && ListedByTag(steps, i, request) && ListedByHash(steps, m, key)
      && u == Join(ShownByTag(states[i].server, key), ShownByHash(states[m].server, request));
    MayAddSawNothing(request, states[i].server, states[m].server);
    assert SawNothing(steps, states, i, m, request, key);
  }

  /** The step leaves the call for `key` where it is. */
  lemma StillSourced(steps: seq<Step>, states: seq<State>, from: nat, k: nat, key: string)
    requires k < |steps| < |states| && key in states[k].phase && key in states[k + 1].phase
    requires Sourced(steps, states, from, k, key) && states[k + 1].phase[key] == states[k].phase[key]
    ensures Sourced(steps, states, from, k + 1, key)
  {
  }

  lemma PhaseChanges(s: State, step: Step, key: string)
    requires Enabled(s, step) && key in s.phase
    ensures key in Apply(s, step).phase
    ensures Apply(s, step).phase[key] == s.phase[key] || Apply(s, step).phase[key].Idle? || Apply(s, step).phase[key].AddAccepted?
      || (step.ListTag? && step.request.key == key) || step == ListHash(key) || step == DecideAndSend(key, MayAdd)
  {
  }

  lemma SourcedStep(steps: seq<Step>, states: seq<State>, from: nat, k: nat, key: string)
    requires Run(steps, states) && from <= k < |steps| && key in states[k].phase
    requires Sourced(steps, states, from, k, key) && OwnRequest(states[k], key)
    ensures key in states[k + 1].phase && Sourced(steps, states, from, k + 1, key)
  {
    assert Enabled(states[k], steps[k]) && states[k + 1] == Apply(states[k], steps[k]);
    PhaseChanges(states[k], steps[k], key);
    hide Apply, Enabled, OwnRequest;
    if steps[k].ListTag? && steps[k].request.key == key {
      TagStep(steps, states, from, k, key);
    } else if steps[k] == ListHash(key) {
      HashStep(steps, states, from, k, key);
    } else if steps[k] == DecideAndSend(key, MayAdd) {
      DecideStep(steps, states, from, k, key);
    } else if states[k + 1].phase[key] == states[k].phase[key] {
      StillSourced(steps, states, from, k, key);
    }
  }

  lemma {:induction false} RunIsSourced(steps: seq<Step>, states: seq<State>, from: nat, k: nat, key: string)
    requires Run(steps, states) && from <= k <= |steps| && Resting(states[from], key)
    ensures key in states[k].phase && Sourced(steps, states, from, k, key)
  {
    hide Run, Sourced, OwnRequest;
    if k == from {
      RestingIsSourced(steps, states, from, key);
    } else {
      RunIsSourced(steps, states, from, k - 1, key);
      RunOwnsRequests(steps, states, k - 1, key);
      SourcedStep(steps, states, from, k - 1, key);
    }
  }

  lemma RestingIsSourced(steps: seq<Step>, states: seq<State>, k: nat, key: string)
    requires Run(steps, states) && k <= |steps| && Resting(states[k], key)
    ensures Sourced(steps, states, k, k, key)
  {
  }

  /** The inspection behind an accepted add, if none was under way at step `from`. */
  lemma InspectionBehindAdd(steps: seq<Step>, states: seq<State>, from: nat, k: nat) returns (request: Request, i: nat, m: nat)
    requires Run(steps, states) && from <= k < |steps| && steps[k].Accept? && Resting(states[from], steps[k].key)
    ensures from <= i < m < k && request.key == steps[k].key
    ensures steps[i] == ListTag(request) && !IsTagged(states[i].server, request.key)
    ensures steps[m] == ListHash(request.key) && !HasItsHash(states[m].server, request)
  {
    var key := steps[k].key;
    RunIsSourced(steps, states, from, k, key);
    RunOwnsRequests(steps, states, k, key);
    assert Enabled(states[k], steps[k]);
    hide IsTagged, HasItsHash;
    request := states[k].phase[key].request;
    i, m :| from <= i < m < k && SawNothing(steps, states, i, m, request, key);
  }

  /**
   In every run, an accepted add was sent by a call that had listed the server by tag at a moment
   when no torrent carried the tag, and by hash at a moment when none had the hash it knew.
   */
  lemma AcceptedAddSawNothing(steps: seq<Step>, states: seq<State>, k: nat) returns (request: Request, i: nat, m: nat)
    requires Run(steps, states) && k < |steps| && steps[k].Accept?
    ensures i < m < k && request.key == steps[k].key
    ensures steps[i] == ListTag(request) && !IsTagged(states[i].server, request.key)
    ensures steps[m] == ListHash(request.key) && !HasItsHash(states[m].server, request)
  {
    KeysStay(steps, states, k, steps[k].key);
    request, i, m := InspectionBehindAdd(steps, states, 0, k);
  }

  lemma {:induction false} KeysStay(steps: seq<Step>, states: seq<State>, k: nat, key: string)
    requires Run(steps, states) && k <= |steps| && key in states[k].phase
    ensures key in states[0].phase
  {
    if k > 0 {
      assert Enabled(states[k - 1], steps[k - 1]) && states[k] == Apply(states[k - 1], steps[k - 1]);
      KeysStay(steps, states, k - 1, key);
    }
  }

  /**
   At most one add per key, whatever request each call brings: between two accepted adds for one key
   the second call listed the server by tag at a moment when no torrent carried the tag, so the first
   torrent had been removed, and by hash at one when none had the hash it knew.
   */
  lemma SecondAddMeansRemoval(steps: seq<Step>, states: seq<State>, i: nat, j: nat)
    returns (request: Request, byTag: nat, byHash: nat)
    requires Run(steps, states) && i < j < |steps|
    requires steps[i].Accept? && steps[j].Accept? && steps[i].key == steps[j].key
    ensures i < byTag < byHash < j && request.key == steps[j].key
    ensures steps[byTag] == ListTag(request) && !IsTagged(states[byTag].server, request.key)
    ensures steps[byHash] == ListHash(request.key) && !HasItsHash(states[byHash].server, request)
  {
    assert states[i + 1] == Apply(states[i], steps[i]);
    request, byTag, byHash := InspectionBehindAdd(steps, states, i + 1, j);
  }
}
