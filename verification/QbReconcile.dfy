/**
 Reconciling one qBittorrent add with what the server already holds. Any torrent carrying the
 stable tag, or the authoritative hash, stands in the way of a second add.
 */
module QbReconcile {
  import opened Wrappers
  import opened StringSet
  import opened Text

  type Hash = string

  datatype HashSource = StoredArtifact | SelectedTorrent

  datatype IdentityError =
    | BlankComponent(field: string)
    | ContainsNul(field: string)
    | InvalidQbHash(field: string)
    | ConflictingQbHashes(stored: Hash, expected: Hash)

  /** `source` is recorded exactly when a hash is. */
  datatype Request = Request(key: string, torrentId: string, authoritative: Option<(Hash, HashSource)>)

  function ReadHash(field: string, value: string): Result<Hash, IdentityError> {
    var hash := Trim(value);
    if (|hash| == 40 || |hash| == 64) && forall c :: c in hash ==> IsHexDigit(c) then Ok(Lower(hash))
    else Err(InvalidQbHash(field))
  }

  /** A hash as the server gives it. */
  function NormalizeHash(value: string): Result<Hash, IdentityError> {
    ReadHash("observed_hash", value)
  }

  lemma NormalizeHashIdempotent(field: string, value: string)
    requires ReadHash(field, value).Ok?
    ensures NormalizeHash(ReadHash(field, value).value) == ReadHash(field, value)
  {
    var hash := ReadHash(field, value).value;
    forall k | 0 <= k < |hash| ensures IsHexDigit(hash[k]) && !IsAsciiUpper(hash[k]) {
      assert Trim(value)[k] in Trim(value);
    }
    TrimShape(hash);
    assert Lower(hash) == hash;
  }

  /** A hash is 40 or 64 hexadecimal digits, blanks around them apart, and is kept in lower case. */
  lemma HashIs(field: string, value: string)
    ensures ReadHash(field, value).Ok? <==>
      (|Trim(value)| == 40 || |Trim(value)| == 64) && forall k :: 0 <= k < |Trim(value)| ==> Trim(value)[k] in "0123456789abcdefABCDEF"
    ensures ReadHash(field, value).Ok? ==>
      |ReadHash(field, value).value| == |Trim(value)| &&
      forall k :: 0 <= k < |Trim(value)| ==> ReadHash(field, value).value[k] == LowerChar(Trim(value)[k])
    ensures ReadHash(field, value).Err? ==> ReadHash(field, value).error == InvalidQbHash(field)
  {
    var hash := Trim(value);
    forall k | 0 <= k < |hash| ensures IsHexDigit(hash[k]) <==> hash[k] in "0123456789abcdefABCDEF" {
      HexDigitsListed(hash[k]);
    }
    assert forall c :: c in hash ==> exists k :: 0 <= k < |hash| && hash[k] == c;
  }

  lemma HexDigitsListed(c: char)
    ensures IsHexDigit(c) <==> c in "0123456789abcdefABCDEF"
  {
  }

  function ReadOptionalHash(field: string, value: Option<string>): Result<Option<Hash>, IdentityError> {
    match value
    case None => Ok(None)
    case Some(text) => match ReadHash(field, text) case Err(e) => Err(e) case Ok(hash) => Ok(Some(hash))
  }

  function ComponentError(field: string, value: string): Option<IdentityError> {
    if Trim(value) == "" then Some(BlankComponent(field))
    else if '\0' in value then Some(ContainsNul(field))
    else None
  }

  /** The first of the identity components that may not be used. */
  function IdentityProblem(account: string, subject: string, torrent: string): Option<IdentityError> {
    if ComponentError("account_key", account).Some? then ComponentError("account_key", account)
    else if ComponentError("subject_id", subject).Some? then ComponentError("subject_id", subject)
    else ComponentError("selected_torrent_id", torrent)
  }

  /** `keyOf` stands for the stable key of the three components. */
  function TryNewRequest(
    account: string, subject: string, torrent: string, keyOf: (string, string, string) -> string,
    stored: Option<string>, selected: Option<string>): Result<Request, IdentityError>
  {
    match IdentityProblem(account, subject, torrent)
    case Some(e) => Err(e)
    case None =>
      match ReadOptionalHash("stored_hash", stored)
      case Err(e) => Err(e)
      case Ok(storedHash) =>
        match ReadOptionalHash("selected_torrent_hash", selected)
        case Err(e) => Err(e)
        case Ok(selectedHash) =>
          var key := keyOf(account, subject, torrent);
          if storedHash.Some? && selectedHash.Some? && storedHash != selectedHash then
            Err(ConflictingQbHashes(storedHash.value, selectedHash.value))
          else if storedHash.Some? then Ok(Request(key, torrent, Some((storedHash.value, StoredArtifact))))
          else if selectedHash.Some? then Ok(Request(key, torrent, Some((selectedHash.value, SelectedTorrent))))
          else Ok(Request(key, torrent, None))
  }

  /** Not blank and free of NUL. */
  predicate UsableComponent(value: string) {
    '\0' !in value && exists c :: c in value && !IsWhitespace(c)
  }

  predicate AcceptableHash(value: Option<string>) {
    value.Some? ==> NormalizeHash(value.value).Ok?
  }

  lemma ComponentIsUsable(field: string, value: string)
    ensures ComponentError(field, value) == None <==> UsableComponent(value)
  {
    TrimStartBlank(value);
    TrimEndBlank(TrimStart(value));
    TrimStartShape(value);
    if TrimStart(value) != "" {
      assert TrimStart(value)[0] in TrimStart(value);
    }
  }

  /** A request is made unless a component is unusable, a hash is malformed or the two contradict; it carries what they say. */
  lemma RequestAgreesWithSources(
    account: string, subject: string, torrent: string, keyOf: (string, string, string) -> string,
    stored: Option<string>, selected: Option<string>)
    ensures TryNewRequest(account, subject, torrent, keyOf, stored, selected).Ok? <==>
      && UsableComponent(account) && UsableComponent(subject) && UsableComponent(torrent)
      && AcceptableHash(stored) && AcceptableHash(selected)
      && (stored.Some? && selected.Some? ==> NormalizeHash(stored.value) == NormalizeHash(selected.value))
    ensures TryNewRequest(account, subject, torrent, keyOf, stored, selected).Ok? ==>
      var r := TryNewRequest(account, subject, torrent, keyOf, stored, selected).value;
      && r.key == keyOf(account, subject, torrent) && r.torrentId == torrent
      && (r.authoritative == None <==> stored == None && selected == None)
      && (stored.Some? ==> r.authoritative.Some? && NormalizeHash(stored.value) == Ok(r.authoritative.value.0))
      && (selected.Some? ==> r.authoritative.Some? && NormalizeHash(selected.value) == Ok(r.authoritative.value.0))
      && (r.authoritative.Some? ==> (r.authoritative.value.1 == StoredArtifact <==> stored.Some?))
  {
    hide UsableComponent, ComponentError;
    ComponentIsUsable("account_key", account);
    ComponentIsUsable("subject_id", subject);
    ComponentIsUsable("selected_torrent_id", torrent);
  }

  datatype Observation = Observation(hash: Hash, name: string, tags: set<string>)

  datatype MatchedBy = StoredHash | SelectedTorrentHash | StableTag | HashAndStableTag

  datatype ReconciliationConflict =
    | DuplicateStableTag(hashes: seq<Hash>)
    | HashAndTagDisagree(authoritativeHash: Hash, taggedHash: Hash)

  datatype Decision =
    | UseExisting(torrent: Observation, matchedBy: MatchedBy)
    | Add
    | Conflict(conflict: ReconciliationConflict)

  /** A decision up to the name and tags of the observation that carries the chosen hash. */
  datatype Verdict =
    | Existing(hash: Hash, matched: MatchedBy)
    | MayAdd
    | Refuse(conflict: ReconciliationConflict)

  function VerdictOf(decision: Decision): Verdict {
    match decision
    case UseExisting(torrent, matched) => Existing(torrent.hash, matched)
    case Add => MayAdd
    case Conflict(conflict) => Refuse(conflict)
  }

  // ------------------------------------------------------------- the union view

  /** Everything the observations say, with no regard to order, repetition or splitting. */
  type Union = map<Hash, set<string>>

  function TagsSeen(observations: seq<Observation>, hash: Hash): set<string> {
    set o, t | o in observations && o.hash == hash && t in o.tags :: t
  }

  function HashesOf(observations: seq<Observation>): set<Hash> {
    set o | o in observations :: o.hash
  }

  function UnionOf(observations: seq<Observation>): Union {
    map hash | hash in HashesOf(observations) :: TagsSeen(observations, hash)
  }

  function Tagged(u: Union, tag: string): set<Hash> {
    set h | h in u && tag in u[h]
  }

  ghost predicate IsVerdict(request: Request, u: Union, v: Verdict) {
    var tagged := Tagged(u, request.key);
    match v
    case Refuse(DuplicateStableTag(hashes)) =>
      |tagged| > 1 && Ascending(hashes) && forall h :: h in hashes <==> h in tagged
    case Refuse(HashAndTagDisagree(authoritative, taggedHash)) =>
      tagged == {taggedHash} && request.authoritative.Some? && request.authoritative.value.0 == authoritative != taggedHash
    case Existing(hash, matched) =>
      && hash in u && tagged <= {hash}
      && (match request.authoritative
          case None => hash in tagged && matched == StableTag
          case Some((authoritative, source)) =>
            hash == authoritative &&
            matched == (if hash in tagged then HashAndStableTag
                   else if source == StoredArtifact then StoredHash else SelectedTorrentHash))
    case MayAdd => tagged == {} && (request.authoritative.Some? ==> request.authoritative.value.0 !in u)
  }

  /** The union view settles the verdict. */
  lemma VerdictUnique(request: Request, u: Union, v: Verdict, v': Verdict)
    requires IsVerdict(request, u, v) && IsVerdict(request, u, v')
    ensures v == v'
  {
    var tagged := Tagged(u, request.key);
    VerdictCounts(request, u, v);
    VerdictCounts(request, u, v');
    if v.Existing? && v'.Existing? && request.authoritative == None {
      assert v.hash in {v'.hash};
    }
    if v.Refuse? && v'.Refuse? && v.conflict.DuplicateStableTag? && v'.conflict.DuplicateStableTag? {
      AscendingUnique(v.conflict.hashes, v'.conflict.hashes);
    }
    if v.Refuse? && v'.Refuse? && v.conflict.HashAndTagDisagree? && v'.conflict.HashAndTagDisagree? {
      assert v.conflict.taggedHash in {v'.conflict.taggedHash};
    }
  }

  lemma VerdictCounts(request: Request, u: Union, v: Verdict)
    requires IsVerdict(request, u, v)
    ensures |Tagged(u, request.key)| > 1 <==> v.Refuse? && v.conflict.DuplicateStableTag?
    ensures v.Refuse? && v.conflict.HashAndTagDisagree? ==> v.conflict.taggedHash in Tagged(u, request.key)
  {
    var tagged := Tagged(u, request.key);
    if v.Existing? && tagged != {} {
      assert tagged == {v.hash};
    }
  }

  /** The first observation of a hash. */
  function FirstSeen(observations: seq<Observation>, hash: Hash): Option<Observation> {
    if observations == [] then None
    else
      var earlier, last := FirstSeen(observations[..|observations| - 1], hash), observations[|observations| - 1];
      if earlier == None && last.hash == hash then Some(last) else earlier
  }

  lemma FirstSeenNext(observations: seq<Observation>, k: nat, hash: Hash)
    requires k < |observations|
    ensures FirstSeen(observations[..k + 1], hash) ==
      if FirstSeen(observations[..k], hash) == None && observations[k].hash == hash then Some(observations[k])
      else FirstSeen(observations[..k], hash)
  {
    assert observations[..k + 1][..k] == observations[..k];
  }

  lemma {:induction false} FirstSeenShape(observations: seq<Observation>, hash: Hash)
    ensures FirstSeen(observations, hash).Some? <==> exists o :: o in observations && o.hash == hash
    ensures FirstSeen(observations, hash).Some? ==>
      FirstSeen(observations, hash).value in observations && FirstSeen(observations, hash).value.hash == hash
  {
    if observations != [] {
      var init, last := observations[..|observations| - 1], observations[|observations| - 1];
      FirstSeenShape(init, hash);
      assert observations == init + [last];
    }
  }

  /** None of the observations before it is of that hash. */
  predicate FirstWithHash(observations: seq<Observation>, hash: Hash, k: nat) {
    k < |observations| && observations[k].hash == hash && forall j :: 0 <= j < k ==> observations[j].hash != hash
  }

  lemma {:induction false} FirstSeenIs(observations: seq<Observation>, hash: Hash, k: nat)
    requires FirstWithHash(observations, hash, k)
    ensures FirstSeen(observations, hash) == Some(observations[k])
  {
    var init := observations[..|observations| - 1];
    if k < |init| {
      FirstSeenIs(init, hash, k);
    } else {
      FirstSeenShape(init, hash);
    }
  }

  /** The observations by hash, the first of each, and the tagged hashes in order. */
  ghost predicate Gathered(observations: seq<Observation>, key: string, byHash: map<Hash, Observation>, tagged: seq<Hash>) {
    && (forall h :: h in byHash <==> FirstSeen(observations, h).Some?)
    && (forall h :: h in byHash ==> FirstSeen(observations, h) == Some(byHash[h]))
    && Ascending(tagged)
    && (forall h :: h in tagged <==> exists o :: o in observations && o.hash == h && key in o.tags)
  }

  lemma GatherNext(observations: seq<Observation>, k: nat, key: string, byHash: map<Hash, Observation>, tagged: seq<Hash>)
    requires k < |observations| && Gathered(observations[..k], key, byHash, tagged)
    ensures var o := observations[k];
      Gathered(observations[..k + 1], key,
        if o.hash in byHash then byHash else byHash[o.hash := o],
        if key in o.tags then Insert(tagged, o.hash) else tagged)
  {
    var o := observations[k];
    InsertShape(tagged, o.hash);
    assert observations[..k + 1] == observations[..k] + [o];
    forall h ensures FirstSeen(observations[..k + 1], h) ==
      if FirstSeen(observations[..k], h) == None && o.hash == h then Some(o) else FirstSeen(observations[..k], h)
    {
      FirstSeenNext(observations, k, h);
    }
  }

  lemma GatheredAll(observations: seq<Observation>, key: string, byHash: map<Hash, Observation>, tagged: seq<Hash>)
    requires Gathered(observations, key, byHash, tagged)
    ensures byHash.Keys == UnionOf(observations).Keys
    ensures forall h :: h in tagged <==> h in Tagged(UnionOf(observations), key)
    ensures forall h :: h in byHash ==> byHash[h].hash == h
  {
    forall h ensures h in byHash <==> h in UnionOf(observations) {
      FirstSeenShape(observations, h);
    }
    forall h | h in byHash ensures byHash[h].hash == h {
      FirstSeenShape(observations, h);
    }
    TaggedMembers(observations, key);
  }

  lemma TaggedMembers(observations: seq<Observation>, tag: string)
    ensures forall h :: h in Tagged(UnionOf(observations), tag) <==> exists o :: o in observations && o.hash == h && tag in o.tags
  {
    forall h ensures h in Tagged(UnionOf(observations), tag) <==> exists o :: o in observations && o.hash == h && tag in o.tags {
      if o :| o in observations && o.hash == h && tag in o.tags {
        assert tag in TagsSeen(observations, h);
      }
    }
  }

  /** An ascending sequence of at most one element. */
  lemma FewTagged(hashes: seq<Hash>, tagged: set<Hash>)
    requires Ascending(hashes) && forall h :: h in hashes <==> h in tagged
    ensures |hashes| > 1 <==> |tagged| > 1
    ensures |hashes| == 1 ==> tagged == {hashes[0]}
    ensures |hashes| == 0 ==> tagged == {}
  {
    if |hashes| > 1 {
      LexAsymmetric(hashes[0], hashes[1]);
      assert hashes[0] in hashes && hashes[1] in hashes;
      assert {hashes[0], hashes[1]} <= tagged;
      assert |tagged - {hashes[0], hashes[1]}| == |tagged| - 2;
    } else if |hashes| == 1 {
      assert tagged == {hashes[0]};
    } else {
      assert tagged == {};
    }
  }

  /** The verdict of the union, and of several observations of the chosen hash the first. */
  method Reconcile(request: Request, observations: seq<Observation>) returns (decision: Decision)
    ensures IsVerdict(request, UnionOf(observations), VerdictOf(decision))
    ensures decision.UseExisting? ==> FirstSeen(observations, decision.torrent.hash) == Some(decision.torrent)
  {
    var byHash: map<Hash, Observation> := map[];
    var taggedHashes: seq<Hash> := [];
    for k := 0 to |observations|
      invariant Gathered(observations[..k], request.key, byHash, taggedHashes)
    {
      GatherNext(observations, k, request.key, byHash, taggedHashes);
      var o := observations[k];
      if o.hash !in byHash {
        byHash := byHash[o.hash := o];
      }
      if request.key in o.tags {
        taggedHashes := Insert(taggedHashes, o.hash);
      }
    }
    assert observations[..|observations|] == observations;
    decision := Decide(request, observations, byHash, taggedHashes);
  }

  method Decide(request: Request, ghost observations: seq<Observation>, byHash: map<Hash, Observation>, taggedHashes: seq<Hash>)
    returns (decision: Decision)
    requires Gathered(observations, request.key, byHash, taggedHashes)
    ensures IsVerdict(request, UnionOf(observations), VerdictOf(decision))
    ensures decision.UseExisting? ==> FirstSeen(observations, decision.torrent.hash) == Some(decision.torrent)
  {
    hide UnionOf, Tagged, FirstSeen;
    GatheredAll(observations, request.key, byHash, taggedHashes);
    FewTagged(taggedHashes, Tagged(UnionOf(observations), request.key));
    if |taggedHashes| > 1 {
      return Conflict(DuplicateStableTag(taggedHashes));
    }
    var tagged := if taggedHashes == [] then None else Some(taggedHashes[0]);
    if tagged.Some? {
      TaggedIsListed(observations, request.key, tagged.value);
    }
    if request.authoritative.Some? {
      var (authoritative, source) := request.authoritative.value;
      if tagged.Some? && tagged.value != authoritative {
        return Conflict(HashAndTagDisagree(authoritative, tagged.value));
      }
      if authoritative in byHash {
        var matched := if tagged == Some(authoritative) then HashAndStableTag
                  else match source case StoredArtifact => StoredHash case SelectedTorrent => SelectedTorrentHash;
        return UseExisting(byHash[authoritative], matched);
      }
      return Add;
    }
    if tagged.Some? {
      return UseExisting(byHash[tagged.value], StableTag);
    }
    decision := Add;
  }

  lemma TaggedIsListed(observations: seq<Observation>, tag: string, hash: Hash)
    requires hash in Tagged(UnionOf(observations), tag)
    ensures hash in UnionOf(observations).Keys
  {
  }

  /** `Add` is decided exactly when no observation carries the stable tag or the authoritative hash. */
  lemma AddIff(request: Request, observations: seq<Observation>, decision: Decision)
    requires IsVerdict(request, UnionOf(observations), VerdictOf(decision))
    ensures decision == Add <==>
      forall o :: o in observations ==>
        request.key !in o.tags && (request.authoritative.Some? ==> o.hash != request.authoritative.value.0)
  {
    TaggedMembers(observations, request.key);
    var tagged := Tagged(UnionOf(observations), request.key);
    forall o | o in observations && request.key in o.tags ensures o.hash in tagged {
      assert exists p :: p in observations && p.hash == o.hash && request.key in p.tags;
    }
    if tagged != {} {
      var h :| h in tagged;
      var o :| o in observations && o.hash == h && request.key in o.tags;
    }
  }

  /** Only the union view counts. */
  lemma SameUnionSameVerdict(request: Request, a: seq<Observation>, b: seq<Observation>, da: Decision, db: Decision)
    requires IsVerdict(request, UnionOf(a), VerdictOf(da)) && IsVerdict(request, UnionOf(b), VerdictOf(db))
    requires UnionOf(a) == UnionOf(b)
    ensures VerdictOf(da) == VerdictOf(db)
  {
    VerdictUnique(request, UnionOf(a), VerdictOf(da), VerdictOf(db));
  }

  /** The same hashes with the same tags seen under each. */
  lemma UnionBySeen(a: seq<Observation>, b: seq<Observation>)
    requires HashesOf(a) == HashesOf(b)
    requires forall h, t :: t in TagsSeen(a, h) <==> t in TagsSeen(b, h)
    ensures UnionOf(a) == UnionOf(b)
  {
    forall h ensures TagsSeen(a, h) == TagsSeen(b, h) {
      assert forall t :: t in TagsSeen(a, h) <==> t in TagsSeen(b, h);
    }
    assert UnionOf(a).Keys == UnionOf(b).Keys;
  }

  /** Permuting and repeating observations changes nothing. */
  lemma PermutedIsSameUnion(a: seq<Observation>, b: seq<Observation>)
    requires forall o :: o in a <==> o in b
    ensures UnionOf(a) == UnionOf(b)
  {
    UnionBySeen(a, b);
  }

  /** Neither does splitting one observation in two, nor merging two of one hash. */
  lemma SplitIsSameUnion(before: seq<Observation>, after: seq<Observation>, whole: Observation, left: Observation, right: Observation)
    requires whole.hash == left.hash == right.hash && whole.tags == left.tags + right.tags
    ensures UnionOf(before + [whole] + after) == UnionOf(before + [left, right] + after)
  {
    var a, b := before + [whole] + after, before + [left, right] + after;
    assert forall o :: o in a <==> o in before || o == whole || o in after;
    assert forall o :: o in b <==> o in before || o == left || o == right || o in after;
    SplitHashes(before, after, whole, left, right, a, b);
    forall h, t ensures t in TagsSeen(a, h) <==> t in TagsSeen(b, h) {
      SplitSeen(before, after, whole, left, right, a, b, h, t);
    }
    UnionBySeen(a, b);
  }

  lemma SplitHashes(before: seq<Observation>, after: seq<Observation>, whole: Observation, left: Observation, right: Observation,
                    a: seq<Observation>, b: seq<Observation>)
    requires whole.hash == left.hash == right.hash
    requires forall o :: o in a <==> o in before || o == whole || o in after
    requires forall o :: o in b <==> o in before || o == left || o == right || o in after
    ensures HashesOf(a) == HashesOf(b)
  {
    assert whole in a && left in b;
  }

  lemma SplitSeen(before: seq<Observation>, after: seq<Observation>, whole: Observation, left: Observation, right: Observation,
                  a: seq<Observation>, b: seq<Observation>, h: Hash, t: string)
    requires whole.hash == left.hash == right.hash && whole.tags == left.tags + right.tags
    requires forall o :: o in a <==> o in before || o == whole || o in after
    requires forall o :: o in b <==> o in before || o == left || o == right || o in after
    ensures t in TagsSeen(a, h) <==> t in TagsSeen(b, h)
  {
    assert whole in a && left in b && right in b;
    if t in TagsSeen(a, h) {
      var o :| o in a && o.hash == h && t in o.tags;
      assert o == whole ==> t in left.tags || t in right.tags;
      assert o != whole ==> o in b;
    }
    if t in TagsSeen(b, h) {
      var o :| o in b && o.hash == h && t in o.tags;
      assert o == left || o == right ==> t in whole.tags;
      assert o != left && o != right ==> o in a;
    }
  }

  /** What the observations look like before and after being split, merged, permuted or repeated. */
  ghost predicate Regrouped(a: seq<Observation>, b: seq<Observation>) {
    || (forall o :: o in a <==> o in b)
    || (exists before, after, whole: Observation, left: Observation, right: Observation ::
          && whole.hash == left.hash == right.hash && whole.tags == left.tags + right.tags
          && a == before + [whole] + after && b == before + [left, right] + after)
  }

  /** So no number of such changes, in either direction, changes the verdict. */
  lemma {:induction false} RegroupingKeepsVerdict(request: Request, forms: seq<seq<Observation>>, da: Decision, db: Decision)
    requires forms != [] && forall k :: 0 <= k < |forms| - 1 ==> Regrouped(forms[k], forms[k + 1]) || Regrouped(forms[k + 1], forms[k])
    requires IsVerdict(request, UnionOf(forms[0]), VerdictOf(da))
    requires IsVerdict(request, UnionOf(forms[|forms| - 1]), VerdictOf(db))
    ensures VerdictOf(da) == VerdictOf(db)
  {
    RegroupedIsSameUnion(forms, |forms| - 1);
    SameUnionSameVerdict(request, forms[0], forms[|forms| - 1], da, db);
  }

  lemma {:induction false} RegroupedIsSameUnion(forms: seq<seq<Observation>>, k: nat)
    requires k < |forms| && forall k :: 0 <= k < |forms| - 1 ==> Regrouped(forms[k], forms[k + 1]) || Regrouped(forms[k + 1], forms[k])
    ensures UnionOf(forms[0]) == UnionOf(forms[k])
  {
    if k > 0 {
      RegroupedIsSameUnion(forms, k - 1);
      assert Regrouped(forms[k - 1], forms[k - 1 + 1]) || Regrouped(forms[k - 1 + 1], forms[k - 1]);
      if Regrouped(forms[k - 1], forms[k]) {
        OneRegrouping(forms[k - 1], forms[k]);
      } else {
        OneRegrouping(forms[k], forms[k - 1]);
      }
    }
  }

  lemma OneRegrouping(a: seq<Observation>, b: seq<Observation>)
    requires Regrouped(a, b)
    ensures UnionOf(a) == UnionOf(b)
  {
    if forall o :: o in a <==> o in b {
      PermutedIsSameUnion(a, b);
    } else {
      var before, after, whole: Observation, left: Observation, right: Observation :|
        && whole.hash == left.hash == right.hash && whole.tags == left.tags + right.tags
        && a == before + [whole] + after && b == before + [left, right] + after;
      SplitIsSameUnion(before, after, whole, left, right);
    }
  }
}
