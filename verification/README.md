# Verified model of the Douban automation server's deciding code

This project models the parts of the server where a mistake would be expensive, and proves what
they promise: the configuration store, the torrent metainfo reader, the external effects that may
be retried (adding a torrent to qBittorrent, linking files), the login limiter, configuration
normalisation and patching, the redaction of diagnostics, the episode recogniser, and library
pagination. Each module follows one component of the program.

| module | component |
|---|---|
| `ConfigStore` | `ConfigManager` and the blocking executor, as an interleaved step system over memory, disk, gate, permits and live closures; and one uninterrupted `Update` as a class |
| `Bencode`, `Metainfo` | the metainfo reader: a grammar of trees, a functional parser, and the offset-moving `Parser` class proved against it |
| `QbReconcile`, `QbEffects` | finding a torrent by hash and tag before adding it, over one call and over runs with lost responses and restarts |
| `EffectKey` | the length-framed idempotency key |
| `Hardlinks` | planning and applying a batch of hardlinks, with crashes, faults and entries arriving from elsewhere |
| `LoginLimiter` | the table of failed logins |
| `ServerIds`, `ConfigNormalize`, `NormalForm`, `ConfigPatch` | unique server identifiers, whole-configuration normalisation and loading, what it accepts and makes of a configuration, redacted responses and patches |
| `SecretRedaction`, `UrlRedaction`, `QueryKeys`, `UrlScan`, `UrlTexts` | hiding configured secrets, and credentials in embedded URLs |
| `Episode`, `EpisodeTitles` | episode coverage in titles, the labels printed for it, and the grammar of the notations |
| `Pagination` | the library page loop |
| `Wrappers`, `Text`, `StringSet`, `Decimal` | option and result types, string operations, ordered sets of strings, decimal notation |

`dafny verify dfyconfig.toml` checks the whole project.

## Conventions

- Code that moves a cursor or updates fields is a method or a class with loops; its postcondition
  names a function of the inputs or of the old state, and the lemmas are about that function.
- Bytes are characters below 256, so that literals read as in the program; other text is a
  sequence of Unicode scalar values. UTF-8 lengths appear only where the program orders by them.
- Digests, URL and address parsing, the fallback hash of a server and the cookie normaliser are
  parameters: what is proved holds for every choice of them. The URL redactor is proved for every
  test of query keys; `QueryKeys` is the program's own.
- What the code accepts or refuses is stated apart from its checks, as conditions on the input
  with their characters and bounds written out.
- Sequences of events and of steps are arbitrary; nothing bounds their length.

## What turned out not to hold

- Memory and disk can differ: a cancelled update may write after its caller is gone, and an update
  that changes nothing does not repair that (`OrphanedWriteOutlivesNoOp`). With no update under way
  they differ exactly when the last writer was cancelled or told that it failed
  (`DiskDiffersIffOrphaned`), and a failed one wrote exactly when its closure panicked after the
  rename (`FailedPersistWroteIffPanicked`; `PanicAfterRename` is such a run). With two write permits even the published value could
  be overwritten (`TwoPermitsWouldBreakPublication`).
- A rerun of a batch of links after a crash may create links that an uninterrupted run does not, when
  one file's source is another's target; `RetryAfterCrash` and `RerunCreatesNothingIff` give the exact
  conditions.
- Five minutes can hold nine failed logins, not five: `AtMostNineFailures` and
  `NineFailuresCanHappen`; with `m` logins of a peer in flight at once, at most `2m + 7`
  (`FailuresInFlight`), and for every `m` that many can happen (`BoundIsReached`). A login that passed
  its check before the block can lift it (`LateFailureLiftsBlock`), and `BlockStandsIff` says exactly
  when.
- A configured secret can survive redaction when the marker overlaps it, and only then
  (`SurvivesIff`, `BracketSecretSurvives`); the URL pass, the trim and the cap do not change that
  (`ShownIff`).
- Redacting a text a second time changes it exactly when one of its URLs ends in a hidden value
  (`SecondPassIff`): the marker's own bracket is then cut off as punctuation.
- A title and its printed label are recognised alike except exactly when the title is read by its
  `第` as starting at zero (`RelabellingIsStable`, `EpisodeZeroIsLost`).

## Model

| member | source | states |
|---|---|---|
| Bencode.ParseValueSound | src/clients/torrent.rs:65-105 | whatever the parser accepts at a position is there the encoding of the tree it returns, ending where the parser stops, and within the depth cap |
| Bencode.ParseValueComplete | src/clients/torrent.rs:65-105 | wherever the encoding of a tree within the depth cap stands, whatever follows it, the parser returns that tree and stops at its end |
| Bencode.ParseStringSound | src/clients/torrent.rs:49-63 | an accepted string is its canonical decimal length, a colon and exactly that many bytes |
| Bencode.ParseStringComplete | src/clients/torrent.rs:49-63 | every encoded string is accepted, whatever follows it |
| Bencode.ParseIntSound | src/clients/torrent.rs:80-98 | an accepted integer is in canonical notation: no leading zero, no minus zero |
| Bencode.ParseIntComplete | src/clients/torrent.rs:80-98 | every canonical integer is accepted, whatever follows it |
| Bencode.EncodingIsPrefixFree | src/clients/torrent.rs:65-105 | two encodings at the start of one text are encodings of the same tree, and equally long |
| Metainfo.Parser.Take | src/clients/torrent.rs:43-47 | returns the byte at the offset and moves past it, or stays at the end |
| Metainfo.Parser.ReadString | src/clients/torrent.rs:49-63 | returns what the string grammar gives at the old offset and moves to where it ends |
| Metainfo.Parser.ReadInt | src/clients/torrent.rs:80-98 | accepts exactly what the integer grammar accepts at the old offset and moves to where it ends |
| Metainfo.Parser.ReadContainer | src/clients/torrent.rs:70-79 | accepts exactly the list or dictionary the grammar gives at the old offset, and moves to where it ends |
| Metainfo.Parser.ReadValue | src/clients/torrent.rs:65-105 | accepts exactly what the grammar accepts at the old offset within the remaining depth, and moves to where it ends |
| Metainfo.InfoHash | src/clients/torrent.rs:6-31 | the digest of the info slice, or none, as the grammar of metainfo files determines it |
| Metainfo.InfoSliceIff | src/clients/torrent.rs:6-31 | a slice is hashed if and only if the bytes are the encoding of a dictionary within the depth cap with exactly one `info` key, whose value is a non-empty dictionary; the slice is the encoding of that dictionary |
| Metainfo.MetainfoUnique | src/clients/torrent.rs:6-31 | the tree behind an accepted file is unique |
| Metainfo.AcceptedFilesArePrefixFree | src/clients/torrent.rs:26-29 | no accepted file is a proper prefix of another |
| Metainfo.InfoIsInside | src/clients/torrent.rs:18-24 | the hashed bytes stand in the file as one contiguous stretch |
| Metainfo.DoomedKey | src/clients/torrent.rs:13-22 | a second `info` key, an empty `info` dictionary or an `info` that is no dictionary ends every chance of acceptance, so stopping early is right |
| ConfigStore.PermitsStayConserved | src/storage/blocking.rs:29-48 | every step keeps free permits, held permits and live closures adding up to the capacity |
| ConfigStore.LiveClosuresBounded | src/storage/blocking.rs:29-48 | in every reachable state the live closures are no more than the permits |
| ConfigStore.StepInv | src/config.rs:746-795 | every step of every caller and closure keeps the protocol invariant |
| ConfigStore.RunInv | src/config.rs:746-795 | the protocol invariant holds in every state of every run |
| ConfigStore.PublishedValueIsOnDisk | src/config.rs:774-794 | whenever a caller publishes, in any interleaving of updates, failures and cancellations, the disk holds exactly the published value |
| ConfigStore.RecheckNeverFails | src/config.rs:786-792 | the revision check before publishing never fails |
| ConfigStore.StepRefines | src/config.rs:746-795 | every step is one atomic update of the visible state or leaves it alone |
| ConfigStore.RunRefines | src/config.rs:746-795 | every run of the protocol is a run of atomic updates |
| ConfigStore.PublishedSnapshotsChain | src/config.rs:754-794 | the published snapshots form a chain: each is that update's mutation of the snapshot just before it, with the next revision |
| ConfigStore.RevisionCountsPublications | src/config.rs:782-785 | below saturation the revision is the number of publications |
| ConfigStore.SuccessUsedExpectedRevision | src/config.rs:755-763 | in every run, the step at which an update with an expected revision succeeds finds that revision in memory, leaves the update's mutation of the value found there, and answers with what it leaves |
| ConfigStore.ReadDecides | src/config.rs:754-772 | in every run, another revision than the one in memory is refused with both; a failing mutation or validation is refused with its own message; no change gives back the snapshot; and every other update goes on to write its mutation of the value in memory |
| ConfigStore.FinishDecides | src/config.rs:774-794 | in every run, a written update is answered by the snapshot with its value and the next revision, which is then in memory, and any other is answered as not persisted |
| ConfigStore.UpdateGoesThrough | src/config.rs:746-795 | from every state of every run with the gate free and no closure live, an up-to-date, accepted update that changes something ends by its own six steps in the next snapshot, in memory and on disk |
| ConfigStore.DiskDiffersIffOrphaned | src/config.rs:774-794 | with no update under way, the disk differs from memory if and only if the last write belongs to a caller that was cancelled or was told its write failed |
| ConfigStore.FailedPersistWroteIffPanicked | src/config.rs:777-781 | an update reported as not persisted changed the disk if and only if its closure panicked after the rename |
| ConfigStore.PanicAfterRename | src/config.rs:777-781 | a run in which a closure panics after the rename: the update is reported as not persisted, memory is unchanged and the disk holds its value |
| ConfigStore.OrphanedWriteOutlivesNoOp | src/config.rs:770-772 | a run in which a cancelled update leaves the disk ahead of memory and a later update that changes nothing reports success without repairing it |
| ConfigStore.TwoPermitsWouldBreakPublication | src/storage/blocking.rs:13-27 | with two permits there is a run in which the disk does not hold the value that was published last |
| ConfigStore.ExecutedRun | src/config.rs:746-795 | steps carried out one after the other, each enabled where it is taken, pass through the states of a run |
| ConfigStore.RunIsExecuted | src/config.rs:746-795 | and every state of a run is what carrying out its steps so far gives |
| ConfigStore.ConfigManager.Update | src/config.rs:746-795 | one uninterrupted update, by the expected revision, the mutation, the validation and the write alone: which of the five outcomes it has, with both revisions of a conflict, the message of a refusal and the value and next revision of a success, and the memory and disk each leaves |
| LoginLimiter.LoginRateLimiter.Check | src/app/auth_security.rs:52-84 | decides from the pruned entry of the peer and prunes every other entry |
| LoginLimiter.LoginRateLimiter.RecordFailure | src/app/auth_security.rs:86-105 | counts the failure in the peer's window, blocks on the fifth, and leaves the other peers alone |
| LoginLimiter.LoginRateLimiter.RecordSuccess | src/app/auth_security.rs:45-50 | forgets the peer and nobody else |
| LoginLimiter.SharedTableSimulatesSolo | src/app/auth_security.rs:52-105 | after any run in time order the shared table decides for a peer as a table that only ever saw that peer |
| LoginLimiter.PeersDoNotInterfere | src/app/auth_security.rs:52-105 | deleting all calls of other peers from a run changes no decision the peer receives |
| LoginLimiter.EntryExplainsRun | src/app/auth_security.rs:86-105 | with at most `m` of the peer's logins in flight and none succeeding, its entry says how many of its last failures lie in one window, that few earlier ones are close, and since when it is blocked |
| LoginLimiter.FailuresInFlight | src/app/auth_security.rs:52-105 | with up to `m` logins of a peer in flight, each failing or abandoned at any later time, no closed interval of 300 seconds holds more than `2m + 7` of its failures |
| LoginLimiter.BoundIsReached | src/app/auth_security.rs:52-105 | for every `m`, a run with at most `m` logins of a peer in flight in which some closed interval of 300 seconds holds exactly `2m + 7` of its failures |
| LoginLimiter.AtMostNineFailures | src/app/auth_security.rs:52-105 | one login at a time, no closed interval of 300 seconds holds more than nine failures of a peer |
| LoginLimiter.NineFailuresCanHappen | src/app/auth_security.rs:6-8 | nine is reached by a run |
| LoginLimiter.FifthFailureBlocks | src/app/auth_security.rs:52-105 | one login at a time, for 900 seconds after a fifth failure in a window every check of that peer is refused, with the whole seconds that remain, at least one |
| LoginLimiter.BlockEnds | src/app/auth_security.rs:68-82 | the first check from then on is let through and starts a window without failures |
| LoginLimiter.CheckForgets | src/app/auth_security.rs:57-64 | a check drops exactly the entries that block nobody any more and whose window began more than 1200 seconds ago |
| LoginLimiter.BlockStandsIff | src/app/auth_security.rs:52-105 | in every run, however its logins overlap, a check of the peer would be refused at every moment of those 900 seconds if and only if none of its calls is a success or a failure more than 300 seconds after the window began |
| LoginLimiter.LateFailureLiftsBlock | src/app/auth_security.rs:86-105 | a run of two overlapping logins in which the late failure of the second lifts the block the first one set |
| Hardlinks.PlanLinkRetry | src/subscription/effects.rs:661-700 | refuses a batch exactly when two files share a target, naming the first repetition, and otherwise plans each file from its probes and its persisted outcome |
| Hardlinks.LinkedPlanIsVerified | src/subscription/effects.rs:612-623 | a plan is `Linked` only when both paths were seen as the same file, whatever was persisted |
| Hardlinks.Filesystem.ExecuteLinkAction | src/subscription/effect_adapters.rs:618-638 | the tree and the status after one planned action, on the tree as it is by then |
| Hardlinks.Filesystem.ApplyHardlinks | src/subscription/effect_adapters.rs:573-616 | the tree and the result of each file after a batch, with entries arriving from elsewhere between the steps |
| Hardlinks.NothingIsDisturbed | src/subscription/effect_adapters.rs:947-1024 | a batch never removes or retargets an entry, its own or another's |
| Hardlinks.LinkedMeansSameInode | src/subscription/effect_adapters.rs:618-638 | a file reported `Linked` has source and target on the same inode when the batch ends |
| Hardlinks.LinkedIff | src/subscription/effect_adapters.rs:474-487 | `Linked` is reported exactly when one file was found at both ends, or the link was made, or was there when it was to be made |
| Hardlinks.MissingIff | src/subscription/effect_adapters.rs:474-487 | `Missing` exactly when no probe failed and there was no source, or none any more when the link was to be made |
| Hardlinks.ConflictIff | src/subscription/effect_adapters.rs:474-487 | `Conflict` exactly when two different regular files were found, when probed or when the link was to be made |
| Hardlinks.FailedIff | src/subscription/effect_adapters.rs:474-487 | `Failed` exactly when a probe failed, the source had become another file, the link could not be created, or what stood at the target was no regular file |
| Hardlinks.StatusNamesCause | src/subscription/effect_adapters.rs:640-683 | which probe failed and of what, the source's first; a conflict names both files |
| Hardlinks.ResultFitsTrees | src/subscription/effect_adapters.rs:573-616 | every result names its file, and its outcome is what the tree the batch found and the tree it left say, whatever arrives meanwhile |
| Hardlinks.ArrivalsStay | src/subscription/effect_adapters.rs:947-1024 | what others add is there from then on, unless its path was taken |
| Hardlinks.CrashedAddsExactly | src/subscription/effect_adapters.rs:573-638 | after any prefix of a batch exactly the links of the files that could be created are there, and nothing else |
| Hardlinks.RetryAfterCrash | src/subscription/effects.rs:661-700 | a crash after `k` files and a rerun with any persisted outcomes reach the tree of an uninterrupted run if and only if no file waits for one of those `k` |
| Hardlinks.RerunCreatesNothingIff | src/subscription/effects.rs:661-700 | one more run creates nothing if and only if no file waits for another |
| Hardlinks.DisjointPathsNeverWait | src/subscription/effects.rs:661-700 | no file waits when no source path is a target of the batch |
| Hardlinks.ChainNeedsTwoRuns | src/subscription/effect_adapters.rs:573-638 | a batch whose second target is the first source needs two runs |
| EffectKey.FeedHash | src/subscription/effects.rs:101-130 | feeds the hash the framed components in order |
| EffectKey.FramesRoundTrip | src/subscription/effects.rs:101-130 | reading the length frames gives back the components |
| EffectKey.HashInputIs | src/subscription/effects.rs:101-130 | the hashed bytes written out: the domain and the four components, each behind its length |
| EffectKey.LengthBytes | src/subscription/effects.rs:101-130 | a length is written as eight bytes, the most significant first |
| EffectKey.KeyIs | src/subscription/effects.rs:101-130 | a key is the prefix of its operation and the digest in hexadecimal |
| EffectKey.HexIs | src/subscription/effects.rs:101-130 | every byte of the digest is two lower-case digits, the higher half first |
| EffectKey.HashInputInjective | src/subscription/effects.rs:101-130 | different components or operations feed the hash different bytes, for components below 2^64 bytes |
| EffectKey.SharedKeyMeansCollision | src/subscription/effects.rs:101-130 | effects that share a key are the same operation and have equal digests, so unless their components are the same the digest collides |
| EffectKey.KeyIsSafeTag | src/subscription/effects.rs:101-130 | a key is a tag that survives the comma-separated tag list: not empty, nothing to trim, no comma |
| QbReconcile.NormalizeHashIdempotent | src/subscription/effects.rs:249-262 | a hash that was accepted normalises to itself, so stored and listed hashes compare equal |
| QbReconcile.HashIs | src/subscription/effects.rs:249-262 | a hash is accepted exactly when, trimmed, it is 40 or 64 hexadecimal digits, and is kept in lower case |
| QbReconcile.RequestAgreesWithSources | src/subscription/effects.rs:190-230 | a request is made if and only if no identity component is blank or holds a NUL, every given hash is well formed and the two agree; it then carries the key of the components and that hash, from the stored artifact when there is one |
| QbReconcile.Reconcile | src/subscription/effects.rs:337-398 | the decision gives the verdict that the union of the observations determines, conflicting hashes in order, and of several observations of the chosen hash the first |
| QbReconcile.FirstSeenIs | src/subscription/effects.rs:337-398 | the observation chosen for a hash is the first in the list |
| QbReconcile.VerdictUnique | src/subscription/effects.rs:337-398 | a request and a union of observations admit one verdict, conflict content included |
| QbReconcile.AddIff | src/subscription/effects.rs:337-398 | the decision is to add if and only if no observation carries the stable tag or the authoritative hash |
| QbReconcile.SameUnionSameVerdict | src/subscription/effects.rs:337-398 | observations with the same union, hash by hash and tag by tag, give the same verdict |
| QbReconcile.PermutedIsSameUnion | src/subscription/effects.rs:337-398 | permuting and repeating observations keeps the union |
| QbReconcile.SplitIsSameUnion | src/subscription/effects.rs:337-398 | so does splitting one observation into two of its hash that together hold its tags, and merging two such |
| QbReconcile.RegroupingKeepsVerdict | src/subscription/effects.rs:337-398 | no number of such changes, in either direction, changes the verdict |
| QbEffects.ParseTagsOfJoin | src/subscription/effect_adapters.rs:389-395 | reading a padded, comma-separated tag list gives back its tags |
| QbEffects.TagsAre | src/subscription/effect_adapters.rs:389-395 | of any tag list, the tags are what stands between its commas, trimmed, unless that is nothing |
| QbEffects.MergeObservations | src/subscription/effect_adapters.rs:369-387 | merging fails exactly when a hash is malformed; otherwise it gives, in order of hash, one observation per hash with every tag seen and the first non-empty name |
| QbEffects.MergedIsUnique | src/subscription/effect_adapters.rs:369-387 | that description admits one list |
| QbEffects.FirstNameIs | src/subscription/effect_adapters.rs:369-387 | the name of a merged observation is the first that is not empty |
| QbEffects.MergingKeepsVerdict | src/subscription/effect_adapters.rs:369-387 | merging keeps the union, so reconciling before or after it gives one verdict |
| QbEffects.QbEffectAdapter.Ensure | src/subscription/effect_adapters.rs:247-302 | the outcome with the reconciled torrent's hash, name and tags, the server's torrents afterwards and the error for every failure of a listing or of the add; a conflict or a failed listing never adds |
| QbEffects.VisibleSuffices | src/subscription/effect_adapters.rs:253-283 | the two listings show enough: the verdict is that of the whole server |
| QbEffects.AcceptedAddIsFound | src/subscription/effects.rs:469-498 | once an add was accepted an inspection never decides to add again; it finds that torrent exactly when no other one carries the tag and a known hash is its hash |
| QbEffects.SecondAddMeansRemoval | src/subscription/effects.rs:469-498 | over runs in which each call brings its own request for its key, with failed inspections, adds lost before and responses lost after acceptance, and restarts, a second accepted add under one key means that in between its call listed by tag at a moment when no torrent carried the tag, and then by hash at one when none had the hash it knew |
| QbEffects.AcceptedAddSawNothing | src/subscription/effects.rs:469-498 | in every run, an accepted add was sent by a call that had listed by tag when nothing carried the tag and by hash when nothing had the hash it knew; so a conflict never adds |
| Pagination.TakeNew | src/douban.rs:272-294 | takes the items of a page with new subjects, in order, up to the limit |
| Pagination.LibraryPagination.PushPage | src/douban.rs:272-294 | keeps the first distinct items of all pages so far, and decides by what the page added |
| Pagination.FetchLibrary | src/douban.rs:821-851 | for every page source: the first `limit` distinct subjects of the fetched pages in order; complete exactly when the last page was empty, and then with fewer than `limit`; the loop never ends on `Continue` |
| Pagination.LibraryIsDetermined | src/douban.rs:821-851 | the page source and the limit settle which pages are fetched and what is answered, so the contract of `FetchLibrary` leaves no choice |
| Pagination.DistinctIsExact | src/douban.rs:272-294 | the distinct items name every subject exactly once |
| Pagination.DistinctConcat | src/douban.rs:272-294 | taking pages one at a time is taking all their items at once |
| ServerIds.SanitizeId | src/config.rs:436-454 | the loop computes the sanitised form |
| ServerIds.SanitizeIsClean | src/config.rs:436-454 | a sanitised identifier has only lower-case letters, digits and single inner dashes |
| ServerIds.SanitizeTakesWords | src/config.rs:436-454 | sanitising a text gives its words, in lower case and with one dash between them |
| ServerIds.EveryTextIsSplit | src/config.rs:436-454 | and every text has such words and gaps, so that says what becomes of any |
| ServerIds.HexIs | src/config.rs:426-434 | the fallback hash is written in lower-case hexadecimal without a superfluous zero |
| ServerIds.SanitizeOfClean | src/config.rs:436-454 | sanitising leaves a clean identifier as it is |
| ServerIds.FindUniqueId | src/config.rs:411-424 | ends with an identifier nobody uses, the base itself when it is free, and records it |
| ServerIds.FirstFree | src/config.rs:411-424 | the suffix search ends, and stops at the first free suffix |
| ServerIds.UniqueIdIsClean | src/config.rs:411-424 | an identifier made unique with a suffix is still clean |
| ConfigNormalize.NormalizeQbServers | src/config.rs:368-390 | the servers in order with unique identifiers, or the first error |
| ConfigNormalize.ServersBecomeNormal | src/config.rs:368-454 | normalised servers have pairwise distinct clean identifiers, trimmed text and the passwords they came with |
| NormalForm.ServersAcceptedIff | src/config.rs:368-409 | servers are accepted if and only if every one has an address that parses as a base URL |
| NormalForm.ServersBecome | src/config.rs:368-390 | every server comes out in its place, trimmed, with its password as given, and no two have one identifier |
| NormalForm.ServerIdsAre | src/config.rs:411-434 | each server gets the identifier it asks for, by identifier, name, address or hash, or else the first free numbered one |
| ConfigNormalize.NormalizeSubscriptionCategories | src/config.rs:472-575 | the categories in order, or the first error |
| NormalForm.CategoriesAcceptedIff | src/config.rs:472-575 | categories are accepted if and only if every one has all its fields, a wanted tag without white space and a server that exists, and no two share a name or a wanted tag; each comes out trimmed, in its place, bound to that server |
| NormalForm.CategoryRefusalIsTrue | src/config.rs:498-572 | a refusal is about the first category that is not accepted, and what it says of it is so |
| ConfigNormalize.OneWordHasNoBlank | src/config.rs:517-528 | a trimmed text with white space inside has two words or more, so the word count refuses exactly that |
| ConfigNormalize.NormalizeKeywordList | src/config.rs:635-644 | the loop computes the trimmed, deduplicated keywords |
| ConfigNormalize.KeywordsBecomeNormal | src/config.rs:635-644 | the keywords left are trimmed, not empty and distinct |
| ConfigNormalize.NormalizeTorrentMatchRules | src/config.rs:590-633 | the rules sorted, or the first error |
| NormalForm.RulesAcceptedIff | src/config.rs:590-633 | rules are accepted if and only if every one has a name and a keyword and no two share a name; they come out by falling priority and then by name, each once, its keywords trimmed and listed once in order of first occurrence |
| NormalForm.RuleRefusalIsTrue | src/config.rs:604-625 | a refusal is about the first rule that is not accepted, and what it says of it is so |
| NormalForm.WatcherBounds | src/config.rs:577-588 | every interval and limit of the watcher is brought to the nearest value within its bounds, and nothing else changes |
| NormalForm.ValidIff | src/config.rs:264-345 | a configuration is valid if and only if its address parses, its token has 24 characters or is empty on a loopback address, and its origins are origins |
| NormalForm.InvalidIsTrue | src/config.rs:264-345 | what an invalid configuration is refused for is so |
| NormalForm.ConfigAcceptedIff | src/config.rs:646-657 | a whole configuration is accepted if and only if each of its parts is, and nothing but servers, categories, watcher and rules changes |
| NormalForm.DefaultsAreNormal | src/config.rs:246-261 | the defaults are valid and normal wherever `127.0.0.1` is a loopback address |
| ConfigNormalize.SortSorts | src/config.rs:627-632 | sorting orders the rules by priority and name and loses none |
| ConfigNormalize.UnchangedIffNormal | src/config.rs:646-657 | normalising leaves a configuration as it is if and only if it is normal in every respect |
| ConfigNormalize.NormalizeIdempotent | src/config.rs:646-657 | a normalised configuration normalises to itself, with pairwise distinct server identifiers |
| ConfigNormalize.ConfigFile.LoadOrCreate | src/config.rs:280-301 | the file is created only when it was missing, and only with valid defaults |
| ConfigNormalize.ConfigFile.LoadNormalized | src/config.rs:659-671 | a successful load leaves the normalised configuration in the file, backs up what it replaces, and touches nothing when nothing changes |
| ConfigNormalize.LoadTwice | src/config.rs:309-332 | a second load returns the same configuration, writes nothing and makes no backup |
| ConfigPatch.MergeQbServerPatches | src/http/config.rs:343-377 | the merged servers, with passwords assigned by position after normalisation, or the first error |
| ConfigPatch.MergeConfigPatch | src/http/config.rs:236-305 | the patched configuration that `PatchOutcome` describes, or the first error |
| ConfigPatch.PatchOutcome | src/http/config.rs:236-377 | an accepted patch gives a normal configuration; a secret it does not name stays as it was, each password on the server with its identifier; one it names is replaced or gone; every other field, those of each patched server in its place included, is the one it names, normalised, or the one in force |
| ConfigPatch.PatchAcceptedIff | src/http/config.rs:236-377 | a patch is accepted if and only if no secret is set to nothing or both set and cleared, the servers it gives have addresses, and the configuration it makes is in order in each of its parts; a refusal for a secret is true of one |
| ConfigPatch.ConfirmationIff | src/http/config.rs:385-395 | confirmation is asked for exactly when an accepted patch would turn the automation on without confirming it |
| ConfigPatch.PutGoesThrough | src/http/config.rs:125-140 | from every state of every run with no update under way, an accepted and confirmed PUT with the revision in memory that changes something ends with the patched configuration in memory and on disk |
| ConfigPatch.ResponseShows | src/http/config.rs:206-234 | a response shows every field but the secrets, and of each secret whether there is one |
| ConfigPatch.PickedServersKeepPasswords | src/http/config.rs:343-377 | any sub-list of the current servers, in any order, echoed without secrets, comes back with each password on its own server |
| ConfigPatch.EchoIsIdentity | src/http/config.rs:206-234 | patching a normal configuration with its own redacted response gives the identical configuration |
| ConfigPatch.EchoUpdateIsNoOp | src/config.rs:770-772 | such a patch publishes nothing: the update answers with the unchanged snapshot |
| ConfigPatch.UpdatesKeepNormal | src/config.rs:797-806 | both updates the program makes, a patch and a new cookie, keep a normal configuration normal |
| ConfigPatch.RunStaysNormal | src/config.rs:746-795 | in every run of such updates from a normal configuration, however they interleave, every snapshot is normal |
| ConfigPatch.EchoInRunIsNoOp | src/http/config.rs:206-234 | so sending back what any state of such a run shows publishes nothing |
| ConfigPatch.ResponseHidesSecrets | src/http/config.rs:206-234 | the response of two configurations that differ only in their secrets, but not in which are set, is the same |
| UrlRedaction.RedactQuery | src/app/redaction.rs:198-208 | the loop over separators computes the redacted query |
| UrlRedaction.QueryHidden | src/app/redaction.rs:198-218 | for every query, exactly the values of its secret components are replaced; keys, separators and the other components stay |
| UrlRedaction.UrlHidden | src/app/redaction.rs:165-196 | for every URL, the user information and the secret values between the first `?` and the next `#` are replaced, and nothing else |
| UrlRedaction.SecretValueHidden | src/app/redaction.rs:198-218 | the value of a secret key becomes `[REDACTED]` wherever in a query it stands, at the start or behind `&` or `;` and up to the next of them, and both sides are redacted on their own |
| UrlRedaction.SecretValueInUrl | src/app/redaction.rs:165-218 | so it does in a whole URL, up to `&`, `;`, `#` or the end |
| QueryKeys.PercentDecode | src/app/redaction.rs:274-297 | the loop computes the decoded key |
| QueryKeys.DecodeOfSpell | src/app/redaction.rs:274-306 | decoding gives back what is meant, whichever characters are escaped |
| QueryKeys.DisguiseIsSeen | src/app/redaction.rs:220-272 | two keys that mean the same but for case and for which of `-`, `.` and `_` they use are both secret or neither is, however they are escaped |
| QueryKeys.SecretHoweverSpelled | src/app/redaction.rs:220-272 | the listed names, and all that end in `token`, `secret`, `password` or `_key`, are secret however they are spelled |
| QueryKeys.TokenIsHidden | src/app/redaction.rs:165-272 | in every URL the value of a key that means `token` is hidden, however the key is spelled |
| UrlRedaction.ParseUrl | src/app/redaction.rs:165-196 | whatever follows a scheme and its `://` is the body of a URL of the grammar, so `UrlHidden` covers every URL |
| UrlScan.UrlSchemeStart | src/app/redaction.rs:127-135 | the start of the maximal run of scheme characters, if it begins with a letter |
| UrlScan.UrlEnd | src/app/redaction.rs:141-148 | the first blank, quote or angle bracket, or the end |
| UrlScan.TrimUrlSuffix | src/app/redaction.rs:150-163 | the end of the URL without its trailing punctuation |
| UrlScan.SchemeIsAhead | src/app/redaction.rs:105-125 | looking back for a scheme never crosses the point the scan has reached |
| UrlScan.RedactEmbeddedUrls | src/app/redaction.rs:105-125 | ends on every text, never copies from before what it has copied, and computes the rewritten text |
| UrlTexts.TextHidden | src/app/redaction.rs:105-125 | for every text of plain stretches and URLs, the plain stretches are unchanged and each URL is redacted |
| UrlTexts.ParseText | src/app/redaction.rs:105-125 | every text is of that form |
| UrlTexts.QuietIff | src/app/redaction.rs:105-135 | plain text is text in which no `://` has a scheme before it |
| UrlTexts.SecondPassIff | src/app/redaction.rs:105-163 | a second pass adds one character for each URL that ends in a hidden value, so it changes nothing if and only if there is none |
| UrlTexts.SecondPassCanDiffer | src/app/redaction.rs:150-163 | `http://a?token=x` changes in the second pass |
| SecretRedaction.FromConfig | src/app/redaction.rs:24-47 | exactly the configured secrets, each once, none empty, strictly ordered longest first |
| SecretRedaction.CookieValueIs | src/app/redaction.rs:36-42 | the secret of a cookie is its value without the blanks around it and the quotes inside them |
| SecretRedaction.RedactConfiguredSecrets | src/app/redaction.rs:82-103 | the loop renders the segmentation of the text |
| SecretRedaction.SegmentsFit | src/app/redaction.rs:82-103 | the segmentation is the text cut into copied characters, at which no secret starts, and secrets, each the longest that starts there |
| SecretRedaction.SegmentsUnique | src/app/redaction.rs:82-103 | no other cut of the text has that property |
| SecretRedaction.NoneSurvives | src/app/redaction.rs:82-103 | a configured secret that the marker cannot overlap occurs nowhere in the rendered text |
| SecretRedaction.SurvivesIff | src/app/redaction.rs:82-103 | a secret can occur in the output for some text and some other secrets if and only if the marker, laid over it at some offset, agrees with it |
| SecretRedaction.ShownIff | src/app/redaction.rs:24-60 | for every secret, some configuration that holds it and some text show it in the final output only if the marker can overlap it; and if the marker can, some do, for a trimmed secret without `://` that fits under the cap with the marker |
| SecretRedaction.PlainSecretIsSafe | src/app/redaction.rs:82-103 | a secret without square brackets that is no part of the marker cannot survive |
| SecretRedaction.BracketSecretSurvives | src/app/redaction.rs:82-103 | the secret `]a` survives in `]aa`, which becomes `[REDACTED]a` |
| SecretRedaction.Redact | src/app/redaction.rs:49-60 | URLs before configured secrets, then trimmed and cut to the cap; no configured secret that the marker cannot overlap occurs in the output |
| SecretRedaction.ShownIs | src/app/redaction.rs:49-60 | what is shown is the rendered text, trimmed, or the first thousand characters of that |
| Episode.ReadNumber | src/subscription/episode.rs:246-256 | the decimal value of the digits, capped at the largest 32-bit number |
| Episode.ReadCharNumber | src/subscription/episode.rs:258-269 | the decimal value of the digits, or nothing when it does not fit in 32 bits |
| Episode.ReadRangeEnd | src/subscription/episode.rs:225-244 | the positive number that ends a range, with nothing alphanumeric behind it |
| Episode.FindSeasonEpisode | src/subscription/episode.rs:123-144 | the first position that has a positive season and a positive episode |
| Episode.FindEpisode | src/subscription/episode.rs:146-164 | the first position that has a positive episode |
| Episode.FindChineseEpisode | src/subscription/episode.rs:166-193 | what stands behind the first `第`, usable or not |
| Episode.FindBracketEpisode | src/subscription/episode.rs:87-111 | the first bracket that holds a positive episode or a range |
| Episode.FindSeasonPack | src/subscription/episode.rs:195-223 | the first positive season that no episode follows |
| Episode.Recognize | src/subscription/episode.rs:70-85 | the notations in their order of precedence |
| EpisodeTitles.RecognizedIff | src/subscription/episode.rs:70-121 | a title is recognised as a coverage if and only if that is what the first reading of the first notation with one says, each notation being a grammar in its own characters |
| EpisodeTitles.FirstFromIff | src/subscription/episode.rs:123-223 | the search finds exactly the first reading |
| EpisodeTitles.SeasonEpisodeIsRead | src/subscription/episode.rs:123-144 | `S01E02`, with or without separators, is read so in every title, alone or with a range end |
| EpisodeTitles.EpisodeIsRead | src/subscription/episode.rs:146-164 | so are `E07` and `EP07` |
| EpisodeTitles.EndsRangeIff | src/subscription/episode.rs:225-244 | a range goes on exactly behind `e`, or behind `-`, `_`, `~` or blanks and perhaps `e` and `p`, with a positive number that nothing alphanumeric follows |
| EpisodeTitles.ChineseIsRead | src/subscription/episode.rs:166-193 | `第1集`, with or without the `集`, is read as that episode in every title without the earlier notations |
| EpisodeTitles.ChineseRangeIsRead | src/subscription/episode.rs:166-193 | `第1-3集`, `第1集至第3集` and the like, with blanks around the mark, as that range |
| EpisodeTitles.BracketIsRead | src/subscription/episode.rs:87-111 | `[01]` as that episode |
| EpisodeTitles.BracketRangeIsRead | src/subscription/episode.rs:87-121 | `[01-12]` and `[01~12]` as that range, or as the first episode when the second is not larger |
| EpisodeTitles.PackIsRead | src/subscription/episode.rs:195-223 | `S01` as a season pack when something other than `e` follows it, or at the end of a title that names a pack |
| Episode.LabelIs | src/subscription/episode.rs:43-67 | labels are `S01E02`, `E02`, `S01E02-E05`, `E02-E05` and `S01 全季`, with two digits at least |
| Episode.LabelRoundTripIff | src/subscription/episode.rs:43-85 | a printed label is recognised as the coverage it was printed from if and only if its numbers are 32-bit and count from one and a range has at least two episodes |
| Episode.RecognizedIsWellFormed | src/subscription/episode.rs:70-121 | whatever a title is recognised as is such a coverage if and only if the title is not one read by its `第` as starting at zero |
| Episode.RelabellingIsStable | src/subscription/episode.rs:70-85 | a recognised title and its printed label are recognised alike under exactly that condition, for every title |
| Episode.EpisodeZeroIsLost | src/subscription/episode.rs:166-193 | `第0集` is recognised as episode 0, whose label is not |
| Episode.CoverageIsDetermined | src/subscription/episode.rs:20-33 | well-formed coverages that cover the same episodes are the same |

## Left out

- HTTP clients and routes, response documents, the frontend, tracing and audit: plumbing.
- Claims, leases and polling, and the database schema: not part of this model.
- SHA-1 and SHA-256: the digest is a parameter; what is proved is about the bytes it is given.
- TOML: parsing is taken to invert serialising, so the file holds a configuration, nothing, or something malformed.
- Error texts: errors are values; an empty wanted tag and one of several words are both the field error of that category.
- The provider and disk caches, image URLs and HTML extraction: branch by branch, without a deep property.
- `openat`, directories and permissions: the filesystem maps paths to inodes; failures are sets of paths that persist through a batch, and other processes only add entries.
- ConfigStore.ConfigManager.Update: is one uninterrupted call; interleaving, cancellation and detached writes are the step system of the same module.
- ConfigStore.RunInv: speaks of safety; that a waiting caller is served in the end depends on the scheduler and is not modelled.
- QbEffects.SecondAddMeansRemoval: rests on two assumptions about the server and the callers: an accepted add is on the server under its tag before its call returns, and calls for one key are sequential.
- QbReconcile.RequestAgreesWithSources: takes the stable key as a function of the three components; `EffectKey` says which.
- LoginLimiter.FailuresInFlight: takes the 32-bit failure counter not to saturate, so fewer than about four billion logins of one peer in flight.
- LoginLimiter.LoginRateLimiter.Check: counts time in whole units without the overflow of the system clock.
- Episode.Recognize: compares characters, where the program compares bytes; the compared characters are ASCII or single code points, so the results agree.
- SecretRedaction.ShownIff: the converse half is for trimmed secrets without `://` that fit under the cap together with the marker; for other secrets only the safe half is stated, because the trim, the URL pass or the cap may remove what the marker leaves.
- SecretRedaction.FromConfig: sorts by insertion where the program calls the library; the order and the elements are what is promised.
