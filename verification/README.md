# Verification of the comic server's core

A Dafny model of the parts of the comic server that have to be right under failures, interleavings and odd inputs, with
proofs. `dafny verify dfyconfig.toml` checks everything.

## What is modelled

**Archive copies and replicas** (`ReplicaModel`, `ReplicaSafety`, `ReplicaOutcome`, `ReplicaRisk`, `ReplicaFaults`,
`ReplicaExact`, `ReplicaLoss`, `ReplicaRecords`, `ReplicaHelper`). Packing, replicating, checking with repair, and retention
over local files, backend objects and the persisted index. Every input/output step takes the next event of a tape that the
environment writes: success, failure, or death of the process, and what the step left behind. A tape that runs out is a
crash, so every crash point of every run is covered. `Helper` is the imperative form; its methods are proved equal to the
functions of `ReplicaModel`. As long as a run raises none of four faults, no packed id loses its last intact copy and every
replica recorded healthy is intact (`CopySafety`). Whether or not faults are raised, a call changes only the records it
names, and of those only what it is for: health, locators, or a new version with the old one behind its history
(`ReplicaRecords`). The faults are behaviour of the code:
- three uploads that mismatch leave no error, so the replica is recorded healthy;
- a verified object is put again, and that write damages it;
- a damaged download stays at the local archive path;
- a pack writes over the path of a recorded archive.

Which calls can raise them is proved exactly, from the state before the call (`ReplicaRisk.CanRaise`): a pack to a recorded
path; an upload, which happens when a usable record with its file is replicated, packed with backends, or repaired; a
check that considers a locator with an object while the file is not intact; and a rewrite on a backend that rewrites. Some
environment makes a call raise a fault if and only if this condition holds (`FaultExact`), and a call keeps the copies safe
in every environment if and only if it holds for no fault (`SafetyExact`). `ReplicaLoss` has a run for each fault that ends
without any copy. All of this takes every file name to belong to one id. Names the program gives do: they start with it
(`Versions.PrintedOwner`), so runs whose packs go to default destinations meet the condition (`Versions.DefaultSafety`), and
`Versions.NextPathIsFree` shows that default paths avoid the last fault.

**The verify task** (`VerifyProgress`, `VerifyTask`, `VerifyTotals`). Main loop, verify closures and fix closures as
interleaved steps over three lists, three counters, a wait group and the channel of fix closures. A channel that is full
makes the verify closure fall through and leaves one `Add` without its `Done`: a run that can go no further has ended
exactly if that never happened (`EndsUnlessLost`), and every such run has ended exactly if nothing is to be fixed or the
channel has room for a closure of every comic beside those of other tasks (`EndsExact`), which can be checked before the
run. The totals of a run that is over are the sums of what its closures reported (`TotalsAreReports`).

**Document updates** (`Documents`, `Flatten`). Flattening a nested document to dotted `$set`/`$unset` keys, in any order
of visiting and applying, is the recursive merge. With a dot in a key the order of visiting decides
(`DotInKeyIsAmbiguous`).

**The keyed mutex** (`KeyedMutex`). Every locker is held by at most one thread, always. A key is exclusive when lookup and
count, and decrement and deletion, are one step each; the code's own steps admit two holders (`FineStepsAdmitTwoHolders`).
Exactly which steps are to blame is `CalmExact`: those that use the gap between lookup and count or between the last
decrement and the deletion. Nobody waits but for a thread inside, and all who have come in get out (`StuckIsIdle`, `GetOut`).

**WebP alpha** (`AlphaPlane`, `WebpDecoder`). The in-place loops compute the pixel definition of section 2.7.1.2 of RFC 9649
and invert the forward filter; every answer of the chunk loop is told from the layout of the chunks (`ScanAnswers`). An
alpha plane comes out for exactly one layout, and it covers the canvas. The decoder never compares the canvas with the image
inside: every pixel of the image finds its alpha in its own row exactly if the image is neither wider nor higher than the
canvas, and none reads past the end of the plane exactly if the last one does not (`PlaneFitsFrame`). An image of four by
four pixels on a canvas of eight by two has a plane of sixteen bytes, which its last pixel misses (`PlaneMayNotFitFrame`).

**Indexes and rewritten queries** (`TagIndex`, `KeysetScan`, `LimitPushdown`, `Sections`). The incremental tag index against a
full count; the keyset scan against a changing collection; limits pushed into queries against one limit at the end;
section indices against the ordered list. Where the code falls short the exact condition is proved:
- a limited query counts rows without an id, and rows that repeat one, before they are dropped (`PushdownExact`);
- a page that starts and ends in the same section is not cut (`TagsSections`); section indices are first positions exactly
  if the list is ordered by section, and a list sorted by name is so ordered exactly if its initials fit, which names in
  mixed case need not (`SortedIndicesExact`, `MixedCaseDisorders`);
- the page after a skip starts with the comic that is due exactly if the skip is at least the number of rows up to the last
  emitted one and less than the number up to the one that is due (`SkipExact`); so a scan by skip emits a window of what its
  last query sees while emitted rows stay and no earlier ones enter, and passes over a row as soon as an emitted one leaves
  (`LeavingLoses`);
- a scan by skip stops when a full page would pass the limit, so a limit that is no multiple of the page size loses its
  tail: of three hundred comics a limit of 250 emits two hundred (`TailIsCut`). What was asked for comes out exactly if the
  limit is such a multiple, or below the page size without a skip, or the matches end before the tail (`EmittedExact`,
  `LimitServes`); with a skip and a limit below the page size nothing comes out;
- a keyset scan takes no notice of the limit (`KeysetIgnoresLimit`), repeats the comic of a filter for a single id until it
  is gone (`FindChannel`), and passes over rows exactly when a page ends between two rows with the same id (`KeysetExact`);
- an added tag without an id gets one that no comic uses but another tag of the same request may, and then it is not
  stored: exactly when it is stored is `NewTagStored`, `NewTagMayBeLost` is a request that loses it;
- two tags share a key exactly if kind and value agree or a kind with a colon takes in part of a name (`KeyExact`); so a
  numbered tag meets an unnumbered one named like the number (`KeysMeet`).

**Redirects, moves, names** (`Redirects`, `Moves`, `ArchiverNames`, `StoragePaths`, `ComicNames`, `Versions`, with `Text`,
`Decimal`, `Arithmetic`, `Sequences` and `Options`). A link keeps redirects one step deep exactly if the main comic does not
redirect to the other one and all its followers are found by the limited query and can be written, and a run of links keeps
them so throughout exactly if every link does. Sorting found files loses nothing at any crash point; archives are told from
rejected, duplicate and temporary files by their paths exactly if the directory for rejected files is neither the archive
directory nor a directory of archives in it (`ArchiverNames.NamesSeparate`).
Storage keys survive the way to a remote path and back exactly under a stated condition; the key `.` becomes `/.`, which
does not. File versions are read back from names, and repeated packs number them 1, 2, 3, ….

## How to read the results

Methods with `modifies` state their whole new state, mostly as a function of the old one; the lemmas prove what that
function promises, in terms of the states before and after. Hashes are an uninterpreted function, and "intact" means that
the hash of the bytes is the recorded one. Where a database, file system, clock or codec decides something, it is a
parameter (a tape of events, a set of failing writes, a function) over which everything is quantified.

## Model

| member | source | states |
|---|---|---|
| ReplicaSafety.CopySafety | pkg/archive/manager/replicate.go:38-107 | over every run of packs, replications, checks and retentions, with failures and crashes anywhere, every packed file named for its id and no fault raised: healthy locators name intact objects under keys that end in the file's name, backends are distinct, no packed id loses its last intact copy |
| ReplicaSafety.ApplyKeeps | pkg/archive/manager/replicate.go:17-107 | one helper call, cut off at any point, keeps that safety for all ids |
| ReplicaExact.SafetyExact | pkg/archive/manager/checker.go:46-79 | a call from a safe state keeps every copy safe in every environment if and only if the state before it rules out every fault |
| ReplicaExact.FaultExact | pkg/archive/manager/replicate.go:73-105 | for each fault: some environment makes the call raise it if and only if the state before the call says so |
| ReplicaExact.CarefulSafety | pkg/archive/manager/replicate.go:38-107 | a run in which no call can raise a fault in the state it finds stays safe whatever the environment does |
| ReplicaRisk.OnlyThese | pkg/archive/manager/checker.go:86-157 | whatever the environment does, a call raises only the faults that the state before it allows |
| ReplicaRisk.CheckFromRaises | pkg/archive/manager/checker.go:46-79 | in the loop over locators a fault is due to a considered locator and its object as they were before the check |
| ReplicaExact.CheckCanMislead | pkg/archive/manager/checker.go:119-137 | an intact object that is read again can be destroyed and still be recorded healthy |
| ReplicaRisk.NotReplicable | pkg/archive/manager/replicate.go:39-71 | without a usable record and its file nothing is uploaded: no success, no fault, objects and files stay |
| ReplicaSafety.ReplicateKeeps | pkg/archive/manager/replicate.go:38-107 | replicate touches only the object of its backend and records nothing untruthful, because it records the replica unhealthy first |
| ReplicaSafety.UploadFacts | pkg/archive/manager/replicate.go:73-100 | the retry loop touches one object; when it ends as stored, the object is intact |
| ReplicaSafety.VerifyFacts | pkg/archive/manager/checker.go:86-157 | a verification answers healthy exactly for an intact object, and without a torn re-put keeps it intact |
| ReplicaSafety.ConfirmKeeps | pkg/archive/manager/replicate.go:101-106 | recording the replica healthy is truthful unless the loop ran out on mismatches |
| ReplicaSafety.ReplicateShape | pkg/archive/manager/replicate.go:47-59 | replicate changes only the locator of its backend, and of that at most health and key |
| ReplicaSafety.CheckKeeps | pkg/archive/manager/checker.go:30-84 | a check with its repair branch keeps an intact copy of its id at every crash point |
| ReplicaSafety.RepairKeeps | pkg/archive/manager/checker.go:67-76 | so does the repair of one locator followed by the second verification |
| ReplicaSafety.RetainKeeps | pkg/archive/manager/retention.go:17-46 | removing local files keeps every id safe, because only truthful healthy locators allow it |
| ReplicaSafety.ArchiveKeeps | pkg/archive/manager/executor.go:32-86 | packing to a path that is not recorded keeps every id safe, also when it fails halfway |
| ReplicaOutcome.ReplicateDelivers | pkg/archive/manager/replicate.go:99-106 | a replication without error has stored an intact object and recorded it as healthy |
| ReplicaOutcome.ReplicateDeliversExact | pkg/archive/manager/replicate.go:73-106 | if backends report their own tags or none, a replication without error has stored an intact object if and only if it raised no fault |
| ReplicaOutcome.UploadOutcome | pkg/archive/manager/replicate.go:74-100 | under the same hypothesis an upload that runs out on a mismatch leaves an object that is not intact |
| ReplicaOutcome.RetainDelivers | pkg/archive/manager/retention.go:24-45 | retention without error removed exactly the files of records with a healthy replica |
| ReplicaOutcome.CheckExact | pkg/archive/manager/checker.go:46-83 | after a check without error or fault, forced or not, a replica on a registered backend is recorded healthy if and only if its object is intact, and other records are as before |
| ReplicaOutcome.RepairExact | pkg/archive/manager/checker.go:67-78 | the repaired locator is recorded healthy if and only if its object is intact, and the others are untouched |
| ReplicaRecords.RetentionRecords | pkg/archive/manager/retention.go:17-46 | over the index before and after: a listed record with a healthy replica loses its local health and nothing else, history included, and every other record is unchanged; cut off anywhere, the record is the old one, the new one or absent |
| ReplicaRecords.ReplicationRecord | pkg/archive/manager/replicate.go:47-106 | replicate changes one record, and of that only the locator of its backend, which takes its place or comes last, first unhealthy, then healthy; cut off anywhere, the record is the old one, one of those two or absent |
| ReplicaRecords.ReplicationRecords | pkg/archive/manager/replicate.go:17-31 | the same for every listed record of a replication of many; no other record changes |
| ReplicaRecords.CheckRecords | pkg/archive/manager/checker.go:30-84 | a check keeps path, checksum, version and history of its record and every other record; after success the record says whether the local file was intact |
| ReplicaRecords.PackRecords | pkg/archive/manager/executor.go:32-86 | a pack changes one record: the new one has the digest of the file now at its destination, the version of its name, and the old record behind the old history; after success exactly one healthy replica on each backend |
| ReplicaRecords.CallRecords | pkg/archive/manager/replicate.go:17-107 | whatever fails, any call changes only records of the ids it names, and only a pack replaces path, checksum, version or history |
| ReplicaRecords.RunOrderly | pkg/archive/manager/executor.go:32-86 | over every run, faults and crashes included: records under their own ids, one locator a backend, histories flat |
| ReplicaLoss.BlindLosesCopy | pkg/archive/manager/replicate.go:83-106 | three mismatching uploads, then retention: the last copy is gone |
| ReplicaLoss.SamePathLosesCopy | pkg/archive/manager/executor.go:42-44 | a failing pack over the recorded path, and no copy is left |
| ReplicaLoss.TornRePutLosesCopy | pkg/archive/manager/checker.go:119-137 | a torn re-put of the only copy |
| ReplicaLoss.DirtyDownloadLosesCopy | pkg/archive/manager/checker.go:56-63 | a damaged download at the archive path, then replication of it |
| ReplicaHelper.Helper.ReplicateRecord | pkg/archive/manager/replicate.go:38-107 | the imperative replicate equals Replicate on the world before |
| ReplicaHelper.Helper.UploadWithRetry | pkg/archive/manager/replicate.go:73-100 | the three-try loop equals Upload, with at most three uploads and at most one rewrite, and gives up unverified only after three |
| ReplicaHelper.Helper.ReplicateMore | pkg/archive/manager/replicate.go:17-31 | the loop over listed records equals ReplicateAll |
| ReplicaHelper.Helper.VerifyObject | pkg/archive/manager/checker.go:86-157 | equals ChecksumFromStorage |
| ReplicaHelper.Helper.CheckRecord | pkg/archive/manager/checker.go:30-84 | equals Check |
| ReplicaHelper.Helper.CheckLocator | pkg/archive/manager/checker.go:47-78 | one round over the locators equals CheckOne |
| ReplicaHelper.Helper.ApplyRetention | pkg/archive/manager/retention.go:17-46 | equals Retain; every record of the index is as RetentionRecords says; without error the number returned is that of the records with a healthy replica |
| ReplicaHelper.Helper.ArchiveDir | pkg/archive/manager/executor.go:32-86 | equals Archive |
| VerifyTask.TaskSafety | pkg/comic/verify.go:434-594 | in every interleaving: at most one of the three lists holds a comic, and at most once; fixed never exceeds invalid; no comic counts twice; the wait group is what is still owed plus what was lost |
| VerifyTask.StepKeeps | pkg/comic/verify.go:439-593 | the invariant behind it survives every atomic step |
| VerifyTask.OverMeansComplete | pkg/comic/verify.go:593-593 | when the final Wait returns, all lists are empty and every accepted comic has been counted once; what the totals are is TotalsAreReports |
| VerifyTotals.TotalsAreReports | pkg/comic/verify.go:434-594 | for every run that is over, read off its actions: invalid is the sum of what the verifications found, fixed the sum of what the repairs reported, current the number of accepted comics; a comic is repaired if and only if fixing is on and something was found |
| VerifyTask.OwedBlocks | pkg/comic/verify.go:445-455 | Wait does not return while a closure owes its Done |
| VerifyTask.WorkDecreases | pkg/comic/verify.go:439-593 | every effective step uses up work, so every run ends |
| VerifyTask.EndsUnlessLost | pkg/comic/verify.go:515-519 | a run that can go no further is over if and only if no fix closure was lost to a full channel |
| VerifyTask.EndsExact | pkg/comic/verify.go:369-369 | all runs that can go no further are over if and only if nothing is to be fixed, there is no comic, or the channel has room for a closure of every comic beside those of other tasks |
| VerifyTask.RoomyLosesNone | pkg/comic/verify.go:515-519 | with that room no interleaving loses a closure |
| VerifyTask.TightMayHang | pkg/comic/verify.go:515-519 | without it a run exists that waits forever |
| VerifyProgress.Progress.Start | pkg/comic/verify.go:190-194 | appends to running |
| VerifyProgress.Progress.WaitFix | pkg/comic/verify.go:219-229 | moves the first occurrence from running to waitFixing |
| VerifyProgress.Progress.Fix | pkg/comic/verify.go:231-241 | moves the first occurrence from waitFixing to fixing |
| VerifyProgress.Progress.End | pkg/comic/verify.go:196-217 | removes one occurrence from the first list that has it |
| Flatten.UpdateDocs.FlattenBSON | pkg/archive/manager/mongostore.go:575-592 | whatever order fields are visited in, the two update documents receive exactly the entries of the document, and what that order writes |
| Flatten.EntriesAreOps | pkg/archive/manager/mongostore.go:594-620 | for dot-free keys the dotted keys split back to the entries below the prefix |
| Flatten.CompiledUpdateMerges | pkg/archive/manager/mongostore.go:696-720 | the compiled update, applied in any order, is the deep merge |
| Flatten.DotInKeyIsAmbiguous | pkg/archive/manager/mongostore.go:576-580 | with a dot in a key two orders of visiting the same document give different updates |
| Documents.PrefixFree | pkg/archive/manager/mongostore.go:575-592 | one path per leaf, none a prefix of another, set and unset disjoint |
| Documents.UpdateIsMerge | pkg/archive/manager/mongostore.go:700-712 | applying all entries in any order equals the recursive merge, on any previous content |
| Documents.MergeReadsBack | pkg/archive/manager/mongostore.go:594-620 | path by path: leaves are read back, nulls are gone, untouched paths are as before |
| KeyedMutex.LockerSafety | pkg/mutex/local.go:21-40 | in every state of every interleaving a locker's count is the number of its threads and at most one is inside |
| KeyedMutex.BlockedExact | pkg/mutex/local.go:27-30 | a waiting thread is held up if and only if a thread is inside its locker |
| KeyedMutex.StuckIsIdle | pkg/mutex/local.go:26-40 | no deadlock: where no thread can go on, none is between the start of Lock and the end of its unlock |
| KeyedMutex.GetOut | pkg/mutex/local.go:26-40 | no livelock: when no more threads come in, those inside have at most five steps each to go |
| KeyedMutex.CalmRunsExclude | pkg/mutex/local.go:26-40 | runs in which nobody overtakes in the two gaps exclude per key |
| KeyedMutex.CalmExact | pkg/mutex/local.go:26-39 | after a calm run, a step with an effect leaves every key exclusive on all calm continuations if and only if it is calm |
| KeyedMutex.OvertakingBreaks | pkg/mutex/local.go:27-38 | from every state in which a deletion is due under a thread that has looked the entry up, two threads come to hold the key |
| KeyedMutex.AtomicActionsExclude | pkg/mutex/local.go:27-37 | with lookup-and-count and decrement-and-delete as one step each, every run excludes and leaves no unused entry |
| KeyedMutex.FineStepsAdmitTwoHolders | pkg/mutex/local.go:27-38 | a run of three threads with the code's own steps ends with two holders of one key |
| AlphaPlane.UnfilterInvertsFilter | pkg/imaging/webp/decode.go:207-260 | for every plane, stride and method, unfiltering is a two-sided inverse of filtering, modulo 256 and with the clamped predictor |
| AlphaPlane.UnfilterAlpha | pkg/imaging/webp/decode.go:207-260 | the in-place loops compute the recursive definition, stay in bounds on whole rows, and every pixel satisfies its equation by row and column |
| AlphaPlane.UnfilterOk | pkg/imaging/webp/decode.go:207-260 | pixel by pixel: each byte is its difference plus the neighbour, or the clamped sum of left and upper less upper left, modulo 256; top row and left column included |
| AlphaPlane.PlaneDetermined | pkg/imaging/webp/decode.go:207-260 | only one plane satisfies these equations |
| AlphaPlane.ZeroDifference | pkg/imaging/webp/decode.go:211-235 | a pixel that equals its left neighbour (method 1) or its upper one (method 2) has difference zero, and conversely |
| AlphaPlane.EvenPlane | pkg/imaging/webp/decode.go:238-258 | a linear slope within 0 to 255 has differences zero in the interior by method 3 |
| AlphaPlane.RestoreRow | pkg/imaging/webp/decode.go:239-258 | one row: vertical in the first column, then left or clamped gradient |
| AlphaPlane.RowFits | pkg/imaging/webp/decode.go:216-222 | a row that starts inside whole rows ends inside them |
| WebpDecoder.HeaderReadsBack | pkg/imaging/webp/decode.go:180-186 | the synthesized header parses to the same sizes with clear flags if and only if both fit 14 bits |
| WebpDecoder.HeaderWritesBack | pkg/imaging/webp/decode.go:180-186 | and it is the only header with clear flags for those sizes |
| WebpDecoder.PlaneSize | pkg/imaging/webp/decode.go:158-205 | stored or compressed, the plane has one byte per canvas pixel |
| WebpDecoder.ReadAlpha | pkg/imaging/webp/decode.go:158-205 | reads that plane with the canvas width as stride, or fails |
| WebpDecoder.PlaneHasWholeRows | pkg/imaging/webp/decode.go:162-202 | the plane consists of whole rows, which is what the unfiltering loops need |
| WebpDecoder.Decode | pkg/imaging/webp/decode.go:48-156 | the chunk loop answers what the layout of the known chunks says, for images and for configurations |
| WebpDecoder.ScanAnswers | pkg/imaging/webp/decode.go:48-156 | every answer, by the layout of the known chunks: the plain frame exactly for a decodable lossy chunk first or behind a canvas without alpha, the still picture exactly for a lossless chunk first or behind a canvas, alpha exactly for its layout, a nil image exactly for an empty alpha chunk, otherwise an error; and every configuration, with sizes from their own bytes |
| WebpDecoder.LosslessExact | pkg/imaging/webp/decode.go:113-124 | when a lossless chunk gives a picture, and which |
| WebpDecoder.AlphaPixels | pkg/imaging/webp/decode.go:64-78 | from the stored bytes, raw or the green channel, to the alpha of every pixel: the equations of the method that the chunk names |
| WebpDecoder.UnknownIgnored | pkg/imaging/webp/decode.go:57-57 | unknown chunks make no difference anywhere |
| WebpDecoder.AlphaOnlyAfterCanvas | pkg/imaging/webp/decode.go:58-154 | an image with alpha comes out if and only if the known chunks are a canvas with the alpha bit, an alpha chunk that can be read and a lossy image |
| WebpDecoder.AlphaCoversCanvas | pkg/imaging/webp/decode.go:70-74 | its plane has width times height bytes and filters back to what the file stores |
| WebpDecoder.PlaneFitsFrame | pkg/imaging/webp/decode.go:97-102 | every pixel of the image beside the plane reads a byte of its own row if and only if the image is empty or neither wider nor higher than the canvas; none reads past the end if and only if the last one does not |
| WebpDecoder.PlaneMayNotFitFrame | pkg/imaging/webp/decode.go:97-102 | a file whose plane has as many bytes as the image has pixels, and whose last pixel reads past the end |
| TagIndex.Catalogue.UpdateComicTags | cmd/server/handler/tag_edit.go:93-155 | from any collection and its full count, changes the tags of the first comic of that id as asked (EditDone, over the comics before and after), changes nothing when refused, and leaves the index equal to a full count |
| TagIndex.Catalogue.BatchAddTag | cmd/server/handler/tag_edit.go:245-319 | from any collection and its full count, adds the tag to exactly the comics that its first five hundred visits reach and that lack its key, reports their number, with the index equal to a full count, also when the incremental update fails |
| TagIndex.HandledEdit | cmd/server/handler/tag_edit.go:93-125 | an edit keeps each tag of the comic as often as it was there unless its key is removed, adds each added tag once that is the first of a key not kept, numbers those without id from the first new id, and leaves every other comic alone |
| TagIndex.HandledAdd | cmd/server/handler/tag_edit.go:264-300 | a batch appends its tag to exactly the comics it reaches that lack the key and reports how many |
| TagIndex.EditKeys | cmd/server/handler/tag_edit.go:93-125 | so the keys after an edit are the old ones without those removed, and those of the tags added |
| TagIndex.NewTagStored | cmd/server/handler/tag_edit.go:69-91 | an added tag without an id is there afterwards, under its kind, name and url and a new id of the reserved range, if and only if no tag that stays and none added before it has the key that the id gives it |
| TagIndex.NewTagMayBeLost | cmd/server/handler/tag_edit.go:69-91 | a request whose other tag already has that id loses it |
| TagIndex.Catalogue.UpdateIncremental | cmd/server/internal/tag/aggregate.go:340-382 | upsert, decrement and clean-up of one entry that the database chooses |
| TagIndex.Catalogue.AggregateTags | cmd/server/internal/tag/aggregate.go:118-171 | upserts full counts; changes nothing while the index is exact |
| TagIndex.BumpDown | cmd/server/internal/tag/aggregate.go:361-377 | the clean-up by kind and id alone can only hit the entry that just reached zero |
| TagIndex.BumpUp | cmd/server/internal/tag/aggregate.go:345-360 | counting up keeps the index exact |
| TagIndex.AggregateExact | cmd/server/internal/tag/aggregate.go:118-171 | a full aggregation makes the index exact if and only if no entry is left of a tag that is gone |
| TagIndex.EditMeans | cmd/server/handler/tag_edit.go:93-125 | a key is present after an edit exactly if added, or there before and not removed; keys stay distinct |
| TagIndex.EditBalance | cmd/server/handler/tag_edit.go:99-140 | an edit changes occurrences by exactly the appended and dropped tags |
| TagIndex.AssignedFresh | cmd/server/handler/tag_edit.go:69-91 | assigned ids are above every id in the collection, pairwise different and in the reserved range |
| TagIndex.BatchMeans | cmd/server/handler/tag_edit.go:264-300 | a batch adds the tag once to every reached comic that lacks it, however often it is named |
| TagIndex.BatchCounts | cmd/server/handler/tag_edit.go:286-300 | the number reported is the number of occurrences added |
| TagIndex.CountIsComics | cmd/server/internal/tag/aggregate.go:130-136 | with distinct keys the count of a tag is the number of comics that carry it |
| TagIndex.KeyExact | cmd/server/handler/tag_edit.go:328-333 | exactly which tags share a key, for all kinds and names |
| TagIndex.PlainKeyExact | cmd/server/handler/tag_edit.go:328-333 | for kinds without a colon: same kind, and same number, same name, or a name like the number |
| TagIndex.KeysMeet | cmd/server/handler/tag_edit.go:328-333 | a pair of either sort that shares a key |
| TagIndex.RunKeepsKeys | cmd/server/handler/tag_edit.go:99-125 | over every run of edits and batches, comics without repeated keys stay so |
| KeysetScan.FindChannel | pkg/comic/storage/base.go:34-65 | by keyset: ids in order, none more often than one query found it, and everything that stayed throughout and was not skipped in front, or for a single id its repetition; by skip: a window of what the last query sees while emitted rows stay and no earlier ones enter, and of a collection at rest exactly what Emitted says; it ends |
| KeysetScan.SweepPage | cmd/server/internal/comic/storage.go:137-149 | one page and the move of the left bound keep that promise |
| KeysetScan.SweepOnce | cmd/server/internal/comic/storage.go:137-149 | while ids are distinct each is emitted at most once, in strictly ascending order |
| KeysetScan.PageIsFirst | cmd/server/internal/comic/storage.go:94-104 | a query leaves out a match only in front, by its skip, or behind a full page |
| KeysetScan.KeysetExact | cmd/server/internal/comic/storage.go:137-149 | a page and the matches behind its left bound make up all matches if and only if the page does not end between two rows with the same id |
| KeysetScan.KeysetPassesOver | cmd/server/internal/comic/storage.go:137-149 | a page that does, and the row behind it that no query finds |
| KeysetScan.EmittedExact | pkg/comic/storage/base.go:42-63 | a scan by skip of a collection at rest emits what was asked for if and only if the limit is a multiple of the page size, or below it without a skip, or the matches end before the tail |
| KeysetScan.LimitServes | pkg/comic/storage/base.go:42-63 | whatever the collection holds, if and only if the limit is a multiple of the page size, or below it without a skip |
| KeysetScan.TailIsCut | pkg/comic/handler.go:298-304 | of three hundred comics a limit of 250 emits two hundred |
| KeysetScan.SkipLosesComics | pkg/comic/storage/base.go:58-62 | skip advances past comics never seen when emitted ones leave; the keyset does not |
| KeysetScan.SkipExact | pkg/comic/storage/base.go:58-62 | the page after a skip starts with the due id if and only if the skip is at least the number of rows up to the last emitted id and less than the number up to the due one; otherwise ids are passed over or repeated |
| KeysetScan.LeavingLoses | pkg/comic/storage/base.go:58-62 | when emitted rows leave and none enters among them, the next query passes over the row that is due, and over its id unless a later row carries it |
| KeysetScan.SettledPlaced | pkg/comic/storage/base.go:45-64 | while emitted rows stay and no earlier ones enter, everything emitted is the run of the last query's matches that starts at the initial skip |
| KeysetScan.KeysetIgnoresLimit | cmd/server/internal/comic/storage.go:137-149 | a keyset scan of a collection at rest emits all its ids, whatever the limit, and with distinct ids exactly its matches |
| KeysetScan.KeysetRange | cmd/server/internal/comic/storage.go:94-104 | of a collection at rest the ids between the given bounds, both included, or the one asked for |
| KeysetScan.SingleIdRepeats | cmd/server/internal/comic/storage.go:159-177 | with a single-id filter the next page is the same page |
| LimitPushdown.PushdownExact | cmd/server/internal/scheduler/archive_status_check.go:211-301 | limited queries merged and truncated equal unlimited ones merged and truncated, lists included, if and only if no row of the result was pushed out by rows without an id or with a repeated one |
| LimitPushdown.PushdownWithIds | cmd/server/internal/scheduler/archive_status_check.go:259-301 | in particular when every row has an id of its own, for every limit |
| LimitPushdown.TopIsEarly | cmd/server/internal/scheduler/archive_status_check.go:211-231 | fewer ids than the limit stand before a comic of the result in every query that finds it |
| LimitPushdown.Collect | cmd/server/internal/scheduler/archive_status_check.go:259-301 | the collecting loops compute the issues of which IssuesMean speaks |
| LimitPushdown.IssuesMean | cmd/server/internal/scheduler/archive_status_check.go:259-301 | one issue for each of the first comics that some query finds, ascending, as many as the limit allows; missing and unhealthy name the backends whose queries find the comic, in the order given |
| LimitPushdown.Note | cmd/server/internal/scheduler/archive_status_check.go:361-383 | noting the rows of one query: one entry per comic, backends without repetition |
| LimitPushdown.ZeroRowHidesComic | cmd/server/internal/scheduler/archive_status_check.go:217-231 | one row without an id hides the only comic |
| LimitPushdown.ZeroRowsHideComic | cmd/server/internal/scheduler/archive_status_check.go:217-231 | several such rows in front do the same |
| LimitPushdown.RepeatedRowHidesComic | cmd/server/internal/scheduler/archive_status_check.go:213-231 | so does a repeated id |
| Sections.TagsSections | cmd/server/view/tag_list_result.go:133-163 | the sections concatenate to the page, and are homogeneous with different neighbours if and only if the shortcut applies rightly |
| Sections.IndicesExact | cmd/server/internal/tag/aggregate.go:312-321 | every index is the first position of its section if and only if the list is ordered by section |
| Sections.SortedIndicesExact | cmd/server/internal/tag/aggregate.go:195-200 | for a list sorted by name, if and only if its initials fit |
| Sections.SortedExact | cmd/server/api/tag.go:16-27 | a list sorted by name is ordered by section if and only if no other initial stands behind a letter and no capital before an earlier small letter |
| Sections.MixedCaseDisorders | cmd/server/api/tag.go:16-27 | "Zed" sorts before "apple" but belongs to a later section |
| Sections.SortedPage | cmd/server/view/tag_list_result.go:133-163 | then every page of the list is cut properly |
| Sections.IndicesAreFirst | cmd/server/internal/tag/aggregate.go:312-321 | in a list ordered by section each index is the first position of its section, on its page, not behind the last page |
| Sections.SectionIndices | cmd/server/internal/tag/aggregate.go:313-321 | the accumulating loop gives the sums of the counts before each section |
| Sections.PageShows | cmd/server/view/tag_list_result.go:117-126 | a position lies on its page and never behind the last page |
| Sections.LastPageExact | cmd/server/view/tag_list_result.go:117-126 | the last page is the one on which the next tag would stand; it shows nothing if and only if the number of tags is a multiple of the page size |
| Sections.ShortcutSwallows | cmd/server/view/tag_list_result.go:143-146 | a page that starts and ends in the same section |
| Redirects.LinkExact | cmd/server/handler/admin.go:187-239 | a link keeps redirects one step deep and acyclic if and only if main does not redirect to sub and all followers of sub are found and written |
| Redirects.LinkResolves | cmd/server/handler/admin.go:222-302 | then sub and its group resolve to what main resolves to and nothing else changes |
| Redirects.LinkEffect | cmd/server/handler/admin.go:222-302 | in any case, comic by comic: sub is sent to the target, and so are the first hundred comics in storage order that redirect to sub, but for those that cannot be written |
| Redirects.RunExact | cmd/server/handler/admin.go:187-302 | over every sequence of links, with any mains and any failing writes, redirects stay one step deep throughout if and only if every link meets its condition in the state it finds |
| Redirects.RunResolves | cmd/server/handler/admin.go:222-302 | and then every comic leads where the links, taken one by one, send it |
| Redirects.BatchRunOk | cmd/server/handler/admin.go:123-181 | a permitted batch is such a run |
| Redirects.BatchResolves | cmd/server/handler/admin.go:123-181 | the same for a batch, with links that fail in between |
| Redirects.Library.LinkComics | cmd/server/handler/admin.go:123-181 | rejects invalid requests whole, removes repetitions in the order of first mention, links the rest one by one |
| Redirects.Library.LinkSingleComic | cmd/server/handler/admin.go:187-239 | computes the link or changes nothing; a library one step deep stays so if and only if the link meets its condition |
| Redirects.Library.PropagateRedirectChain | cmd/server/handler/admin.go:262-302 | rewrites up to a hundred followers, skipping those that cannot be written |
| Redirects.LinkBackLoops | cmd/server/handler/admin.go:222-234 | linking a comic to its own follower makes it redirect to itself |
| Moves.Disk.RunOnce | pkg/cocomaarchiver/archiver.go:98-104 | at every crash point each file is complete at a place of its own, files that are no candidates are untouched, and a new file at an archive path of a positive id has the recorded MD5; when all operations succeed every candidate ends where files are sorted to |
| Moves.Disk.ProcessOne | pkg/cocomaarchiver/archiver.go:107-146 | one candidate: kept complete, nothing overwritten; when all operations succeed it ends at its destination |
| Moves.DestinationExact | pkg/cocomaarchiver/archiver.go:107-146 | a file of a positive id goes to the archive if and only if its MD5 is the recorded one and its place is free; every other file goes to the rejected ones |
| Moves.Disk.MoveToNotMatch | pkg/cocomaarchiver/archiver.go:148-166 | a rejected file is kept complete under a name that was free |
| Moves.Disk.MoveFileAtomic | pkg/cocomaarchiver/archiver.go:198-212 | source and destination each hold the complete file or nothing, and one of them holds it |
| Moves.Disk.CopyThenSwap | pkg/cocomaarchiver/archiver.go:214-247 | so does the copy through a temporary file |
| Moves.Disk.UniquePath | pkg/cocomaarchiver/archiver.go:185-196 | the first of 999 numbered paths that is not taken, or else one with a fresh clock name |
| Moves.LocatedNext | pkg/cocomaarchiver/archiver.go:99-104 | moving one candidate keeps the places of all files distinct |
| ArchiverNames.NamesSeparate | pkg/cocomaarchiver/archiver.go:168-174 | the program's archive, reject, duplicate, stamped and temporary names keep apart as the sorting asks if and only if the directory for rejected files is neither the archive directory nor a directory of archives in it |
| ArchiverNames.DupsDiffer | pkg/cocomaarchiver/archiver.go:185-196 | the numbered names of a path are pairwise different and different from it |
| ArchiverNames.DupBeside | pkg/cocomaarchiver/archiver.go:185-196 | a numbered name lies beside its file and differs from its path in the last element only |
| ArchiverNames.ArchiveTellsId | pkg/cocomaarchiver/archiver.go:168-174 | an archive path of a positive id belongs to no other id |
| StoragePaths.PathRoundTrip | pkg/storage/baidupcs/baidupcs.go:380-429 | the logical key of the remote path is the normal form of the key if and only if neither root nor key is "/." and, below a proper root, the key does not start with two dots |
| StoragePaths.RemoteInjective | pkg/storage/baidupcs/baidupcs.go:380-392 | different normal forms have different remote paths, at or below the root |
| StoragePaths.KeyForm | pkg/storage/storage.go:76-88 | every accepted key becomes an absolute path of normal segments, or "/." |
| StoragePaths.CleanLaws | pkg/storage/storage.go:76-88 | in an absolute path empty segments and "." do nothing, ".." takes away the name before it and does nothing in front |
| StoragePaths.PathExact | pkg/storage/storage.go:76-88 | the normal form of any key: a relative key that climbs above its start, or whose first name starts with two dots, is refused, and any other means the same as the absolute one |
| ComicNames.SplitStrRightBySize | pkg/util/string.go:16-41 | the loop fills exactly the allocated slots with the pieces |
| ComicNames.PiecesMean | pkg/util/string.go:16-41 | pieces concatenate to the input, all but the first have the wanted size |
| ComicNames.SamePrefix | cmd/server/api/comic.go:138-140 | two comics share a directory if and only if their ids have the same hundreds |
| ComicNames.PrefixReads | cmd/server/api/comic.go:138-140 | the digits of the directory read as the hundreds of the id, at least four of them, in pairs |
| ComicNames.ArchiveKeysDiffer | cmd/server/api/comic.go:142-159 | different comics have different archive keys and different remote paths |
| ComicNames.ArchiveKeyRoundTrips | pkg/storage/baidupcs/baidupcs.go:380-429 | archive keys survive below every root but "/." |
| Versions.ParsePrinted | pkg/archive/archiver.go:26-37 | the version read from a printed name is the printed one unless the suffix has a version of its own, which then wins |
| Versions.PrintedInjective | internal/archivecli/commands.go:101-113 | different ids or versions have different names |
| Versions.VersionsCount | pkg/archive/manager/executor.go:32-77 | after k successful packs: version k, a flat history of versions 1 to k-1 in order, each under its own path |
| Versions.PackContinues | internal/archivecli/commands.go:79-114 | one successful pack to the default path continues the line, replication included |
| Versions.LineagePathsDiffer | internal/archivecli/commands.go:91-114 | no two archives of an id share a path |
| Versions.PrintedOwner | internal/archivecli/commands.go:101-113 | the id is read back from the start of every printed name |
| Versions.DefaultSafety | internal/archivecli/commands.go:79-114 | runs whose packs go to default destinations, of any ids, keep every copy safe unless a fault is raised |
| Versions.NextPathIsFree | internal/archivecli/commands.go:91-114 | the default path is not the recorded path of any id |

## Left out

- Concurrent helper operations on the same id: operations are sequential and may die at any step.
- The in-memory index store, which shares records with its callers; the index is a map of values, as in the file and database stores.
- Temporary files of verification, file lists, sizes and times in archive records: nothing here depends on them.
- ReplicaSafety.CopySafety: holds for runs in which no fault is raised; which calls can raise one is exact, but what is left after a fault is shown by single runs only.
- ReplicaExact.SafetyExact: speaks of a state in which no fault has been raised yet, and of checksums that do not fit everything.
- ReplicaOutcome.ReplicateDeliversExact: a backend that reports a foreign tag for an intact object makes the code see a mismatch; then the fault is raised although the object is intact.
- Flatten.DotInKeyIsAmbiguous: speaks of one document; index documents come from fixed field names, so no caller passes a dotted key.
- KeyedMutex works on values, one transition per atomic operation, not on a class: what matters is the interleaving.
- The verify task's image checks and fixes, log output, download lists and result records; a comic's counts are chosen by the environment.
- Submission to the fix pool is retried without end in the source; here a closure the worker has taken out of the channel may start at any later step, and a closure of another task in the worker's hand only delays.
- Array indices and existing arrays in document paths; arrays are leaves.
- The link handler's merging of tags into the main comic, the old request form with one sub comic, and Unlink.
- The branches for an injected test storage.
- Failing writes of the tag index in single edits, which the handler only logs; the index is then off until rebuilt.
- TagIndex.AssignedFresh: speaks of one edit at a time; two concurrent edits may be assigned the same ids, and a failing maximum query starts at the base.
- Like flags, update times and the count field inside comics' tags.
- KeysetScan.FindChannel: a keyset scan for a single id is assumed to meet a query that fails or does not find the comic; otherwise it does not end. The caller's filter object, which the loop changes, is a local value, and the channel is the sequence sent. A row without an id reads as 0, so a bound that is not positive does not exclude it, as the database would.
- Errors of the status queries, which abort the collection, and its statistics; the execution of issues.
- Negative sizes and ids in directory names; the model's ids there are natural numbers.
- Trimming and case folding of MD5 texts, and the clock text in the names of files without a positive id.
- Moves.Disk.RunOnce: asks that names made from the clock are not taken, and for the MD5 statement that names keep apart; when the program's names do is exact (ArchiverNames.NamesSeparate).
- Section names by the database's own pattern match for initials outside the basic alphabet; the model takes the section from the name in both places.
- The RIFF container, VP8 and VP8L entropy decoding: chunks and decoded data enter as values and functions.
- HTTP routes, caches, templates, command-line plumbing, downloads and image processing.
