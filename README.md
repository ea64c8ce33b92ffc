# First-parent commit-range walk of the benchmark Git metadata uploader

This project models, in Dafny, the core of `GitMetadataUploader` from the
Scala compiler-benchmark infrastructure: the code that turns the history of a
release branch into one "commit" record per commit so that a dashboard can
annotate benchmark scores with the commit, its message and its release tag.

`upload(branch, prevBranch, forkPoint)` resolves the three revision strings
(each through `resolve`, which prefers the remote-tracking `origin/<name>`
ref and otherwise parses `<name>` itself as a commit), parses the branch tip,
and walks from it along first parents. For every commit before the fork
point it builds a record: the branch name, the commit time, the full sha, the
10-character short sha, the committer name, the message with every backslash
doubled, and, if `tagsOfCommit` finds any, the first tag. The fork point
stops the walk and gets no record. The batch is written only after the walk
ends, so any failure writes nothing. `tagsOfCommit` scans the tag listing in
order. An annotated tag is matched through its one-level target and gives its
tag name. A lightweight tag ref is matched directly and gives its full ref
name (`refs/tags/...`). Any other object is skipped.

Modules:

- `Results` (results.dfy): `Option` and a `:-`-compatible `Result`.
- `GitRepository` (repository.dfy): the object store as
  `map<ObjectId, RevObject>` with `RevObject = CommitObj | TagObj | Other`,
  the refs as `map<string, ObjectId>`, and the tag listing as `seq<Ref>`.
  It also holds the well-formedness of a store, `Peel`/`ParseCommit`
  (JGit's `parseCommit`), and the error kinds.
- `GitMetadataUploader` (uploader.dfy): `Resolve`, `ShortSha`,
  `EscapeBackslashes`, `TagsOf` with the loop method `TagsOfCommit`, and
  `FirstParentWalk`/`UploadResult` with the loop method `Upload`.
- `TagProperties`, `EscapeProperties`, `WalkProperties`, `UploadProperties`:
  the lemmas. `WalkProperties` states the walk against an independent
  description of first-parent chains (`IsFirstParentPath`,
  `ReachesRootBefore`).
- `Scenarios`: a five-commit history with a tagged commit, proved end to end.

Exceptions become `Failure` values:
- `UnresolvableReference`: `repo.resolve` returns null, and `parseCommit(null)` throws.
- `ObjectNotFound`: a missing object.
- `IncorrectObjectType`: the id does not peel to a commit.
- `NoParent`: `getParent(0)` is asked of a root commit.
- `TagChainTooLong`: the peeling fuel runs out (see below).

A successful upload returns the batch that would be handed to `influxDB.write`.

Termination: each `Commit` carries its commit-graph generation number.
`WellFormed` requires every parent present in the store to be a commit of
smaller generation, and every object name to be 40 characters long. Git's
content addressing guarantees both. The walk's loop decreases the
generation. A first parent may be missing from an incomplete store;
the walk then fails with `ObjectNotFound`.

## Model

| member | source | states |
|---|---|---|
| `GitMetadataUploader.Resolve` | infrastructure/src/main/java/scala/bench/GitMetadataUploader.java:91-103 | If `origin/<name>` exists, its id is returned as is. Otherwise `name` must resolve (else `UnresolvableReference`) and must parse to a commit. The result is then exactly `ParseCommit` of that id, so an annotated tag name resolves to its commit and a missing object is `ObjectNotFound`. A name that names a commit resolves to that commit. |
| `GitRepository.ParseCommit` | infrastructure/src/main/java/scala/bench/GitMetadataUploader.java:54 | Success only yields a commit id. A commit id parses to itself. An annotated tag whose target is a commit parses to that commit. A missing id gives `ObjectNotFound`. An object that is neither a tag nor a commit gives `IncorrectObjectType`. |
| `GitRepository.Peel` | infrastructure/src/main/java/scala/bench/GitMetadataUploader.java:96 | The result is a stored object that is not a tag. A non-tag object peels to itself. A missing id is `ObjectNotFound`. |
| `GitRepository.PeelFollowsChain` | infrastructure/src/main/java/scala/bench/GitMetadataUploader.java:96 | A chain of n tag links ending at a non-tag object peels to that object whenever the fuel is at least n. |
| `GitRepository.PeelChain` | infrastructure/src/main/java/scala/bench/GitMetadataUploader.java:96 | Conversely, a successful peel is the end of a tag chain from the id of at most `fuel` links. So a chain through a missing target never succeeds. |
| `GitRepository.ParseCommitEndsChain` | infrastructure/src/main/java/scala/bench/GitMetadataUploader.java:54 | A successful parse is the commit at the end of the id's tag chain. |
| `GitRepository.ParseCommitRejectsChain` | infrastructure/src/main/java/scala/bench/GitMetadataUploader.java:54 | An id whose tag chain ends at an object that is not a commit fails with `IncorrectObjectType`. |
| `GitRepository.ParseCommitPeelsChain` | infrastructure/src/main/java/scala/bench/GitMetadataUploader.java:54 | An id that reaches a commit through at most as many tag links as the store has objects parses to that commit. |
| `GitMetadataUploader.ShortSha` | infrastructure/src/main/java/scala/bench/GitMetadataUploader.java:72 | The short sha has 10 characters and is a prefix of the full sha. |
| `GitMetadataUploader.TagsOfCommit` | infrastructure/src/main/java/scala/bench/GitMetadataUploader.java:105-124 | The loop over the tag listing returns exactly `TagsOf` of the listing, including its failure when a ref's object is missing. |
| `GitMetadataUploader.TagsOfFailureExtends` | infrastructure/src/main/java/scala/bench/GitMetadataUploader.java:108-109 | Once the scan of a prefix of the listing has failed, the scan of the whole listing fails with the same error. |
| `GitMetadataUploader.Upload` | infrastructure/src/main/java/scala/bench/GitMetadataUploader.java:42-89 | The cursor loop returns exactly `UploadResult`: the three resolutions, then the tip's parse, then the first-parent walk to the fork point. Any failure returns no batch. |
| `TagProperties.TagsOfSucceedsIff` | infrastructure/src/main/java/scala/bench/GitMetadataUploader.java:108-109 | The tag scan succeeds if and only if every listed ref's object is in the store. |
| `TagProperties.TagsOfFailsAtFirstMissing` | infrastructure/src/main/java/scala/bench/GitMetadataUploader.java:108-109 | A failed scan reports `ObjectNotFound` for the first listed ref whose object is missing. All refs before it parse. |
| `TagProperties.TagsOfSelects` | infrastructure/src/main/java/scala/bench/GitMetadataUploader.java:105-124 | The scan result is an order-preserving filter of the listing. Each name comes from a matching ref (tag-object name for annotated tags, ref name for lightweight ones). The positions strictly increase. Every matching ref is included. |
| `TagProperties.PrimaryTagIsFirstMatch` | infrastructure/src/main/java/scala/bench/GitMetadataUploader.java:76-79 | The record's tag field is absent exactly when no listed ref matches. Otherwise it is the name of the first matching ref in listing order. |
| `TagProperties.OtherObjectsIgnored` | infrastructure/src/main/java/scala/bench/GitMetadataUploader.java:119-121 | Inserting, at any position of any listing, a ref whose object is neither a tag nor a commit leaves the scan's result (names and failure) unchanged. |
| `EscapeProperties.UnescapeEscape` | infrastructure/src/main/java/scala/bench/GitMetadataUploader.java:60 | Reading doubled backslashes back as single ones recovers the original message, so the message field loses nothing. |
| `EscapeProperties.EscapeInjective` | infrastructure/src/main/java/scala/bench/GitMetadataUploader.java:60 | Distinct commit messages give distinct message fields. |
| `EscapeProperties.EscapeLength` | infrastructure/src/main/java/scala/bench/GitMetadataUploader.java:74 | The message field is the message's length plus one per backslash, so it is never abbreviated. |
| `EscapeProperties.EscapeWithoutBackslash` | infrastructure/src/main/java/scala/bench/GitMetadataUploader.java:60 | A message without backslashes is written unchanged. |
| `EscapeProperties.EscapeAppend` | infrastructure/src/main/java/scala/bench/GitMetadataUploader.java:60 | Escaping distributes over concatenation: each backslash is doubled wherever it stands, independently of its neighbours. |
| `WalkProperties.WalkSound` | infrastructure/src/main/java/scala/bench/GitMetadataUploader.java:53-83 | A successful walk emits a first-parent chain. It is empty iff the tip is the fork point; otherwise it starts at the tip. Each commit's first parent is the next one, the last one's is the fork point, and the fork point never appears. |
| `WalkProperties.WalkComplete` | infrastructure/src/main/java/scala/bench/GitMetadataUploader.java:53-83 | Suppose the fork point lies on the tip's first-parent chain and the tag listing parses. Then the walk succeeds and emits exactly that chain, one record per first-parent step. |
| `WalkProperties.WalkFailsAtRoot` | infrastructure/src/main/java/scala/bench/GitMetadataUploader.java:82 | Suppose the tag listing parses and the tip's first-parent chain ends at a root commit without meeting the fork point. Then the walk fails with `NoParent` at that root instead of returning a truncated batch. |
| `WalkProperties.WalkRecordFields` | infrastructure/src/main/java/scala/bench/GitMetadataUploader.java:68-79 | Every emitted record carries the branch passed in. It also carries its commit's time and committer, a 10-character prefix of the sha, the message with backslashes doubled, and the first tag of `tagsOfCommit`. |
| `WalkProperties.EmittedAreFirstParentSteps` | infrastructure/src/main/java/scala/bench/GitMetadataUploader.java:82 | The k-th record is the commit exactly k first-parent steps below the tip. Parents at index 1 and above are never followed. |
| `UploadProperties.UploadEmptyAtFork` | infrastructure/src/main/java/scala/bench/GitMetadataUploader.java:53-55 | When the parsed tip is the resolved fork point, the batch is empty. |
| `UploadProperties.UploadSound` | infrastructure/src/main/java/scala/bench/GitMetadataUploader.java:49-84 | A written batch means all three names resolved and the tip parsed. The batch is the first-parent chain from the tip down to, excluding, the fork point. Every record describes its commit under the given branch name. |
| `UploadProperties.UploadComplete` | infrastructure/src/main/java/scala/bench/GitMetadataUploader.java:49-84 | Suppose the names resolve, the fork point is on the tip's first-parent chain and the tags parse. Then the batch written is exactly that chain. |
| `UploadProperties.UploadFailsAtRoot` | infrastructure/src/main/java/scala/bench/GitMetadataUploader.java:82-84 | Suppose the three names resolve, the tip parses and the tag listing parses. Then a chain that reaches a root before the fork point makes the upload fail at that root, so nothing is written. |
| `UploadProperties.PrevBranchOnlyGuards` | infrastructure/src/main/java/scala/bench/GitMetadataUploader.java:50 | `prevBranch` must resolve, and its failure aborts the upload. Once it resolves, the commit it names does not change the batch. |
| `Scenarios.SampleWalk` | infrastructure/src/main/java/scala/bench/GitMetadataUploader.java:53-83 | History C5→C4→C3→C2→C1 with fork point C2: the batch is C5, C4, C3 in that order. C4's record carries tag `v1.2.0` and C3's carries none. |
| `Scenarios.SampleMessageEscaped` | infrastructure/src/main/java/scala/bench/GitMetadataUploader.java:60 | C3's message `three\n` is stored in the batch as `three\\n`, with its backslash doubled. |
| `Scenarios.SampleWalkPastRoot` | infrastructure/src/main/java/scala/bench/GitMetadataUploader.java:82 | Walking from the root C1 towards C2 fails with `NoParent(C1)`. |

## Left out

- The InfluxDB side (`BatchPoints`, `Point` construction, the measurement name, the database and retention settings, and `influxDB.write`) is wire format and network I/O. A record is a plain datatype, and a successful upload returns the batch.
- The `annotationHtml` field is omitted. It is built with `HtmlEscapers` and `StringUtils.abbreviate`, library code that is not part of this model.
- JGit internals are abstracted. `Repository.resolve` is a lookup in the `refs` map. That map stands for every revision string the library accepts: short ref names, and full or abbreviated object names. Its DWIM and abbreviation rules and its ambiguity errors are not modelled.
- `parseAny`, `parseCommit` and `Git.tagList` read the given object map and tag listing. Object parsing and I/O errors other than a missing or mistyped object are not modelled.
- `GitRepository.Peel`: follows annotated tags at most as many links as the store has objects; a peel succeeds exactly at the end of a chain within that bound (`PeelFollowsChain`, `PeelChain`). A longer chain would have to revisit an object, which content-addressed storage cannot do. It is reported as `TagChainTooLong`, not proved impossible.
- `uploadAllGitMetadata` is not modelled. Its hard-coded list of release branches and fork points is configuration.
- `ResultPersister.java` (configuration, repository opening, HTTP client, credentials), `UploadingRunner.java` (JMH command line) and `UploadingOutputFormat.java` (benchmark-result points, host identification) are I/O glue and are not part of this model. `UploadingOutputFormat.java` calls `branchOfRef`, `createAllPoints` and a one-argument constructor of the uploader. The uploader shown defines none of them, so no commit-to-branch index is modelled.
- `RevWalk` disposal and other resource management have no counterpart.
