/**
 * The commit-range walk of `GitMetadataUploader`: resolve a branch tip and a
 * fork point, then follow first parents from the tip, producing one commit
 * record per commit, until the fork point is reached (it is not recorded).
 */
module GitMetadataUploader {
  import opened Results
  import opened GitRepository

  const ShortShaLength := 10

  /**
   * One "commit" point of the upload batch: the branch tag, the commit time,
   * and the fields sha, shortsha, user, message and (optionally) tag.
   */
  datatype CommitRecord = CommitRecord(
    branch: string,
    time: int,
    sha: ObjectId,
    shortSha: string,
    user: string,
    message: string,
    tag: Option<string>)

  /**
   * Resolves a branch name: the remote-tracking `origin/<name>` wins when it
   * exists (its id is taken as is); otherwise `name` itself is resolved and
   * parsed as a commit.
   */
  function Resolve(repo: Repo, name: string): (r: Result<ObjectId, Error>)
    ensures "origin/" + name in repo.refs ==> r == Success(repo.refs["origin/" + name])
    ensures "origin/" + name !in repo.refs && name !in repo.refs ==> r == Failure(UnresolvableReference(name))
    ensures "origin/" + name !in repo.refs && r.Success? ==> IsCommit(repo.objects, r.value)
    ensures "origin/" + name !in repo.refs && name in repo.refs && IsCommit(repo.objects, repo.refs[name]) ==>
              r == Success(repo.refs[name])
    ensures "origin/" + name !in repo.refs && name in repo.refs ==> r == ParseCommit(repo.objects, repo.refs[name])
  {
    match RevParse(repo, "origin/" + name)
    case Some(id) => Success(id)
    case None =>
      match RevParse(repo, name)
      case None => Failure(UnresolvableReference(name))
      case Some(id) => ParseCommit(repo.objects, id)
  }

  /** The first ten characters of an object name. */
  function ShortSha(id: ObjectId): (s: string)
    requires |id| >= ShortShaLength
    ensures |s| == ShortShaLength && s <= id
  {
    id[..ShortShaLength]
  }

  /** The message with every backslash doubled (`replace("\\", "\\\\")`). */
  function EscapeBackslashes(s: string): string {
    if s == [] then []
    else (if s[0] == '\\' then "\\\\" else [s[0]]) + EscapeBackslashes(s[1..])
  }

  /** The record's tag field: the first tag found, if any. */
  function PrimaryTag(tags: seq<string>): Option<string> {
    if tags == [] then None else Some(tags[0])
  }

  /** Whether the tag ref `ref`, whose object is `obj`, marks the commit `c`. */
  predicate Matches(obj: RevObject, ref: Ref, c: ObjectId) {
    match obj
    case TagObj(_, target) => target == c
    case CommitObj(_) => ref.objectId == c
    case Other => false
  }

  /** The name a matching ref contributes: the tag object's name, or the ref's own name. */
  function NameFor(obj: RevObject, ref: Ref): string {
    match obj
    case TagObj(tagName, _) => tagName
    case _ => ref.name
  }

  /** What one ref of the tag listing contributes for the commit `c`. */
  function TagMatch(obj: RevObject, ref: Ref, c: ObjectId): seq<string> {
    if Matches(obj, ref, c) then [NameFor(obj, ref)] else []
  }

  /**
   * The tags of commit `c` found by scanning `refs` in order; the scan fails
   * at the first ref whose object is not in the store.
   */
  function TagsOf(objects: map<ObjectId, RevObject>, refs: seq<Ref>, c: ObjectId): Result<seq<string>, Error>
    decreases |refs|
  {
    if refs == [] then Success([])
    else
      var prefix :- TagsOf(objects, refs[..|refs| - 1], c);
      var last := refs[|refs| - 1];
      if last.objectId !in objects then Failure(ObjectNotFound(last.objectId))
      else Success(prefix + TagMatch(objects[last.objectId], last, c))
  }

  /** Once the scan of a prefix has failed, the scan of the whole listing fails the same way. */
  lemma {:induction false} TagsOfFailureExtends(objects: map<ObjectId, RevObject>, refs: seq<Ref>, n: nat, c: ObjectId)
    requires n <= |refs| && TagsOf(objects, refs[..n], c).Failure?
    ensures TagsOf(objects, refs, c) == TagsOf(objects, refs[..n], c)
    decreases |refs| - n
  {
    if n == |refs| {
      assert refs[..n] == refs;
    } else {
      assert refs[..n + 1][..n] == refs[..n];
      TagsOfFailureExtends(objects, refs, n + 1, c);
    }
  }

  /** `tagsOfCommit`: one pass over the tag listing, appending each match. */
  method TagsOfCommit(repo: Repo, c: ObjectId) returns (r: Result<seq<string>, Error>)
    ensures r == TagsOf(repo.objects, repo.tagList, c)
  {
    var tagList := repo.tagList;
    var tags: seq<string> := [];
    for i := 0 to |tagList|
      invariant TagsOf(repo.objects, tagList[..i], c) == Success(tags)
    {
      var ref := tagList[i];
      assert tagList[..i + 1][..i] == tagList[..i];
      assert TagsOf(repo.objects, tagList[..i + 1], c)
             == if ref.objectId !in repo.objects then Failure(ObjectNotFound(ref.objectId))
                else Success(tags + TagMatch(repo.objects[ref.objectId], ref, c));
      if ref.objectId !in repo.objects {
        TagsOfFailureExtends(repo.objects, tagList, i + 1, c);
        return Failure(ObjectNotFound(ref.objectId));
      }
      ghost var before := tags;
      match repo.objects[ref.objectId] {
        case TagObj(tagName, target) =>
          if target == c {
            tags := tags + [tagName];
          }
        case CommitObj(_) =>
          if ref.objectId == c {
            tags := tags + [ref.name];
          }
        case Other =>
      }
      assert tags == before + TagMatch(repo.objects[ref.objectId], ref, c);
    }
    assert tagList[..|tagList|] == tagList;
    return Success(tags);
  }

  /** The record written for the commit `id` of branch `branch`. */
  function MakeRecord(branch: string, id: ObjectId, commit: Commit, tags: seq<string>): CommitRecord
    requires |id| >= ShortShaLength
  {
    CommitRecord(branch, commit.commitTime, id, ShortSha(id), commit.committerName,
                 EscapeBackslashes(commit.fullMessage), PrimaryTag(tags))
  }

  /**
   * The records of the walk from `cursor`: none when the cursor is the fork
   * point; otherwise the cursor's record followed by the walk from its first
   * parent.
   */
  function FirstParentWalk(repo: Repo, branch: string, cursor: ObjectId, fork: ObjectId): Result<seq<CommitRecord>, Error>
    requires WellFormed(repo) && IsCommit(repo.objects, cursor)
    decreases repo.objects[cursor].commit.generation
  {
    if cursor == fork then Success([])
    else
      var commit := repo.objects[cursor].commit;
      var tags :- TagsOf(repo.objects, repo.tagList, cursor);
      var rec := MakeRecord(branch, cursor, commit, tags);
      if |commit.parents| == 0 then Failure(NoParent(cursor))
      else
        var parent :- ParseCommit(repo.objects, commit.parents[0]);
        ParentOfCommit(repo, cursor, 0);
        var rest :- FirstParentWalk(repo, branch, parent, fork);
        Success([rec] + rest)
  }

  /**
   * `upload(branch, prevBranch, forkPoint)`: the batch that is written, or the
   * error that aborts before anything is written. `prevBranch` must resolve,
   * but plays no further part.
   */
  function UploadResult(repo: Repo, branch: string, prevBranch: string, forkPoint: string): Result<seq<CommitRecord>, Error>
    requires WellFormed(repo)
  {
    var resolvedBranch :- Resolve(repo, branch);
    var _ :- Resolve(repo, prevBranch);
    var resolvedForkPoint :- Resolve(repo, forkPoint);
    var tip :- ParseCommit(repo.objects, resolvedBranch);
    FirstParentWalk(repo, branch, tip, resolvedForkPoint)
  }

  /** Records `batch`, then the outcome of the rest of the walk. */
  function Prepend(batch: seq<CommitRecord>, rest: Result<seq<CommitRecord>, Error>): Result<seq<CommitRecord>, Error> {
    match rest
    case Success(rs) => Success(batch + rs)
    case Failure(e) => Failure(e)
  }

  /** `upload`: the cursor loop; on success the batch is what is handed to the database. */
  method Upload(repo: Repo, branch: string, prevBranch: string, forkPoint: string) returns (r: Result<seq<CommitRecord>, Error>)
    requires WellFormed(repo)
    ensures r == UploadResult(repo, branch, prevBranch, forkPoint)
  {
    var resolvedBranch :- Resolve(repo, branch);
    var resolvedPrevBranch :- Resolve(repo, prevBranch);
    var resolvedForkPoint :- Resolve(repo, forkPoint);
    var tip :- ParseCommit(repo.objects, resolvedBranch);
    var revCommit := tip;
    var batch: seq<CommitRecord> := [];
    PrependNothing(FirstParentWalk(repo, branch, tip, resolvedForkPoint));
    while revCommit != resolvedForkPoint
      invariant IsCommit(repo.objects, revCommit)
      invariant FirstParentWalk(repo, branch, tip, resolvedForkPoint)
                == Prepend(batch, FirstParentWalk(repo, branch, revCommit, resolvedForkPoint))
      decreases repo.objects[revCommit].commit.generation
    {
      var commit := repo.objects[revCommit].commit;
      var tags :- TagsOfCommit(repo, revCommit);
      var rec := MakeRecord(branch, revCommit, commit, tags);
      batch := batch + [rec];
      if |commit.parents| == 0 {
        return Failure(NoParent(revCommit));
      }
      var parent :- ParseCommit(repo.objects, commit.parents[0]);
      ParentOfCommit(repo, revCommit, 0);
      PrependStep(batch[..|batch| - 1], rec, FirstParentWalk(repo, branch, parent, resolvedForkPoint));
      assert batch[..|batch| - 1] + [rec] == batch;
      revCommit := parent;
    }
    assert batch + [] == batch;
    return Success(batch);
  }

  lemma PrependStep(batch: seq<CommitRecord>, rec: CommitRecord, rest: Result<seq<CommitRecord>, Error>)
    ensures Prepend(batch, if rest.Success? then Success([rec] + rest.value) else rest)
            == Prepend(batch + [rec], rest)
  {
    if rest.Success? {
      assert batch + ([rec] + rest.value) == (batch + [rec]) + rest.value;
    }
  }

  lemma PrependNothing(rest: Result<seq<CommitRecord>, Error>)
    ensures Prepend([], rest) == rest
  {
    if rest.Success? {
      assert [] + rest.value == rest.value;
    }
  }
}
