/**
 * What the first-parent walk produces, against an independent description
 * of first-parent chains in the commit graph.
 */
module WalkProperties {
  import opened Results
  import opened GitRepository
  import opened GitMetadataUploader
  import opened TagProperties

  /** The commit ids of a batch, in batch order. */
  function Shas(rs: seq<CommitRecord>): seq<ObjectId> {
    seq(|rs|, i requires 0 <= i < |rs| => rs[i].sha)
  }

  /**
   * `ids` is the first-parent chain from `tip` that stops just above `fork`:
   * empty when the tip is the fork point, otherwise starting at the tip,
   * never containing the fork point, each commit's first parent being the
   * next entry, and the last one's first parent being the fork point.
   */
  ghost predicate IsFirstParentPath(objects: map<ObjectId, RevObject>, ids: seq<ObjectId>, tip: ObjectId, fork: ObjectId) {
    (if ids == [] then tip == fork else ids[0] == tip && IsCommit(objects, fork)) &&
    forall i :: 0 <= i < |ids| ==> LinkAt(objects, ids, fork, i)
  }

  /** Entry `i` of `ids` is a commit other than `fork` whose first parent is the next entry, or `fork` after the last. */
  ghost predicate LinkAt(objects: map<ObjectId, RevObject>, ids: seq<ObjectId>, fork: ObjectId, i: nat)
    requires i < |ids|
  {
    IsCommit(objects, ids[i]) && ids[i] != fork &&
    FirstParent(objects, ids[i]) == Some(if i + 1 < |ids| then ids[i + 1] else fork)
  }

  /**
   * `ids` is the first-parent chain from `tip` down to a root commit, never
   * passing through `fork`.
   */
  ghost predicate ReachesRootBefore(objects: map<ObjectId, RevObject>, ids: seq<ObjectId>, tip: ObjectId, fork: ObjectId) {
    ids != [] && ids[0] == tip &&
    forall i :: 0 <= i < |ids| ==> RootLinkAt(objects, ids, fork, i)
  }

  /** Entry `i` of `ids` is a commit other than `fork` whose first parent is the next entry, or which is a root if last. */
  ghost predicate RootLinkAt(objects: map<ObjectId, RevObject>, ids: seq<ObjectId>, fork: ObjectId, i: nat)
    requires i < |ids|
  {
    IsCommit(objects, ids[i]) && ids[i] != fork &&
    FirstParent(objects, ids[i]) == (if i + 1 < |ids| then Some(ids[i + 1]) else None)
  }

  lemma PathAt(objects: map<ObjectId, RevObject>, ids: seq<ObjectId>, tip: ObjectId, fork: ObjectId, i: nat)
    requires IsFirstParentPath(objects, ids, tip, fork) && i < |ids|
    ensures IsCommit(objects, ids[i]) && ids[i] != fork
    ensures FirstParent(objects, ids[i]) == Some(if i + 1 < |ids| then ids[i + 1] else fork)
  {
    assert LinkAt(objects, ids, fork, i);
  }

  lemma RootPathAt(objects: map<ObjectId, RevObject>, ids: seq<ObjectId>, tip: ObjectId, fork: ObjectId, i: nat)
    requires ReachesRootBefore(objects, ids, tip, fork) && i < |ids|
    ensures IsCommit(objects, ids[i]) && ids[i] != fork
    ensures FirstParent(objects, ids[i]) == (if i + 1 < |ids| then Some(ids[i + 1]) else None)
  {
    assert RootLinkAt(objects, ids, fork, i);
  }

  /** Dropping the tip of a first-parent path leaves the path from its first parent. */
  lemma PathTail(objects: map<ObjectId, RevObject>, ids: seq<ObjectId>, tip: ObjectId, fork: ObjectId)
    requires IsFirstParentPath(objects, ids, tip, fork) && ids != []
    ensures IsCommit(objects, tip)
    ensures FirstParent(objects, tip) == Some(if 1 < |ids| then ids[1] else fork)
    ensures IsFirstParentPath(objects, ids[1..], if 1 < |ids| then ids[1] else fork, fork)
  {
    PathAt(objects, ids, tip, fork, 0);
    var rest := ids[1..];
    forall i | 0 <= i < |rest|
      ensures LinkAt(objects, rest, fork, i)
    {
      PathAt(objects, ids, tip, fork, i + 1);
      assert rest[i] == ids[i + 1];
      if i + 1 < |rest| {
        assert rest[i + 1] == ids[i + 2];
      }
    }
  }

  /** Every record describes its commit as the upload promises. */
  ghost predicate RecordDescribes(repo: Repo, branch: string, rec: CommitRecord) {
    IsCommit(repo.objects, rec.sha) &&
    var c := repo.objects[rec.sha].commit;
    && rec.branch == branch
    && rec.time == c.commitTime
    && rec.user == c.committerName
    && |rec.shortSha| == ShortShaLength && rec.shortSha <= rec.sha
    && rec.message == EscapeBackslashes(c.fullMessage)
    && TagsOf(repo.objects, repo.tagList, rec.sha).Success?
    && rec.tag == PrimaryTag(TagsOf(repo.objects, repo.tagList, rec.sha).value)
  }

  lemma ShasCons(rec: CommitRecord, rest: seq<CommitRecord>)
    ensures Shas([rec] + rest) == [rec.sha] + Shas(rest)
  {
  }

  /**
   * Soundness: a successful walk emits exactly a first-parent chain from the
   * tip (inclusive) to the fork point (exclusive).
   */
  lemma {:induction false} WalkSound(repo: Repo, branch: string, cursor: ObjectId, fork: ObjectId)
    requires WellFormed(repo) && IsCommit(repo.objects, cursor)
    requires FirstParentWalk(repo, branch, cursor, fork).Success?
    ensures IsFirstParentPath(repo.objects, Shas(FirstParentWalk(repo, branch, cursor, fork).value), cursor, fork)
    decreases repo.objects[cursor].commit.generation
  {
    if cursor != fork {
      var commit := repo.objects[cursor].commit;
      var parent := commit.parents[0];
      ParentOfCommit(repo, cursor, 0);
      WalkSound(repo, branch, parent, fork);
      var tags := TagsOf(repo.objects, repo.tagList, cursor).value;
      var rec := MakeRecord(branch, cursor, commit, tags);
      var rest := FirstParentWalk(repo, branch, parent, fork).value;
      ShasCons(rec, rest);
      var ids := Shas(FirstParentWalk(repo, branch, cursor, fork).value);
      assert ids == [cursor] + Shas(rest);
      forall i | 0 <= i < |ids|
        ensures LinkAt(repo.objects, ids, fork, i)
      {
        if i > 0 {
          PathAt(repo.objects, Shas(rest), parent, fork, i - 1);
          assert ids[i] == Shas(rest)[i - 1];
          if i + 1 < |ids| {
            assert ids[i + 1] == Shas(rest)[i];
          }
        } else if |ids| > 1 {
          PathAt(repo.objects, Shas(rest), parent, fork, 0);
        }
      }
    }
  }

  /** One step of the walk from a commit that is not the fork point and has a present first parent. */
  lemma WalkUnfold(repo: Repo, branch: string, cursor: ObjectId, fork: ObjectId)
    requires WellFormed(repo) && IsCommit(repo.objects, cursor) && cursor != fork
    requires TagsOf(repo.objects, repo.tagList, cursor).Success?
    requires |repo.objects[cursor].commit.parents| > 0
    requires IsCommit(repo.objects, repo.objects[cursor].commit.parents[0])
    ensures FirstParentWalk(repo, branch, cursor, fork)
            == Prepend([MakeRecord(branch, cursor, repo.objects[cursor].commit, TagsOf(repo.objects, repo.tagList, cursor).value)],
                       FirstParentWalk(repo, branch, repo.objects[cursor].commit.parents[0], fork))
  {
    ParentOfCommit(repo, cursor, 0);
  }

  /**
   * Completeness: when the tip reaches the fork point along first parents
   * and the tag listing parses, the walk succeeds and emits exactly that chain.
   */
  lemma {:induction false} WalkComplete(repo: Repo, branch: string, ids: seq<ObjectId>, cursor: ObjectId, fork: ObjectId)
    requires WellFormed(repo) && IsCommit(repo.objects, cursor)
    requires IsFirstParentPath(repo.objects, ids, cursor, fork)
    requires AllTagsParse(repo.objects, repo.tagList)
    ensures FirstParentWalk(repo, branch, cursor, fork).Success?
    ensures Shas(FirstParentWalk(repo, branch, cursor, fork).value) == ids
    decreases |ids|
  {
    if ids != [] {
      TagsOfSucceedsIff(repo.objects, repo.tagList, cursor);
      var parent := if 1 < |ids| then ids[1] else fork;
      var rest := ids[1..];
      PathTail(repo.objects, ids, cursor, fork);
      PathAt(repo.objects, ids, cursor, fork, 0);
      if 1 < |ids| {
        PathAt(repo.objects, ids, cursor, fork, 1);
      }
      WalkComplete(repo, branch, rest, parent, fork);
      WalkUnfold(repo, branch, cursor, fork);
      var rec := MakeRecord(branch, cursor, repo.objects[cursor].commit, TagsOf(repo.objects, repo.tagList, cursor).value);
      var restRecs := FirstParentWalk(repo, branch, parent, fork).value;
      assert parent == repo.objects[cursor].commit.parents[0];
      assert FirstParentWalk(repo, branch, cursor, fork) == Success([rec] + restRecs);
      ShasCons(rec, restRecs);
      assert ids == [cursor] + rest;
    }
  }

  /**
   * No silent truncation: when the first-parent chain from the tip runs into
   * a root commit without meeting the fork point, the walk fails at that root.
   */
  lemma {:induction false} WalkFailsAtRoot(repo: Repo, branch: string, ids: seq<ObjectId>, cursor: ObjectId, fork: ObjectId)
    requires WellFormed(repo) && IsCommit(repo.objects, cursor)
    requires ReachesRootBefore(repo.objects, ids, cursor, fork)
    requires AllTagsParse(repo.objects, repo.tagList)
    ensures FirstParentWalk(repo, branch, cursor, fork) == Failure(NoParent(ids[|ids| - 1]))
    decreases |ids|
  {
    TagsOfSucceedsIff(repo.objects, repo.tagList, cursor);
    RootPathAt(repo.objects, ids, cursor, fork, 0);
    if |ids| > 1 {
      RootPathAt(repo.objects, ids, cursor, fork, 1);
      var rest := ids[1..];
      assert ReachesRootBefore(repo.objects, rest, ids[1], fork) by {
        forall i | 0 <= i < |rest|
          ensures RootLinkAt(repo.objects, rest, fork, i)
        {
          RootPathAt(repo.objects, ids, cursor, fork, i + 1);
          assert rest[i] == ids[i + 1];
          if i + 1 < |rest| {
            assert rest[i + 1] == ids[i + 2];
          }
        }
      }
      WalkFailsAtRoot(repo, branch, rest, ids[1], fork);
    }
  }

  /** Every emitted record carries the branch passed in and its commit's fields. */
  lemma {:induction false} WalkRecordFields(repo: Repo, branch: string, cursor: ObjectId, fork: ObjectId)
    requires WellFormed(repo) && IsCommit(repo.objects, cursor)
    requires FirstParentWalk(repo, branch, cursor, fork).Success?
    ensures forall i :: 0 <= i < |FirstParentWalk(repo, branch, cursor, fork).value| ==>
              RecordDescribes(repo, branch, FirstParentWalk(repo, branch, cursor, fork).value[i])
    decreases repo.objects[cursor].commit.generation
  {
    if cursor != fork {
      var commit := repo.objects[cursor].commit;
      var parent := commit.parents[0];
      ParentOfCommit(repo, cursor, 0);
      WalkRecordFields(repo, branch, parent, fork);
      var rs := FirstParentWalk(repo, branch, cursor, fork).value;
      var rest := FirstParentWalk(repo, branch, parent, fork).value;
      assert rs[1..] == rest;
      forall i | 0 <= i < |rs| ensures RecordDescribes(repo, branch, rs[i]) {
        if i > 0 {
          assert rs[i] == rest[i - 1];
        }
      }
    }
  }

  /**
   * The k-th emitted record is the commit k first-parent steps below the tip:
   * no other parent of a merge commit is ever followed.
   */
  lemma EmittedAreFirstParentSteps(repo: Repo, branch: string, cursor: ObjectId, fork: ObjectId)
    requires WellFormed(repo) && IsCommit(repo.objects, cursor)
    requires FirstParentWalk(repo, branch, cursor, fork).Success?
    ensures forall k :: 0 <= k < |FirstParentWalk(repo, branch, cursor, fork).value| ==>
              OnFirstParentChain(repo, cursor, FirstParentWalk(repo, branch, cursor, fork).value[k].sha, k)
  {
    var rs := FirstParentWalk(repo, branch, cursor, fork).value;
    WalkSound(repo, branch, cursor, fork);
    forall k | 0 <= k < |rs| ensures OnFirstParentChain(repo, cursor, rs[k].sha, k) {
      ChainPrefixReaches(repo, Shas(rs), cursor, fork, k);
    }
  }

  /** `x` is reached from `cursor` by exactly `n` first-parent steps. */
  ghost predicate OnFirstParentChain(repo: Repo, cursor: ObjectId, x: ObjectId, n: nat)
    decreases n
  {
    if n == 0 then cursor == x
    else IsCommit(repo.objects, cursor) && |repo.objects[cursor].commit.parents| > 0 &&
         OnFirstParentChain(repo, repo.objects[cursor].commit.parents[0], x, n - 1)
  }

  lemma {:induction false} ChainPrefixReaches(repo: Repo, ids: seq<ObjectId>, tip: ObjectId, fork: ObjectId, k: nat)
    requires IsFirstParentPath(repo.objects, ids, tip, fork)
    requires k < |ids|
    ensures OnFirstParentChain(repo, tip, ids[k], k)
    decreases k
  {
    if k > 0 {
      var rest := ids[1..];
      var next := ids[1];
      PathTail(repo.objects, ids, tip, fork);
      ChainPrefixReaches(repo, rest, next, fork, k - 1);
      assert rest[k - 1] == ids[k];
    }
  }
}
