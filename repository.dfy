/**
 * An immutable, materialised view of a Git repository: the object store
 * (commits, annotated tag objects, other objects), the refs that revision
 * strings resolve through, and the listing of tag refs in store order.
 * This replaces the JGit calls `Repository.resolve`, `RevWalk.parseAny`,
 * `RevWalk.parseCommit` and `Git.tagList`.
 */
module GitRepository {
  import opened Results

  /** The full hexadecimal name of an object, as `ObjectId.getName()` gives it. */
  type ObjectId = string

  /** Length of a full SHA-1 object name. */
  const IdLength := 40

  /**
   * A parsed commit. `parents[0]` is the first parent; a root commit has none.
   * `generation` is the commit-graph generation number: a commit's is larger
   * than each of its parents', which is what makes every first-parent walk finite.
   */
  datatype Commit = Commit(
    parents: seq<ObjectId>,
    committerName: string,
    commitTime: int,
    fullMessage: string,
    generation: nat)

  /** What `parseAny` finds under an id: a commit, an annotated tag object, or anything else. */
  datatype RevObject =
    | CommitObj(commit: Commit)
    | TagObj(tagName: string, target: ObjectId)
    | Other

  /** A reference: its full name (e.g. `refs/tags/v2.12.0`) and the object it names. */
  datatype Ref = Ref(name: string, objectId: ObjectId)

  datatype Repo = Repo(
    objects: map<ObjectId, RevObject>,
    refs: map<string, ObjectId>,
    tagList: seq<Ref>)

  /** The reasons an upload aborts. */
  datatype Error =
    | UnresolvableReference(spec: string)  // no ref or id under this revision string
    | ObjectNotFound(id: ObjectId)         // the id is not in the object store
    | IncorrectObjectType(id: ObjectId)    // the id does not peel to a commit
    | TagChainTooLong(id: ObjectId)        // more tag links than the store has objects
    | NoParent(id: ObjectId)               // first parent asked of a root commit

  predicate IsCommit(objects: map<ObjectId, RevObject>, id: ObjectId) {
    id in objects && objects[id].CommitObj?
  }

  /** Every parent of the commit at `id` that is present is a commit of smaller generation. */
  predicate ParentsPrecede(objects: map<ObjectId, RevObject>, id: ObjectId)
    requires id in objects
  {
    match objects[id]
    case CommitObj(c) =>
      forall k :: 0 <= k < |c.parents| && c.parents[k] in objects ==>
        objects[c.parents[k]].CommitObj? && objects[c.parents[k]].commit.generation < c.generation
    case _ => true
  }

  /**
   * What every Git object store guarantees: ids are full-length names, and
   * parent links go strictly down in generation (commit history is acyclic).
   * Parents may be missing (an incomplete store).
   */
  predicate WellFormed(repo: Repo) {
    forall id :: id in repo.objects ==> |id| == IdLength && ParentsPrecede(repo.objects, id)
  }

  lemma ParentOfCommit(repo: Repo, id: ObjectId, k: nat)
    requires WellFormed(repo) && IsCommit(repo.objects, id)
    requires k < |repo.objects[id].commit.parents|
    requires repo.objects[id].commit.parents[k] in repo.objects
    ensures IsCommit(repo.objects, repo.objects[id].commit.parents[k])
    ensures repo.objects[repo.objects[id].commit.parents[k]].commit.generation
            < repo.objects[id].commit.generation
  {
    assert ParentsPrecede(repo.objects, id);
  }

  /** The first parent of a commit, or None for a root commit. */
  function FirstParent(objects: map<ObjectId, RevObject>, id: ObjectId): Option<ObjectId>
    requires IsCommit(objects, id)
  {
    var c := objects[id].commit;
    if |c.parents| == 0 then None else Some(c.parents[0])
  }

  /**
   * Follows annotated tags to the object they finally name, at most `fuel`
   * links deep.
   */
  function Peel(objects: map<ObjectId, RevObject>, id: ObjectId, fuel: nat): (r: Result<ObjectId, Error>)
    ensures r.Success? ==> r.value in objects && !objects[r.value].TagObj?
    ensures id in objects && !objects[id].TagObj? ==> r == Success(id)
    ensures id !in objects ==> r == Failure(ObjectNotFound(id))
    decreases fuel
  {
    if id !in objects then Failure(ObjectNotFound(id))
    else match objects[id]
      case TagObj(_, target) =>
        if fuel == 0 then Failure(TagChainTooLong(id)) else Peel(objects, target, fuel - 1)
      case _ => Success(id)
  }

  /** `x` is reached from `id` by following exactly `n` tag links, and is not itself a tag. */
  ghost predicate TagChain(objects: map<ObjectId, RevObject>, id: ObjectId, n: nat, x: ObjectId)
    decreases n
  {
    id in objects &&
    if n == 0 then id == x && !objects[id].TagObj?
    else objects[id].TagObj? && TagChain(objects, objects[id].target, n - 1, x)
  }

  /** A tag chain of at most `fuel` links peels to the object at its end. */
  lemma {:induction false} PeelFollowsChain(objects: map<ObjectId, RevObject>, id: ObjectId, n: nat, x: ObjectId, fuel: nat)
    requires TagChain(objects, id, n, x) && n <= fuel
    ensures Peel(objects, id, fuel) == Success(x)
    decreases n
  {
    if n > 0 {
      PeelFollowsChain(objects, objects[id].target, n - 1, x, fuel - 1);
    }
  }

  /** Conversely, a successful peel ends a tag chain of at most `fuel` links from `id`. */
  lemma {:induction false} PeelChain(objects: map<ObjectId, RevObject>, id: ObjectId, fuel: nat)
    requires Peel(objects, id, fuel).Success?
    ensures exists n: nat :: n <= fuel && TagChain(objects, id, n, Peel(objects, id, fuel).value)
    decreases fuel
  {
    var x := Peel(objects, id, fuel).value;
    if objects[id].TagObj? {
      var target := objects[id].target;
      PeelChain(objects, target, fuel - 1);
      var m: nat :| m <= fuel - 1 && TagChain(objects, target, m, x);
      assert TagChain(objects, id, m + 1, x);
    } else {
      assert TagChain(objects, id, 0, x);
    }
  }

  /**
   * `RevWalk.parseCommit`: peel the object under `id` and insist on a commit;
   * the result is the commit's own id.
   */
  function ParseCommit(objects: map<ObjectId, RevObject>, id: ObjectId): (r: Result<ObjectId, Error>)
    ensures r.Success? ==> IsCommit(objects, r.value) && id in objects
    ensures IsCommit(objects, id) ==> r == Success(id)
    ensures id !in objects ==> r == Failure(ObjectNotFound(id))
    ensures id in objects && objects[id].Other? ==> r == Failure(IncorrectObjectType(id))
    ensures id in objects && objects[id].TagObj? && IsCommit(objects, objects[id].target) ==>
              r == Success(objects[id].target)
  {
    var p :- Peel(objects, id, |objects|);
    if objects[p].CommitObj? then Success(p) else Failure(IncorrectObjectType(id))
  }

  /** An id that reaches a commit through a chain of tags, at most one per stored object, parses to that commit. */
  lemma ParseCommitPeelsChain(objects: map<ObjectId, RevObject>, id: ObjectId, n: nat, x: ObjectId)
    requires TagChain(objects, id, n, x) && n <= |objects| && IsCommit(objects, x)
    ensures ParseCommit(objects, id) == Success(x)
  {
    PeelFollowsChain(objects, id, n, x, |objects|);
  }

  /** An id whose tag chain ends at an object that is not a commit is rejected as the wrong type. */
  lemma ParseCommitRejectsChain(objects: map<ObjectId, RevObject>, id: ObjectId, n: nat, x: ObjectId)
    requires TagChain(objects, id, n, x) && n <= |objects| && !IsCommit(objects, x)
    ensures ParseCommit(objects, id) == Failure(IncorrectObjectType(id))
  {
    PeelFollowsChain(objects, id, n, x, |objects|);
  }

  /** A successful parse is the commit at the end of the id's tag chain. */
  lemma ParseCommitEndsChain(objects: map<ObjectId, RevObject>, id: ObjectId)
    requires ParseCommit(objects, id).Success?
    ensures exists n: nat :: n <= |objects| && TagChain(objects, id, n, ParseCommit(objects, id).value)
  {
    PeelChain(objects, id, |objects|);
  }

  /** `Repository.resolve`: the id a revision string names, or None. */
  function RevParse(repo: Repo, spec: string): Option<ObjectId> {
    if spec in repo.refs then Some(repo.refs[spec]) else None
  }
}
