/**
 * What `upload(branch, prevBranch, forkPoint)` writes, stated over the
 * resolved tip and fork point.
 */
module UploadProperties {
  import opened Results
  import opened GitRepository
  import opened GitMetadataUploader
  import opened TagProperties
  import opened WalkProperties

  /** When the branch resolves to the fork point itself, an empty batch is written. */
  lemma UploadEmptyAtFork(repo: Repo, branch: string, prevBranch: string, forkPoint: string)
    requires WellFormed(repo)
    requires Resolve(repo, branch).Success? && Resolve(repo, prevBranch).Success? && Resolve(repo, forkPoint).Success?
    requires ParseCommit(repo.objects, Resolve(repo, branch).value) == Success(Resolve(repo, forkPoint).value)
    ensures UploadResult(repo, branch, prevBranch, forkPoint) == Success([])
  {
  }

  /**
   * A written batch is the first-parent chain from the branch tip (first
   * record) down to, and excluding, the fork point, and every record carries
   * the branch name and its commit's fields.
   */
  lemma UploadSound(repo: Repo, branch: string, prevBranch: string, forkPoint: string)
    requires WellFormed(repo)
    requires UploadResult(repo, branch, prevBranch, forkPoint).Success?
    ensures Resolve(repo, branch).Success? && Resolve(repo, prevBranch).Success? && Resolve(repo, forkPoint).Success?
    ensures ParseCommit(repo.objects, Resolve(repo, branch).value).Success?
    ensures IsFirstParentPath(repo.objects, Shas(UploadResult(repo, branch, prevBranch, forkPoint).value),
                              ParseCommit(repo.objects, Resolve(repo, branch).value).value,
                              Resolve(repo, forkPoint).value)
    ensures forall i :: 0 <= i < |UploadResult(repo, branch, prevBranch, forkPoint).value| ==>
              RecordDescribes(repo, branch, UploadResult(repo, branch, prevBranch, forkPoint).value[i])
  {
    var tip := ParseCommit(repo.objects, Resolve(repo, branch).value).value;
    var fork := Resolve(repo, forkPoint).value;
    WalkSound(repo, branch, tip, fork);
    WalkRecordFields(repo, branch, tip, fork);
  }

  /**
   * When the fork point lies on the tip's first-parent chain and the tag
   * listing parses, the batch written is exactly that chain.
   */
  lemma UploadComplete(repo: Repo, branch: string, prevBranch: string, forkPoint: string, ids: seq<ObjectId>)
    requires WellFormed(repo) && AllTagsParse(repo.objects, repo.tagList)
    requires Resolve(repo, branch).Success? && Resolve(repo, prevBranch).Success? && Resolve(repo, forkPoint).Success?
    requires ParseCommit(repo.objects, Resolve(repo, branch).value).Success?
    requires IsFirstParentPath(repo.objects, ids, ParseCommit(repo.objects, Resolve(repo, branch).value).value,
                               Resolve(repo, forkPoint).value)
    ensures UploadResult(repo, branch, prevBranch, forkPoint).Success?
    ensures Shas(UploadResult(repo, branch, prevBranch, forkPoint).value) == ids
  {
    var tip := ParseCommit(repo.objects, Resolve(repo, branch).value).value;
    WalkComplete(repo, branch, ids, tip, Resolve(repo, forkPoint).value);
  }

  /**
   * When the tip's first-parent chain ends at a root without meeting the
   * fork point, the upload fails at that root and writes nothing.
   */
  lemma UploadFailsAtRoot(repo: Repo, branch: string, prevBranch: string, forkPoint: string, ids: seq<ObjectId>)
    requires WellFormed(repo) && AllTagsParse(repo.objects, repo.tagList)
    requires Resolve(repo, branch).Success? && Resolve(repo, prevBranch).Success? && Resolve(repo, forkPoint).Success?
    requires ParseCommit(repo.objects, Resolve(repo, branch).value).Success?
    requires ReachesRootBefore(repo.objects, ids, ParseCommit(repo.objects, Resolve(repo, branch).value).value,
                               Resolve(repo, forkPoint).value)
    ensures UploadResult(repo, branch, prevBranch, forkPoint) == Failure(NoParent(ids[|ids| - 1]))
  {
    var tip := ParseCommit(repo.objects, Resolve(repo, branch).value).value;
    WalkFailsAtRoot(repo, branch, ids, tip, Resolve(repo, forkPoint).value);
  }

  /**
   * `prevBranch` has to resolve, and once it does, which commit it names
   * makes no difference to the batch.
   */
  lemma PrevBranchOnlyGuards(repo: Repo, branch: string, prev1: string, prev2: string, forkPoint: string)
    requires WellFormed(repo)
    ensures Resolve(repo, prev1).Success? && Resolve(repo, prev2).Success? ==>
              UploadResult(repo, branch, prev1, forkPoint) == UploadResult(repo, branch, prev2, forkPoint)
    ensures Resolve(repo, branch).Success? && Resolve(repo, prev1).Failure? ==>
              UploadResult(repo, branch, prev1, forkPoint) == Failure(Resolve(repo, prev1).error)
  {
  }
}
