/**
 * A small repository: the first-parent chain C5 -> C4 -> C3 -> C2 -> C1
 * (C1 a root), C4 carrying the annotated tag v1.2.0, branch 2.12.x at C5
 * and branch 2.11.x at C1.
 */
module Scenarios {
  import opened Results
  import opened GitRepository
  import opened GitMetadataUploader
  import opened TagProperties
  import opened WalkProperties
  import opened UploadProperties
  import opened EscapeProperties

  const C1: ObjectId := "1111111111111111111111111111111111111111"
  const C2: ObjectId := "2222222222222222222222222222222222222222"
  const C3: ObjectId := "3333333333333333333333333333333333333333"
  const C4: ObjectId := "4444444444444444444444444444444444444444"
  const C5: ObjectId := "5555555555555555555555555555555555555555"
  const T4: ObjectId := "aaaaaaaaaaaaaaaaaaaaaaaaaaaaaaaaaaaaaaaa"

  function Sample(): Repo {
    Repo(
      map[C1 := CommitObj(Commit([], "a", 10, "root", 1)),
          C2 := CommitObj(Commit([C1], "a", 20, "two", 2)),
          C3 := CommitObj(Commit([C2], "b", 30, "three\\n", 3)),
          C4 := CommitObj(Commit([C3], "b", 40, "four", 4)),
          C5 := CommitObj(Commit([C4], "c", 50, "five", 5)),
          T4 := TagObj("v1.2.0", C4)],
      map["origin/2.12.x" := C5, "origin/2.11.x" := C1, C2 := C2],
      [Ref("refs/tags/v1.2.0", T4)])
  }

  lemma IdsDistinct()
    ensures C1 != C2 && C1 != C3 && C1 != C4 && C1 != C5 && C1 != T4
    ensures C2 != C3 && C2 != C4 && C2 != C5 && C2 != T4
    ensures C3 != C4 && C3 != C5 && C3 != T4
    ensures C4 != C5 && C4 != T4 && C5 != T4
  {
    assert C1[0] == '1' && C2[0] == '2' && C3[0] == '3' && C4[0] == '4' && C5[0] == '5' && T4[0] == 'a';
  }

  lemma SampleWellFormed()
    ensures WellFormed(Sample())
  {
    IdsDistinct();
    var objects := Sample().objects;
    forall id | id in objects ensures |id| == IdLength && ParentsPrecede(objects, id) {
      assert id == C1 || id == C2 || id == C3 || id == C4 || id == C5 || id == T4;
    }
  }

  lemma SampleResolves()
    ensures Resolve(Sample(), "2.12.x") == Success(C5)
    ensures Resolve(Sample(), "2.11.x") == Success(C1)
    ensures Resolve(Sample(), C2) == Success(C2)
  {
    var refs := Sample().refs;
    assert "origin/" + "2.12.x" == "origin/2.12.x";
    assert "origin/" + "2.11.x" == "origin/2.11.x";
    assert "origin/" + C2 !in refs by {
      assert |"origin/" + C2| == 47;
    }
  }

  lemma SampleTags()
    ensures AllTagsParse(Sample().objects, Sample().tagList)
    ensures TagsOf(Sample().objects, Sample().tagList, C4) == Success(["v1.2.0"])
    ensures TagsOf(Sample().objects, Sample().tagList, C3) == Success([])
  {
    IdsDistinct();
    var repo := Sample();
    var tag := Ref("refs/tags/v1.2.0", T4);
    assert repo.objects[T4] == TagObj("v1.2.0", C4);
    SingleTag(repo.objects, tag, C4);
    SingleTag(repo.objects, tag, C3);
  }

  lemma SingleTag(objects: map<ObjectId, RevObject>, ref: Ref, c: ObjectId)
    requires ref.objectId in objects
    ensures TagsOf(objects, [ref], c) == Success(TagMatch(objects[ref.objectId], ref, c))
  {
    assert [ref][..0] == [];
    assert [] + TagMatch(objects[ref.objectId], ref, c) == TagMatch(objects[ref.objectId], ref, c);
  }

  lemma SamplePath()
    ensures IsCommit(Sample().objects, C5) && IsCommit(Sample().objects, C1)
    ensures IsFirstParentPath(Sample().objects, [C5, C4, C3], C5, C2)
    ensures ReachesRootBefore(Sample().objects, [C1], C1, C2)
  {
    IdsDistinct();
    var objects := Sample().objects;
    var ids := [C5, C4, C3];
    assert objects[C5].commit.parents == [C4];
    assert objects[C4].commit.parents == [C3];
    assert objects[C3].commit.parents == [C2];
    assert objects[C1].commit.parents == [];
    assert IsCommit(objects, C2);
    assert LinkAt(objects, ids, C2, 0);
    assert LinkAt(objects, ids, C2, 1);
    assert LinkAt(objects, ids, C2, 2);
    assert RootLinkAt(objects, [C1], C2, 0);
  }

  /** Walking 2.12.x down to C2 writes C5, C4, C3 in that order; C4's record carries its tag. */
  lemma SampleWalk()
    ensures WellFormed(Sample())
    ensures UploadResult(Sample(), "2.12.x", "2.11.x", C2).Success?
    ensures Shas(UploadResult(Sample(), "2.12.x", "2.11.x", C2).value) == [C5, C4, C3]
    ensures UploadResult(Sample(), "2.12.x", "2.11.x", C2).value[1].tag == Some("v1.2.0")
    ensures UploadResult(Sample(), "2.12.x", "2.11.x", C2).value[2].tag == None
  {
    SampleWellFormed();
    SampleResolves();
    SampleTags();
    SamplePath();
    var repo := Sample();
    UploadComplete(repo, "2.12.x", "2.11.x", C2, [C5, C4, C3]);
    UploadSound(repo, "2.12.x", "2.11.x", C2);
    var rs := UploadResult(repo, "2.12.x", "2.11.x", C2).value;
    assert |Shas(rs)| == |rs|;
    assert Shas(rs)[1] == rs[1].sha && Shas(rs)[2] == rs[2].sha;
    assert RecordDescribes(repo, "2.12.x", rs[1]);
    assert RecordDescribes(repo, "2.12.x", rs[2]);
  }

  /** C3's message reaches the batch with its backslash doubled. */
  lemma SampleMessageEscaped()
    ensures WellFormed(Sample())
    ensures UploadResult(Sample(), "2.12.x", "2.11.x", C2).Success?
    ensures var rs := UploadResult(Sample(), "2.12.x", "2.11.x", C2).value;
      |rs| == 3 && rs[2].sha == C3 && rs[2].message == "three\\\\n"
  {
    SampleWalk();
    var repo := Sample();
    var rs := UploadResult(repo, "2.12.x", "2.11.x", C2).value;
    UploadSound(repo, "2.12.x", "2.11.x", C2);
    assert |Shas(rs)| == |rs| && Shas(rs)[2] == rs[2].sha;
    assert RecordDescribes(repo, "2.12.x", rs[2]);
    C3Message();
    EscapedThree();
  }

  /** C3 is a commit whose message holds one backslash. */
  lemma C3Message()
    ensures IsCommit(Sample().objects, C3) && Sample().objects[C3].commit.fullMessage == "three\\n"
  {
    IdsDistinct();
  }

  /** The escaped form of C3's message: its one backslash doubled. */
  lemma EscapedThree()
    ensures EscapeBackslashes("three\\n") == "three\\\\n"
  {
    assert EscapeBackslashes("\\n") == "\\\\n";
    assert "three\\n" == "three" + "\\n";
    EscapeAppend("three", "\\n");
  }

  /** Walking 2.11.x (at the root C1) towards C2 fails at C1 instead of writing a truncated batch. */
  lemma SampleWalkPastRoot()
    ensures WellFormed(Sample())
    ensures UploadResult(Sample(), "2.11.x", "2.12.x", C2) == Failure(NoParent(C1))
  {
    SampleWellFormed();
    SampleResolves();
    SampleTags();
    SamplePath();
    assert ParseCommit(Sample().objects, C1) == Success(C1);
    UploadFailsAtRoot(Sample(), "2.11.x", "2.12.x", C2, [C1]);
  }
}
