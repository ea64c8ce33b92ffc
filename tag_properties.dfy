/**
 * What `tagsOfCommit` computes: an order-preserving filter of the tag
 * listing, failing exactly when some listed ref names a missing object.
 */
module TagProperties {
  import opened Results
  import opened GitRepository
  import opened GitMetadataUploader

  /** Every ref of the listing names an object in the store. */
  predicate AllTagsParse(objects: map<ObjectId, RevObject>, refs: seq<Ref>) {
    forall i :: 0 <= i < |refs| ==> refs[i].objectId in objects
  }

  /** The scan succeeds exactly when every listed ref can be parsed. */
  lemma {:induction false} TagsOfSucceedsIff(objects: map<ObjectId, RevObject>, refs: seq<Ref>, c: ObjectId)
    ensures TagsOf(objects, refs, c).Success? <==> AllTagsParse(objects, refs)
    decreases |refs|
  {
    if refs != [] {
      var init := refs[..|refs| - 1];
      TagsOfSucceedsIff(objects, init, c);
      assert AllTagsParse(objects, refs) <==>
             AllTagsParse(objects, init) && refs[|refs| - 1].objectId in objects by {
        forall i | 0 <= i < |init| ensures init[i] == refs[i] { }
      }
    }
  }

  /** A failed scan reports the first listed ref whose object is missing. */
  lemma {:induction false} TagsOfFailsAtFirstMissing(objects: map<ObjectId, RevObject>, refs: seq<Ref>, c: ObjectId)
    requires TagsOf(objects, refs, c).Failure?
    ensures exists j :: 0 <= j < |refs| && refs[j].objectId !in objects &&
                        TagsOf(objects, refs, c).error == ObjectNotFound(refs[j].objectId) &&
                        AllTagsParse(objects, refs[..j])
    decreases |refs|
  {
    var init := refs[..|refs| - 1];
    var j := |refs| - 1;
    if TagsOf(objects, init, c).Failure? {
      TagsOfFailsAtFirstMissing(objects, init, c);
      var k :| 0 <= k < |init| && init[k].objectId !in objects &&
               TagsOf(objects, init, c).error == ObjectNotFound(init[k].objectId) &&
               AllTagsParse(objects, init[..k]);
      assert init[..k] == refs[..k];
      assert refs[k] == init[k];
    } else {
      TagsOfSucceedsIff(objects, init, c);
      assert init == refs[..j];
    }
  }

  /**
   * A successful scan selects, in listing order, exactly the refs that match
   * `c`: `idx` gives each result's position in the listing, strictly
   * increasing, and every matching position occurs in it.
   */
  lemma {:induction false} TagsOfSelects(objects: map<ObjectId, RevObject>, refs: seq<Ref>, c: ObjectId)
    returns (idx: seq<nat>)
    requires TagsOf(objects, refs, c).Success?
    ensures AllTagsParse(objects, refs)
    ensures |idx| == |TagsOf(objects, refs, c).value|
    ensures forall k :: 0 <= k < |idx| ==>
              idx[k] < |refs| && Matches(objects[refs[idx[k]].objectId], refs[idx[k]], c) &&
              TagsOf(objects, refs, c).value[k] == NameFor(objects[refs[idx[k]].objectId], refs[idx[k]])
    ensures forall k, l :: 0 <= k < l < |idx| ==> idx[k] < idx[l]
    ensures forall i :: 0 <= i < |refs| && Matches(objects[refs[i].objectId], refs[i], c) ==> i in idx
    decreases |refs|
  {
    TagsOfSucceedsIff(objects, refs, c);
    if refs == [] {
      idx := [];
    } else {
      var n := |refs| - 1;
      var init := refs[..n];
      var last := refs[n];
      assert forall i :: 0 <= i < n ==> init[i] == refs[i];
      var prevIdx := TagsOfSelects(objects, init, c);
      var prev := TagsOf(objects, init, c).value;
      assert TagsOf(objects, refs, c).value == prev + TagMatch(objects[last.objectId], last, c);
      if Matches(objects[last.objectId], last, c) {
        idx := prevIdx + [n];
      } else {
        idx := prevIdx;
      }
    }
  }

  /**
   * The record's tag field is empty exactly when no listed ref matches, and
   * otherwise is the name of the first matching ref in listing order.
   */
  lemma {:induction false} PrimaryTagIsFirstMatch(objects: map<ObjectId, RevObject>, refs: seq<Ref>, c: ObjectId)
    requires TagsOf(objects, refs, c).Success?
    ensures AllTagsParse(objects, refs)
    ensures PrimaryTag(TagsOf(objects, refs, c).value).None? <==>
              forall i :: 0 <= i < |refs| ==> !Matches(objects[refs[i].objectId], refs[i], c)
    ensures PrimaryTag(TagsOf(objects, refs, c).value).Some? ==>
              exists j :: 0 <= j < |refs| && Matches(objects[refs[j].objectId], refs[j], c) &&
                          PrimaryTag(TagsOf(objects, refs, c).value).value == NameFor(objects[refs[j].objectId], refs[j]) &&
                          forall i :: 0 <= i < j ==> !Matches(objects[refs[i].objectId], refs[i], c)
  {
    var idx := TagsOfSelects(objects, refs, c);
    var ts := TagsOf(objects, refs, c).value;
    if ts != [] {
      var j := idx[0];
      forall i | 0 <= i < j
        ensures !Matches(objects[refs[i].objectId], refs[i], c)
      {
        forall k | 0 <= k < |idx| ensures idx[k] != i {
          assert k == 0 || idx[0] < idx[k];
        }
      }
    }
  }

  /**
   * A ref naming neither a tag object nor a commit contributes no name and no
   * failure, wherever it stands in the listing.
   */
  lemma {:induction false} OtherObjectsIgnored(objects: map<ObjectId, RevObject>, refs: seq<Ref>, i: nat, r: Ref, c: ObjectId)
    requires i <= |refs|
    requires r.objectId in objects && objects[r.objectId].Other?
    ensures TagsOf(objects, refs[..i] + [r] + refs[i..], c) == TagsOf(objects, refs, c)
    decreases |refs|
  {
    var s := refs[..i] + [r] + refs[i..];
    if i == |refs| {
      assert s[..|s| - 1] == refs && s[|s| - 1] == r;
      var none: seq<string> := [];
      assert TagMatch(objects[r.objectId], r, c) == none;
      if TagsOf(objects, refs, c).Success? {
        var prefix := TagsOf(objects, refs, c).value;
        assert TagsOf(objects, s, c) == Success(prefix + none);
        assert prefix + none == prefix;
      }
    } else {
      var init := refs[..|refs| - 1];
      OtherObjectsIgnored(objects, init, i, r, c);
      assert s[..|s| - 1] == init[..i] + [r] + init[i..];
      assert s[|s| - 1] == refs[|refs| - 1];
    }
  }
}
