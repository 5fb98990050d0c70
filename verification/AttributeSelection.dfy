/** Choosing which attributes of an identity a credential reveals. */
module AttributeSelection {
  import opened Bytes

  type Tag = nat

  function Chosen(tags: seq<Tag>): set<Tag> {
    set i | 0 <= i < |tags| :: tags[i]
  }

  /** What one more tag means for a loop that keeps the tags seen. */
  lemma OneMore(tags: seq<Tag>, i: nat)
    requires i < |tags| && Distinct(tags[..i])
    ensures Chosen(tags[..i + 1]) == Chosen(tags[..i]) + {tags[i]}
    ensures tags[i] in Chosen(tags)
    ensures tags[i] in Chosen(tags[..i]) ==> !Distinct(tags)
    ensures tags[i] !in Chosen(tags[..i]) ==> Distinct(tags[..i + 1])
  {
    assert tags[..i + 1] == tags[..i] + [tags[i]];
    if tags[i] in Chosen(tags[..i]) {
      var j :| 0 <= j < i && tags[..i][j] == tags[i];
      assert tags[j] == tags[i];
    }
  }

  /** The policy loop of the mobile wallet: succeeds exactly for distinct tags that are all
      present, and then gives the list restricted to them, in whatever order they came. */
  method PolicyFromTags(alist: map<Tag, string>, tags: seq<Tag>) returns (policy: Option<map<Tag, string>>)
    ensures policy.Some? <==> Distinct(tags) && Chosen(tags) <= alist.Keys
    ensures policy.Some? ==> policy.value == map t | t in alist && t in Chosen(tags) :: alist[t]
  {
    var vec: map<Tag, string> := map[];
    for i := 0 to |tags|
      invariant Distinct(tags[..i]) && vec.Keys == Chosen(tags[..i]) <= alist.Keys
      invariant forall t :: t in vec ==> vec[t] == alist[t]
    {
      var tag := tags[i];
      OneMore(tags, i);
      if tag !in alist {
        return None;
      }
      if tag in vec {
        return None;
      }
      vec := vec[tag := alist[tag]];
    }
    assert tags[..|tags|] == tags;
    return Some(vec);
  }

  /** The attribute tags in order, as the map lists them. */
  predicate SortedKeys(alist: map<Tag, string>, keys: seq<Tag>) {
    (forall i, j :: 0 <= i < j < |keys| ==> keys[i] < keys[j]) && Chosen(keys) == alist.Keys
  }

  function TagsAt(keys: seq<Tag>, indices: seq<nat>): (tags: seq<Tag>)
    requires forall i :: 0 <= i < |indices| ==> indices[i] < |keys|
    ensures |tags| == |indices| && forall i :: 0 <= i < |tags| ==> tags[i] == keys[indices[i]]
  {
    seq(|indices|, i requires 0 <= i < |indices| => keys[indices[i]])
  }

  predicate InRange(keys: seq<Tag>, indices: seq<nat>) {
    forall i :: 0 <= i < |indices| ==> indices[i] < |keys|
  }

  lemma TagsAreDistinct(alist: map<Tag, string>, keys: seq<Tag>, indices: seq<nat>)
    requires SortedKeys(alist, keys) && InRange(keys, indices)
    ensures Distinct(TagsAt(keys, indices)) <==> Distinct(indices)
    ensures Chosen(TagsAt(keys, indices)) <= alist.Keys
  {
  }

  /** `OutOfRange` is where the command line client panics. */
  datatype Selection = OutOfRange | Repeated | Selected(policy: map<Tag, string>)

  /** The positions before `i` are in range and different, so the loop gets there. */
  ghost predicate Gets(keys: seq<Tag>, indices: seq<nat>, i: nat) {
    i < |indices| && InRange(keys, indices[..i]) && Distinct(indices[..i])
  }

  lemma TagsSnoc(alist: map<Tag, string>, keys: seq<Tag>, indices: seq<nat>, i: nat)
    requires SortedKeys(alist, keys) && Gets(keys, indices, i) && indices[i] < |keys|
    ensures InRange(keys, indices[..i + 1]) && keys[indices[i]] in alist
    ensures TagsAt(keys, indices[..i + 1])[..i] == TagsAt(keys, indices[..i])
    ensures TagsAt(keys, indices[..i + 1])[i] == keys[indices[i]]
  {
    assert indices[..i + 1] == indices[..i] + [indices[i]];
    assert keys[indices[i]] in Chosen(keys);
  }

  /** The loop of the command line client over selected positions gives what the wallet's
      loop gives for the tags at those positions. */
  method PolicyFromIndices(alist: map<Tag, string>, keys: seq<Tag>, indices: seq<nat>) returns (r: Selection)
    requires SortedKeys(alist, keys)
    ensures r.Selected? <==> InRange(keys, indices) && Distinct(indices)
    ensures r.Selected? ==>
      && Distinct(TagsAt(keys, indices)) && Chosen(TagsAt(keys, indices)) <= alist.Keys
      && r.policy == map t | t in alist && t in Chosen(TagsAt(keys, indices)) :: alist[t]
    ensures r.OutOfRange? ==> exists i: nat :: Gets(keys, indices, i) && indices[i] >= |keys|
    ensures r.Repeated? ==> exists i: nat :: Gets(keys, indices, i) && indices[i] in indices[..i]
  {
    var revealed: map<Tag, string> := map[];
    for i := 0 to |indices|
      invariant InRange(keys, indices[..i]) && Distinct(indices[..i])
      invariant revealed.Keys == Chosen(TagsAt(keys, indices[..i])) <= alist.Keys
      invariant forall t :: t in revealed ==> revealed[t] == alist[t]
    {
      assert Gets(keys, indices, i);
      if indices[i] >= |keys| {
        return OutOfRange;
      }
      var tag := keys[indices[i]];
      TagsSnoc(alist, keys, indices, i);
      TagsAreDistinct(alist, keys, indices[..i]);
      TagsAreDistinct(alist, keys, indices[..i + 1]);
      OneMore(TagsAt(keys, indices[..i + 1]), i);
      assert TagsAt(keys, indices[..i + 1])[..i + 1] == TagsAt(keys, indices[..i + 1]);
      if tag in revealed {
        SeenBefore(alist, keys, indices, i);
        return Repeated;
      }
      revealed := revealed[tag := alist[tag]];
    }
    assert indices[..|indices|] == indices;
    TagsAreDistinct(alist, keys, indices);
    return Selected(revealed);
  }

  lemma SeenBefore(alist: map<Tag, string>, keys: seq<Tag>, indices: seq<nat>, i: nat)
    requires SortedKeys(alist, keys) && Gets(keys, indices, i) && indices[i] < |keys|
    requires keys[indices[i]] in Chosen(TagsAt(keys, indices[..i]))
    ensures indices[i] in indices[..i] && !Distinct(indices)
  {
    var j :| 0 <= j < i && TagsAt(keys, indices[..i])[j] == keys[indices[i]];
    assert indices[..i][j] == indices[j];
    assert indices[j] == indices[i];
  }
}
