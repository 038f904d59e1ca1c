/** The tag merge of `update_contact_phone_and_tags`. */
module TagMerge {
  import opened Wrappers

  /** The `tags_to_add` argument: None, a list, or a single tag that is not a list. */
  datatype TagsArg = NoTags | TagList(tags: seq<string>) | SingleTag(tag: string)

  /** The tags to consider: nothing when the argument is falsy (None, [] or ""), a list as
      given, and a single tag wrapped into a one-element list. */
  function TagsToAddList(arg: TagsArg): (ts: seq<string>)
    ensures arg.TagList? ==> ts == arg.tags
    ensures arg.SingleTag? ==> ts == (if arg.tag == "" then [] else [arg.tag])
    ensures arg.NoTags? ==> ts == []
  {
    match arg
    case NoTags => []
    case TagList(tags) => tags
    case SingleTag(tag) => if tag == "" then [] else [tag]
  }

  /** The requested tags that are not already present, in request order (the loop appends
      each to `new_tags`). */
  function NewTags(existing: seq<string>, toAdd: seq<string>): seq<string>
    decreases |toAdd|
  {
    if toAdd == [] then []
    else
      var last := toAdd[|toAdd| - 1];
      NewTags(existing, toAdd[..|toAdd| - 1]) + (if last !in existing then [last] else [])
  }

  /** The `tags` entry of the update payload: existing tags followed by the new ones, or
      None (the key is left out) when nothing is new. */
  function MergedTags(existing: seq<string>, arg: TagsArg): Option<seq<string>>
  {
    var added := NewTags(existing, TagsToAddList(arg));
    if added == [] then None else Some(existing + added)
  }

  predicate NoDuplicates(s: seq<string>) {
    forall i, j :: 0 <= i < j < |s| ==> s[i] != s[j]
  }

  /** A tag is new exactly when it is requested and not present; new tags keep the request's
      order, so they carry no duplicate the request does not. */
  lemma {:induction false} NewTagsSpec(existing: seq<string>, toAdd: seq<string>)
    ensures forall t :: t in NewTags(existing, toAdd) <==> t in toAdd && t !in existing
    ensures |NewTags(existing, toAdd)| <= |toAdd|
    ensures NoDuplicates(toAdd) ==> NoDuplicates(NewTags(existing, toAdd))
    decreases |toAdd|
  {
    if toAdd != [] {
      var front := toAdd[..|toAdd| - 1];
      var last := toAdd[|toAdd| - 1];
      NewTagsSpec(existing, front);
      assert toAdd == front + [last];
      if NoDuplicates(toAdd) {
        assert NoDuplicates(front) by {
          forall i, j | 0 <= i < j < |front| ensures front[i] != front[j] {
            assert front[i] == toAdd[i] && front[j] == toAdd[j];
          }
        }
        assert last !in front by {
          forall i | 0 <= i < |front| ensures front[i] != last {
            assert front[i] == toAdd[i];
          }
        }
      }
    }
  }

  /** When some requested tag is new, the payload's tags are the existing tags, unchanged and
      in order, followed by the new ones; together they hold exactly the existing and the
      requested tags, and no duplicate when neither input has one. */
  lemma MergedTagsSpec(existing: seq<string>, arg: TagsArg)
    ensures MergedTags(existing, arg).None? <==>
              forall t :: t in TagsToAddList(arg) ==> t in existing
    ensures MergedTags(existing, arg).Some? ==>
              var merged := MergedTags(existing, arg).value;
              && merged[..|existing|] == existing
              && (forall t :: t in merged <==> t in existing || t in TagsToAddList(arg))
              && (NoDuplicates(existing) && NoDuplicates(TagsToAddList(arg)) ==> NoDuplicates(merged))
  {
    var toAdd := TagsToAddList(arg);
    var added := NewTags(existing, toAdd);
    NewTagsSpec(existing, toAdd);
    if added != [] {
      var merged := existing + added;
      assert added[0] in added;
      assert merged[..|existing|] == existing;
      if NoDuplicates(existing) && NoDuplicates(toAdd) {
        forall i, j | 0 <= i < j < |merged| ensures merged[i] != merged[j] {
          if j >= |existing| {
            assert merged[j] == added[j - |existing|];
            assert merged[j] in added;
            if i >= |existing| {
              assert merged[i] == added[i - |existing|];
            } else {
              assert merged[i] in existing;
            }
          }
        }
      }
    }
  }

  /** Merging is idempotent: once the merged tags are stored, asking for the same tags again
      finds nothing new, so the second update carries no `tags` key. */
  lemma MergeIdempotent(existing: seq<string>, arg: TagsArg)
    requires MergedTags(existing, arg).Some?
    ensures MergedTags(MergedTags(existing, arg).value, arg).None?
  {
    var merged := MergedTags(existing, arg).value;
    MergedTagsSpec(existing, arg);
    MergedTagsSpec(merged, arg);
  }

  /** The forms of `tags_to_add`: a single truthy tag merges as the one-element list holding
      it, adding it exactly when it is absent; None, `[]` and `""` never send a `tags` key. */
  lemma SingleTagAsList(existing: seq<string>, tag: string)
    ensures tag != "" ==> MergedTags(existing, SingleTag(tag)) == MergedTags(existing, TagList([tag]))
    ensures MergedTags(existing, SingleTag(tag))
            == if tag == "" || tag in existing then None else Some(existing + [tag])
    ensures MergedTags(existing, NoTags).None? && MergedTags(existing, TagList([])).None?
  {
    assert [tag][..0] == [];
    assert NewTags(existing, [tag]) == (if tag !in existing then [tag] else []);
  }

  /** Existing tags `["close"]` and requested `["close", "closed"]` give `["close", "closed"]`. */
  lemma CloseTagsExample()
    ensures MergedTags(["close"], TagList(["close", "closed"])) == Some(["close", "closed"])
  {
    var existing, toAdd := ["close"], ["close", "closed"];
    assert "close" in existing && "closed" !in existing;
    assert toAdd[..1] == ["close"] && ["close"][..0] == [];
    assert NewTags(existing, []) == [];
    assert NewTags(existing, ["close"]) == NewTags(existing, []) + [];
    assert NewTags(existing, toAdd) == NewTags(existing, ["close"]) + ["closed"] == ["closed"];
    assert TagsToAddList(TagList(toAdd)) == toAdd;
    assert existing + ["closed"] == ["close", "closed"];
  }
}
