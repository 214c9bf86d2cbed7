/**
 * The report's tag list: an insertion-ordered list of strings, toggled by
 * the tag chips and extended by the free-text "other" tag input.
 */
module Tags {
  import opened Text

  /** The preset chips, always offered in the form. */
  const DefaultTags: seq<string> := ["Development", "Interaction", "Content"]

  predicate NoDup(s: seq<string>) {
    forall i, j :: 0 <= i < j < |s| ==> s[i] != s[j]
  }

  /** `a` is `b` with some entries dropped and the rest in their original order. */
  predicate IsSubsequence(a: seq<string>, b: seq<string>)
    decreases |b|
  {
    a == [] || (b != [] && ((a[0] == b[0] && IsSubsequence(a[1..], b[1..])) || IsSubsequence(a, b[1..])))
  }

  /**
   * `tags.filter(x => x !== t)`: every occurrence of `t` goes, every other
   * entry stays with its multiplicity and in its order.
   */
  function Remove(tags: seq<string>, t: string): (r: seq<string>)
    ensures t !in r
    ensures multiset(r) == multiset(tags)[t := 0]
    ensures forall u :: u != t ==> (u in r <==> u in tags)
  {
    if tags == [] then []
    else
      assert tags == [tags[0]] + tags[1..];
      (if tags[0] == t then [] else [tags[0]]) + Remove(tags[1..], t)
  }

  /** Filtering keeps the surviving entries in their original order. */
  lemma {:induction false} RemoveKeepsOrder(tags: seq<string>, t: string)
    ensures IsSubsequence(Remove(tags, t), tags)
  {
    if tags != [] {
      RemoveKeepsOrder(tags[1..], t);
      var rest := Remove(tags[1..], t);
      if tags[0] != t {
        var r := [tags[0]] + rest;
        assert r[1..] == rest;
        assert Remove(tags, t) == r;
      } else {
        assert Remove(tags, t) == rest;
      }
    }
  }

  /** Filtering a concatenation filters each part. */
  lemma {:induction false} RemoveAppend(a: seq<string>, b: seq<string>, t: string)
    ensures Remove(a + b, t) == Remove(a, t) + Remove(b, t)
  {
    if a == [] {
      assert a + b == b;
    } else {
      var ab := a + b;
      assert ab != [] && ab[0] == a[0] && ab[1..] == a[1..] + b;
      RemoveAppend(a[1..], b, t);
    }
  }

  /** Filtering out a value that does not occur changes nothing. */
  lemma {:induction false} RemoveAbsent(tags: seq<string>, t: string)
    requires t !in tags
    ensures Remove(tags, t) == tags
  {
    if tags != [] {
      assert tags[0] != t && t !in tags[1..];
      RemoveAbsent(tags[1..], t);
      assert Remove(tags, t) == [tags[0]] + tags[1..];
      assert tags == [tags[0]] + tags[1..];
    }
  }

  /** Filtering keeps a list free of duplicates. */
  lemma {:induction false} RemoveNoDup(tags: seq<string>, t: string)
    requires NoDup(tags)
    ensures NoDup(Remove(tags, t))
  {
    if tags != [] {
      RemoveNoDup(tags[1..], t);
      var rest := Remove(tags[1..], t);
      if tags[0] != t {
        assert tags[0] !in tags[1..];
        assert tags[0] !in multiset(tags[1..]);
        assert tags[0] !in multiset(rest);
        assert tags[0] !in rest;
      }
    }
  }

  /** A chip click: a present tag is removed everywhere, an absent one is appended at the end. */
  function Toggle(tags: seq<string>, t: string): (r: seq<string>)
    ensures t in tags ==> t !in r && multiset(r) == multiset(tags)[t := 0] && IsSubsequence(r, tags)
    ensures t !in tags ==> r == tags + [t]
    ensures forall u :: u != t ==> (u in r <==> u in tags)
  {
    RemoveKeepsOrder(tags, t);
    if t in tags then Remove(tags, t) else tags + [t]
  }

  /** Toggling the same tag twice restores whether it is in the list. */
  lemma ToggleTwiceMembership(tags: seq<string>, t: string)
    ensures (t in Toggle(Toggle(tags, t), t)) == (t in tags)
  {
  }

  /** Toggling an absent tag twice restores the list exactly; a present tag ends up moved to the end. */
  lemma ToggleTwice(tags: seq<string>, t: string)
    ensures t !in tags ==> Toggle(Toggle(tags, t), t) == tags
    ensures t in tags ==> Toggle(Toggle(tags, t), t) == Remove(tags, t) + [t]
  {
    if t !in tags {
      RemoveAppend(tags, [t], t);
      RemoveAbsent(tags, t);
      assert Remove([t], t) == [];
    }
  }

  /** Toggling never creates a duplicate. */
  lemma ToggleNoDup(tags: seq<string>, t: string)
    requires NoDup(tags)
    ensures NoDup(Toggle(tags, t))
  {
    if t in tags {
      RemoveNoDup(tags, t);
    }
  }

  /** The state of the "other" tag input: its text and whether it is open. */
  datatype TagInput = TagInput(buffer: string, adding: bool)

  datatype TagEdit = TagEdit(tags: seq<string>, input: TagInput)

  /**
   * Committing the "other" tag input. If the trimmed text is empty or
   * already a tag, nothing changes at all. Otherwise the trimmed text is
   * appended once, the input is cleared and closed.
   */
  function AddCustomTag(tags: seq<string>, input: TagInput): (r: TagEdit)
    ensures Trim(input.buffer) == [] || Trim(input.buffer) in tags ==> r == TagEdit(tags, input)
    ensures Trim(input.buffer) != [] && Trim(input.buffer) !in tags ==>
              r.tags == tags + [Trim(input.buffer)]
              && multiset(r.tags)[Trim(input.buffer)] == 1
              && r.input == TagInput("", false)
  {
    var v := Trim(input.buffer);
    if v != [] && v !in tags then TagEdit(tags + [v], TagInput("", false))
    else TagEdit(tags, input)
  }

  /** Committing twice is committing once: the second commit sees an empty input. */
  lemma AddCustomTagIdempotent(tags: seq<string>, input: TagInput)
    ensures var once := AddCustomTag(tags, input);
            AddCustomTag(once.tags, once.input) == once
  {
  }

  /** Committing keeps the tag list free of duplicates. */
  lemma AddCustomTagNoDup(tags: seq<string>, input: TagInput)
    requires NoDup(tags)
    ensures NoDup(AddCustomTag(tags, input).tags)
  {
  }

  /** Blank, all-space and already-present inputs leave the tags as they are. */
  lemma AddCustomTagRejects(tags: seq<string>, adding: bool)
    ensures AddCustomTag(tags, TagInput("", adding)).tags == tags
    ensures AddCustomTag(tags, TagInput("   ", adding)).tags == tags
    ensures "Content" in tags ==> AddCustomTag(tags, TagInput(" Content ", adding)).tags == tags
  {
    assert AllSpace("") && AllSpace("   ");
    assert Trim("") == [] && Trim("   ") == [];
    PaddedContent();
  }

  lemma PaddedContent()
    ensures Trim(" Content ") == "Content"
  {
    assert " Content "[1..] == "Content ";
    assert TrimStart("Content ") == "Content ";
    assert TrimStart(" Content ") == "Content ";
    assert "Content "[..7] == "Content";
    assert TrimEnd("Content") == "Content";
    assert TrimEnd("Content ") == "Content";
  }
}
