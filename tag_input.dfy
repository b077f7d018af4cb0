/** The tag editor of the post forms: a list of tags owned by the parent
    form, and the text being typed. Adding, removing and the Backspace
    shortcut each produce the next list, which the parent stores. */
module TagInput {
  import opened JsText

  /** `value` (the parent's list) and the local `input` text. */
  datatype TagState = TagState(tags: seq<string>, input: string)

  /** `addTag(raw)`: the trimmed text is appended unless it is blank or
      already listed (compared exactly, case included); only an append clears
      the input. */
  function AddTag(s: TagState, raw: string): (r: TagState)
    ensures r == s || r == TagState(s.tags + [Trim(raw)], "")
    ensures Trim(raw) == "" || Trim(raw) in s.tags ==> r == s
  {
    var t := Trim(raw);
    if t == "" then s
    else if t in s.tags then s
    else TagState(s.tags + [t], "")
  }

  /** `removeTag(tag)`: `value.filter(t => t !== tag)`. */
  function RemoveTag(tags: seq<string>, tag: string): (r: seq<string>)
    ensures forall x :: x in r <==> x in tags && x != tag
    ensures |r| <= |tags|
  {
    if tags == [] then []
    else if tags[0] == tag then RemoveTag(tags[1..], tag)
    else [tags[0]] + RemoveTag(tags[1..], tag)
  }

  /** `onKeyDown`: Enter and "," add the current input; Backspace on an empty
      input drops the last tag, if there is one; any other key changes
      nothing here. */
  function OnKeyDown(s: TagState, key: string): (r: TagState)
    ensures key != "Enter" && key != "," && key != "Backspace" ==> r == s
    ensures key == "Backspace" ==> r.input == s.input && |r.tags| <= |s.tags| && r.tags == s.tags[..|r.tags|]
  {
    if key == "Enter" || key == "," then AddTag(s, s.input)
    else if key == "Backspace" && s.input == "" then
      if |s.tags| > 0 then s.(tags := s.tags[..|s.tags| - 1]) else s
    else s
  }

  /** The list changes exactly when the trimmed text is neither blank nor
      listed, and then only by that text at the end, with the input cleared;
      a refused add keeps the typed text. */
  lemma AddTagEffect(s: TagState, raw: string)
    ensures AddTag(s, raw).tags == s.tags <==> Trim(raw) == "" || Trim(raw) in s.tags
    ensures AddTag(s, raw).tags == s.tags ==> AddTag(s, raw).input == s.input
    ensures AddTag(s, raw).tags != s.tags ==> AddTag(s, raw) == TagState(s.tags + [Trim(raw)], "")
  {
    var t := Trim(raw);
    if t != "" && t !in s.tags {
      assert (s.tags + [t])[|s.tags|] == t;
      assert |s.tags + [t]| != |s.tags|;
    }
  }

  /** Adding never creates a duplicate. */
  lemma AddTagKeepsNoDuplicates(s: TagState, raw: string)
    requires NoDuplicates(s.tags)
    ensures NoDuplicates(AddTag(s, raw).tags)
  {
    var t := Trim(raw);
    if t != "" && t !in s.tags {
      var r := s.tags + [t];
      forall i, j | 0 <= i < j < |r| ensures r[i] != r[j] {
        if j == |s.tags| {
          assert r[i] in s.tags;
        }
      }
    }
  }

  /** Every tag added through the editor is trimmed and not blank. */
  lemma AddTagTrimmed(s: TagState, raw: string)
    requires forall i :: 0 <= i < |s.tags| ==> s.tags[i] != "" && Trim(s.tags[i]) == s.tags[i]
    ensures var r := AddTag(s, raw).tags;
      forall i :: 0 <= i < |r| ==> r[i] != "" && Trim(r[i]) == r[i]
  {
    var t := Trim(raw);
    if t != "" && t !in s.tags {
      TrimIdempotent(raw);
      var r := s.tags + [t];
      forall i | 0 <= i < |r| ensures r[i] != "" && Trim(r[i]) == r[i] {
        if i < |s.tags| { assert r[i] == s.tags[i]; }
      }
    }
  }

  /** Removal keeps the order of the others: it works piecewise over a split
      of the list. */
  lemma {:induction false} RemoveTagConcat(a: seq<string>, b: seq<string>, tag: string)
    ensures RemoveTag(a + b, tag) == RemoveTag(a, tag) + RemoveTag(b, tag)
  {
    if a != [] {
      assert (a + b)[0] == a[0];
      assert (a + b)[1..] == a[1..] + b;
      RemoveTagConcat(a[1..], b, tag);
    } else {
      assert a + b == b;
    }
  }

  /** A tag that is not listed is removed without effect. */
  lemma {:induction false} RemoveAbsent(tags: seq<string>, tag: string)
    requires tag !in tags
    ensures RemoveTag(tags, tag) == tags
  {
    if tags != [] {
      RemoveAbsent(tags[1..], tag);
      assert tags == [tags[0]] + tags[1..];
    }
  }

  /** Removing a tag just added gives the list back. */
  lemma RemoveAfterAdd(s: TagState, raw: string)
    requires Trim(raw) != "" && Trim(raw) !in s.tags
    ensures RemoveTag(AddTag(s, raw).tags, Trim(raw)) == s.tags
  {
    var t := Trim(raw);
    RemoveTagConcat(s.tags, [t], t);
    RemoveAbsent(s.tags, t);
    assert RemoveTag([t], t) == [];
  }

  /** Pressing Enter on a new tag and then Backspace undoes the add: the input
      was cleared, so Backspace drops the tag just appended. */
  lemma BackspaceUndoesEnter(s: TagState)
    requires Trim(s.input) != "" && Trim(s.input) !in s.tags
    ensures OnKeyDown(OnKeyDown(s, "Enter"), "Backspace") == TagState(s.tags, "")
  {
    var r := OnKeyDown(s, "Enter");
    assert r == TagState(s.tags + [Trim(s.input)], "");
    assert r.tags[..|r.tags| - 1] == s.tags;
  }

  /** Backspace on an empty input drops the last tag, whatever the list. */
  lemma BackspaceDropsLast(s: TagState)
    requires s.input == "" && s.tags != []
    ensures OnKeyDown(s, "Backspace") == TagState(s.tags[..|s.tags| - 1], "")
  {
  }

  /** Backspace on an empty input and an empty list, or with text still in
      the input, does nothing. */
  lemma BackspaceNoop(s: TagState)
    requires s.tags == [] || s.input != ""
    ensures OnKeyDown(s, "Backspace") == s
  {
  }

  /** Enter on a blank or already listed input leaves the list and the text
      untouched. */
  lemma EnterRejected(s: TagState, key: string)
    requires key == "Enter" || key == ","
    requires Trim(s.input) == "" || Trim(s.input) in s.tags
    ensures OnKeyDown(s, key) == s
  {
  }
}
