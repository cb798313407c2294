/** Behaviour shared by the two admin list views: the expandable detail row and
    the rule that a blank search box disables text filtering. */
module Views {
  import opened Wrappers
  import opened Text

  /** `toggleExpand(id)`: collapse the row if it is the expanded one, otherwise expand it. */
  function ToggleExpanded(current: Option<int>, id: int): (r: Option<int>)
    ensures r == None <==> current == Some(id)
    ensures r != None ==> r == Some(id)
  {
    if current == Some(id) then None else Some(id)
  }

  /** Toggling twice with the same id restores the previous value exactly when no row, or
      that same row, was expanded before. */
  lemma ToggleExpandedTwice(current: Option<int>, id: int)
    ensures ToggleExpanded(ToggleExpanded(current, id), id) == current <==>
            current == None || current == Some(id)
  {
  }

  /** Expanding a second row and toggling it again collapses everything: the first row's
      expansion is not restored. */
  lemma ToggleExpandedForgetsOtherRow()
    ensures ToggleExpanded(ToggleExpanded(Some(1), 2), 2) == None
  {
  }

  /** `searchTerm.trim()` is truthy: the term takes part in filtering. */
  predicate HasSearchText(searchTerm: string)
  {
    Trim(searchTerm) != ""
  }

  /** A term takes part in filtering exactly when it contains a non-white-space character. */
  lemma HasSearchTextIff(searchTerm: string)
    ensures HasSearchText(searchTerm) <==> exists i :: 0 <= i < |searchTerm| && !IsWhitespace(searchTerm[i])
  {
    TrimEmptyIff(searchTerm);
  }
}
