/** The participant picker of the add-expense form on the group-details page
    (frontend/src/pages/GroupDetails.jsx, `toggleSplitMember`): clicking a
    member removes every occurrence of the member from the selection if it is
    selected, and appends the member otherwise. */
module SplitSelection {
  import opened Seqs

  function ToggleSplitMember(selected: seq<string>, memberId: string): (r: seq<string>)
    ensures memberId in r <==> memberId !in selected
    ensures forall m :: m != memberId ==> (m in r <==> m in selected)
    ensures memberId !in selected ==> r == selected + [memberId]
    ensures memberId in selected ==> r == Filter(selected, Except(memberId))
  {
    if memberId in selected then RemoveAll(selected, memberId) else selected + [memberId]
  }

  /** A selection built by toggling never holds a member twice. */
  lemma ToggleKeepsNoDups(selected: seq<string>, memberId: string)
    requires NoDups(selected)
    ensures NoDups(ToggleSplitMember(selected, memberId))
  {
    if memberId in selected {
      RemoveAllKeepsNoDups(selected, memberId);
    } else {
      var r := selected + [memberId];
      forall i, j | 0 <= i < j < |r| ensures r[i] != r[j] {
        if j == |selected| {
          assert r[i] in selected;
        }
      }
    }
  }

  /** Toggling a member twice selects the same members as before. */
  lemma ToggleTwiceSameMembers(selected: seq<string>, memberId: string, m: string)
    ensures m in ToggleSplitMember(ToggleSplitMember(selected, memberId), memberId) <==> m in selected
  {
  }

  /** Toggling a member in and out again restores the selection exactly. */
  lemma ToggleOnThenOff(selected: seq<string>, memberId: string)
    requires memberId !in selected
    ensures ToggleSplitMember(ToggleSplitMember(selected, memberId), memberId) == selected
  {
    var once := selected + [memberId];
    RemoveAppended(selected, memberId);
  }

  lemma RemoveAppended(s: seq<string>, x: string)
    requires x !in s
    ensures RemoveAll(s + [x], x) == s
  {
    RemoveAllAppend(s, [x], x);
    assert RemoveAll([x], x) == [];
  }
}
