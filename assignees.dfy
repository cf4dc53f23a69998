/** The choices of the to-do form's assignee list (`populateAssigneeSelect`):
    every member of every group, each once, in order of first appearance. */
module Assignees {
  import opened Sequences
  import opened Records
  import opened Groups

  /** The member lists of all groups, one after the other. */
  function AllMembers(groups: seq<Record<Group>>): (r: seq<string>)
    ensures forall m :: m in r <==> exists g :: g in groups && m in g.fields.members
    decreases |groups|
  {
    if groups == [] then []
    else
      var rest := groups[..|groups| - 1];
      var last := groups[|groups| - 1];
      assert groups == rest + [last];
      AllMembers(rest) + last.fields.members
  }

  /** Taking one more group appends its members. */
  lemma AllMembersStep(groups: seq<Record<Group>>, i: nat)
    requires i < |groups|
    ensures AllMembers(groups[..i + 1]) == AllMembers(groups[..i]) + groups[i].fields.members
  {
    assert groups[..i + 1][..i] == groups[..i];
  }

  /** The inner `forEach`: adds the members of one group, one by one, to the
      set built so far from the members in `seen`. */
  method AddEach(options: seq<string>, ghost seen: seq<string>, members: seq<string>) returns (added: seq<string>)
    requires options == Distinct(seen)
    ensures added == Distinct(seen + members)
  {
    added := options;
    var j := 0;
    assert seen + members[..j] == seen;
    while j < |members|
      invariant 0 <= j <= |members|
      invariant added == Distinct(seen + members[..j])
    {
      var member := members[j];
      assert seen + members[..j + 1] == (seen + members[..j]) + [member];
      DistinctSnoc(seen + members[..j], member);
      if member !in added {
        added := added + [member];
      }
      j := j + 1;
    }
    assert members[..j] == members;
  }

  /** The outer `forEach` over the groups, each adding its members to a `Set`
      that is read back with `Array.from`. */
  method AssigneeOptions(groups: seq<Record<Group>>) returns (options: seq<string>)
    ensures options == Distinct(AllMembers(groups))
    ensures NoDuplicates(options) && FirstAppearanceOrder(AllMembers(groups), options)
    ensures forall m :: m in options <==> exists g :: g in groups && m in g.fields.members
  {
    options := [];
    var i := 0;
    while i < |groups|
      invariant 0 <= i <= |groups|
      invariant options == Distinct(AllMembers(groups[..i]))
    {
      options := AddEach(options, AllMembers(groups[..i]), groups[i].fields.members);
      AllMembersStep(groups, i);
      i := i + 1;
    }
    assert groups[..i] == groups;
    DistinctOrder(AllMembers(groups));
  }
}
