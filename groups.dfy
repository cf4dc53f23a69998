/** Study groups: the `/api/groups` routes. */
module Groups {
  import opened Records
  import opened Repository

  datatype Group = Group(name: string, description: string, members: seq<string>)

  /** The fields `POST /api/groups` takes from its body; `None` is a field that
      is absent or `null`. */
  datatype GroupBody = GroupBody(name: Option<string>, description: Option<string>, members: Option<seq<string>>)

  /** The fields `PUT /api/groups/:id` takes from its body. */
  datatype GroupPatch = GroupPatch(name: Patch<string>, description: Patch<string>, members: Patch<seq<string>>)

  const NameRequired := "Name is required"

  /** The body of a request that changes nothing. */
  const NoChange := GroupPatch(Keep, Keep, Keep)

  /** Validation and defaults of the create handler: a falsy name is rejected;
      `description || ''` and `members || []` replace only a missing value
      (an empty string stays empty, and an array is never falsy). */
  function NewGroup(body: GroupBody): (c: Checked<Group>)
    ensures c.Rejected? <==> !Truthy(body.name)
    ensures c.Rejected? ==> c.message == NameRequired
    ensures c.Accepted? ==> c.fields.name == body.name.value && c.fields.name != ""
    ensures c.Accepted? && body.description.Some? ==> c.fields.description == body.description.value
    ensures c.Accepted? && body.description.None? ==> c.fields.description == ""
    ensures c.Accepted? && body.members.Some? ==> c.fields.members == body.members.value
    ensures c.Accepted? && body.members.None? ==> c.fields.members == []
  {
    if !Truthy(body.name) then Rejected(NameRequired)
    else
      Accepted(Group(
        body.name.value,
        OrEmpty(body.description),
        if body.members.Some? then body.members.value else []))
  }

  /** The merge of the update handler: a field the body leaves `undefined`
      keeps its stored value, any other value replaces it. */
  function Merge(g: Group, p: GroupPatch): (r: Group)
    ensures p.name.Keep? ==> r.name == g.name
    ensures p.name.Set? ==> r.name == p.name.value
    ensures p.description.Keep? ==> r.description == g.description
    ensures p.description.Set? ==> r.description == p.description.value
    ensures p.members.Keep? ==> r.members == g.members
    ensures p.members.Set? ==> r.members == p.members.value
  {
    Group(p.name.Apply(g.name), p.description.Apply(g.description), p.members.Apply(g.members))
  }

  /** An empty body leaves the group as it was, and sending the same body
      twice has the effect of sending it once. */
  lemma MergeLaws(g: Group, p: GroupPatch)
    ensures Merge(g, NoChange) == g
    ensures Merge(Merge(g, p), p) == Merge(g, p)
  {
  }

  /** The update handler does not validate: it stores an empty name, which
      the create handler would have rejected. */
  lemma UpdateMayClearName(g: Group)
    ensures Merge(g, NoChange.(name := Set(""))).name == ""
    ensures NewGroup(GroupBody(Some(""), Some(g.description), Some(g.members))).Rejected?
  {
  }

  /** `POST /api/groups` */
  method Create(groups: Collection<Group>, body: GroupBody, newId: Id) returns (r: Reply<Record<Group>>)
    modifies groups
    ensures !Truthy(body.name) ==> r == BadRequest(NameRequired) && groups.records == old(groups.records)
    ensures Truthy(body.name) ==> r == Ok(Record(newId, NewGroup(body).fields))
    ensures Truthy(body.name) ==> groups.records == old(groups.records) + [r.value]
  {
    r := groups.Create(newId, NewGroup(body));
  }

  /** `PUT /api/groups/:id` */
  method Update(groups: Collection<Group>, id: Id, p: GroupPatch) returns (r: Reply<Record<Group>>)
    requires groups.noun == "Group"
    modifies groups
    ensures !HasId(old(groups.records), id) ==> r == NotFound("Group not found") && groups.records == old(groups.records)
    ensures HasId(old(groups.records), id) ==>
      var i := IndexOf(old(groups.records), id).value;
      && groups.records == old(groups.records)[i := Record(id, Merge(old(groups.records)[i].fields, p))]
      && r == Ok(groups.records[i])
  {
    r := groups.Update(id, g => Merge(g, p));
  }
}
