/** What every resource of the API shares: a record is an opaque string id
    plus the resource's own fields, a collection is the array stored in the
    resource's JSON file, and a route handler answers with a body or an error. */
module Records {
  import opened Sequences

  type Id = string

  datatype Option<+T> = None | Some(value: T)

  /** One field of an update payload: `Keep` is a field that is `undefined`
      in the request body, `Set(v)` any value the body gives for it. */
  datatype Patch<+T> = Keep | Set(value: T) {
    /** `field !== undefined ? field : current` */
    function Apply(current: T): T {
      match this
      case Keep => current
      case Set(v) => v
    }
  }

  /** The result of validating a creation body. */
  datatype Checked<+F> = Accepted(fields: F) | Rejected(message: string)

  /** What a route handler answers: the record or confirmation (200/201),
      a validation failure (400) or an unknown id (404), each with its message. */
  datatype Reply<+T> = Ok(value: T) | BadRequest(message: string) | NotFound(message: string)

  /** A stored record: the id assigned at creation and the resource's fields. */
  datatype Record<+F> = Record(id: Id, fields: F)

  /** JavaScript truthiness of a string field read from a request body, where
      `None` is a field that is absent or `null`: the empty string is falsy too. */
  predicate Truthy(s: Option<string>) {
    s.Some? && s.value != ""
  }

  /** `s || ''` on a string field: only a missing value changes, since an
      empty string is already the default. */
  function OrEmpty(s: Option<string>): (r: string)
    ensures s.Some? ==> r == s.value
    ensures s.None? ==> r == ""
  {
    if Truthy(s) then s.value else ""
  }

  /** `s || null` on a string field. */
  function OrNull(s: Option<string>): (r: Option<string>)
    ensures r.Some? <==> Truthy(s)
    ensures r.Some? ==> r.value == s.value
  {
    if Truthy(s) then s else None
  }

  ghost predicate HasId<F>(s: seq<Record<F>>, id: Id) {
    exists j :: 0 <= j < |s| && s[j].id == id
  }

  ghost predicate UniqueIds<F>(s: seq<Record<F>>) {
    forall i, j :: 0 <= i < j < |s| ==> s[i].id != s[j].id
  }

  /** `findIndex(r => r.id === id)`: the position of the first record with
      that id, or `None` (JavaScript's -1) when there is none. */
  function IndexOf<F>(s: seq<Record<F>>, id: Id): (r: Option<nat>)
    ensures r.None? <==> !HasId(s, id)
    ensures r.Some? ==> r.value < |s| && s[r.value].id == id
    ensures r.Some? ==> forall j :: 0 <= j < r.value ==> s[j].id != id
    decreases |s|
  {
    if s == [] then None
    else if s[0].id == id then Some(0)
    else
      match IndexOf(s[1..], id)
      case None =>
        assert forall j :: 1 <= j < |s| ==> s[j] == s[1..][j - 1];
        None
      case Some(k) => Some(k + 1)
  }

  /** `find(r => r.id === id)`: the first record with that id. */
  function Find<F>(s: seq<Record<F>>, id: Id): (r: Option<Record<F>>)
    ensures r.None? <==> !HasId(s, id)
    ensures r.Some? ==> r.value.id == id && r.value == s[IndexOf(s, id).value]
  {
    match IndexOf(s, id)
    case None => None
    case Some(i) => Some(s[i])
  }

  /** A record pushed under an id the collection does not hold yet is what a
      later lookup of that id finds. */
  lemma {:induction false} FindAppended<F>(s: seq<Record<F>>, r: Record<F>)
    requires !HasId(s, r.id)
    ensures Find(s + [r], r.id) == Some(r)
  {
    var t := s + [r];
    assert t[|s|].id == r.id;
    assert forall j :: 0 <= j < |s| ==> t[j] == s[j];
  }

  /** `filter(r => r.id !== id)`: the collection without any record that has the id. */
  function Without<F(!new)>(s: seq<Record<F>>, id: Id): (r: seq<Record<F>>)
    ensures forall x :: x in r <==> x in s && x.id != id
  {
    Filter(s, OtherThan(id))
  }

  /** The test `r => r.id !== id` of the delete handlers. */
  function OtherThan<F>(id: Id): Record<F> -> bool {
    (x: Record<F>) => x.id != id
  }

  /** Only the ids decide where `findIndex` stops: rewriting the fields of
      records leaves every lookup where it was. */
  lemma {:induction false} IndexOfIgnoresFields<F>(s: seq<Record<F>>, t: seq<Record<F>>, id: Id)
    requires |s| == |t|
    requires forall j :: 0 <= j < |s| ==> s[j].id == t[j].id
    ensures IndexOf(s, id) == IndexOf(t, id)
    decreases |s|
  {
    if s != [] && s[0].id != id {
      IndexOfIgnoresFields(s[1..], t[1..], id);
    }
  }

  /** The delete handler's test: the filtered collection is as long as the
      original exactly when no record had the id. */
  lemma WithoutKeepsLength<F(!new)>(s: seq<Record<F>>, id: Id)
    ensures |Without(s, id)| == |s| <==> !HasId(s, id)
  {
    FilterKeepsLength(s, OtherThan(id));
  }

  /** With unique ids, deleting a present id removes exactly the record at its
      index and closes the gap, keeping the order of the rest. */
  lemma WithoutUnique<F(!new)>(s: seq<Record<F>>, i: nat)
    requires UniqueIds(s) && i < |s|
    ensures Without(s, s[i].id) == s[..i] + s[i + 1..]
  {
    var id := s[i].id;
    var p: Record<F> -> bool := OtherThan(id);
    var before, after := s[..i], s[i + 1..];
    assert s == (before + [s[i]]) + after;
    FilterAppend(before + [s[i]], after, p);
    FilterAppend(before, [s[i]], p);
    assert Filter([s[i]], p) == [] by {
      assert !p(s[i]);
    }
    assert forall k :: 0 <= k < |before| ==> p(before[k]) by {
      forall k | 0 <= k < |before| ensures p(before[k]) { assert before[k] == s[k]; }
    }
    FilterAllPass(before, p);
    assert forall k :: 0 <= k < |after| ==> p(after[k]) by {
      forall k | 0 <= k < |after| ensures p(after[k]) { assert after[k] == s[i + 1 + k]; }
    }
    FilterAllPass(after, p);
    assert Filter(s, p) == Filter(before + [s[i]], p) + Filter(after, p);
    assert Filter(before + [s[i]], p) == before;
  }

  /** Filtering cannot introduce a repeated id. */
  lemma {:induction false} WithoutKeepsUniqueIds<F(!new)>(s: seq<Record<F>>, id: Id)
    requires UniqueIds(s)
    ensures UniqueIds(Without(s, id))
  {
    FilterKeepsUniqueIds(s, OtherThan(id));
  }

  lemma {:induction false} FilterKeepsUniqueIds<F(!new)>(s: seq<Record<F>>, p: Record<F> -> bool)
    requires UniqueIds(s)
    ensures UniqueIds(Filter(s, p))
    decreases |s|
  {
    if s != [] {
      FilterKeepsUniqueIds(s[1..], p);
      var rest := Filter(s[1..], p);
      forall j | 0 <= j < |rest| ensures rest[j].id != s[0].id {
        assert rest[j] in s[1..];
      }
    }
  }
}
