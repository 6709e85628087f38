/**
 * The Task document: the schema's defaults and required paths, the string
 * trimming applied to `description`, and the `toJSON` projection that hides
 * the revision marker and an `updatedAt` equal to `createdAt`.
 * Timestamps are integer milliseconds since the epoch.
 */
module TaskModel {
  import opened Wrappers

  type ObjectId = nat

  /** A stored task, as `toObject()` sees it. */
  datatype TaskDoc = TaskDoc(
    id: ObjectId,
    description: string,
    completed: bool,
    owner: ObjectId,
    createdAt: int,
    updatedAt: int,
    version: nat)

  /** The paths a new task is created from; each may be absent. */
  datatype TaskInput = TaskInput(description: Option<string>, completed: Option<bool>, owner: Option<ObjectId>)

  /** A value of the plain object `toObject()` returns. */
  datatype Field = Id(id: ObjectId) | Text(s: string) | Flag(b: bool) | Date(ms: int) | Revision(n: nat)

  // ---------------------------------------------------------------------
  // `trim: true`
  // ---------------------------------------------------------------------

  /** The characters `String.prototype.trim` removes (white space and line terminators). */
  predicate IsWhitespace(c: char) {
    || c == ' ' || c == '\t' || c == '\n' || c == '\r'
    || c == '\U{000B}' || c == '\U{000C}' || c == '\U{00A0}' || c == '\U{FEFF}'
    || c == '\U{1680}' || ('\U{2000}' <= c <= '\U{200A}')
    || c == '\U{2028}' || c == '\U{2029}' || c == '\U{202F}' || c == '\U{205F}' || c == '\U{3000}'
  }

  /** Drops leading white space: the result is a suffix of `s` and what was dropped is all white space. */
  function TrimStart(s: string): (r: string)
    ensures |r| <= |s| && r == s[|s| - |r|..]
    ensures forall i :: 0 <= i < |s| - |r| ==> IsWhitespace(s[i])
    ensures r == [] || !IsWhitespace(r[0])
  {
    if s != [] && IsWhitespace(s[0]) then TrimStart(s[1..]) else s
  }

  /** Drops trailing white space: the result is a prefix of `s` and what was dropped is all white space. */
  function TrimEnd(s: string): (r: string)
    ensures |r| <= |s| && r == s[..|r|]
    ensures forall i :: |r| <= i < |s| ==> IsWhitespace(s[i])
    ensures r == [] || !IsWhitespace(r[|r| - 1])
  {
    if s != [] && IsWhitespace(s[|s| - 1]) then TrimEnd(s[..|s| - 1]) else s
  }

  /** `s.trim()`. */
  function Trim(s: string): (r: string)
    ensures r == [] || (!IsWhitespace(r[0]) && !IsWhitespace(r[|r| - 1]))
  {
    TrimEnd(TrimStart(s))
  }

  predicate AllWhitespace(w: string) {
    forall i :: 0 <= i < |w| ==> IsWhitespace(w[i])
  }

  /** Trimming removes exactly the white space around a trimmed core. */
  lemma {:induction false} TrimSurrounded(lead: string, core: string, trail: string)
    requires AllWhitespace(lead) && AllWhitespace(trail)
    requires core == [] || (!IsWhitespace(core[0]) && !IsWhitespace(core[|core| - 1]))
    ensures Trim(lead + core + trail) == core
  {
    var s := lead + core + trail;
    if core == [] {
      assert s == (lead + trail) + [];
      assert AllWhitespace(lead + trail) by {
        forall i | 0 <= i < |lead + trail| ensures IsWhitespace((lead + trail)[i]) {
          if i >= |lead| { assert (lead + trail)[i] == trail[i - |lead|]; }
        }
      }
      TrimStartDrops(lead + trail, []);
    } else {
      assert s == lead + (core + trail);
      assert (core + trail)[0] == core[0];
      TrimStartDrops(lead, core + trail);
      TrimEndDrops(core, trail);
    }
  }

  lemma {:induction false} TrimStartDrops(lead: string, rest: string)
    requires AllWhitespace(lead)
    requires rest == [] || !IsWhitespace(rest[0])
    ensures TrimStart(lead + rest) == rest
  {
    if lead == [] {
      assert lead + rest == rest;
    } else {
      assert (lead + rest)[1..] == lead[1..] + rest;
      TrimStartDrops(lead[1..], rest);
    }
  }

  lemma {:induction false} TrimEndDrops(body: string, trail: string)
    requires AllWhitespace(trail)
    requires body == [] || !IsWhitespace(body[|body| - 1])
    ensures TrimEnd(body + trail) == body
  {
    if trail == [] {
      assert body + trail == body;
    } else {
      var n := |body + trail| - 1;
      assert (body + trail)[..n] == body + trail[..|trail| - 1];
      TrimEndDrops(body, trail[..|trail| - 1]);
    }
  }

  /** Trimming twice is trimming once. */
  lemma TrimIdempotent(s: string)
    ensures Trim(Trim(s)) == Trim(s)
  {
    var r := Trim(s);
    TrimSurrounded([], r, []);
    assert [] + r + [] == r;
  }

  // ---------------------------------------------------------------------
  // Creation under the schema
  // ---------------------------------------------------------------------

  /**
   * `new Task(input)` saved at time `now` with identifier `id`: the required
   * paths that fail (a missing or, after trimming, empty description; a missing
   * owner) are reported together; otherwise the task is stored with the trimmed
   * description, `completed` defaulting to false, both timestamps set to `now`
   * and revision 0.
   */
  function NewTask(input: TaskInput, id: ObjectId, now: int): (r: Result<TaskDoc, set<string>>)
    ensures r.Ok? <==> input.owner.Some? && input.description.Some? && Trim(input.description.value) != []
    ensures r.Err? ==>
      && ("description" in r.error <==> input.description.None? || Trim(input.description.value) == [])
      && ("owner" in r.error <==> input.owner.None?)
      && r.error <= {"description", "owner"}
    ensures r.Ok? ==>
      && r.value.description == Trim(input.description.value)
      && r.value.completed == (input.completed.Some? && input.completed.value)
      && r.value.owner == input.owner.value
      && r.value.id == id
      && r.value.createdAt == now && r.value.updatedAt == now
      && r.value.version == 0
  {
    var descriptionMissing := input.description.None? || Trim(input.description.value) == [];
    var failed := (if descriptionMissing then {"description"} else {})
                + (if input.owner.None? then {"owner"} else {});
    if failed != {} then Err(failed)
    else Ok(TaskDoc(id, Trim(input.description.value), input.completed.GetOr(false),
                    input.owner.value, now, now, 0))
  }

  // ---------------------------------------------------------------------
  // `toJSON`
  // ---------------------------------------------------------------------

  /** `task.toObject()`: every stored path, `_id`, the timestamps and `__v`. */
  function ToObject(doc: TaskDoc): (obj: map<string, Field>)
    ensures obj.Keys == {"_id", "description", "completed", "owner", "createdAt", "updatedAt", "__v"}
    ensures obj["description"] == Text(doc.description) && obj["completed"] == Flag(doc.completed)
    ensures obj["createdAt"] == Date(doc.createdAt) && obj["updatedAt"] == Date(doc.updatedAt)
    ensures obj["_id"] == Id(doc.id) && obj["owner"] == Id(doc.owner) && obj["__v"] == Revision(doc.version)
  {
    map[
      "_id" := Id(doc.id),
      "description" := Text(doc.description),
      "completed" := Flag(doc.completed),
      "owner" := Id(doc.owner),
      "createdAt" := Date(doc.createdAt),
      "updatedAt" := Date(doc.updatedAt),
      "__v" := Revision(doc.version)]
  }

  /**
   * The external form of a task: `__v` is never shown, `updatedAt` is shown
   * exactly when it differs from `createdAt`, and whatever is shown carries
   * the stored value.
   */
  function ToJson(doc: TaskDoc): (obj: map<string, Field>)
    ensures "__v" !in obj
    ensures "updatedAt" in obj <==> doc.updatedAt != doc.createdAt
    ensures forall k :: k in obj ==> k in ToObject(doc) && obj[k] == ToObject(doc)[k]
    ensures forall k :: k in ToObject(doc) && k != "__v" && k != "updatedAt" ==> k in obj
  {
    var obj := ToObject(doc) - {"__v"};
    if doc.createdAt == doc.updatedAt then obj - {"updatedAt"} else obj
  }

  /** The task's identifier and owner are always shown, unchanged. */
  lemma ToJsonKeepsIdentity(doc: TaskDoc)
    ensures "_id" in ToJson(doc) && ToJson(doc)["_id"] == Id(doc.id)
    ensures "owner" in ToJson(doc) && ToJson(doc)["owner"] == Id(doc.owner)
  {
    assert "_id"[1] == 'i' && "owner"[0] == 'o' && "__v"[1] == '_' && "updatedAt"[0] == 'u';
  }

  /** A task that has just been created shows no `updatedAt`. */
  lemma FreshTaskHidesUpdatedAt(input: TaskInput, id: ObjectId, now: int)
    requires NewTask(input, id, now).Ok?
    ensures "updatedAt" !in ToJson(NewTask(input, id, now).value)
    ensures "completed" in ToJson(NewTask(input, id, now).value)
    ensures ToJson(NewTask(input, id, now).value)["completed"] == Flag(input.completed.GetOr(false))
  {
    var doc := NewTask(input, id, now).value;
    assert "completed"[0] == 'c' && "__v"[0] == '_' && "updatedAt"[0] == 'u';
    assert "completed" in ToObject(doc);
  }
}
