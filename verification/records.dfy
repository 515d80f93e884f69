/**
 * The records of `experts.json` and the pure decisions the expert tools take
 * over them: which fields are missing, which records a name or id selects,
 * and how an update rewrites one record.
 *
 * A key absent from a stored record is represented by "": every lookup
 * compares against a non-empty string, so an absent key and "" never match.
 */
module Records {
  import opened Wrappers
  import opened Config

  /** One expert as stored: `type` is spelled `kind` here, since `type` is a keyword. */
  datatype Expert = Expert(
    id: string,
    kind: string,
    state: string,
    name: string,
    prompt: string,
    triggerApps: seq<string>)

  /** The record `create_expert` builds: fixed type and state, no trigger apps. */
  function NewExpert(id: string, name: string, prompt: string): (r: Expert)
    ensures r.id == id && r.name == name && r.prompt == prompt
    ensures r.kind == "user" && r.state == "enabled" && r.triggerApps == []
  {
    Expert(id, "user", "enabled", name, prompt, [])
  }

  /**
   * The labels of the required inputs that are absent or empty, in the order
   * the refusal message lists them.
   */
  function MissingInputs(name: Option<string>, prompt: Option<string>): (r: seq<string>)
    ensures ("nome" in r) <==> !Truthy(name)
    ensures ("prompt" in r) <==> !Truthy(prompt)
    ensures r == [] || r == ["nome"] || r == ["prompt"] || r == ["nome", "prompt"]
  {
    (if Truthy(name) then [] else ["nome"]) + (if Truthy(prompt) then [] else ["prompt"])
  }

  /** The field a lookup compares: the record's id or its name. */
  datatype Key = ById | ByName

  function Field(e: Expert, k: Key): string {
    match k
    case ById => e.id
    case ByName => e.name
  }

  /**
   * The indices of the records whose field `k` equals `v`, in ascending order
   * (the comprehensions over `enumerate(current)`).
   */
  function Matches(doc: seq<Expert>, k: Key, v: string): (r: seq<nat>)
    ensures forall j :: 0 <= j < |r| ==> r[j] < |doc| && Field(doc[r[j]], k) == v
    ensures forall i :: 0 <= i < |doc| && Field(doc[i], k) == v ==> i in r
    ensures forall j, j' :: 0 <= j < j' < |r| ==> r[j] < r[j']
    decreases |doc|
  {
    if doc == [] then []
    else
      var prefix := Matches(doc[..|doc| - 1], k, v);
      if Field(doc[|doc| - 1], k) == v then prefix + [|doc| - 1] else prefix
  }

  /** Whether some stored record already carries `name`; creation only warns about it. */
  function HasDuplicateName(doc: seq<Expert>, name: string): (r: bool)
    ensures r <==> exists i :: 0 <= i < |doc| && doc[i].name == name
  {
    var m := Matches(doc, ByName, name);
    if m == [] then false else assert doc[m[0]].name == name; true
  }

  /**
   * Whether an update call aimed at (`id`, `name`) selects `e`: a non-empty id
   * is the only criterion when given; otherwise the name is.
   */
  predicate Selects(id: Option<string>, name: Option<string>, e: Expert): (b: bool)
    ensures Truthy(id) ==> (b <==> e.id == id.value)
    ensures !Truthy(id) ==> (b <==> Truthy(name) && e.name == name.value)
  {
    if Truthy(id) then e.id == id.value else Truthy(name) && e.name == name.value
  }

  /** How many records an update call selects. */
  datatype Resolution = Unique(index: nat) | NoMatch | Several(indices: seq<nat>)

  /** The target of an update: exactly one index, none, or the ambiguous set. */
  function Resolve(doc: seq<Expert>, id: Option<string>, name: Option<string>): (r: Resolution)
    requires Truthy(id) || Truthy(name)
    ensures r.NoMatch? <==> forall i :: 0 <= i < |doc| ==> !Selects(id, name, doc[i])
    ensures r.Unique? ==> r.index < |doc| && Selects(id, name, doc[r.index])
    ensures r.Unique? ==> forall i :: 0 <= i < |doc| && Selects(id, name, doc[i]) ==> i == r.index
    ensures r.Several? ==> 2 <= |r.indices|
    ensures r.Several? ==> forall j :: 0 <= j < |r.indices| ==>
      r.indices[j] < |doc| && Selects(id, name, doc[r.indices[j]])
    ensures r.Several? ==> forall i :: 0 <= i < |doc| && Selects(id, name, doc[i]) ==> i in r.indices
    ensures r.Several? ==> forall j, j' :: 0 <= j < j' < |r.indices| ==> r.indices[j] < r.indices[j']
  {
    var k := if Truthy(id) then ById else ByName;
    var v := if Truthy(id) then id.value else name.value;
    assert forall i :: 0 <= i < |doc| ==> (Selects(id, name, doc[i]) <==> Field(doc[i], k) == v);
    var m := Matches(doc, k, v);
    if m == [] then NoMatch
    else
      assert Selects(id, name, doc[m[0]]);
      if |m| == 1 then Unique(m[0]) else Several(m)
  }

  /** The optional new values an update call supplies. */
  datatype Changes = Changes(newName: Option<string>, newPrompt: Option<string>, newState: Option<string>)

  /** No change requested at all (an empty string is still a change). */
  predicate NoChange(c: Changes): (b: bool)
    ensures b <==> c == Changes(None, None, None)
  {
    c.newName.None? && c.newPrompt.None? && c.newState.None?
  }

  /** The two states an expert may be put in. */
  predicate ValidState(s: string): (b: bool)
    ensures b <==> s in {"enabled", "disabled"}
  {
    s == "enabled" || s == "disabled"
  }

  /** A requested state outside the two allowed ones. */
  predicate BadState(c: Changes): (b: bool)
    ensures b <==> c.newState.Some? && c.newState.value !in {"enabled", "disabled"}
  {
    c.newState.Some? && !ValidState(c.newState.value)
  }

  /**
   * The updated record: each supplied field takes the supplied value, every
   * other field keeps the old one.
   */
  function Apply(e: Expert, c: Changes): (r: Expert)
    ensures r.id == e.id && r.kind == e.kind && r.triggerApps == e.triggerApps
    ensures c.newName.Some? ==> r.name == c.newName.value
    ensures c.newName.None? ==> r.name == e.name
    ensures c.newPrompt.Some? ==> r.prompt == c.newPrompt.value
    ensures c.newPrompt.None? ==> r.prompt == e.prompt
    ensures c.newState.Some? ==> r.state == c.newState.value
    ensures c.newState.None? ==> r.state == e.state
  {
    var e1 := if c.newName.Some? then e.(name := c.newName.value) else e;
    var e2 := if c.newPrompt.Some? then e1.(prompt := c.newPrompt.value) else e1;
    if c.newState.Some? then e2.(state := c.newState.value) else e2
  }

  /** A value no record carries has no matches. */
  lemma {:induction false} NoMatchesWhenAbsent(doc: seq<Expert>, k: Key, v: string)
    requires forall i :: 0 <= i < |doc| ==> Field(doc[i], k) != v
    ensures Matches(doc, k, v) == []
    decreases |doc|
  {
    if doc != [] {
      NoMatchesWhenAbsent(doc[..|doc| - 1], k, v);
    }
  }

  /** Appending a record extends the match list by its index exactly when it matches. */
  lemma MatchesAfterAppend(doc: seq<Expert>, e: Expert, k: Key, v: string)
    ensures Matches(doc + [e], k, v) == Matches(doc, k, v) + (if Field(e, k) == v then [|doc|] else [])
  {
  }

  /** Replacing a record by one with the same key field leaves every match list as it was. */
  lemma {:induction false} MatchesAfterReplace(doc: seq<Expert>, i: nat, e: Expert, k: Key, v: string)
    requires i < |doc|
    requires Field(e, k) == Field(doc[i], k)
    ensures Matches(doc[i := e], k, v) == Matches(doc, k, v)
    decreases |doc|
  {
    var n := |doc| - 1;
    if i < n {
      MatchesAfterReplace(doc[..n], i, e, k, v);
      assert doc[i := e][..n] == doc[..n][i := e];
    } else {
      assert doc[i := e][..n] == doc[..n];
    }
  }

  /**
   * A record appended with a new, non-empty id is afterwards the unique
   * target of an update by that id, whatever name the caller also passes.
   */
  lemma CreatedIsUniqueById(doc: seq<Expert>, newId: string, name: string, prompt: string, anyName: Option<string>)
    requires newId != ""
    requires forall i :: 0 <= i < |doc| ==> doc[i].id != newId
    ensures Resolve(doc + [NewExpert(newId, name, prompt)], Some(newId), anyName) == Unique(|doc|)
  {
    MatchesAfterAppend(doc, NewExpert(newId, name, prompt), ById, newId);
    NoMatchesWhenAbsent(doc, ById, newId);
  }

  /**
   * An update keeps ids, so after replacing the uniquely selected record the
   * same id still selects it and nothing else.
   */
  lemma UpdatedStaysUniqueById(doc: seq<Expert>, id: string, c: Changes, anyName: Option<string>)
    requires id != ""
    requires Resolve(doc, Some(id), anyName).Unique?
    ensures var i := Resolve(doc, Some(id), anyName).index;
      Resolve(doc[i := Apply(doc[i], c)], Some(id), anyName) == Unique(i)
  {
    var i := Resolve(doc, Some(id), anyName).index;
    MatchesAfterReplace(doc, i, Apply(doc[i], c), ById, id);
  }

  /** A created name is a duplicate for any later creation under the same name. */
  lemma CreatedNameIsDuplicate(doc: seq<Expert>, id: string, name: string, prompt: string)
    ensures HasDuplicateName(doc + [NewExpert(id, name, prompt)], name)
  {
  }
}
