/**
 * The schema generator: from the Batch service's Swagger document, the JSON
 * schema of a job or pool body. It follows `$ref` pointers, folds extension
 * definitions into the Swagger definitions, copies each property's `title`
 * into its `description`, and collects every definition reachable from the
 * body schema through a property's `$ref` or its `items.$ref`.
 *
 * Downloading the Swagger document, reading the extension file and writing
 * the schema file are not modelled: the documents are parameters. JavaScript
 * objects are mutated in place by the source; here every document is a value
 * and each operation returns the new value (see README, "Left out").
 * Every exception (a `TypeError` from reading a member of `undefined` or
 * `null`, or from assigning a member of a primitive in strict mode) is
 * `Threw`: the source lets all of them propagate.
 */
module Swaggatron {
  import opened Text
  import opened Json
  import Batch

  /** Evaluation either finished with a value or threw. */
  datatype Outcome<+T> = Threw | Done(value: T)

  // ---------------------------------------------------------------------------
  // chaseRef

  /** `r = r[p]` for each segment in turn: reading a member of `undefined` or
      `null` throws, and only objects have members. */
  function Walk(r: Option<Json>, path: seq<string>): Outcome<Option<Json>>
    decreases |path|
  {
    if path == [] then Done(r)
    else if r.None? || r.value.JNull? then Threw
    else Walk(Get(r.value, path[0]), path[1..])
  }

  /** The segments of a reference after the first (`split('/')` then `shift()`). */
  function RefPath(ref: string): seq<string>
  {
    Split(ref, '/')[1..]
  }

  /** `refPath.reverse()[0]` used as a member name: the last segment, or the
      text "undefined" (the key JavaScript makes of `undefined`) when there is
      no segment. */
  function RefName(path: seq<string>): string
  {
    if path == [] then "undefined" else path[|path| - 1]
  }

  /** `chaseRef(swagger, ref)`: the name of the definition and the value found
      by walking the segments from the document root. */
  function Chased(swagger: Json, ref: string): Outcome<(string, Option<Json>)>
  {
    var path := RefPath(ref);
    match Walk(Some(swagger), path)
    case Threw => Threw
    case Done(r) => Done((RefName(path), r))
  }

  method ChaseRef(swagger: Json, ref: string) returns (r: Outcome<(string, Option<Json>)>)
    ensures r == Chased(swagger, ref)
  {
    var refPath := Split(ref, '/');
    refPath := refPath[1..];
    var node: Option<Json> := Some(swagger);
    for i := 0 to |refPath|
      invariant Walk(node, refPath[i..]) == Walk(Some(swagger), refPath)
    {
      assert refPath[i..][0] == refPath[i] && refPath[i..][1..] == refPath[i + 1..];
      if node.None? || node.value.JNull? {
        return Threw;
      }
      node := Get(node.value, refPath[i]);
    }
    var reversed := Reverse(refPath);
    var name := if |reversed| == 0 then "undefined" else reversed[0];
    return Done((name, node));
  }

  /** The reference that names the path `segments` from the document root. */
  function RefTo(segments: seq<string>): string
  {
    Join(["#"] + segments, '/')
  }

  /** Chasing the reference to a path walks exactly that path and names its
      last segment. */
  lemma ChaseRefTo(swagger: Json, segments: seq<string>)
    requires forall i :: 0 <= i < |segments| ==> '/' !in segments[i]
    ensures RefPath(RefTo(segments)) == segments
    ensures Chased(swagger, RefTo(segments)) ==
      match Walk(Some(swagger), segments)
      case Threw => Threw
      case Done(r) => Done((RefName(segments), r))
  {
    var parts := ["#"] + segments;
    forall i | 0 <= i < |parts| ensures '/' !in parts[i] {
      if i > 0 {
        assert parts[i] == segments[i - 1];
      }
    }
    SplitJoin(parts, '/');
    assert parts[1..] == segments;
  }

  /** A walk that ends on a value ends on a member of some object of the document. */
  lemma {:induction false} WalkEndsOnKey(r: Json, path: seq<string>, j: Json)
    requires path != [] && Walk(Some(r), path) == Done(Some(j))
    ensures path[|path| - 1] in KeyNames(r)
    decreases |path|
  {
    var next := Get(r, path[0]);
    if |path| == 1 {
      assert Walk(next, []) == Done(next);
      GetKeyNames(r, path[0]);
    } else {
      assert next.Some?;
      GetKeyNames(r, path[0]);
      assert path[1..][|path[1..]| - 1] == path[|path| - 1];
      WalkEndsOnKey(next.value, path[1..], j);
    }
  }

  /** Every name a reference can put into the definitions: a key of the document,
      or "undefined". */
  function Universe(swagger: Json): set<string>
  {
    KeyNames(swagger) + {"undefined"}
  }

  lemma ChasedNameKnown(swagger: Json, ref: string, name: string, j: Json)
    requires Chased(swagger, ref) == Done((name, Some(j)))
    ensures name in Universe(swagger)
  {
    var path := RefPath(ref);
    if path != [] {
      WalkEndsOnKey(swagger, path, j);
    }
  }

  // ---------------------------------------------------------------------------
  // mungeSchema

  /** `p.description = p.title` on an object's members: `description` takes the
      value of `title`, and disappears when there is no title (a member holding
      `undefined` is not part of a JSON document). */
  function Described(m: Members): (r: Members)
    ensures Lookup(r, "description") == Lookup(m, "title")
    ensures forall k :: k != "description" ==> Lookup(r, k) == Lookup(m, k)
  {
    match Lookup(m, "title")
    case Some(t) => Put(m, "description", t)
    case None => Remove(m, "description")
  }

  /** The statement of `mungeSchema`'s loop on one property schema. Reading a
      member of `null` throws, and so does assigning a member of a string, number
      or boolean; a member added to an array is not part of its JSON. */
  function MungeEntry(v: Json): Outcome<Json>
  {
    match v
    case JNull => Threw
    case JObj(m) => Done(JObj(Described(m)))
    case JArr(_) => Done(v)
    case _ => Threw
  }

  /** The loop of `mungeSchema` over every property, in order. */
  function MungeMembers(m: Members): Outcome<Members>
    decreases |m|
  {
    if m == [] then Done([])
    else
      match MungeMembers(m[..|m| - 1])
      case Threw => Threw
      case Done(front) =>
        match MungeEntry(m[|m| - 1].1)
        case Threw => Threw
        case Done(e) => Done(front + [(m[|m| - 1].0, e)])
  }

  /** `mungeSchema(schema)` as a function: the schema with every property's
      `description` set to its `title`. Reading `properties` of `undefined` or
      `null` throws; a schema whose `properties` is not an object is unchanged. */
  function Munged(schema: Option<Json>): Outcome<Json>
  {
    if schema.None? || schema.value.JNull? then Threw
    else
      var props := Get(schema.value, "properties");
      if !TruthyOpt(props) || !props.value.JObj? then Done(schema.value)
      else
        match MungeMembers(props.value.members)
        case Threw => Threw
        case Done(ms) => Done(JObj(Put(schema.value.members, "properties", JObj(ms))))
  }

  lemma {:induction false} MungeMembersPrefix(m: Members, i: nat)
    requires i <= |m| && MungeMembers(m[..i]) == Threw
    ensures MungeMembers(m) == Threw
    decreases |m| - i
  {
    if i < |m| {
      assert m[..i + 1][..i] == m[..i];
      MungeMembersPrefix(m, i + 1);
    } else {
      assert m[..i] == m;
    }
  }

  method MungeSchema(schema: Option<Json>) returns (r: Outcome<Json>)
    ensures r == Munged(schema)
  {
    if schema.None? || schema.value.JNull? {
      return Threw;
    }
    var props := Get(schema.value, "properties");
    if !TruthyOpt(props) || !props.value.JObj? {
      return Done(schema.value);
    }
    var entries := props.value.members;
    var out: Members := [];
    for i := 0 to |entries|
      invariant MungeMembers(entries[..i]) == Done(out)
    {
      assert entries[..i + 1][..i] == entries[..i];
      var e := MungeEntry(entries[i].1);
      if e.Threw? {
        MungeMembersPrefix(entries, i + 1);
        return Threw;
      }
      out := out + [(entries[i].0, e.value)];
    }
    assert entries[..|entries|] == entries;
    return Done(JObj(Put(schema.value.members, "properties", JObj(out))));
  }

  /** The munged properties are the original ones, in order, each with its
      description set; munging throws exactly when some property schema is
      `null`, a string, a number or a boolean. */
  lemma {:induction false} MungeMembersShape(m: Members)
    ensures MungeMembers(m).Threw? <==> exists i :: 0 <= i < |m| && MungeEntry(m[i].1).Threw?
    ensures MungeMembers(m).Done? ==>
      |MungeMembers(m).value| == |m| &&
      forall i :: 0 <= i < |m| ==>
        MungeMembers(m).value[i].0 == m[i].0 && MungeEntry(m[i].1) == Done(MungeMembers(m).value[i].1)
    decreases |m|
  {
    if m != [] {
      var front := m[..|m| - 1];
      MungeMembersShape(front);
      if MungeMembers(front).Threw? {
        var i :| 0 <= i < |front| && MungeEntry(front[i].1).Threw?;
        assert m[i] == front[i];
      } else if MungeEntry(m[|m| - 1].1).Done? {
        forall i | 0 <= i < |m| ensures MungeEntry(m[i].1).Done? {
          if i < |m| - 1 {
            assert m[i] == front[i];
          }
        }
      }
    }
  }

  /** Munging a property schema twice is munging it once. */
  lemma MungeEntryIdempotent(v: Json)
    requires MungeEntry(v).Done?
    ensures MungeEntry(MungeEntry(v).value) == MungeEntry(v)
  {
    if v.JObj? {
      var m := v.members;
      match Lookup(m, "title")
      case Some(t) => PutPut(m, "description", t);
      case None => RemoveRemove(m, "description");
    }
  }

  lemma {:induction false} MungeMembersIdempotent(m: Members)
    requires MungeMembers(m).Done?
    ensures MungeMembers(MungeMembers(m).value) == MungeMembers(m)
    decreases |m|
  {
    if m != [] {
      var front := m[..|m| - 1];
      var out := MungeMembers(m).value;
      var e := MungeEntry(m[|m| - 1].1).value;
      MungeMembersIdempotent(front);
      MungeEntryIdempotent(m[|m| - 1].1);
      assert out == MungeMembers(front).value + [(m[|m| - 1].0, e)];
      assert out[..|out| - 1] == MungeMembers(front).value;
    }
  }

  /** After `mungeSchema`, every object-valued property has its title as its
      description and otherwise the members it had; the schema's other members
      are unchanged. */
  lemma MungedDescribes(schema: Json)
    requires Munged(Some(schema)).Done? && Get(schema, "properties").Some?
    requires Get(schema, "properties").value.JObj?
    ensures var r := Munged(Some(schema)).value;
      var before := Get(schema, "properties").value.members;
      r.JObj? && Keys(r.members) == Keys(schema.members) &&
      (forall k :: k != "properties" ==> Lookup(r.members, k) == Lookup(schema.members, k)) &&
      Get(r, "properties").Some? && Get(r, "properties").value.JObj? &&
      var after := Get(r, "properties").value.members;
      |after| == |before| &&
      forall i :: 0 <= i < |before| ==>
        after[i].0 == before[i].0 &&
        (before[i].1.JObj? ==>
          after[i].1.JObj? &&
          Lookup(after[i].1.members, "description") == Lookup(before[i].1.members, "title") &&
          forall k :: k != "description" ==> Lookup(after[i].1.members, k) == Lookup(before[i].1.members, k))
  {
    MungeMembersShape(Get(schema, "properties").value.members);
  }

  /** The fix-up is idempotent. */
  lemma MungedIdempotent(schema: Option<Json>)
    requires Munged(schema).Done?
    ensures Munged(Some(Munged(schema).value)) == Munged(schema)
  {
    var s := schema.value;
    var props := Get(s, "properties");
    if TruthyOpt(props) && props.value.JObj? {
      var ms := MungeMembers(props.value.members).value;
      MungeMembersIdempotent(props.value.members);
      PutPut(s.members, "properties", JObj(ms));
    }
  }

  /** A schema without properties is left as it is. */
  lemma MungedWithoutProperties(schema: Json)
    requires !schema.JNull? && !TruthyOpt(Get(schema, "properties"))
    ensures Munged(Some(schema)) == Done(schema)
  {
  }

  // ---------------------------------------------------------------------------
  // mergeExtensions

  /** The members `Object.assign` copies out of a source: an object's own
      members; `undefined`, `null` and every other value contribute none. */
  function SourceMembers(src: Option<Json>): Members
  {
    if src.Some? then Entries(src.value) else []
  }

  /** Whether the round of `mergeExtensions` for an extension definition `ext`
      throws, given what the base holds under its name: a truthy base definition
      needs an object `properties` (`Object.assign` on `undefined` or `null`
      throws) and a non-null extension. */
  predicate MergeThrows(existing: Option<Json>, ext: Json)
  {
    TruthyOpt(existing) &&
    (ext.JNull? || !(Get(existing.value, "properties").Some? && Get(existing.value, "properties").value.JObj?))
  }

  /** What the base holds under an extension's name after its round: the base
      definition with the extension's properties assigned over its own, or the
      extension definition itself when the base has nothing truthy there. */
  function MergedDefinition(existing: Option<Json>, ext: Json): Json
    requires !MergeThrows(existing, ext)
  {
    if TruthyOpt(existing) then
      var props := Get(existing.value, "properties").value.members;
      JObj(Put(existing.value.members, "properties",
        JObj(Assign(props, SourceMembers(Get(ext, "properties"))))))
    else ext
  }

  /** The loop of `mergeExtensions` over the extension definitions, in order. */
  function Merge(exts: Members, base: Members): Outcome<Members>
    decreases |exts|
  {
    if exts == [] then Done(base)
    else
      var existing := Lookup(base, exts[0].0);
      if MergeThrows(existing, exts[0].1) then Threw
      else Merge(exts[1..], Put(base, exts[0].0, MergedDefinition(existing, exts[0].1)))
  }

  /** `mergeExtensions(extensions, base)` on the base's members. */
  method MergeExtensions(extensions: Json, base: Members) returns (r: Outcome<Members>)
    ensures r == Merge(Entries(extensions), base)
  {
    var exts := Entries(extensions);
    var merged := base;
    for i := 0 to |exts|
      invariant Merge(exts[i..], merged) == Merge(exts, base)
    {
      assert exts[i..][0] == exts[i] && exts[i..][1..] == exts[i + 1..];
      var (p, ext) := exts[i];
      var existing := Lookup(merged, p);
      if TruthyOpt(existing) {
        if ext.JNull? {
          return Threw;
        }
        var target := Get(existing.value, "properties");
        if !(target.Some? && target.value.JObj?) {
          return Threw;
        }
        var combined := Assign(target.value.members, SourceMembers(Get(ext, "properties")));
        merged := Put(merged, p, JObj(Put(existing.value.members, "properties", JObj(combined))));
      } else {
        merged := Put(merged, p, ext);
      }
    }
    return Done(merged);
  }

  /** Name by name: with no repeated names among the extensions, the merge throws
      exactly when one round does, and otherwise leaves every other name as it was
      and gives each extension's name its merged definition. */
  lemma MergeByName(exts: Members, base: Members)
    requires DistinctKeys(exts)
    ensures Merge(exts, base).Threw? <==>
      exists i :: 0 <= i < |exts| && MergeThrows(Lookup(base, exts[i].0), exts[i].1)
    ensures Merge(exts, base).Done? ==>
      (forall k :: k !in Keys(exts) ==> Lookup(Merge(exts, base).value, k) == Lookup(base, k)) &&
      forall i :: 0 <= i < |exts| ==>
        Lookup(Merge(exts, base).value, exts[i].0) ==
          Some(MergedDefinition(Lookup(base, exts[i].0), exts[i].1))
  {
    if exists i :: 0 <= i < |exts| && MergeThrows(Lookup(base, exts[i].0), exts[i].1) {
      var i :| 0 <= i < |exts| && MergeThrows(Lookup(base, exts[i].0), exts[i].1);
      MergeThrowsAt(exts, base, i);
    } else {
      MergeDoneByName(exts, base);
    }
  }

  /** A round leaves the definitions of the later extensions' names as they were. */
  lemma MergeRoundKeepsRest(exts: Members, base: Members)
    requires DistinctKeys(exts) && exts != []
    requires !MergeThrows(Lookup(base, exts[0].0), exts[0].1)
    ensures var base' := Put(base, exts[0].0, MergedDefinition(Lookup(base, exts[0].0), exts[0].1));
      DistinctKeys(exts[1..]) && exts[0].0 !in Keys(exts[1..]) &&
      forall i :: 0 <= i < |exts[1..]| ==> Lookup(base', exts[1..][i].0) == Lookup(base, exts[1..][i].0)
  {
    var p := exts[0].0;
    var rest := exts[1..];
    DistinctTail(exts);
    forall i | 0 <= i < |rest| ensures rest[i].0 != p {
      assert rest[i] == exts[i + 1];
    }
  }

  /** A round that throws ends the merge, whatever the earlier rounds did. */
  lemma {:induction false} MergeThrowsAt(exts: Members, base: Members, i: nat)
    requires DistinctKeys(exts) && i < |exts|
    requires MergeThrows(Lookup(base, exts[i].0), exts[i].1)
    ensures Merge(exts, base).Threw?
    decreases i
  {
    if i > 0 && !MergeThrows(Lookup(base, exts[0].0), exts[0].1) {
      var rest := exts[1..];
      var base' := Put(base, exts[0].0, MergedDefinition(Lookup(base, exts[0].0), exts[0].1));
      MergeRoundKeepsRest(exts, base);
      assert rest[i - 1] == exts[i];
      MergeThrowsAt(rest, base', i - 1);
    }
  }

  lemma {:induction false} MergeDoneByName(exts: Members, base: Members)
    requires DistinctKeys(exts)
    requires forall i :: 0 <= i < |exts| ==> !MergeThrows(Lookup(base, exts[i].0), exts[i].1)
    ensures Merge(exts, base).Done?
    ensures forall k :: k !in Keys(exts) ==> Lookup(Merge(exts, base).value, k) == Lookup(base, k)
    ensures forall i :: 0 <= i < |exts| ==>
        Lookup(Merge(exts, base).value, exts[i].0) ==
          Some(MergedDefinition(Lookup(base, exts[i].0), exts[i].1))
    decreases |exts|
  {
    if exts != [] {
      var (p, ext) := exts[0];
      var existing := Lookup(base, p);
      var rest := exts[1..];
      var base' := Put(base, p, MergedDefinition(existing, ext));
      MergeRoundKeepsRest(exts, base);
      assert Merge(exts, base) == Merge(rest, base');
      forall i | 0 <= i < |rest| ensures !MergeThrows(Lookup(base', rest[i].0), rest[i].1) {
        assert rest[i] == exts[i + 1];
      }
      MergeDoneByName(rest, base');
      var r := Merge(rest, base').value;
      assert Keys(exts) == {p} + Keys(rest);
      forall i | 0 <= i < |exts|
        ensures Lookup(r, exts[i].0) == Some(MergedDefinition(Lookup(base, exts[i].0), exts[i].1))
      {
        if i > 0 {
          assert exts[i] == rest[i - 1];
        }
      }
    }
  }

  /** On a name the base already has, the extension's properties win on clashes,
      the base's other properties stay, and the definition's other members are
      unchanged. */
  lemma MergedDefinitionProperties(existing: Json, ext: Json, k: string)
    requires TruthyOpt(Some(existing)) && !MergeThrows(Some(existing), ext)
    requires DistinctKeys(SourceMembers(Get(ext, "properties")))
    ensures var merged := MergedDefinition(Some(existing), ext);
      var before := Get(existing, "properties").value.members;
      var added := SourceMembers(Get(ext, "properties"));
      merged.JObj? &&
      (forall j :: j != "properties" ==> Lookup(merged.members, j) == Lookup(existing.members, j)) &&
      Lookup(merged.members, "properties") == Some(JObj(Assign(before, added))) &&
      (k in Keys(added) ==> Lookup(Assign(before, added), k) == Lookup(added, k)) &&
      (k !in Keys(added) ==> Lookup(Assign(before, added), k) == Lookup(before, k))
  {
    var before := Get(existing, "properties").value.members;
    var added := SourceMembers(Get(ext, "properties"));
    if k in Keys(added) {
      AssignLookupSource(before, added, k);
    }
  }

  // ---------------------------------------------------------------------------
  // recursivelyAddDefns / recursivelyAddDefnsForRef

  /** The names the destination holds a truthy definition for: the names
      `recursivelyAddDefnsForRef` skips. */
  function TruthyKeys(dest: Members): set<string>
  {
    set k | k in Keys(dest) && TruthyOpt(Lookup(dest, k))
  }

  /** How many names of the document can still be added: the measure the
      collection decreases. */
  function Pending(swagger: Json, dest: Members): nat
  {
    |Universe(swagger) - TruthyKeys(dest)|
  }

  lemma {:induction false} SubsetCardinality(a: set<string>, b: set<string>)
    requires a <= b
    ensures |a| <= |b|
    decreases |a|
  {
    if a != {} {
      var x :| x in a;
      SubsetCardinality(a - {x}, b - {x});
    }
  }

  lemma PendingMonotone(swagger: Json, dest: Members, dest': Members)
    requires TruthyKeys(dest) <= TruthyKeys(dest')
    ensures Pending(swagger, dest') <= Pending(swagger, dest)
  {
    SubsetCardinality(Universe(swagger) - TruthyKeys(dest'), Universe(swagger) - TruthyKeys(dest));
  }

  /** Storing under a name the destination has no truthy definition for: the
      name joins the truthy names exactly when the value is truthy, and then one
      name fewer is pending. */
  lemma PutTruthyKeys(swagger: Json, dest: Members, name: string, v: Json)
    requires name !in TruthyKeys(dest)
    ensures TruthyKeys(Put(dest, name, v)) == TruthyKeys(dest) + (if Truthy(v) then {name} else {})
    ensures Truthy(v) && name in Universe(swagger) ==> Pending(swagger, Put(dest, name, v)) < Pending(swagger, dest)
  {
    var d := Put(dest, name, v);
    var added := if Truthy(v) then {name} else {};
    forall k ensures k in TruthyKeys(d) <==> k in TruthyKeys(dest) + added {
      if k == name {
        assert Lookup(d, k) == Some(v);
      } else {
        assert Lookup(d, k) == Lookup(dest, k);
      }
    }
    assert TruthyKeys(d) == TruthyKeys(dest) + added;
    if Truthy(v) && name in Universe(swagger) {
      var before := Universe(swagger) - TruthyKeys(dest);
      assert Universe(swagger) - TruthyKeys(d) == before - {name};
      assert before == (before - {name}) + {name};
    }
  }

  /** The destination only grows: no name is lost, every new name comes from the
      document, and no truthy definition is replaced. Repeated names are never
      introduced. */
  predicate Grows(swagger: Json, dest: Members, dest': Members)
  {
    Keys(dest) <= Keys(dest') && Keys(dest') <= Keys(dest) + Universe(swagger) &&
    TruthyKeys(dest) <= TruthyKeys(dest') &&
    (forall k :: k in TruthyKeys(dest) ==> Lookup(dest', k) == Lookup(dest, k)) &&
    (DistinctKeys(dest) ==> DistinctKeys(dest'))
  }

  lemma GrowsTransitive(swagger: Json, d0: Members, d1: Members, d2: Members)
    requires Grows(swagger, d0, d1) && Grows(swagger, d1, d2)
    ensures Grows(swagger, d0, d2)
  {
  }

  /** The reference a property schema leads to: its own `$ref` when that is
      truthy, otherwise its `items.$ref` when both are truthy. */
  function PropertyRef(v: Json): (r: Option<Json>)
    ensures r.Some? ==> Truthy(r.value)
    ensures TruthyOpt(Get(v, "$ref")) ==> r == Get(v, "$ref")
    ensures !TruthyOpt(Get(v, "$ref")) ==>
      (r.Some? <==> TruthyOpt(Get(v, "items")) && TruthyOpt(Get(Get(v, "items").value, "$ref")))
    ensures !TruthyOpt(Get(v, "$ref")) && r.Some? ==> r == Get(Get(v, "items").value, "$ref")
  {
    var ref := Get(v, "$ref");
    var items := Get(v, "items");
    if TruthyOpt(ref) then ref
    else if TruthyOpt(items) && TruthyOpt(Get(items.value, "$ref")) then Get(items.value, "$ref")
    else None
  }

  /** `recursivelyAddDefnsForRef(swagger, ref, dest)`: a name that already has a
      truthy definition is skipped; otherwise the chased definition is stored
      under its name, munged, and its own properties are followed. Splitting a
      reference that is not a string throws. */
  function ForRef(swagger: Json, ref: Json, dest: Members): (r: Outcome<Members>)
    ensures r.Done? ==> Grows(swagger, dest, r.value)
    decreases Pending(swagger, dest), 0, 0
  {
    if !ref.JStr? then Threw
    else
      match Chased(swagger, ref.s)
      case Threw => Threw
      case Done((name, schema)) =>
        if TruthyOpt(Lookup(dest, name)) then Done(dest)
        else
          match Munged(schema)
          case Threw => Threw
          case Done(m) =>
            ChasedNameKnown(swagger, ref.s, name, schema.value);
            PutTruthyKeys(swagger, dest, name, m);
            PutDistinctWhen(dest, name, m);
            var dest' := Put(dest, name, m);
            if !Truthy(m) then Done(dest')
            else
              var r := Defns(swagger, m, dest');
              if r.Done? then GrowsTransitive(swagger, dest, dest', r.value); r else r
  }

  lemma PutDistinctWhen(dest: Members, name: string, v: Json)
    ensures DistinctKeys(dest) ==> DistinctKeys(Put(dest, name, v))
  {
    if DistinctKeys(dest) {
      PutDistinct(dest, name, v);
    }
  }

  /** `recursivelyAddDefns(swagger, source, dest)`: reading `properties` of
      `null` throws; without truthy properties nothing is added. */
  function Defns(swagger: Json, source: Json, dest: Members): (r: Outcome<Members>)
    ensures r.Done? ==> Grows(swagger, dest, r.value)
    decreases Pending(swagger, dest), 2, 0
  {
    if source.JNull? then Threw
    else
      var props := Get(source, "properties");
      if !TruthyOpt(props) then Done(dest)
      else Props(swagger, Entries(props.value), dest)
  }

  /** One round of `recursivelyAddDefns`' loop, on the property schema `v`:
      reading `$ref` of `null` throws; a property without a reference adds
      nothing. */
  function PropertyStep(swagger: Json, v: Json, dest: Members): (r: Outcome<Members>)
    ensures r.Done? ==> Grows(swagger, dest, r.value)
    decreases Pending(swagger, dest), 0, 1
  {
    if v.JNull? then Threw
    else
      var ref := PropertyRef(v);
      if ref.Some? then ForRef(swagger, ref.value, dest) else Done(dest)
  }

  /** The loop of `recursivelyAddDefns` over the properties, in order. */
  function Props(swagger: Json, props: Members, dest: Members): (r: Outcome<Members>)
    ensures r.Done? ==> Grows(swagger, dest, r.value)
    decreases Pending(swagger, dest), 1, |props|
  {
    if props == [] then Done(dest)
    else
      match PropertyStep(swagger, props[0].1, dest)
      case Threw => Threw
      case Done(d) =>
        PendingMonotone(swagger, dest, d);
        var r := Props(swagger, props[1..], d);
        if r.Done? then GrowsTransitive(swagger, dest, d, r.value); r else r
  }

  /** A name that already has a truthy definition leaves the destination as it is. */
  lemma ForRefPresent(swagger: Json, ref: string, dest: Members)
    requires Chased(swagger, ref).Done? && TruthyOpt(Lookup(dest, Chased(swagger, ref).value.0))
    ensures ForRef(swagger, JStr(ref), dest) == Done(dest)
  {
  }

  /** Otherwise the chased definition, munged, ends up under its name, and
      nothing later replaces it: a falsy one because the collection stops
      there, a truthy one because truthy definitions are never replaced. */
  lemma ForRefAdds(swagger: Json, ref: string, dest: Members)
    requires Chased(swagger, ref).Done?
    requires !TruthyOpt(Lookup(dest, Chased(swagger, ref).value.0))
    requires ForRef(swagger, JStr(ref), dest).Done?
    ensures var (name, schema) := Chased(swagger, ref).value;
      Munged(schema).Done? &&
      Lookup(ForRef(swagger, JStr(ref), dest).value, name) == Some(Munged(schema).value)
  {
    var (name, schema) := Chased(swagger, ref).value;
    var m := Munged(schema).value;
    if Truthy(m) {
      PutTruthyKeys(swagger, dest, name, m);
      assert name in TruthyKeys(Put(dest, name, m));
    }
  }

  /** A source schema without truthy properties adds nothing. */
  lemma DefnsWithoutProperties(swagger: Json, source: Json, dest: Members)
    requires !source.JNull? && !TruthyOpt(Get(source, "properties"))
    ensures Defns(swagger, source, dest) == Done(dest)
  {
  }

  // ---------------------------------------------------------------------------
  // What the collection reaches

  /** The property schemas `recursivelyAddDefns` visits in `source`. */
  function PropertySchemas(source: Json): Members
  {
    var props := Get(source, "properties");
    if TruthyOpt(props) then Entries(props.value) else []
  }

  /** The name of the definition a property schema's reference leads to, when
      the reference is a string and chasing it succeeds. */
  function RefTarget(swagger: Json, v: Json): Option<string>
  {
    var ref := PropertyRef(v);
    if ref.Some? && ref.value.JStr? && Chased(swagger, ref.value.s).Done? then
      Some(Chased(swagger, ref.value.s).value.0)
    else None
  }

  /** Every reference among the property schemas `props` names a definition of `dest`. */
  predicate RefsPresent(swagger: Json, props: Members, dest: Members)
  {
    forall i :: 0 <= i < |props| && RefTarget(swagger, props[i].1).Some? ==>
      RefTarget(swagger, props[i].1).value in Keys(dest)
  }

  /** Every truthy definition of `dest`, except those named in `open`, has the
      targets of all its references among the names of `dest`. */
  predicate ClosedExcept(swagger: Json, dest: Members, open: set<string>)
  {
    forall k :: k in TruthyKeys(dest) && k !in open ==>
      RefsPresent(swagger, PropertySchemas(Lookup(dest, k).value), dest)
  }

  lemma RefsPresentGrows(swagger: Json, props: Members, d: Members, d': Members)
    requires RefsPresent(swagger, props, d) && Keys(d) <= Keys(d')
    ensures RefsPresent(swagger, props, d')
  {
  }

  /** Storing under a name without a truthy definition keeps every other
      definition closed; a falsy value needs no closing itself. */
  lemma ClosedAfterPut(swagger: Json, dest: Members, open: set<string>, name: string, m: Json)
    requires ClosedExcept(swagger, dest, open) && name !in TruthyKeys(dest)
    ensures ClosedExcept(swagger, Put(dest, name, m), open + {name})
    ensures !Truthy(m) ==> ClosedExcept(swagger, Put(dest, name, m), open)
  {
    var d := Put(dest, name, m);
    PutTruthyKeys(swagger, dest, name, m);
    forall k | k in TruthyKeys(d) && k != name && k !in open
      ensures RefsPresent(swagger, PropertySchemas(Lookup(d, k).value), d)
    {
      assert Lookup(d, k) == Lookup(dest, k);
      RefsPresentGrows(swagger, PropertySchemas(Lookup(dest, k).value), dest, d);
    }
  }

  /** A definition whose own references are present closes the one name left open. */
  lemma ClosedAtName(swagger: Json, d: Members, open: set<string>, name: string, m: Json)
    requires ClosedExcept(swagger, d, open + {name}) && Lookup(d, name) == Some(m)
    requires RefsPresent(swagger, PropertySchemas(m), d)
    ensures ClosedExcept(swagger, d, open)
  {
  }

  /** `recursivelyAddDefnsForRef` leaves the chased name in the destination and
      keeps every definition that was closed closed. */
  lemma ForRefCloses(swagger: Json, ref: Json, dest: Members, open: set<string>)
    requires ForRef(swagger, ref, dest).Done? && ClosedExcept(swagger, dest, open)
    ensures ref.JStr? && Chased(swagger, ref.s).Done?
    ensures Chased(swagger, ref.s).value.0 in Keys(ForRef(swagger, ref, dest).value)
    ensures ClosedExcept(swagger, ForRef(swagger, ref, dest).value, open)
    decreases Pending(swagger, dest), 0, 0
  {
    var (name, schema) := Chased(swagger, ref.s).value;
    if !TruthyOpt(Lookup(dest, name)) {
      var m := Munged(schema).value;
      ChasedNameKnown(swagger, ref.s, name, schema.value);
      PutTruthyKeys(swagger, dest, name, m);
      var dest' := Put(dest, name, m);
      ClosedAfterPut(swagger, dest, open, name, m);
      if Truthy(m) {
        DefnsCloses(swagger, m, dest', open + {name});
        var r := Defns(swagger, m, dest').value;
        assert name in TruthyKeys(dest');
        ClosedAtName(swagger, r, open, name, m);
      }
    }
  }

  /** `recursivelyAddDefns` leaves the target of every reference among the
      source's properties in the destination, and keeps what was closed closed. */
  lemma DefnsCloses(swagger: Json, source: Json, dest: Members, open: set<string>)
    requires Defns(swagger, source, dest).Done? && ClosedExcept(swagger, dest, open)
    ensures RefsPresent(swagger, PropertySchemas(source), Defns(swagger, source, dest).value)
    ensures ClosedExcept(swagger, Defns(swagger, source, dest).value, open)
    decreases Pending(swagger, dest), 2, 0
  {
    var props := Get(source, "properties");
    if TruthyOpt(props) {
      PropsCloses(swagger, Entries(props.value), dest, open);
    }
  }

  lemma PropertyStepCloses(swagger: Json, v: Json, dest: Members, open: set<string>)
    requires PropertyStep(swagger, v, dest).Done? && ClosedExcept(swagger, dest, open)
    ensures RefTarget(swagger, v).Some? ==> RefTarget(swagger, v).value in Keys(PropertyStep(swagger, v, dest).value)
    ensures ClosedExcept(swagger, PropertyStep(swagger, v, dest).value, open)
    decreases Pending(swagger, dest), 0, 1
  {
    var ref := PropertyRef(v);
    if ref.Some? {
      ForRefCloses(swagger, ref.value, dest, open);
    }
  }

  lemma PropsCloses(swagger: Json, props: Members, dest: Members, open: set<string>)
    requires Props(swagger, props, dest).Done? && ClosedExcept(swagger, dest, open)
    ensures RefsPresent(swagger, props, Props(swagger, props, dest).value)
    ensures ClosedExcept(swagger, Props(swagger, props, dest).value, open)
    decreases Pending(swagger, dest), 1, |props|
  {
    if props != [] {
      var d := PropertyStep(swagger, props[0].1, dest).value;
      PropertyStepCloses(swagger, props[0].1, dest, open);
      PendingMonotone(swagger, dest, d);
      PropsCloses(swagger, props[1..], d, open);
      var r := Props(swagger, props[1..], d).value;
      assert Props(swagger, props, dest).value == r;
      forall i | 0 <= i < |props| && RefTarget(swagger, props[i].1).Some?
        ensures RefTarget(swagger, props[i].1).value in Keys(r)
      {
        if i > 0 {
          assert props[i] == props[1..][i - 1];
        }
      }
    }
  }

  /** One step of closure: once `recursivelyAddDefns(swagger, source, dest)`
      returns, every reference among the source's properties that can be chased
      names a definition of the destination. */
  lemma DefnsReachesRefs(swagger: Json, source: Json, dest: Members)
    requires Defns(swagger, source, dest).Done?
    ensures forall i :: 0 <= i < |PropertySchemas(source)| && RefTarget(swagger, PropertySchemas(source)[i].1).Some? ==>
      RefTarget(swagger, PropertySchemas(source)[i].1).value in Keys(Defns(swagger, source, dest).value)
  {
    DefnsCloses(swagger, source, dest, Keys(dest));
  }

  /** `destination`, the definitions object the collection adds to in place. */
  class Definitions {
    var entries: Members

    /** `{}`. */
    constructor ()
      ensures entries == []
    {
      entries := [];
    }

    /** `destination[name] = schema`. */
    method Set(name: string, schema: Json)
      modifies this
      ensures entries == Put(old(entries), name, schema)
    {
      entries := Put(entries, name, schema);
    }

    method AddDefnsForRef(swagger: Json, ref: Json) returns (ok: bool)
      modifies this
      ensures ok <==> ForRef(swagger, ref, old(entries)).Done?
      ensures ok ==> entries == ForRef(swagger, ref, old(entries)).value
      decreases Pending(swagger, entries), 0, 0
    {
      if !ref.JStr? {
        return false;
      }
      var refSchema := ChaseRef(swagger, ref.s);
      if refSchema.Threw? {
        return false;
      }
      var (name, schema) := refSchema.value;
      if TruthyOpt(Lookup(entries, name)) {
        return true;
      }
      var munged := MungeSchema(schema);
      if munged.Threw? {
        return false;
      }
      ChasedNameKnown(swagger, ref.s, name, schema.value);
      PutTruthyKeys(swagger, entries, name, munged.value);
      Set(name, munged.value);
      if Truthy(munged.value) {
        ok := AddDefns(swagger, munged.value);
      } else {
        ok := true;
      }
    }

    method AddDefns(swagger: Json, source: Json) returns (ok: bool)
      modifies this
      ensures ok <==> Defns(swagger, source, old(entries)).Done?
      ensures ok ==> entries == Defns(swagger, source, old(entries)).value
      decreases Pending(swagger, entries), 2, 0
    {
      if source.JNull? {
        return false;
      }
      var props := Get(source, "properties");
      if !TruthyOpt(props) {
        return true;
      }
      var list := Entries(props.value);
      for i := 0 to |list|
        invariant Props(swagger, list[i..], entries) == Props(swagger, list, old(entries))
        invariant TruthyKeys(old(entries)) <= TruthyKeys(entries)
      {
        assert list[i..][0] == list[i] && list[i..][1..] == list[i + 1..];
        PendingMonotone(swagger, old(entries), entries);
        ghost var before := entries;
        var added := AddDefnsForProperty(swagger, list[i].1);
        if !added {
          return false;
        }
        assert Grows(swagger, before, entries);
      }
      return true;
    }

    /** The body of `recursivelyAddDefns`' loop for one property schema. */
    method AddDefnsForProperty(swagger: Json, v: Json) returns (ok: bool)
      modifies this
      ensures ok <==> PropertyStep(swagger, v, old(entries)).Done?
      ensures ok ==> entries == PropertyStep(swagger, v, old(entries)).value
      decreases Pending(swagger, entries), 1, 0
    {
      if v.JNull? {
        return false;
      }
      var ref := PropertyRef(v);
      if ref.Some? {
        ok := AddDefnsForRef(swagger, ref.value);
      } else {
        ok := true;
      }
    }
  }

  // ---------------------------------------------------------------------------
  // createResourceSchema (the assembly after the Swagger document is loaded)

  const SchemaDraft: string := "http://json-schema.org/draft-04/schema#"

  /** The schema object the generator writes for a resource type. */
  function SchemaObject(resourceType: string, bodyName: string, definitions: Members): Json
  {
    JObj([
      ("$schema", JStr(SchemaDraft)),
      ("title", JStr(resourceType)),
      ("description", JStr("An Azure Batch " + resourceType)),
      ("type", JStr("object")),
      ("$ref", JStr("#/definitions/" + bodyName)),
      ("definitions", JObj(definitions))])
  }

  /** The schema for `resourceType` whose body is at `bodyRef` in the document. */
  function ResourceSchema(swagger: Json, resourceType: string, bodyRef: string): Outcome<Json>
  {
    match Chased(swagger, bodyRef)
    case Threw => Threw
    case Done((name, schema)) =>
      match Munged(schema)
      case Threw => Threw
      case Done(m) =>
        match Defns(swagger, m, [(name, m)])
        case Threw => Threw
        case Done(defs) => Done(SchemaObject(resourceType, name, defs))
  }

  method CreateResourceSchema(swagger: Json, resourceType: string, bodyRef: string) returns (r: Outcome<Json>)
    ensures r == ResourceSchema(swagger, resourceType, bodyRef)
  {
    var bodySchema := ChaseRef(swagger, bodyRef);
    if bodySchema.Threw? {
      return Threw;
    }
    var (name, schema) := bodySchema.value;
    var munged := MungeSchema(schema);
    if munged.Threw? {
      return Threw;
    }
    var schemaDefinitions := new Definitions();
    schemaDefinitions.Set(name, munged.value);
    var ok := schemaDefinitions.AddDefns(swagger, munged.value);
    if !ok {
      return Threw;
    }
    return Done(SchemaObject(resourceType, name, schemaDefinitions.entries));
  }

  /** The written schema names draft 4, carries the resource type as its title,
      points at the body definition, and holds that definition, munged, among
      definitions that never repeat a name. */
  lemma ResourceSchemaShape(swagger: Json, resourceType: string, bodyRef: string)
    requires ResourceSchema(swagger, resourceType, bodyRef).Done?
    ensures var s := ResourceSchema(swagger, resourceType, bodyRef).value;
      var (name, schema) := Chased(swagger, bodyRef).value;
      Get(s, "$schema") == Some(JStr(SchemaDraft)) &&
      Get(s, "title") == Some(JStr(resourceType)) &&
      Get(s, "description") == Some(JStr("An Azure Batch " + resourceType)) &&
      Get(s, "type") == Some(JStr("object")) &&
      Get(s, "$ref") == Some(JStr("#/definitions/" + name)) &&
      Get(s, "definitions").Some? && Get(s, "definitions").value.JObj? &&
      var defs := Get(s, "definitions").value.members;
      DistinctKeys(defs) && name in Keys(defs) &&
      Lookup(defs, name) == Some(Munged(schema).value)
  {
    var (name, schema) := Chased(swagger, bodyRef).value;
    var m := Munged(schema).value;
    var defs := Defns(swagger, m, [(name, m)]).value;
    SchemaObjectMembers(resourceType, name, defs);
    BodyDefinitionKept(swagger, name, m, defs);
  }

  lemma SchemaObjectMembers(resourceType: string, bodyName: string, definitions: Members)
    ensures var s := SchemaObject(resourceType, bodyName, definitions);
      Get(s, "$schema") == Some(JStr(SchemaDraft)) &&
      Get(s, "title") == Some(JStr(resourceType)) &&
      Get(s, "description") == Some(JStr("An Azure Batch " + resourceType)) &&
      Get(s, "type") == Some(JStr("object")) &&
      Get(s, "$ref") == Some(JStr("#/definitions/" + bodyName)) &&
      Get(s, "definitions") == Some(JObj(definitions))
  {
    var ms := SchemaObject(resourceType, bodyName, definitions).members;
    assert DistinctKeys(ms) by {
      assert ms[0].0 == "$schema" && ms[1].0 == "title" && ms[2].0 == "description";
      assert ms[3].0 == "type" && ms[4].0 == "$ref" && ms[5].0 == "definitions";
    }
    LookupAt(ms, 0);
    LookupAt(ms, 1);
    LookupAt(ms, 2);
    LookupAt(ms, 3);
    LookupAt(ms, 4);
    LookupAt(ms, 5);
  }

  lemma BodyDefinitionKept(swagger: Json, name: string, m: Json, defs: Members)
    requires Defns(swagger, m, [(name, m)]) == Done(defs)
    ensures DistinctKeys(defs) && name in Keys(defs)
    ensures Lookup(defs, name) == Some(m)
  {
    var start: Members := [(name, m)];
    assert Keys(start) == {name};
    assert Lookup(start, name) == Some(m);
    assert Grows(swagger, start, defs);
    if Truthy(m) {
      assert name in TruthyKeys(start);
    } else {
      assert !m.JObj?;
      assert defs == start;
    }
  }

  /** Every definition the written schema holds has, beside it, the definitions
      its properties refer to: the collection is closed under the references
      `recursivelyAddDefns` follows. */
  lemma ResourceSchemaClosed(swagger: Json, resourceType: string, bodyRef: string)
    requires ResourceSchema(swagger, resourceType, bodyRef).Done?
    ensures var s := ResourceSchema(swagger, resourceType, bodyRef).value;
      Get(s, "definitions").Some? && Get(s, "definitions").value.JObj? &&
      var defs := Get(s, "definitions").value.members;
      forall k :: k in TruthyKeys(defs) ==> RefsPresent(swagger, PropertySchemas(Lookup(defs, k).value), defs)
  {
    var (name, schema) := Chased(swagger, bodyRef).value;
    var m := Munged(schema).value;
    var defs := Defns(swagger, m, [(name, m)]).value;
    SchemaObjectMembers(resourceType, name, defs);
    BodyDefinitionsClosed(swagger, name, m, defs);
  }

  lemma BodyDefinitionsClosed(swagger: Json, name: string, m: Json, defs: Members)
    requires Defns(swagger, m, [(name, m)]) == Done(defs)
    ensures ClosedExcept(swagger, defs, {})
  {
    var start: Members := [(name, m)];
    assert Keys(start) == {name};
    DefnsCloses(swagger, m, start, {name});
    BodyDefinitionKept(swagger, name, m, defs);
    assert {} + {name} == {name};
    ClosedAtName(swagger, defs, {}, name, m);
  }

  // ---------------------------------------------------------------------------
  // A reference cycle

  /** A definition whose one property `prop` is a reference to `ref`. */
  function RefDefinition(prop: string, ref: string): Json
  {
    JObj([("properties", JObj([(prop, JObj([("$ref", JStr(ref))]))]))])
  }

  /** A document whose definitions `a` and `b` refer to each other. */
  function CycleDocument(a: string, b: string): Json
  {
    JObj([("definitions", JObj([
      (a, RefDefinition("next", RefTo(["definitions", b]))),
      (b, RefDefinition("next", RefTo(["definitions", a])))]))])
  }

  lemma DefinitionsSegment()
    ensures '/' !in "definitions"
  {
  }

  lemma RefToNonEmpty(segments: seq<string>)
    ensures RefTo(segments) != ""
  {
    if segments != [] {
      assert RefTo(segments) == "#" + "/" + Join(segments, '/');
    }
  }

  /** A reference `#/definitions/x` chases to the definition `x`. */
  lemma ChasedDefinition(defs: Json, x: string, dx: Json)
    requires '/' !in x && Get(defs, x) == Some(dx)
    ensures Chased(JObj([("definitions", defs)]), RefTo(["definitions", x])) == Done((x, Some(dx)))
  {
    var doc := JObj([("definitions", defs)]);
    DefinitionsSegment();
    ChaseRefTo(doc, ["definitions", x]);
    GetFirst("definitions", defs, []);
    var path := ["definitions", x];
    assert path[0] == "definitions" && path[1..] == [x] && [x][1..] == [];
    assert Walk(Some(dx), []) == Done(Some(dx));
    assert Walk(Some(defs), [x]) == Done(Some(dx));
    assert Walk(Some(doc), path) == Walk(Some(defs), [x]);
    assert RefName(path) == x;
  }

  /** Both references of the cycle chase to their definitions. */
  lemma ChasedInCycle(a: string, b: string)
    requires a != b && '/' !in a && '/' !in b
    ensures Chased(CycleDocument(a, b), RefTo(["definitions", a])) ==
      Done((a, Some(RefDefinition("next", RefTo(["definitions", b])))))
    ensures Chased(CycleDocument(a, b), RefTo(["definitions", b])) ==
      Done((b, Some(RefDefinition("next", RefTo(["definitions", a])))))
  {
    var da := RefDefinition("next", RefTo(["definitions", b]));
    var db := RefDefinition("next", RefTo(["definitions", a]));
    var defs := JObj([(a, da), (b, db)]);
    GetFirst(a, da, [(b, db)]);
    GetSkip(a, da, [(b, db)], b);
    GetFirst(b, db, []);
    ChasedDefinition(defs, a, da);
    ChasedDefinition(defs, b, db);
  }

  /** Munging a one-reference definition leaves the reference where it was. */
  lemma MungedRefDefinition(prop: string, ref: string)
    ensures Munged(Some(RefDefinition(prop, ref))) ==
      Done(JObj([("properties", JObj([(prop, JObj(Described([("$ref", JStr(ref))])))]))]))
  {
    var r := JObj([("$ref", JStr(ref))]);
    var p := JObj([(prop, r)]);
    var r' := JObj(Described(r.members));
    GetFirst("properties", p, []);
    assert [(prop, r)][..0] == [];
    assert MungeEntry(r) == Done(r');
    assert MungeMembers([(prop, r)]) == Done([] + [(prop, r')]);
    assert [] + [(prop, r')] == [(prop, r')];
    var ms: Members := [("properties", p)];
    assert ms[1..] == [];
    assert Put(ms, "properties", JObj([(prop, r')])) == [("properties", JObj([(prop, r')]))];
  }

  /** Collecting from one property is the step on that property. */
  lemma PropsSingle(swagger: Json, k: string, v: Json, dest: Members)
    ensures Props(swagger, [(k, v)], dest) == PropertyStep(swagger, v, dest)
  {
    assert [(k, v)][1..] == [];
  }

  /** A property schema holding only a reference leads to that reference. */
  lemma RefPropertyStep(swagger: Json, ref: string, dest: Members)
    requires ref != ""
    ensures PropertyStep(swagger, JObj(Described([("$ref", JStr(ref))])), dest) == ForRef(swagger, JStr(ref), dest)
  {
    var r' := JObj(Described([("$ref", JStr(ref))]));
    assert Lookup([("$ref", JStr(ref))], "$ref") == Some(JStr(ref));
    assert PropertyRef(r') == Some(JStr(ref));
  }

  /** Munging a one-reference definition keeps the reference, so collecting
      from it is following that one reference. */
  lemma DefnsOfRefDefinition(swagger: Json, prop: string, ref: string, dest: Members)
    requires ref != ""
    ensures Munged(Some(RefDefinition(prop, ref))).Done?
    ensures var m := Munged(Some(RefDefinition(prop, ref))).value;
      Truthy(m) && Defns(swagger, m, dest) == ForRef(swagger, JStr(ref), dest)
  {
    MungedRefDefinition(prop, ref);
    var r' := JObj(Described([("$ref", JStr(ref))]));
    var m := JObj([("properties", JObj([(prop, r')]))]);
    GetFirst("properties", JObj([(prop, r')]), []);
    assert Defns(swagger, m, dest) == Props(swagger, [(prop, r')], dest);
    PropsSingle(swagger, prop, r', dest);
    RefPropertyStep(swagger, ref, dest);
  }

  /** A chased name without a truthy definition gets the munged definition,
      and the collection goes on from it. */
  lemma ForRefStores(swagger: Json, ref: string, dest: Members, name: string, schema: Json, m: Json)
    requires Chased(swagger, ref) == Done((name, Some(schema)))
    requires !TruthyOpt(Lookup(dest, name)) && Munged(Some(schema)) == Done(m) && Truthy(m)
    ensures ForRef(swagger, JStr(ref), dest) == Defns(swagger, m, Put(dest, name, m))
  {
  }

  /** Once both definitions are held, the reference back to the first adds nothing. */
  lemma CycleEnds(a: string, b: string, ma: Json, mb: Json)
    requires a != b && '/' !in a && '/' !in b && Truthy(ma)
    ensures ForRef(CycleDocument(a, b), JStr(RefTo(["definitions", a])), [(a, ma), (b, mb)]) ==
      Done([(a, ma), (b, mb)])
  {
    ChasedInCycle(a, b);
    GetFirst(a, ma, [(b, mb)]);
    ForRefPresent(CycleDocument(a, b), RefTo(["definitions", a]), [(a, ma), (b, mb)]);
  }

  /** The second definition of the cycle, followed from the first, is stored
      after it, and its reference back to the first ends the collection. */
  lemma CycleFollowsBack(a: string, b: string, ma: Json, mb: Json)
    requires a != b && '/' !in a && '/' !in b
    requires Munged(Some(RefDefinition("next", RefTo(["definitions", a])))) == Done(mb)
    requires Truthy(ma)
    ensures ForRef(CycleDocument(a, b), JStr(RefTo(["definitions", b])), [(a, ma)]) == Done([(a, ma), (b, mb)])
  {
    var doc := CycleDocument(a, b);
    var ra := RefTo(["definitions", a]);
    var start: Members := [(a, ma)];
    var d1: Members := [(a, ma), (b, mb)];
    RefToNonEmpty(["definitions", a]);
    ChasedInCycle(a, b);
    assert Lookup(start, b) == None by {
      assert Keys(start) == {a};
    }
    assert Put(start, b, mb) == d1 by {
      PutShape(start, b, mb);
    }
    ForRefStores(doc, RefTo(["definitions", b]), start, b, RefDefinition("next", ra), mb);
    DefnsOfRefDefinition(doc, "next", ra, d1);
    CycleEnds(a, b, ma, mb);
  }

  /** The first definition of the cycle collects both, in order. */
  lemma CycleCollects(a: string, b: string, ma: Json, mb: Json)
    requires a != b && '/' !in a && '/' !in b
    requires Munged(Some(RefDefinition("next", RefTo(["definitions", b])))) == Done(ma)
    requires Munged(Some(RefDefinition("next", RefTo(["definitions", a])))) == Done(mb)
    ensures Defns(CycleDocument(a, b), ma, [(a, ma)]) == Done([(a, ma), (b, mb)])
  {
    RefToNonEmpty(["definitions", b]);
    DefnsOfRefDefinition(CycleDocument(a, b), "next", RefTo(["definitions", b]), [(a, ma)]);
    CycleFollowsBack(a, b, ma, mb);
  }

  /** `createResourceSchema` once the body is chased, munged and collected from. */
  lemma ResourceSchemaFrom(swagger: Json, resourceType: string, bodyRef: string,
                           name: string, schema: Option<Json>, m: Json, defs: Members)
    requires Chased(swagger, bodyRef) == Done((name, schema)) && Munged(schema) == Done(m)
    requires Defns(swagger, m, [(name, m)]) == Done(defs)
    ensures ResourceSchema(swagger, resourceType, bodyRef) == Done(SchemaObject(resourceType, name, defs))
  {
  }

  /** Two definitions that refer to each other end up in the written schema
      once each, and nothing else does: the collection stops at the name it
      already holds. */
  lemma ReferenceCycle(a: string, b: string, resourceType: string)
    requires a != b && '/' !in a && '/' !in b
    ensures ResourceSchema(CycleDocument(a, b), resourceType, RefTo(["definitions", a])).Done?
    ensures var s := ResourceSchema(CycleDocument(a, b), resourceType, RefTo(["definitions", a])).value;
      Get(s, "definitions").Some? && Get(s, "definitions").value.JObj? &&
      var defs := Get(s, "definitions").value.members;
      Keys(defs) == {a, b} && |defs| == 2 && DistinctKeys(defs)
  {
    var ra := RefTo(["definitions", a]);
    var rb := RefTo(["definitions", b]);
    MungedRefDefinition("next", rb);
    MungedRefDefinition("next", ra);
    var ma := Munged(Some(RefDefinition("next", rb))).value;
    var mb := Munged(Some(RefDefinition("next", ra))).value;
    var d1: Members := [(a, ma), (b, mb)];
    ChasedInCycle(a, b);
    CycleCollects(a, b, ma, mb);
    ResourceSchemaFrom(CycleDocument(a, b), resourceType, ra, a, Some(RefDefinition("next", rb)), ma, d1);
    SchemaObjectMembers(resourceType, a, d1);
    PairMembers(a, b, ma, mb);
  }

  lemma PairMembers(a: string, b: string, va: Json, vb: Json)
    requires a != b
    ensures Keys([(a, va), (b, vb)]) == {a, b} && DistinctKeys([(a, va), (b, vb)])
  {
    var m: Members := [(a, va), (b, vb)];
    assert m[1..] == [(b, vb)] && m[1..][1..] == [];
    assert Keys(m[1..][1..]) == {};
    assert Keys(m[1..]) == {b};
    assert Keys(m) == {a} + {b};
  }

  /** The cycle between definitions `A` and `B`. */
  lemma ReferenceCycleAB()
    ensures var s := ResourceSchema(CycleDocument("A", "B"), "job", RefTo(["definitions", "A"]));
      s.Done? && Get(s.value, "definitions").Some? && Get(s.value, "definitions").value.JObj? &&
      Keys(Get(s.value, "definitions").value.members) == {"A", "B"} &&
      DistinctKeys(Get(s.value, "definitions").value.members)
  {
    ReferenceCycle("A", "B", "job");
  }

  // ---------------------------------------------------------------------------
  // resourcePath

  /** The Swagger path whose `post` adds a resource; None is the `throw` for any
      other resource type. */
  function ResourcePath(resourceType: string): (r: Option<string>)
    ensures r.Some? <==> resourceType == "job" || resourceType == "pool"
  {
    if resourceType == "job" then Some("/jobs")
    else if resourceType == "pool" then Some("/pools")
    else None
  }

  /** The path is the collection name of the resource type under the root. */
  lemma ResourcePathIsPlural(resourceType: string)
    ensures ResourcePath(resourceType).Some? <==> Batch.Plural(resourceType).Some?
    ensures ResourcePath(resourceType).Some? ==>
      ResourcePath(resourceType).value == "/" + Batch.Plural(resourceType).value
  {
  }
}
