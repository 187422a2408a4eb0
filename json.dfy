/**
 * Parsed JSON values as JavaScript sees them after `JSON.parse`: the value
 * type, JavaScript truthiness, and objects as ordered member lists with the
 * lookup and assignment rules of JavaScript objects.
 *
 * Only objects have members here: reading `x[key]` on anything that is not
 * an object gives `undefined` (None), and `for (k in x)` enumerates nothing.
 * The members of an object are listed in the order their keys were first
 * stored, which is JavaScript's enumeration order for keys that do not read as
 * array indices; an object produced by `JSON.parse` never repeats a key.
 */
module Json {
  import opened Text

  datatype Json =
    | JNull
    | JBool(b: bool)
    | JNum(n: real)
    | JStr(s: string)
    | JArr(items: seq<Json>)
    | JObj(members: seq<(string, Json)>)

  /** The members of an object, in the order their keys were first stored. */
  type Members = seq<(string, Json)>

  /** JavaScript truthiness: null, false, 0 and "" are falsy, everything else truthy. */
  predicate Truthy(j: Json)
  {
    match j
    case JNull => false
    case JBool(b) => b
    case JNum(n) => n != 0.0
    case JStr(s) => s != ""
    case JArr(_) => true
    case JObj(_) => true
  }

  /** Truthiness of a value that may be `undefined` (None), which is falsy. */
  predicate TruthyOpt(o: Option<Json>)
  {
    o.Some? && Truthy(o.value)
  }

  function Keys(m: Members): set<string>
  {
    if m == [] then {} else {m[0].0} + Keys(m[1..])
  }

  lemma {:induction false} KeysAt(m: Members, k: string)
    ensures k in Keys(m) <==> exists i :: 0 <= i < |m| && m[i].0 == k
  {
    if m != [] {
      KeysAt(m[1..], k);
      if k in Keys(m[1..]) {
        var i :| 0 <= i < |m[1..]| && m[1..][i].0 == k;
        assert m[i + 1] == m[1..][i];
      }
      if exists i :: 0 <= i < |m| && m[i].0 == k {
        var i :| 0 <= i < |m| && m[i].0 == k;
        if i > 0 { assert m[1..][i - 1] == m[i]; }
      }
    }
  }

  lemma {:induction false} KeysAppend(m: Members, e: (string, Json))
    ensures Keys(m + [e]) == Keys(m) + {e.0}
  {
    if m != [] {
      assert (m + [e])[1..] == m[1..] + [e];
      KeysAppend(m[1..], e);
    }
  }

  /** No key is listed twice, as in every JavaScript object. */
  predicate DistinctKeys(m: Members)
  {
    forall i, j :: 0 <= i < j < |m| ==> m[i].0 != m[j].0
  }

  lemma DistinctTail(m: Members)
    requires DistinctKeys(m) && m != []
    ensures DistinctKeys(m[1..]) && m[0].0 !in Keys(m[1..])
  {
    forall a, b | 0 <= a < b < |m[1..]| ensures m[1..][a].0 != m[1..][b].0 {
      assert m[1..][a] == m[a + 1] && m[1..][b] == m[b + 1];
    }
    KeysAt(m[1..], m[0].0);
    forall i | 0 <= i < |m[1..]| ensures m[1..][i].0 != m[0].0 {
      assert m[1..][i] == m[i + 1];
    }
  }

  /** `obj[k]` on an object with members `m`. */
  function Lookup(m: Members, k: string): (r: Option<Json>)
    ensures r.None? <==> k !in Keys(m)
    ensures r.Some? ==> exists i :: 0 <= i < |m| && m[i].0 == k && m[i].1 == r.value
  {
    if m == [] then None
    else if m[0].0 == k then Some(m[0].1)
    else
      var r := Lookup(m[1..], k);
      assert r.Some? ==> exists i :: 0 <= i < |m| && m[i].0 == k && m[i].1 == r.value by {
        if r.Some? {
          var i :| 0 <= i < |m[1..]| && m[1..][i].0 == k && m[1..][i].1 == r.value;
          assert m[i + 1] == m[1..][i];
        }
      }
      r
  }

  /** In an object without repeated keys, the member at position `i` is what a lookup of its key finds. */
  lemma {:induction false} LookupAt(m: Members, i: nat)
    requires DistinctKeys(m) && i < |m|
    ensures Lookup(m, m[i].0) == Some(m[i].1)
  {
    if i > 0 {
      DistinctTail(m);
      assert m[0].0 != m[i].0;
      LookupAt(m[1..], i - 1);
      assert m[1..][i - 1] == m[i];
    }
  }

  /** `obj[k] = v`: an existing key keeps its position and takes the new value,
      a new key is appended; no other key's value changes. */
  function Put(m: Members, k: string, v: Json): (r: Members)
    ensures Lookup(r, k) == Some(v)
    ensures forall k' :: k' != k ==> Lookup(r, k') == Lookup(m, k')
    ensures Keys(r) == Keys(m) + {k}
  {
    if m == [] then [(k, v)]
    else if m[0].0 == k then
      var r := [(k, v)] + m[1..];
      assert r[1..] == m[1..];
      r
    else
      var r := [m[0]] + Put(m[1..], k, v);
      assert r[1..] == Put(m[1..], k, v);
      r
  }

  /** Where `Put` stores: in place of the first member with key `k`, or at the end. */
  lemma {:induction false} PutShape(m: Members, k: string, v: Json)
    ensures k in Keys(m) ==> |Put(m, k, v)| == |m|
    ensures k !in Keys(m) ==> Put(m, k, v) == m + [(k, v)]
    ensures forall i :: 0 <= i < |m| ==> Put(m, k, v)[i].0 == m[i].0
    ensures forall i :: 0 <= i < |m| && m[i].0 != k ==> Put(m, k, v)[i] == m[i]
  {
    if m != [] && m[0].0 != k {
      PutShape(m[1..], k, v);
      var r := Put(m, k, v);
      assert r == [m[0]] + Put(m[1..], k, v);
      assert m == [m[0]] + m[1..];
      forall i | 1 <= i < |m| ensures r[i] == Put(m[1..], k, v)[i - 1] && m[i] == m[1..][i - 1] {
      }
    }
  }

  /** `Put` never introduces a repeated key. */
  lemma PutDistinct(m: Members, k: string, v: Json)
    requires DistinctKeys(m)
    ensures DistinctKeys(Put(m, k, v))
  {
    PutShape(m, k, v);
    var r := Put(m, k, v);
    if k !in Keys(m) {
      KeysAt(m, k);
    }
    forall a, b | 0 <= a < b < |r| ensures r[a].0 != r[b].0 {
      if b < |m| {
        assert r[a].0 == m[a].0 && r[b].0 == m[b].0;
      } else {
        assert r[a].0 == m[a].0;
      }
    }
  }

  /** Storing the value a key already has changes nothing. */
  lemma {:induction false} PutLookedUp(m: Members, k: string)
    requires k in Keys(m)
    ensures Put(m, k, Lookup(m, k).value) == m
  {
    if m[0].0 != k {
      PutLookedUp(m[1..], k);
      assert m == [m[0]] + m[1..];
    }
  }

  /** Storing twice under one key is storing once. */
  lemma {:induction false} PutPut(m: Members, k: string, v: Json)
    ensures Put(Put(m, k, v), k, v) == Put(m, k, v)
  {
    if m != [] && m[0].0 != k {
      PutPut(m[1..], k, v);
    }
  }

  /** Deleting every member with key `k`. */
  function Remove(m: Members, k: string): (r: Members)
    ensures Lookup(r, k) == None
    ensures forall k' :: k' != k ==> Lookup(r, k') == Lookup(m, k')
    ensures Keys(r) == Keys(m) - {k}
  {
    if m == [] then []
    else
      var tail := Remove(m[1..], k);
      if m[0].0 == k then tail
      else
        assert ([m[0]] + tail)[1..] == tail;
        [m[0]] + tail
  }

  lemma {:induction false} RemoveRemove(m: Members, k: string)
    ensures Remove(Remove(m, k), k) == Remove(m, k)
  {
    if m != [] {
      RemoveRemove(m[1..], k);
    }
  }

  /** `obj[k]` on any value: only objects have members. */
  function Get(j: Json, k: string): (r: Option<Json>)
    ensures r.Some? ==> j.JObj? && k in Keys(j.members)
  {
    if j.JObj? then Lookup(j.members, k) else None
  }

  /** The key/value pairs that `for (const k in j)` visits. */
  function Entries(j: Json): Members
  {
    if j.JObj? then j.members else []
  }

  /** `Object.assign(target, src)` on objects: every member of `src`, in order,
      is stored into the target; keys `src` does not have keep their values. */
  function Assign(target: Members, src: Members): (r: Members)
    ensures Keys(r) == Keys(target) + Keys(src)
    ensures forall k :: k !in Keys(src) ==> Lookup(r, k) == Lookup(target, k)
    decreases |src|
  {
    if src == [] then target
    else Assign(Put(target, src[0].0, src[0].1), src[1..])
  }

  /** Without repeated keys in `src`, the source wins on every key it has. */
  lemma {:induction false} AssignLookupSource(target: Members, src: Members, k: string)
    requires DistinctKeys(src) && k in Keys(src)
    ensures Lookup(Assign(target, src), k) == Lookup(src, k)
    decreases |src|
  {
    DistinctTail(src);
    if k != src[0].0 {
      AssignLookupSource(Put(target, src[0].0, src[0].1), src[1..], k);
    }
  }

  lemma {:induction false} AssignDistinct(target: Members, src: Members)
    requires DistinctKeys(target)
    ensures DistinctKeys(Assign(target, src))
    decreases |src|
  {
    if src != [] {
      PutDistinct(target, src[0].0, src[0].1);
      AssignDistinct(Put(target, src[0].0, src[0].1), src[1..]);
    }
  }

  /** Every key of every object nested in `j` through object members: the only
      names a property walk over `j` can end on. */
  function KeyNames(j: Json): set<string>
  {
    match j
    case JObj(ms) =>
      (set i | 0 <= i < |ms| :: ms[i].0) +
      (set i, k | 0 <= i < |ms| && k in KeyNames(ms[i].1) :: k)
    case _ => {}
  }

  /** The first member of an object is what a lookup of its key finds. */
  lemma GetFirst(k: string, v: Json, rest: Members)
    ensures Get(JObj([(k, v)] + rest), k) == Some(v)
  {
  }

  /** A lookup passes over a member with another key. */
  lemma GetSkip(k0: string, v0: Json, rest: Members, k: string)
    requires k0 != k
    ensures Get(JObj([(k0, v0)] + rest), k) == Get(JObj(rest), k)
  {
    assert ([(k0, v0)] + rest)[1..] == rest;
  }

  /** A member read out of `j` has its key among `j`'s names, and its own names too. */
  lemma GetKeyNames(j: Json, k: string)
    requires Get(j, k).Some?
    ensures k in KeyNames(j)
    ensures KeyNames(Get(j, k).value) <= KeyNames(j)
  {
    var ms := j.members;
    var i :| 0 <= i < |ms| && ms[i].0 == k && ms[i].1 == Get(j, k).value;
    assert k == ms[i].0;
    assert k in (set i | 0 <= i < |ms| :: ms[i].0);
  }
}
