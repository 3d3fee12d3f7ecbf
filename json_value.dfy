/**
  JSON values as both JavaScript (`JSON.parse`, object spread) and Python
  (`json.load`) see them. An object is the ordered list of its members, so that
  key order survives a parse/serialise cycle; when a key occurs twice the LAST
  member wins, as it does for `JSON.parse`, `json.load` and object literals.
  Numbers are integers: floating point is not part of this model.
*/
module JsonValue {
  import opened Wrappers

  /** One `"key": value` member of an object. */
  datatype Member = Member(key: string, value: Json)

  type Members = seq<Member>

  datatype Json =
    | JNull
    | JBool(b: bool)
    | JNum(n: int)
    | JStr(s: string)
    | JArr(items: seq<Json>)
    | JObj(members: Members)

  /** The keys of an object, in member order. */
  function KeysOf(ms: Members): (ks: seq<string>)
    ensures |ks| == |ms|
    ensures forall i :: 0 <= i < |ms| ==> ks[i] == ms[i].key
  {
    seq(|ms|, i requires 0 <= i < |ms| => ms[i].key)
  }

  /**
    The keys of the object built from `ms`, in the order JavaScript and Python
    enumerate them: each key once, at the place it first appeared.
  */
  function UniqueKeys(ms: Members): (ks: seq<string>)
    ensures forall k :: k in ks <==> k in KeysOf(ms)
    ensures forall i, j :: 0 <= i < j < |ks| ==> ks[i] != ks[j]
  {
    if ms == [] then []
    else
      var init, last := ms[..|ms| - 1], ms[|ms| - 1];
      assert KeysOf(ms) == KeysOf(init) + [last.key];
      UniqueKeys(init) + if last.key in KeysOf(init) then [] else [last.key]
  }

  /** `obj.key` / `obj[key]`: the value of the last member named `key`, `None` for `undefined`. */
  function Lookup(ms: Members, key: string): (r: Option<Json>)
    ensures r.None? <==> key !in KeysOf(ms)
    ensures r.Some? ==> Member(key, r.value) in ms
  {
    if ms == [] then None
    else if ms[|ms| - 1].key == key then Some(ms[|ms| - 1].value)
    else
      assert KeysOf(ms) == KeysOf(ms[..|ms| - 1]) + [ms[|ms| - 1].key];
      Lookup(ms[..|ms| - 1], key)
  }

  /**
    `obj[key] = v` on a fresh copy (the `{...obj, key: v}` literal): an existing
    property keeps its position and takes the new value, a new one is appended.
  */
  function Put(ms: Members, key: string, v: Json): (r: Members)
    ensures Lookup(r, key) == Some(v)
    ensures forall k :: k != key ==> Lookup(r, k) == Lookup(ms, k)
    ensures key in KeysOf(ms) ==> KeysOf(r) == KeysOf(ms)
    ensures key !in KeysOf(ms) ==> KeysOf(r) == KeysOf(ms) + [key]
  {
    if key !in KeysOf(ms) then
      Snoc(ms, Member(key, v));
      ms + [Member(key, v)]
    else
      var init, last := ms[..|ms| - 1], ms[|ms| - 1];
      assert ms == init + [last];
      Snoc(init, last);
      if last.key == key then
        Snoc(init, Member(key, v));
        init + [Member(key, v)]
      else
        PutUnderLast(init, last, key, v, Put(init, key, v));
        Put(init, key, v) + [last]
  }

  /** The recursive case of `Put`: the replacement happened before the last member, which stays. */
  lemma PutUnderLast(init: Members, last: Member, key: string, v: Json, p: Members)
    requires last.key != key && key in KeysOf(init)
    requires Lookup(p, key) == Some(v)
    requires forall k :: k != key ==> Lookup(p, k) == Lookup(init, k)
    requires KeysOf(p) == KeysOf(init)
    ensures Lookup(p + [last], key) == Some(v)
    ensures forall k :: k != key ==> Lookup(p + [last], k) == Lookup(init + [last], k)
    ensures KeysOf(p + [last]) == KeysOf(init + [last])
  {
    Snoc(init, last);
    Snoc(p, last);
  }

  /** Appending one member: its key comes last and it shadows earlier members of that name. */
  lemma Snoc(ms: Members, m: Member)
    ensures KeysOf(ms + [m]) == KeysOf(ms) + [m.key]
    ensures forall k :: Lookup(ms + [m], k) == if k == m.key then Some(m.value) else Lookup(ms, k)
  {
    assert (ms + [m])[..|ms|] == ms;
  }

  /** Putting the same key twice leaves only the second value: `{...{...o, k: v1}, k: v2}` is `{...o, k: v2}`. */
  lemma {:induction false} PutPut(ms: Members, key: string, v1: Json, v2: Json)
    ensures Put(Put(ms, key, v1), key, v2) == Put(ms, key, v2)
  {
    if key in KeysOf(ms) {
      var init, last := ms[..|ms| - 1], ms[|ms| - 1];
      assert ms == init + [last];
      Snoc(init, last);
      if last.key != key {
        PutPut(init, key, v1, v2);
        var r1 := Put(init, key, v1) + [last];
        assert r1[..|r1| - 1] == Put(init, key, v1);
        Snoc(Put(init, key, v1), last);
      } else {
        var r1 := init + [Member(key, v1)];
        assert r1[..|r1| - 1] == init;
        Snoc(init, Member(key, v1));
      }
    } else {
      var r1 := ms + [Member(key, v1)];
      assert r1[..|r1| - 1] == ms;
      Snoc(ms, Member(key, v1));
    }
  }

  /** `{...target, ...source}`: every member of `source`, in order, put over `target`. */
  function Spread(target: Members, source: Members): (r: Members)
    ensures forall k :: Lookup(r, k) == if k in KeysOf(source) then Lookup(source, k) else Lookup(target, k)
  {
    if source == [] then target
    else
      var init, last := source[..|source| - 1], source[|source| - 1];
      assert KeysOf(source) == KeysOf(init) + [last.key];
      Put(Spread(target, init), last.key, last.value)
  }

  /** JavaScript truthiness: `null`, `false`, `0` and `""` are falsy; every array and object is truthy. */
  predicate JsTruthy(v: Json) {
    match v
    case JNull => false
    case JBool(b) => b
    case JNum(n) => n != 0
    case JStr(s) => s != ""
    case JArr(_) => true
    case JObj(_) => true
  }

  /** Truthiness of a property read, where a missing property is `undefined` and falsy. */
  predicate JsTruthyOpt(o: Option<Json>) {
    o.Some? && JsTruthy(o.value)
  }

  /** Python truthiness: `None`, `False`, `0`, and empty strings, lists and dicts are falsy. */
  predicate PyTruthy(v: Json) {
    match v
    case JNull => false
    case JBool(b) => b
    case JNum(n) => n != 0
    case JStr(s) => s != ""
    case JArr(xs) => xs != []
    case JObj(ms) => ms != []
  }
}
