/** JSON values as the handlers see them after `JSON.parse`, with JavaScript's
    truthiness, property access and property assignment. */
module JsonData {
  import opened Wrappers

  datatype Json =
    | JNull
    | JBool(b: bool)
    | JNum(n: real)
    | JStr(s: string)
    | JArr(items: seq<Json>)
    | JObj(entries: seq<(string, Json)>)

  /** JavaScript truthiness: null, false, 0 and '' are falsy, everything else is truthy
      (arrays and objects even when empty). */
  predicate Truthy(j: Json) {
    match j
    case JNull => false
    case JBool(b) => b
    case JNum(n) => n != 0.0
    case JStr(s) => s != ""
    case _ => true
  }

  /** A property that is missing (undefined) is falsy too. */
  predicate TruthyOpt(v: Option<Json>) {
    v.Some? && Truthy(v.value)
  }

  /** `v || d` */
  function Or(v: Option<Json>, d: Json): (r: Json)
    ensures TruthyOpt(v) ==> r == v.value
    ensures !TruthyOpt(v) ==> r == d
  {
    if TruthyOpt(v) then v.value else d
  }

  /** `v ?? d`: only undefined and null are replaced. */
  function Nullish(v: Option<Json>, d: Json): (r: Json)
    ensures (v.None? || v.value.JNull?) ==> r == d
    ensures (v.Some? && !v.value.JNull?) ==> r == v.value
  {
    if v.Some? && !v.value.JNull? then v.value else d
  }

  /** The value of the first entry with key `k`. */
  function Lookup(entries: seq<(string, Json)>, k: string): (r: Option<Json>)
  {
    if entries == [] then None
    else if entries[0].0 == k then Some(entries[0].1)
    else Lookup(entries[1..], k)
  }

  /** `obj[k]` for a value that is not null: only objects have own properties here. */
  function Get(j: Json, k: string): (r: Option<Json>)
    ensures !j.JObj? ==> r.None?
  {
    if j.JObj? then Lookup(j.entries, k) else None
  }

  predicate HasKey(j: Json, k: string) {
    j.JObj? && exists i :: 0 <= i < |j.entries| && j.entries[i].0 == k
  }

  /** `obj[k] = v` on an object's entries: an existing key keeps its position, a new
      key is appended. */
  function SetEntry(entries: seq<(string, Json)>, k: string, v: Json): (r: seq<(string, Json)>)
    ensures Lookup(r, k) == Some(v)
    ensures forall k' :: k' != k ==> Lookup(r, k') == Lookup(entries, k')
  {
    if entries == [] then [(k, v)]
    else if entries[0].0 == k then [(k, v)] + entries[1..]
    else [entries[0]] + SetEntry(entries[1..], k, v)
  }

  function StrArray(xs: seq<string>): (r: Json)
    ensures r.JArr? && |r.items| == |xs|
    ensures forall i :: 0 <= i < |xs| ==> r.items[i] == JStr(xs[i])
  {
    JArr(seq(|xs|, i requires 0 <= i < |xs| => JStr(xs[i])))
  }

  /** Looking a key up in two runs of entries: the first run takes precedence. */
  lemma {:induction false} LookupAppend(a: seq<(string, Json)>, b: seq<(string, Json)>, key: string)
    ensures Lookup(a + b, key) == if Lookup(a, key).Some? then Lookup(a, key) else Lookup(b, key)
  {
    if a != [] {
      assert (a + b)[1..] == a[1..] + b;
      LookupAppend(a[1..], b, key);
    } else {
      assert a + b == b;
    }
  }

  /** An entry whose key no earlier entry has is the one a lookup finds. */
  lemma {:induction false} LookupAt(entries: seq<(string, Json)>, i: nat)
    requires i < |entries|
    requires forall k :: 0 <= k < i ==> entries[k].0 != entries[i].0
    ensures Lookup(entries, entries[i].0) == Some(entries[i].1)
  {
    if i > 0 {
      LookupAt(entries[1..], i - 1);
    }
  }

  /** One step of a lookup on an entry list written out as a display. */
  lemma LookupCons(e: (string, Json), rest: seq<(string, Json)>, k: string)
    ensures Lookup([e] + rest, k) == if e.0 == k then Some(e.1) else Lookup(rest, k)
  {
    assert ([e] + rest)[1..] == rest;
  }
}
