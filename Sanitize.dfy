/** The privacy sanitiser of web/src/lib/sanitize.ts: before resume content is sent to
    a language model, identity and contact keys are deleted at every depth and school
    and employer strings are replaced by fixed placeholders. */
module Sanitize {
  import opened Text
  import opened JsonData
  import opened Wrappers

  const SchoolPlaceholder: string := "某大学"
  const CompanyPlaceholder: string := "某企业"

  const NameKeys: seq<string> := ["name", "full_name", "realname"]
  const ContactKeys: seq<string> := ["phone", "mobile", "tel", "email"]

  /** A key that is deleted: its lower-case form is exactly one of the name or contact keys. */
  predicate IsSensitiveKey(key: string) {
    var lower := ToLower(key);
    lower in NameKeys || lower in ContactKeys
  }

  predicate IsSchoolKey(key: string) {
    Contains(ToLower(key), "school")
  }

  predicate IsCompanyKey(key: string) {
    var lower := ToLower(key);
    Contains(lower, "company") || Contains(lower, "employer") || Contains(lower, "organization")
  }

  /** What a kept key ends up holding: a string under a company key becomes the company
      placeholder (this rule is applied last, so it wins over the school rule), a string
      under a school key the school placeholder; any other value is sanitised in turn. */
  function SanitizedValue(key: string, v: Json): Json
    decreases v, 2
  {
    if v.JStr? && IsCompanyKey(key) then JStr(CompanyPlaceholder)
    else if v.JStr? && IsSchoolKey(key) then JStr(SchoolPlaceholder)
    else Sanitized(v)
  }

  /** The sanitised form of a JSON value: arrays are sanitised element by element, objects
      key by key; other values are unchanged. */
  function Sanitized(j: Json): Json
    decreases j, 1
  {
    match j
    case JArr(xs) => JArr(seq(|xs|, i requires 0 <= i < |xs| => Sanitized(xs[i])))
    case JObj(kvs) => JObj(SanitizedEntries(j, |kvs|))
    case _ => j
  }

  /** The first `n` entries of object `obj`, sanitised: sensitive keys dropped, the
      others kept in order with their sanitised values. */
  function SanitizedEntries(obj: Json, n: nat): seq<(string, Json)>
    requires obj.JObj? && n <= |obj.entries|
    decreases obj, 0, n
  {
    if n == 0 then []
    else
      var (key, v) := obj.entries[n - 1];
      SanitizedEntries(obj, n - 1) + (if IsSensitiveKey(key) then [] else [(key, SanitizedValue(key, v))])
  }

  /** `removeSensitive` on a value: objects are walked key by key in a loop, and every
      array and object value found is walked recursively. */
  method RemoveSensitive(j: Json) returns (r: Json)
    ensures r == Sanitized(j)
    decreases j
  {
    match j {
      case JObj(kvs) =>
        var out: seq<(string, Json)> := [];
        var i := 0;
        while i < |kvs|
          invariant 0 <= i <= |kvs|
          invariant out == SanitizedEntries(j, i)
        {
          var (key, v) := kvs[i];
          var lower := ToLower(key);
          assert IsSensitiveKey(key) <==> lower in NameKeys || lower in ContactKeys;
          if lower in NameKeys || lower in ContactKeys {
            i := i + 1;
            continue;
          }
          var nv := v;
          if Contains(lower, "school") && v.JStr? {
            nv := JStr(SchoolPlaceholder);
          }
          if (Contains(lower, "company") || Contains(lower, "employer") || Contains(lower, "organization")) && v.JStr? {
            nv := JStr(CompanyPlaceholder);
          }
          if v.JArr? || v.JObj? {
            nv := RemoveSensitive(v);
          }
          assert nv == SanitizedValue(key, v);
          out := out + [(key, nv)];
          i := i + 1;
        }
        assert kvs == j.entries;
        r := JObj(out);
      case JArr(xs) =>
        var out: seq<Json> := [];
        var i := 0;
        while i < |xs|
          invariant 0 <= i <= |xs|
          invariant |out| == i
          invariant forall k :: 0 <= k < i ==> out[k] == Sanitized(xs[k])
        {
          var e := RemoveSensitive(xs[i]);
          out := out + [e];
          i := i + 1;
        }
        r := JArr(out);
      case _ =>
        r := j;
    }
  }

  /** `sanitizeResume`: the content is cloned (the caller's value is never changed) and
      the clone is sanitised. */
  method SanitizeResume(content: Json) returns (r: Json)
    ensures r == Sanitized(content)
  {
    var cloned := content;
    r := RemoveSensitive(cloned);
  }

  /** No object at any depth has a sensitive key. */
  predicate NoSensitiveKeys(j: Json)
    decreases j
  {
    match j
    case JArr(xs) => forall i :: 0 <= i < |xs| ==> NoSensitiveKeys(xs[i])
    case JObj(kvs) => forall i :: 0 <= i < |kvs| ==> !IsSensitiveKey(kvs[i].0) && NoSensitiveKeys(kvs[i].1)
    case _ => true
  }

  /** No sensitive key survives sanitising, at any depth. */
  lemma {:induction false} SanitizedHasNoSensitiveKeys(j: Json)
    ensures NoSensitiveKeys(Sanitized(j))
    decreases j, 1
  {
    match j
    case JArr(xs) =>
      forall i | 0 <= i < |xs| ensures NoSensitiveKeys(Sanitized(xs[i])) {
        SanitizedHasNoSensitiveKeys(xs[i]);
      }
    case JObj(kvs) =>
      EntriesHaveNoSensitiveKeys(j, |kvs|);
      assert Sanitized(j) == JObj(SanitizedEntries(j, |kvs|));
    case _ =>
  }

  lemma {:induction false} EntriesHaveNoSensitiveKeys(obj: Json, n: nat)
    requires obj.JObj? && n <= |obj.entries|
    ensures var e := SanitizedEntries(obj, n);
      forall i :: 0 <= i < |e| ==> !IsSensitiveKey(e[i].0) && NoSensitiveKeys(e[i].1)
    decreases obj, 0, n
  {
    if n > 0 {
      EntriesHaveNoSensitiveKeys(obj, n - 1);
      var (key, v) := obj.entries[n - 1];
      if !IsSensitiveKey(key) {
        ValueHasNoSensitiveKeys(key, v);
        assert SanitizedEntries(obj, n) == SanitizedEntries(obj, n - 1) + [(key, SanitizedValue(key, v))];
      } else {
        assert SanitizedEntries(obj, n) == SanitizedEntries(obj, n - 1);
      }
    }
  }

  lemma {:induction false} ValueHasNoSensitiveKeys(key: string, v: Json)
    ensures NoSensitiveKeys(SanitizedValue(key, v))
    decreases v, 2
  {
    if !(v.JStr? && (IsCompanyKey(key) || IsSchoolKey(key))) {
      SanitizedHasNoSensitiveKeys(v);
    }
  }

  /** What happens to one key of an object: a sensitive key is gone; any other key holds
      its sanitised value. */
  lemma {:induction false} SanitizedLookup(kvs: seq<(string, Json)>, key: string)
    ensures IsSensitiveKey(key) ==> Get(Sanitized(JObj(kvs)), key).None?
    ensures !IsSensitiveKey(key) ==>
      Get(Sanitized(JObj(kvs)), key) ==
        (if Lookup(kvs, key).Some? then Some(SanitizedValue(key, Lookup(kvs, key).value)) else None)
  {
    EntriesLookup(JObj(kvs), |kvs|, key);
    assert kvs[..|kvs|] == kvs;
  }

  lemma {:induction false} EntriesLookup(obj: Json, n: nat, key: string)
    requires obj.JObj? && n <= |obj.entries|
    ensures IsSensitiveKey(key) ==> Lookup(SanitizedEntries(obj, n), key).None?
    ensures !IsSensitiveKey(key) ==>
      Lookup(SanitizedEntries(obj, n), key) ==
        (if Lookup(obj.entries[..n], key).Some? then Some(SanitizedValue(key, Lookup(obj.entries[..n], key).value)) else None)
  {
    if n > 0 {
      EntriesLookup(obj, n - 1, key);
      var (k, v) := obj.entries[n - 1];
      var prefix := obj.entries[..n - 1];
      assert obj.entries[..n] == prefix + [(k, v)];
      var tail := if IsSensitiveKey(k) then [] else [(k, SanitizedValue(k, v))];
      LookupAppend(SanitizedEntries(obj, n - 1), tail, key);
      LookupAppend(prefix, [(k, v)], key);
    }
  }

  /** Sanitising twice is the same as sanitising once, so content and its sanitised form
      produce the same cache key. */
  lemma {:induction false} SanitizedIdempotent(j: Json)
    ensures Sanitized(Sanitized(j)) == Sanitized(j)
    decreases j, 1
  {
    match j
    case JArr(xs) =>
      var ys := Sanitized(j).items;
      forall i | 0 <= i < |xs| ensures Sanitized(ys[i]) == ys[i] {
        SanitizedIdempotent(xs[i]);
      }
    case JObj(kvs) =>
      EntriesIdempotent(j, |kvs|);
    case _ =>
  }

  lemma {:induction false} EntriesIdempotent(obj: Json, n: nat)
    requires obj.JObj? && n <= |obj.entries|
    ensures var e := SanitizedEntries(obj, n);
      SanitizedEntries(JObj(e), |e|) == e
    decreases obj, 0, n
  {
    if n > 0 {
      var e0 := SanitizedEntries(obj, n - 1);
      EntriesIdempotent(obj, n - 1);
      var (key, v) := obj.entries[n - 1];
      var e := SanitizedEntries(obj, n);
      if !IsSensitiveKey(key) {
        ValueIdempotent(key, v);
        assert e == e0 + [(key, SanitizedValue(key, v))];
        EntriesPrefix(e, |e0|);
      } else {
        assert e == e0;
      }
    }
  }

  /** Re-sanitising an object whose first `m` entries are a known object's entries. */
  lemma {:induction false} EntriesPrefix(e: seq<(string, Json)>, m: nat)
    requires m < |e|
    requires SanitizedEntries(JObj(e[..m]), m) == e[..m]
    requires !IsSensitiveKey(e[m].0) && SanitizedValue(e[m].0, e[m].1) == e[m].1
    requires m + 1 == |e|
    ensures SanitizedEntries(JObj(e), |e|) == e
  {
    EntriesAgree(e, e[..m], m);
    assert e[..m] + [e[m]] == e;
  }

  /** Two objects that agree on their first `m` entries agree on those entries sanitised. */
  lemma {:induction false} EntriesAgree(a: seq<(string, Json)>, b: seq<(string, Json)>, m: nat)
    requires m <= |a| && m <= |b| && a[..m] == b[..m]
    ensures SanitizedEntries(JObj(a), m) == SanitizedEntries(JObj(b), m)
  {
    if m > 0 {
      assert a[..m - 1] == a[..m][..m - 1] == b[..m][..m - 1] == b[..m - 1];
      assert a[m - 1] == a[..m][m - 1] == b[..m][m - 1] == b[m - 1];
      EntriesAgree(a, b, m - 1);
    }
  }

  lemma {:induction false} ValueIdempotent(key: string, v: Json)
    ensures SanitizedValue(key, SanitizedValue(key, v)) == SanitizedValue(key, v)
    decreases v, 2
  {
    if !(v.JStr? && (IsCompanyKey(key) || IsSchoolKey(key))) {
      SanitizedIdempotent(v);
    }
  }

  const ExamplePersonal: Json := JObj([("full_name", JStr("张三")), ("phone", JStr("123")), ("email", JStr("a@b.com"))])
  const ExampleSchool: Json := JObj([("school", JStr("ABC大学"))])
  const ExampleCompany: Json := JObj([("company", JStr("Acme Inc"))])
  const ExampleResume: Json :=
    JObj([("personal", ExamplePersonal), ("education", JArr([ExampleSchool])), ("experience", JArr([ExampleCompany]))])

  /** The repository's own unit test: name, phone and email are gone, the school and
      the company are placeholders. */
  lemma SanitizeExample()
    ensures Get(Sanitized(ExampleResume), "personal") == Some(Sanitized(ExamplePersonal))
    ensures Get(Sanitized(ExamplePersonal), "full_name").None?
    ensures Get(Sanitized(ExamplePersonal), "phone").None?
    ensures Get(Sanitized(ExamplePersonal), "email").None?
    ensures Get(Sanitized(ExampleResume), "education") == Some(JArr([Sanitized(ExampleSchool)]))
    ensures Get(Sanitized(ExampleSchool), "school") == Some(JStr(SchoolPlaceholder))
    ensures Get(Sanitized(ExampleResume), "experience") == Some(JArr([Sanitized(ExampleCompany)]))
    ensures Get(Sanitized(ExampleCompany), "company") == Some(JStr(CompanyPlaceholder))
  {
    ExampleKeys();
    ExampleTop();
    SanitizedLookup(ExamplePersonal.entries, "full_name");
    SanitizedLookup(ExamplePersonal.entries, "phone");
    SanitizedLookup(ExamplePersonal.entries, "email");
    SanitizedLookup(ExampleSchool.entries, "school");
    SanitizedLookup(ExampleCompany.entries, "company");
  }

  lemma ExampleTop()
    ensures Get(Sanitized(ExampleResume), "personal") == Some(Sanitized(ExamplePersonal))
    ensures Get(Sanitized(ExampleResume), "education") == Some(JArr([Sanitized(ExampleSchool)]))
    ensures Get(Sanitized(ExampleResume), "experience") == Some(JArr([Sanitized(ExampleCompany)]))
  {
    ExampleKeys();
    var top := ExampleResume.entries;
    SanitizedLookup(top, "personal");
    SanitizedLookup(top, "education");
    SanitizedLookup(top, "experience");
    LookupAt(top, 1);
    LookupAt(top, 2);
    SingletonArray(ExampleSchool);
    SingletonArray(ExampleCompany);
  }

  lemma SingletonArray(x: Json)
    ensures Sanitized(JArr([x])) == JArr([Sanitized(x)])
  {
    var r := Sanitized(JArr([x]));
    assert r.items[0] == Sanitized(x);
  }

  /** How the rules classify the keys of the unit test. */
  lemma ExampleKeys()
    ensures IsSensitiveKey("full_name") && IsSensitiveKey("phone") && IsSensitiveKey("email")
    ensures !IsSensitiveKey("personal") && !IsSensitiveKey("education") && !IsSensitiveKey("experience")
    ensures !IsSensitiveKey("school") && IsSchoolKey("school") && !IsCompanyKey("school")
    ensures !IsSensitiveKey("company") && IsCompanyKey("company")
  {
    KeyIsSensitive("full_name");
    KeyIsSensitive("phone");
    KeyIsSensitive("email");
    KeyIsKept("personal");
    KeyIsKept("education");
    KeyIsKept("experience");
    KeyIsKept("school");
    KeyIsKept("company");
    SchoolKeyOnly();
    CompanyKey();
  }

  lemma SchoolKeyOnly()
    ensures IsSchoolKey("school") && !IsCompanyKey("school")
  {
    LowerOfLowerCase("school");
    ShorterNotContains("school", "company");
    ShorterNotContains("school", "employer");
    ShorterNotContains("school", "organization");
    assert StartsWith("school", "school");
  }

  lemma CompanyKey()
    ensures IsCompanyKey("company")
  {
    LowerOfLowerCase("company");
    assert StartsWith("company", "company");
  }

  lemma KeyIsSensitive(k: string)
    requires k in NameKeys || k in ContactKeys
    ensures IsSensitiveKey(k)
  {
    LowerOfLowerCase(k);
  }

  lemma KeyIsKept(k: string)
    requires forall i :: 0 <= i < |k| ==> 'a' <= k[i] <= 'z'
    requires k !in NameKeys && k !in ContactKeys
    ensures !IsSensitiveKey(k)
  {
    LowerOfLowerCase(k);
  }

  lemma LowerOfLowerCase(s: string)
    requires forall i :: 0 <= i < |s| ==> !('A' <= s[i] <= 'Z')
    ensures ToLower(s) == s
  {
  }

  lemma {:induction false} ShorterNotContains(s: string, p: string)
    requires |s| < |p|
    ensures !Contains(s, p)
    decreases |s|
  {
    if |s| > 0 {
      ShorterNotContains(s[1..], p);
    }
  }
}
