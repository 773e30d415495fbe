/** The JD-match normaliser of web/lib/chinese-key-mapper.ts: a model response whose
    keys are Chinese is mapped onto the English JD-match record, list fields are coerced
    to arrays, and every path ends in a record with all four fields. */
module ChineseKeyMapper {
  import opened Wrappers
  import opened Text
  import opened JsonData
  import opened AiSchema

  const ScoreKey: string := "匹配得分"
  const StrengthsKey: string := "优势"
  const GapsKey: string := "差距"
  const RecommendationsKey: string := "优化建议"
  const ChineseKeys: seq<string> := [ScoreKey, StrengthsKey, GapsKey, RecommendationsKey]

  /** `hasChineseKeys`: false for falsy values and non-objects; otherwise true when one
      of the four Chinese keys is a property (arrays have none of them). */
  predicate HasChineseKeys(j: Json) {
    if !Truthy(j) || !(j.JObj? || j.JArr?) then false
    else exists k :: k in ChineseKeys && HasKey(j, k)
  }

  /** `ensureArray`: an array is kept, a non-empty string becomes a one-element array,
      anything else (including a missing value) becomes `[]`. */
  function EnsureArray(v: Option<Json>): (r: Json)
    ensures r.JArr?
    ensures v.Some? && v.value.JArr? ==> r == v.value
    ensures v.Some? && v.value.JStr? && v.value.s != "" ==> r == JArr([v.value])
    ensures !(v.Some? && (v.value.JArr? || (v.value.JStr? && v.value.s != ""))) ==> r == JArr([])
  {
    if v.Some? && v.value.JArr? then v.value
    else if v.Some? && v.value.JStr? && v.value.s != "" then JArr([v.value])
    else JArr([])
  }

  /** `mapChineseKeysToEnglish` */
  function MapChineseKeysToEnglish(j: Json): (r: JDMatch)
    ensures r.match_score == (if TruthyOpt(Get(j, ScoreKey)) then Get(j, ScoreKey).value else JNum(0.0))
    ensures r.strengths.JArr? && r.gaps.JArr? && r.recommendations.JArr?
  {
    JDMatch(
      Or(Get(j, ScoreKey), JNum(0.0)),
      EnsureArray(Get(j, StrengthsKey)),
      EnsureArray(Get(j, GapsKey)),
      EnsureArray(Get(j, RecommendationsKey)))
  }

  const Fallback: JDMatch := JDMatch(JNum(0.0), JArr([]), JArr([]), JArr([]))

  /** The field `k` when it is an array, `[]` otherwise. */
  function ArrayOr(j: Json, k: string): (r: Json)
    ensures r.JArr?
  {
    var v := Get(j, k);
    if v.Some? && v.value.JArr? then v.value else JArr([])
  }

  /** `normalizeJDMatchResponse` */
  function NormalizeJDMatchResponse(j: Json): JDMatch {
    if !HasChineseKeys(j) then
      match ParseJDMatch(j)
      case Some(data) => data
      case None =>
        if Truthy(j) && (j.JObj? || j.JArr?) then
          JDMatch(Nullish(Get(j, "match_score"), JNum(0.0)), ArrayOr(j, "strengths"), ArrayOr(j, "gaps"),
                  ArrayOr(j, "recommendations"))
        else Fallback
    else
      var english := MapChineseKeysToEnglish(j);
      match ParseJDMatch(JDMatchToJson(english))
      case Some(data) => data
      case None =>
        var e := JDMatchToJson(english);
        JDMatch(Or(Get(e, "match_score"), JNum(0.0)), Or(Get(e, "strengths"), JArr([])),
                Or(Get(e, "gaps"), JArr([])), Or(Get(e, "recommendations"), JArr([])))
  }

  /** The shape every path of the normaliser guarantees: all three list fields are arrays
      and the score is never null. */
  predicate WellShaped(m: JDMatch) {
    !m.match_score.JNull? && m.strengths.JArr? && m.gaps.JArr? && m.recommendations.JArr?
  }

  lemma JDMatchToJsonFields(m: JDMatch)
    ensures Get(JDMatchToJson(m), "match_score") == Some(m.match_score)
    ensures Get(JDMatchToJson(m), "strengths") == Some(m.strengths)
    ensures Get(JDMatchToJson(m), "gaps") == Some(m.gaps)
    ensures Get(JDMatchToJson(m), "recommendations") == Some(m.recommendations)
    ensures !HasChineseKeys(JDMatchToJson(m))
  {
    var e := JDMatchToJson(m).entries;
    LookupAt(e, 0);
    LookupAt(e, 1);
    LookupAt(e, 2);
    LookupAt(e, 3);
    forall k | k in ChineseKeys ensures !HasKey(JDMatchToJson(m), k) {
      assert forall i :: 0 <= i < |e| ==> e[i].0 != k;
    }
  }

  /** With a Chinese key present the English keys are ignored: the result is exactly the
      mapped Chinese fields, whether or not they pass the schema. */
  lemma ChinesePathIsMapping(j: Json)
    requires HasChineseKeys(j)
    ensures NormalizeJDMatchResponse(j) == MapChineseKeysToEnglish(j)
  {
    var english := MapChineseKeysToEnglish(j);
    JDMatchToJsonFields(english);
    JDMatchRoundTrip(english);
  }

  /** Every path of the normaliser returns a well-shaped record. */
  lemma NormalizeWellShaped(j: Json)
    ensures WellShaped(NormalizeJDMatchResponse(j))
  {
    if HasChineseKeys(j) {
      ChinesePathIsMapping(j);
    }
  }

  /** English-keyed input that satisfies the schema comes back as the validated data. */
  lemma ValidEnglishKept(j: Json)
    requires !HasChineseKeys(j) && ValidJDMatch(j)
    ensures NormalizeJDMatchResponse(j) == ParseJDMatch(j).value
    ensures NormalizeJDMatchResponse(j).match_score == Get(j, "match_score").value
    ensures NormalizeJDMatchResponse(j).strengths == Get(j, "strengths").value
  {
  }

  /** English-keyed input failing the schema: missing or null score becomes 0, non-array
      lists become `[]`, and a value that is not an object yields the all-empty record. */
  lemma InvalidEnglishRepaired(j: Json)
    requires !HasChineseKeys(j) && !ValidJDMatch(j)
    ensures (j.JObj? || j.JArr?) ==>
      NormalizeJDMatchResponse(j) ==
        JDMatch(Nullish(Get(j, "match_score"), JNum(0.0)), ArrayOr(j, "strengths"), ArrayOr(j, "gaps"),
                ArrayOr(j, "recommendations"))
    ensures !(j.JObj? || j.JArr?) ==> NormalizeJDMatchResponse(j) == Fallback
  {
  }

  /** Normalising is idempotent: the JSON of a normalised record normalises to itself. */
  lemma NormalizeIdempotent(j: Json)
    ensures NormalizeJDMatchResponse(JDMatchToJson(NormalizeJDMatchResponse(j))) == NormalizeJDMatchResponse(j)
  {
    var m := NormalizeJDMatchResponse(j);
    NormalizeWellShaped(j);
    JDMatchToJsonFields(m);
    JDMatchRoundTrip(m);
  }

  // ---------------------------------------------------------------- parseChineseJSON

  /** `s.replace(/<fence>\n?/g, '')`: every occurrence of `fence`, scanning left to right,
      is removed together with one newline that directly follows it. */
  function RemoveFences(s: string, fence: string): (r: string)
    requires fence != ""
    ensures |r| <= |s|
    decreases |s|
  {
    if StartsWith(s, fence) then
      var rest := s[|fence|..];
      if rest != [] && rest[0] == '\n' then RemoveFences(rest[1..], fence) else RemoveFences(rest, fence)
    else if s == [] then []
    else [s[0]] + RemoveFences(s[1..], fence)
  }

  const Fence: string := "```"

  /** The text handed to `JSON.parse`. */
  function CleanText(s: string): string {
    Trim(RemoveFences(RemoveFences(s, "```json"), Fence))
  }

  predicate StartsWithTick(s: string) { |s| > 0 && s[0] == '`' }

  lemma {:induction false} NoTickKeepsNoTick(s: string)
    requires !StartsWithTick(s)
    ensures !StartsWithTick(RemoveFences(s, Fence))
  {
  }

  /** After a tick that does not open a fence, what remains does not start with two ticks. */
  lemma {:induction false} LoneTick(s: string)
    requires StartsWithTick(s) && !StartsWith(s, Fence)
    ensures !StartsWith(RemoveFences(s[1..], Fence), "``")
  {
    var t := s[1..];
    if StartsWithTick(t) {
      assert !StartsWith(t, Fence) by {
        assert !(|s| >= 3 && s[1] == '`' && s[2] == '`');
      }
      NoTickKeepsNoTick(t[1..]);
      var u := RemoveFences(t[1..], Fence);
      var r := RemoveFences(t, Fence);
      assert r == [t[0]] + u;
      assert |r| >= 2 ==> r[..2][1] == u[0] != '`';
    } else {
      NoTickKeepsNoTick(t);
    }
  }

  /** No fence survives the second pass. */
  lemma {:induction false} NoFenceLeft(s: string)
    ensures !Contains(RemoveFences(s, Fence), Fence)
    decreases |s|
  {
    if StartsWith(s, Fence) {
      var rest := s[|Fence|..];
      if rest != [] && rest[0] == '\n' { NoFenceLeft(rest[1..]); } else { NoFenceLeft(rest); }
    } else if s != [] {
      NoFenceLeft(s[1..]);
      var r := RemoveFences(s, Fence);
      var t := RemoveFences(s[1..], Fence);
      assert r == [s[0]] + t && r[1..] == t;
      if s[0] == '`' {
        LoneTick(s);
      }
    }
  }

  /** The cleaned text holds no code fence and starts and ends with a non-space. */
  lemma CleanTextHasNoFence(s: string)
    ensures !Contains(CleanText(s), Fence)
    ensures CleanText(s) == [] || (!IsSpace(CleanText(s)[0]) && !IsSpace(CleanText(s)[|CleanText(s)| - 1]))
  {
    var x := RemoveFences(RemoveFences(s, "```json"), Fence);
    NoFenceLeft(RemoveFences(s, "```json"));
    TrimIsSlice(x);
    var a, b :| 0 <= a <= b <= |x| && Trim(x) == x[a..b] && AllSpace(x[..a]) && AllSpace(x[b..]);
    SubstringContains(x, a, b, Fence);
  }

  /** `parseChineseJSON`, with `JSON.parse` given as `parse` (None when it throws):
      a parse failure yields the all-empty record, anything else is normalised. */
  function ParseChineseJson(s: string, parse: string -> Option<Json>): (r: JDMatch)
    ensures parse(CleanText(s)).None? ==> r == Fallback
    ensures parse(CleanText(s)).Some? ==> r == NormalizeJDMatchResponse(parse(CleanText(s)).value)
    ensures WellShaped(r)
  {
    match parse(CleanText(s))
    case None => Fallback
    case Some(parsed) =>
      NormalizeWellShaped(parsed);
      NormalizeJDMatchResponse(parsed)
  }
}
