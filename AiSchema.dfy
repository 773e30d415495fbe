/** The two response schemas of web/types/ai.ts, as validity predicates over JSON, with
    the typed records a successful `safeParse` yields and their JSON forms. */
module AiSchema {
  import opened Wrappers
  import opened JsonData

  /** `z.number().min(0).max(100)` */
  predicate IsScore(j: Json) {
    j.JNum? && 0.0 <= j.n <= 100.0
  }

  /** `z.array(z.string())` */
  predicate IsStringArray(j: Json) {
    j.JArr? && forall i :: 0 <= i < |j.items| ==> j.items[i].JStr?
  }

  function Strings(j: Json): (r: seq<string>)
    requires IsStringArray(j)
    ensures StrArray(r) == j
  {
    var r := seq(|j.items|, i requires 0 <= i < |j.items| => j.items[i].s);
    assert StrArray(r).items == j.items;
    r
  }

  /** The property `k` is present and is a score. */
  predicate ScoreField(j: Json, k: string) {
    Get(j, k).Some? && IsScore(Get(j, k).value)
  }

  /** The property `k` is present and is an array of strings. */
  predicate StringsField(j: Json, k: string) {
    Get(j, k).Some? && IsStringArray(Get(j, k).value)
  }

  // ---------------------------------------------------------------- JD match

  /** A JD-match record; the fields are JSON because the normaliser's fallbacks may
      carry values of any type. */
  datatype JDMatch = JDMatch(match_score: Json, strengths: Json, gaps: Json, recommendations: Json)

  /** `JDMatchSchema` holds of a JSON value. */
  predicate ValidJDMatch(j: Json) {
    j.JObj? &&
    ScoreField(j, "match_score") &&
    StringsField(j, "strengths") &&
    StringsField(j, "gaps") &&
    StringsField(j, "recommendations")
  }

  /** `JDMatchSchema` holds of a record. */
  predicate IsValidJDMatch(m: JDMatch) {
    IsScore(m.match_score) && IsStringArray(m.strengths) && IsStringArray(m.gaps) &&
    IsStringArray(m.recommendations)
  }

  function JDMatchToJson(m: JDMatch): Json {
    JObj([("match_score", m.match_score), ("strengths", m.strengths), ("gaps", m.gaps),
          ("recommendations", m.recommendations)])
  }

  /** `JDMatchSchema.safeParse`: the four declared fields when the schema holds (keys the
      schema does not declare are dropped), no data otherwise. */
  function ParseJDMatch(j: Json): (r: Option<JDMatch>)
    ensures r.Some? <==> ValidJDMatch(j)
    ensures r.Some? ==> IsValidJDMatch(r.value)
  {
    if ValidJDMatch(j) then
      Some(JDMatch(Get(j, "match_score").value, Get(j, "strengths").value, Get(j, "gaps").value,
                   Get(j, "recommendations").value))
    else None
  }

  /** A record is accepted back exactly when it is valid, and then unchanged. */
  lemma JDMatchRoundTrip(m: JDMatch)
    ensures ParseJDMatch(JDMatchToJson(m)) == (if IsValidJDMatch(m) then Some(m) else None)
  {
    var j := JDMatchToJson(m);
    var e := j.entries;
    LookupAt(e, 0);
    LookupAt(e, 1);
    LookupAt(e, 2);
    LookupAt(e, 3);
    assert Get(j, "match_score") == Some(m.match_score);
    assert Get(j, "strengths") == Some(m.strengths);
    assert Get(j, "gaps") == Some(m.gaps);
    assert Get(j, "recommendations") == Some(m.recommendations);
    assert ValidJDMatch(j) <==> IsValidJDMatch(m);
  }

  // ---------------------------------------------------------------- resume analysis

  datatype Scores = Scores(content_completeness: real, structure: real, expression: real)

  datatype ResumeAnalysis = ResumeAnalysis(
    overall_score: real,
    scores: Scores,
    missing_sections: seq<string>,
    completeness_recommendations: seq<string>,
    structure_recommendations: seq<string>,
    rewrite_examples: seq<string>)

  predicate InRange(x: real) { 0.0 <= x <= 100.0 }

  /** The constraints `ResumeAnalysisSchema` puts on a typed record: every score in [0, 100]. */
  predicate IsValidAnalysis(a: ResumeAnalysis) {
    InRange(a.overall_score) && InRange(a.scores.content_completeness) &&
    InRange(a.scores.structure) && InRange(a.scores.expression)
  }

  predicate ValidScores(j: Json) {
    j.JObj? && ScoreField(j, "content_completeness") && ScoreField(j, "structure") &&
    ScoreField(j, "expression")
  }

  predicate ValidCompleteness(j: Json) {
    j.JObj? && StringsField(j, "missing_sections") && StringsField(j, "recommendations")
  }

  predicate ValidStructure(j: Json) {
    j.JObj? && StringsField(j, "recommendations")
  }

  predicate ValidExpression(j: Json) {
    j.JObj? && StringsField(j, "rewrite_examples")
  }

  /** `ResumeAnalysisSchema` holds of a JSON value. */
  predicate ValidResumeAnalysis(j: Json) {
    j.JObj? &&
    ScoreField(j, "overall_score") &&
    Get(j, "scores").Some? && ValidScores(Get(j, "scores").value) &&
    Get(j, "content_completeness").Some? && ValidCompleteness(Get(j, "content_completeness").value) &&
    Get(j, "structure").Some? && ValidStructure(Get(j, "structure").value) &&
    Get(j, "expression").Some? && ValidExpression(Get(j, "expression").value)
  }

  function Num(j: Json, k: string): real
    requires ScoreField(j, k)
  {
    Get(j, k).value.n
  }

  function Strs(j: Json, k: string): seq<string>
    requires StringsField(j, k)
  {
    Strings(Get(j, k).value)
  }

  /** `ResumeAnalysisSchema.safeParse`. */
  function ParseResumeAnalysis(j: Json): (r: Option<ResumeAnalysis>)
    ensures r.Some? <==> ValidResumeAnalysis(j)
    ensures r.Some? ==> IsValidAnalysis(r.value)
  {
    if ValidResumeAnalysis(j) then
      var sc := Get(j, "scores").value;
      var cc := Get(j, "content_completeness").value;
      Some(ResumeAnalysis(
        Num(j, "overall_score"),
        Scores(Num(sc, "content_completeness"), Num(sc, "structure"), Num(sc, "expression")),
        Strs(cc, "missing_sections"),
        Strs(cc, "recommendations"),
        Strs(Get(j, "structure").value, "recommendations"),
        Strs(Get(j, "expression").value, "rewrite_examples")))
    else None
  }

  function AnalysisToJson(a: ResumeAnalysis): Json {
    JObj([
      ("overall_score", JNum(a.overall_score)),
      ("scores", JObj([("content_completeness", JNum(a.scores.content_completeness)),
                       ("structure", JNum(a.scores.structure)),
                       ("expression", JNum(a.scores.expression))])),
      ("content_completeness", JObj([("missing_sections", StrArray(a.missing_sections)),
                                     ("recommendations", StrArray(a.completeness_recommendations))])),
      ("structure", JObj([("recommendations", StrArray(a.structure_recommendations))])),
      ("expression", JObj([("rewrite_examples", StrArray(a.rewrite_examples))]))])
  }

  lemma StringsOfStrArray(xs: seq<string>)
    ensures IsStringArray(StrArray(xs)) && Strings(StrArray(xs)) == xs
  {
  }

  /** The JSON form of a valid analysis satisfies the schema and parses back to it. */
  lemma AnalysisRoundTrip(a: ResumeAnalysis)
    ensures ParseResumeAnalysis(AnalysisToJson(a)) == (if IsValidAnalysis(a) then Some(a) else None)
  {
    var j := AnalysisToJson(a);
    var e := j.entries;
    LookupAt(e, 0);
    LookupAt(e, 1);
    LookupAt(e, 2);
    LookupAt(e, 3);
    LookupAt(e, 4);
    var sc, cc, st, ex := e[1].1, e[2].1, e[3].1, e[4].1;
    assert Get(j, "overall_score") == Some(JNum(a.overall_score));
    assert Get(j, "scores") == Some(sc);
    assert Get(j, "content_completeness") == Some(cc);
    assert Get(j, "structure") == Some(st);
    assert Get(j, "expression") == Some(ex);
    ScoresRoundTrip(a.scores);
    CompletenessRoundTrip(a.missing_sections, a.completeness_recommendations);
    LookupAt(st.entries, 0);
    LookupAt(ex.entries, 0);
    StringsOfStrArray(a.structure_recommendations);
    StringsOfStrArray(a.rewrite_examples);
    assert ValidCompleteness(cc) && ValidStructure(st) && ValidExpression(ex);
    assert ValidScores(sc) <==> InRange(a.scores.content_completeness) && InRange(a.scores.structure) && InRange(a.scores.expression);
    assert ValidResumeAnalysis(j) <==> IsValidAnalysis(a);
    if IsValidAnalysis(a) {
      assert Num(j, "overall_score") == a.overall_score;
      assert Num(sc, "content_completeness") == a.scores.content_completeness;
      assert Num(sc, "structure") == a.scores.structure;
      assert Num(sc, "expression") == a.scores.expression;
      assert Strs(st, "recommendations") == a.structure_recommendations;
      assert Strs(ex, "rewrite_examples") == a.rewrite_examples;
    }
  }

  lemma ScoresRoundTrip(sc: Scores)
    ensures var o := JObj([("content_completeness", JNum(sc.content_completeness)),
                           ("structure", JNum(sc.structure)),
                           ("expression", JNum(sc.expression))]);
      Get(o, "content_completeness") == Some(JNum(sc.content_completeness)) &&
      Get(o, "structure") == Some(JNum(sc.structure)) &&
      Get(o, "expression") == Some(JNum(sc.expression))
  {
    var e := [("content_completeness", JNum(sc.content_completeness)),
              ("structure", JNum(sc.structure)),
              ("expression", JNum(sc.expression))];
    LookupAt(e, 0);
    LookupAt(e, 1);
    LookupAt(e, 2);
  }

  lemma CompletenessRoundTrip(missing: seq<string>, recs: seq<string>)
    ensures var o := JObj([("missing_sections", StrArray(missing)), ("recommendations", StrArray(recs))]);
      StringsField(o, "missing_sections") && Strs(o, "missing_sections") == missing &&
      StringsField(o, "recommendations") && Strs(o, "recommendations") == recs
  {
    var e := [("missing_sections", StrArray(missing)), ("recommendations", StrArray(recs))];
    LookupAt(e, 0);
    LookupAt(e, 1);
    StringsOfStrArray(missing);
    StringsOfStrArray(recs);
  }
}
