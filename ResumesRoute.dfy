/** The `GET` and `POST` handlers of web/app/api/resumes/route.ts: the caller's resumes
    newest first, and the creation of a resume with defaults and a template-specific
    seed content row. */
module ResumesRoute {
  import opened Wrappers
  import opened JsonData
  import opened Http
  import opened ApiAuth

  const Unauthorized: string := "Unauthorized"
  const DefaultTitle: string := "未命名简历"
  const DefaultTemplate: string := "Modern"
  const DefaultColor: string := "#2b8cee"

  // ---------------------------------------------------------------- the tables

  /** A row of `resumes`; `updatedAt` stands for `updated_at`, which the table assigns. */
  datatype ResumeRow = ResumeRow(id: nat, userId: string, title: Json, template: Json, colorTheme: Json, updatedAt: int)

  /** A row of `resume_content`. */
  datatype ContentRow = ContentRow(resumeId: nat, content: Json)

  /** The row as `select('*')` returns it. */
  function RowJson(r: ResumeRow): Json {
    JObj([("id", JNum(r.id as real)), ("user_id", JStr(r.userId)), ("title", r.title),
          ("template", r.template), ("color_theme", r.colorTheme), ("updated_at", JNum(r.updatedAt as real))])
  }

  predicate IdsFresh(rows: seq<ResumeRow>, nextId: nat) {
    (forall i :: 0 <= i < |rows| ==> rows[i].id < nextId) &&
    (forall i, j :: 0 <= i < j < |rows| ==> rows[i].id != rows[j].id)
  }

  class ResumeTables {
    var resumes: seq<ResumeRow>
    var contents: seq<ContentRow>
    var nextId: nat
    var clock: int

    ghost predicate Valid()
      reads this
    {
      IdsFresh(resumes, nextId)
    }

    constructor ()
      ensures resumes == [] && contents == [] && Valid()
    {
      resumes := [];
      contents := [];
      nextId := 0;
      clock := 0;
    }

    /** `insert({ user_id, title, template, color_theme }).select('*').single()` */
    method InsertResume(userId: string, title: Json, template: Json, colorTheme: Json) returns (row: ResumeRow)
      requires Valid()
      modifies this
      ensures Valid()
      ensures row == ResumeRow(old(nextId), userId, title, template, colorTheme, old(clock))
      ensures resumes == old(resumes) + [row] && contents == old(contents)
      ensures nextId == old(nextId) + 1 && clock == old(clock) + 1
    {
      row := ResumeRow(nextId, userId, title, template, colorTheme, clock);
      resumes := resumes + [row];
      nextId := nextId + 1;
      clock := clock + 1;
    }

    /** `insert({ resume_id, content_json })` on `resume_content` */
    method InsertContent(resumeId: nat, content: Json)
      requires Valid()
      modifies this
      ensures Valid()
      ensures contents == old(contents) + [ContentRow(resumeId, content)]
      ensures resumes == old(resumes) && nextId == old(nextId) && clock == old(clock)
    {
      contents := contents + [ContentRow(resumeId, content)];
    }
  }

  // ---------------------------------------------------------------- the seeds

  datatype Education = Education(school: string, degree: string, year: string)
  datatype Experience = Experience(company: string, role: string, from: string, to: string, highlights: seq<string>)
  datatype Project = Project(name: string, description: string, highlights: seq<string>)
  datatype Seed = Seed(fullName: string, title: string, phone: string, email: string, linkedin: string, portfolio: string,
                       summary: string, education: seq<Education>, experience: seq<Experience>, projects: seq<Project>,
                       skills: seq<string>, certificates: seq<string>)

  predicate NonEmptyLists(s: Seed) {
    |s.education| > 0 && |s.experience| > 0 && |s.projects| > 0 && |s.skills| > 0 && |s.certificates| > 0 &&
    (forall i :: 0 <= i < |s.experience| ==> |s.experience[i].highlights| > 0) &&
    (forall i :: 0 <= i < |s.projects| ==> |s.projects[i].highlights| > 0)
  }

  const ClassicSeed: Seed := Seed("张三", "产品经理", "138-0000-0000", "user@example.com", "linkedin.com/in/user", "user.dev",
    "资深产品经理，擅长跨部门协作与数据驱动决策。",
    [Education("某大学", "MBA", "2018")],
    [Experience("某企业", "产品经理", "2019", "至今", ["负责核心产品路线规划", "推动营收增长 20%"])],
    [Project("SaaS 平台优化", "提升留存与转化", ["AB 测试优化", "用户调研与需求分析"])],
    ["产品规划", "数据分析", "项目管理"], ["PMP"])

  const CreativeSeed: Seed := Seed("李四", "UI/UX 设计师", "139-0000-0000", "designer@example.com", "linkedin.com/in/designer", "designer.art",
    "热爱设计与用户体验，擅长高保真原型与动效设计。",
    [Education("某大学", "设计学学士", "2017")],
    [Experience("某企业", "高级设计师", "2020", "至今", ["重塑品牌视觉", "提升转化率 15%"])],
    [Project("移动端重设计", "打造统一设计系统", ["组件库规范", "动效准则"])],
    ["Figma", "动效", "设计系统"], ["Adobe 认证"])

  const DefaultSeed: Seed := Seed("王五", "前端工程师", "136-0000-0000", "fe@example.com", "linkedin.com/in/fe", "fe.codes",
    "专注性能与工程化，具备丰富的前端架构经验。",
    [Education("某大学", "计算机科学学士", "2016")],
    [Experience("某企业", "高级前端工程师", "2019", "至今", ["主导性能优化，LCP < 2s", "搭建组件库与规范"])],
    [Project("组件库建设", "统一 UI 与交互", ["无障碍支持", "响应式适配"])],
    ["React", "TypeScript", "性能优化"], ["前端工程实践认证"])

  /** The seed chosen by the strict comparisons `template === 'Classic'` and
      `template === 'Creative'`. */
  function SeedFor(template: Json): (s: Seed)
    ensures NonEmptyLists(s)
  {
    if template == JStr("Classic") then ClassicSeed
    else if template == JStr("Creative") then CreativeSeed
    else DefaultSeed
  }

  /** The seven top-level sections of a seed's `content_json`. */
  const Sections: seq<string> := ["personal", "summary", "education", "experience", "projects", "skills", "certificates"]

  function EducationJson(e: Education): Json {
    JObj([("school", JStr(e.school)), ("degree", JStr(e.degree)), ("year", JStr(e.year))])
  }

  function ExperienceJson(e: Experience): Json {
    JObj([("company", JStr(e.company)), ("role", JStr(e.role)), ("from", JStr(e.from)), ("to", JStr(e.to)),
          ("highlights", StrArray(e.highlights))])
  }

  function ProjectJson(p: Project): Json {
    JObj([("name", JStr(p.name)), ("description", JStr(p.description)), ("highlights", StrArray(p.highlights))])
  }

  function SeedJson(s: Seed): (j: Json)
    ensures j.JObj? && |j.entries| == |Sections|
    ensures forall i :: 0 <= i < |Sections| ==> j.entries[i].0 == Sections[i]
  {
    JObj([
      ("personal", JObj([("full_name", JStr(s.fullName)), ("title", JStr(s.title)), ("phone", JStr(s.phone)),
                         ("email", JStr(s.email)), ("linkedin", JStr(s.linkedin)), ("portfolio", JStr(s.portfolio))])),
      ("summary", JStr(s.summary)),
      ("education", JArr(seq(|s.education|, i requires 0 <= i < |s.education| => EducationJson(s.education[i])))),
      ("experience", JArr(seq(|s.experience|, i requires 0 <= i < |s.experience| => ExperienceJson(s.experience[i])))),
      ("projects", JArr(seq(|s.projects|, i requires 0 <= i < |s.projects| => ProjectJson(s.projects[i])))),
      ("skills", StrArray(s.skills)),
      ("certificates", StrArray(s.certificates))])
  }

  /** Every seed is the one its template names, with all seven sections and no empty
      list. */
  lemma SeedChoice(template: Json)
    ensures template == JStr("Classic") ==> SeedFor(template) == ClassicSeed
    ensures template == JStr("Creative") ==> SeedFor(template) == CreativeSeed
    ensures template != JStr("Classic") && template != JStr("Creative") ==> SeedFor(template) == DefaultSeed
    ensures SeedFor(JStr(DefaultTemplate)) == DefaultSeed
    ensures SeedFor(template).fullName in {"张三", "李四", "王五"}
  {
    assert DefaultTemplate != "Classic" by { assert DefaultTemplate[0] != "Classic"[0]; }
    assert DefaultTemplate != "Creative" by { assert DefaultTemplate[0] != "Creative"[0]; }
  }

  /** In a seed's `content_json`, the five list sections are non-empty arrays. */
  lemma SeedListsNonEmpty(template: Json)
    ensures var j := SeedJson(SeedFor(template));
            forall i :: 2 <= i < |Sections| ==> j.entries[i].1.JArr? && |j.entries[i].1.items| > 0
  {
  }

  // ---------------------------------------------------------------- POST

  /** `body.title || '未命名简历'`, `body.template || 'Modern'`, `body.color_theme || '#2b8cee'` */
  function Defaults(body: Json): (r: (Json, Json, Json))
    ensures Truthy(r.0) && Truthy(r.1) && Truthy(r.2)
    ensures !TruthyOpt(Get(body, "title")) ==> r.0 == JStr(DefaultTitle)
    ensures !TruthyOpt(Get(body, "template")) ==> r.1 == JStr(DefaultTemplate)
    ensures !TruthyOpt(Get(body, "color_theme")) ==> r.2 == JStr(DefaultColor)
    ensures TruthyOpt(Get(body, "title")) ==> r.0 == Get(body, "title").value
    ensures TruthyOpt(Get(body, "template")) ==> r.1 == Get(body, "template").value
    ensures TruthyOpt(Get(body, "color_theme")) ==> r.2 == Get(body, "color_theme").value
  {
    (Or(Get(body, "title"), JStr(DefaultTitle)), Or(Get(body, "template"), JStr(DefaultTemplate)),
     Or(Get(body, "color_theme"), JStr(DefaultColor)))
  }

  datatype CreateOutcome = CreateOutcome(response: Response, resumes: seq<ResumeRow>, contents: seq<ContentRow>)

  /** `POST` on the tables' state: `user` is `getUser`'s user, `body` the parsed body
      (None when parsing fails, which becomes `{}`), and the two insert errors. */
  function Create(resumes: seq<ResumeRow>, contents: seq<ContentRow>, nextId: nat, clock: int, user: Option<User>,
                  body: Option<Json>, resumeError: Option<string>, contentError: Option<string>): (o: CreateOutcome)
    ensures o.resumes == resumes || (user.Some? && |o.resumes| == |resumes| + 1 && o.resumes[..|resumes|] == resumes)
    ensures o.contents != contents ==> o.resumes != resumes && o.response.status == 200
    ensures user.None? ==> o == CreateOutcome(Error(401, Unauthorized), resumes, contents)
  {
    if user.None? then CreateOutcome(Error(401, Unauthorized), resumes, contents)
    else
      var b := body.GetOr(JObj([]));
      if b.JNull? then CreateOutcome(Uncaught, resumes, contents)
      else
        var (title, template, color) := Defaults(b);
        if resumeError.Some? then CreateOutcome(Error(500, resumeError.value), resumes, contents)
        else
          var row := ResumeRow(nextId, user.value.id, title, template, color, clock);
          if contentError.Some? then CreateOutcome(Error(500, contentError.value), resumes + [row], contents)
          else CreateOutcome(Ok(RowJson(row)), resumes + [row], contents + [ContentRow(row.id, SeedJson(SeedFor(template)))])
  }

  method Post(tables: ResumeTables, user: Option<User>, body: Option<Json>, resumeError: Option<string>, contentError: Option<string>)
    returns (response: Response)
    requires tables.Valid()
    modifies tables
    ensures tables.Valid()
    ensures Create(old(tables.resumes), old(tables.contents), old(tables.nextId), old(tables.clock), user, body, resumeError, contentError)
            == CreateOutcome(response, tables.resumes, tables.contents)
  {
    if user.None? {
      return Error(401, Unauthorized);
    }
    var b := body.GetOr(JObj([]));
    if b.JNull? {
      return Uncaught;
    }
    var (title, template, color) := Defaults(b);
    if resumeError.Some? {
      return Error(500, resumeError.value);
    }
    var row := tables.InsertResume(user.value.id, title, template, color);
    if contentError.Some? {
      return Error(500, contentError.value);
    }
    tables.InsertContent(row.id, SeedJson(SeedFor(template)));
    response := Ok(RowJson(row));
  }

  /** A successful creation adds one resume owned by the caller and one content row
      that references it and holds the template's seed; the response is that resume. */
  lemma CreateLinksContent(resumes: seq<ResumeRow>, contents: seq<ContentRow>, nextId: nat, clock: int, user: User, body: Json)
    requires !body.JNull?
    ensures var o := Create(resumes, contents, nextId, clock, Some(user), Some(body), None, None);
            var row := o.resumes[|resumes|];
            var (title, template, color) := Defaults(body);
            |o.resumes| == |resumes| + 1 && row.userId == user.id && row.title == title && row.template == template &&
            row.colorTheme == color &&
            o.contents == contents + [ContentRow(row.id, SeedJson(SeedFor(template)))] &&
            o.response == Ok(RowJson(row))
  {
  }

  /** A failing content insert answers 500 but leaves the new resume in place, without
      content. */
  lemma ContentFailureKeepsResume(resumes: seq<ResumeRow>, contents: seq<ContentRow>, nextId: nat, clock: int, user: User,
                                  body: Json, msg: string)
    requires !body.JNull?
    ensures var o := Create(resumes, contents, nextId, clock, Some(user), Some(body), None, Some(msg));
            o.response == Error(500, msg) && |o.resumes| == |resumes| + 1 && o.contents == contents
  {
  }

  // ---------------------------------------------------------------- GET

  /** `.eq('user_id', user.id)` */
  function Owned(rows: seq<ResumeRow>, userId: string): (r: seq<ResumeRow>)
    ensures forall x :: x in r <==> x in rows && x.userId == userId
    ensures |r| <= |rows|
  {
    if rows == [] then []
    else Owned(rows[..|rows| - 1], userId) + (if rows[|rows| - 1].userId == userId then [rows[|rows| - 1]] else [])
  }

  predicate NewestFirst(rows: seq<ResumeRow>) {
    forall i, j :: 0 <= i < j < |rows| ==> rows[i].updatedAt >= rows[j].updatedAt
  }

  /** Places a row before the first row that is not newer. */
  function InsertByDate(x: ResumeRow, rows: seq<ResumeRow>): (r: seq<ResumeRow>)
    requires NewestFirst(rows)
    ensures NewestFirst(r)
    ensures multiset(r) == multiset(rows) + multiset{x}
    ensures |r| == |rows| + 1 && (r[0] == x || (rows != [] && r[0] == rows[0]))
  {
    if rows == [] then [x]
    else if x.updatedAt >= rows[0].updatedAt then
      ConsNewestFirst(x, rows);
      [x] + rows
    else
      var rest := InsertByDate(x, rows[1..]);
      ConsNewestFirst(rows[0], rest);
      ConsMultiset(x, rows, rest);
      [rows[0]] + rest
  }

  lemma ConsMultiset(x: ResumeRow, rows: seq<ResumeRow>, rest: seq<ResumeRow>)
    requires rows != [] && multiset(rest) == multiset(rows[1..]) + multiset{x}
    ensures multiset([rows[0]] + rest) == multiset(rows) + multiset{x}
  {
    assert rows == [rows[0]] + rows[1..];
  }

  /** A row no older than the head of a newest-first list can go in front of it. */
  lemma ConsNewestFirst(h: ResumeRow, rows: seq<ResumeRow>)
    requires NewestFirst(rows) && (rows != [] ==> h.updatedAt >= rows[0].updatedAt)
    ensures NewestFirst([h] + rows)
  {
    var r := [h] + rows;
    forall i, j | 0 <= i < j < |r| ensures r[i].updatedAt >= r[j].updatedAt {
      if i == 0 && j > 1 {
        assert rows[0].updatedAt >= rows[j - 1].updatedAt;
      }
    }
  }

  /** `.order('updated_at', { ascending: false })` */
  function OrderNewestFirst(rows: seq<ResumeRow>): (r: seq<ResumeRow>)
    ensures NewestFirst(r)
    ensures multiset(r) == multiset(rows)
  {
    if rows == [] then []
    else
      assert rows == rows[..|rows| - 1] + [rows[|rows| - 1]];
      InsertByDate(rows[|rows| - 1], OrderNewestFirst(rows[..|rows| - 1]))
  }

  /** Among rows with the same `updated_at`, the one later in the input comes first. */
  lemma TieOrder(a: ResumeRow, b: ResumeRow)
    requires a.updatedAt == b.updatedAt
    ensures OrderNewestFirst([a, b]) == [b, a]
  {
    assert [a, b][..1] == [a];
    assert OrderNewestFirst([a]) == [a];
  }

  /** `GET`: the caller's rows, newest first. */
  function List(resumes: seq<ResumeRow>, user: Option<User>, queryError: Option<string>): (r: Response)
    ensures user.None? ==> r.status == 401
    ensures r.status == 200 <==> user.Some? && queryError.None?
  {
    if user.None? then Error(401, Unauthorized)
    else if queryError.Some? then Error(500, queryError.value)
    else
      var items := OrderNewestFirst(Owned(resumes, user.value.id));
      Ok(JObj([("items", JArr(seq(|items|, i requires 0 <= i < |items| => RowJson(items[i]))))]))
  }

  /** The listed rows are exactly the caller's, each once, newest first. */
  lemma ListIsOwnedNewestFirst(resumes: seq<ResumeRow>, user: User)
    ensures var items := OrderNewestFirst(Owned(resumes, user.id));
            NewestFirst(items) && multiset(items) == multiset(Owned(resumes, user.id)) &&
            (forall x :: x in items <==> x in resumes && x.userId == user.id)
            && List(resumes, Some(user), None) ==
               Ok(JObj([("items", JArr(seq(|items|, i requires 0 <= i < |items| => RowJson(items[i]))))]))
  {
    var items := OrderNewestFirst(Owned(resumes, user.id));
    forall x
      ensures x in items <==> x in Owned(resumes, user.id)
    {
      assert x in items <==> x in multiset(items);
    }
  }

  /** Both handlers answer 401 without a user and change nothing. */
  lemma UnauthenticatedRejected(resumes: seq<ResumeRow>, contents: seq<ContentRow>, nextId: nat, clock: int,
                                body: Option<Json>, resumeError: Option<string>, contentError: Option<string>, queryError: Option<string>)
    ensures List(resumes, None, queryError).status == 401
    ensures Create(resumes, contents, nextId, clock, None, body, resumeError, contentError) ==
            CreateOutcome(Error(401, Unauthorized), resumes, contents)
  {
  }
}
