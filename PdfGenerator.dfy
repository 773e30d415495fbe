/** The resume HTML of web/src/lib/simple-pdf-generator.ts: `sanitizeColor`, the `toStr`
    and `toLines` coercions, and the document `generateResumePDFFromData` assembles from
    an untyped resume (`content`) and its metadata (`meta`). */
module PdfGenerator {
  import opened Wrappers
  import opened Text
  import opened JsonData

  const Black: string := "#000000"
  const DefaultTitle: string := "未命名简历"
  const DefaultName: string := "姓名"
  const DefaultJobTitle: string := "职称"
  const DefaultSummary: string := "在此填写个人简介。"
  const ContactSeparator: string := " · "

  // ---------------------------------------------------------------- colours

  predicate IsHexDigit(c: char) {
    '0' <= c <= '9' || 'a' <= c <= 'f' || 'A' <= c <= 'F'
  }

  /** `/^#([0-9a-fA-F]{3}|[0-9a-fA-F]{6})$/` (without the `m` flag `$` is the end of the
      string). */
  predicate IsHexColor(s: string) {
    (|s| == 4 || |s| == 7) && s[0] == '#' && forall i :: 1 <= i < |s| ==> IsHexDigit(s[i])
  }

  /** `sanitizeColor` on a string: the input when it is a hex colour, black otherwise. */
  function SanitizeColor(c: string): (r: string)
    ensures IsHexColor(r)
    ensures r == c <==> IsHexColor(c)
    ensures !IsHexColor(c) ==> r == Black
  {
    if c == "" then Black
    else if IsHexColor(c) then c
    else Black
  }

  /** Sanitising twice is sanitising once. */
  lemma SanitizeColorIdempotent(c: string)
    ensures SanitizeColor(SanitizeColor(c)) == SanitizeColor(c)
  {
  }

  /** `sanitizeColor(meta?.color_theme as string)` on whatever the metadata holds: a
      falsy value is black, a string is sanitised, and any other value makes `c.match`
      throw (None). */
  function Theme(v: Option<Json>): (r: Option<string>)
    ensures r.Some? ==> IsHexColor(r.value)
    ensures !TruthyOpt(v) ==> r == Some(Black)
    ensures r.None? <==> TruthyOpt(v) && !v.value.JStr?
  {
    if !TruthyOpt(v) then Some(Black)
    else if v.value.JStr? then Some(SanitizeColor(v.value.s))
    else None
  }

  // ---------------------------------------------------------------- coercions

  /** `v?.k`: undefined when `v` is, otherwise the property. */
  function Field(v: Option<Json>, k: string): Option<Json> {
    if v.Some? then Get(v.value, k) else None
  }

  /** `toStr`: a string is kept, anything else is `''`. */
  function ToStr(v: Option<Json>): (r: string)
    ensures (v.Some? && v.value.JStr?) ==> r == v.value.s
    ensures !(v.Some? && v.value.JStr?) ==> r == ""
  {
    if v.Some? && v.value.JStr? then v.value.s else ""
  }

  /** `toLines`: an array is kept, anything else is `[]`. */
  function ToLines(v: Option<Json>): (r: seq<Json>)
    ensures (v.Some? && v.value.JArr?) ==> r == v.value.items
    ensures !(v.Some? && v.value.JArr?) ==> r == []
  {
    if v.Some? && v.value.JArr? then v.value.items else []
  }

  /** `s || d` on a string. */
  function OrStr(s: string, d: string): string {
    if s != "" then s else d
  }

  // ---------------------------------------------------------------- the contact line

  /** `.filter(Boolean)` on strings. */
  function NonEmpty(parts: seq<string>): (r: seq<string>)
    ensures forall x :: x in r <==> x in parts && x != ""
  {
    if parts == [] then []
    else NonEmpty(parts[..|parts| - 1]) + (if parts[|parts| - 1] != "" then [parts[|parts| - 1]] else [])
  }

  /** `.filter(Boolean)` keeps the order: it distributes over concatenation. */
  lemma {:induction false} NonEmptyAppend(a: seq<string>, b: seq<string>)
    ensures NonEmpty(a + b) == NonEmpty(a) + NonEmpty(b)
    decreases |b|
  {
    if b == [] {
      assert a + b == a;
    } else {
      assert (a + b)[..|a + b| - 1] == a + b[..|b| - 1];
      NonEmptyAppend(a, b[..|b| - 1]);
    }
  }

  /** Phone, email, LinkedIn and portfolio, without the empty ones, joined by ` · `. */
  function ContactLine(personal: Option<Json>): string {
    Join(NonEmpty([ToStr(Field(personal, "phone")), ToStr(Field(personal, "email")),
                   ToStr(Field(personal, "linkedin")), ToStr(Field(personal, "portfolio"))]), ContactSeparator)
  }

  /** The contact line is each present value, in the fixed order, once. */
  lemma ContactLineOrder(p: string, e: string, l: string, w: string)
    ensures NonEmpty([p, e, l, w]) ==
            (if p != "" then [p] else []) + (if e != "" then [e] else []) + (if l != "" then [l] else []) + (if w != "" then [w] else [])
  {
    assert [p, e, l, w] == [p] + [e] + [l] + [w];
    NonEmptyAppend([p] + [e] + [l], [w]);
    NonEmptyAppend([p] + [e], [l]);
    NonEmptyAppend([p], [e]);
    assert [p][..0] == [] && [e][..0] == [] && [l][..0] == [] && [w][..0] == [];
  }

  /** With every value present the line is all four; with none it is empty. */
  lemma ContactLineExtremes(personal: Json, p: string, e: string, l: string, w: string)
    requires Get(personal, "phone") == Some(JStr(p)) && Get(personal, "email") == Some(JStr(e))
    requires Get(personal, "linkedin") == Some(JStr(l)) && Get(personal, "portfolio") == Some(JStr(w))
    ensures p != "" && e != "" && l != "" && w != "" ==>
              ContactLine(Some(personal)) == p + ContactSeparator + e + ContactSeparator + l + ContactSeparator + w
    ensures p == "" && e == "" && l == "" && w == "" ==> ContactLine(Some(personal)) == ""
  {
    ContactLineOrder(p, e, l, w);
    if p != "" && e != "" && l != "" && w != "" {
      assert [p] + [e] + [l] + [w] == [p, e, l, w];
      assert [p, e, l, w][..3] == [p, e, l] && [p, e, l][..2] == [p, e] && [p, e][..1] == [p];
      assert ContactLine(Some(personal)) == Join([p, e, l, w], ContactSeparator);
      assert Join([p, e], ContactSeparator) == p + ContactSeparator + e;
      assert Join([p, e, l], ContactSeparator) == p + ContactSeparator + e + ContactSeparator + l;
    }
  }

  // ---------------------------------------------------------------- the sections

  function Each(items: seq<Json>, f: Json -> string): (r: string) {
    Concat(seq(|items|, i requires 0 <= i < |items| => f(items[i])))
  }

  /** `toLines(h).length ? <ul>…</ul> : ''` */
  function HighlightsHtml(h: Option<Json>): (r: string)
    ensures r == "" <==> ToLines(h) == []
  {
    var lines := ToLines(h);
    if |lines| == 0 then ""
    else "<ul class=\"list\">" + Each(lines, x => "<li>" + ToStr(Some(x)) + "</li>") + "</ul>"
  }

  function EducationItem(e: Json): string {
    "<div style=\"margin:6px 0\"><div class=\"row\"><div style=\"font-weight:600\">" + ToStr(Get(e, "degree")) +
    "</div><div class=\"muted\">" + ToStr(Get(e, "year")) + "</div></div><div style=\"font-style:italic\">" +
    ToStr(Get(e, "school")) + "</div></div>"
  }

  function ExperienceItem(e: Json): string {
    "<div style=\"margin:8px 0\"><div class=\"row\"><div style=\"font-weight:600\">" + ToStr(Get(e, "role")) +
    "</div><div class=\"muted\">" + ToStr(Get(e, "from")) + " - " + ToStr(Get(e, "to")) +
    "</div></div><div style=\"font-style:italic\">" + ToStr(Get(e, "company")) + "</div>" +
    HighlightsHtml(Get(e, "highlights")) + "</div>"
  }

  function ProjectItem(p: Json): string {
    "<div style=\"margin:8px 0\"><div style=\"font-weight:600\">" + ToStr(Get(p, "name")) +
    "</div><div style=\"font-style:italic\">" + ToStr(Get(p, "description")) + "</div>" +
    HighlightsHtml(Get(p, "highlights")) + "</div>"
  }

  function Chip(s: Json): string {
    "<span class=\"chip\">" + ToStr(Some(s)) + "</span>"
  }

  /** A section with its heading, emitted only for a non-empty list. */
  function ListSection(heading: string, items: seq<Json>, f: Json -> string, open: string, close: string): (r: string)
    ensures r == "" <==> items == []
  {
    if |items| == 0 then ""
    else "<section class=\"section\"><h2>" + heading + "</h2>\n        " + open + Each(items, f) + close + "\n      </section>"
  }

  /** The five optional sections in document order. */
  function Sections(content: Option<Json>): (r: seq<string>)
    ensures |r| == 5
  {
    [ListSection("教育经历", ToLines(Field(content, "education")), EducationItem, "", ""),
     ListSection("工作经历", ToLines(Field(content, "experience")), ExperienceItem, "", ""),
     ListSection("项目经验", ToLines(Field(content, "projects")), ProjectItem, "", ""),
     ListSection("技能", ToLines(Field(content, "skills")), Chip, "<div>", "</div>"),
     ListSection("证书", ToLines(Field(content, "certificates")), Chip, "<div>", "</div>")]
  }

  /** Each section is present exactly when its list is a non-empty array. */
  lemma SectionsOnlyWhenNonEmpty(content: Option<Json>)
    ensures var s := Sections(content);
            (s[0] == "" <==> ToLines(Field(content, "education")) == []) &&
            (s[1] == "" <==> ToLines(Field(content, "experience")) == []) &&
            (s[2] == "" <==> ToLines(Field(content, "projects")) == []) &&
            (s[3] == "" <==> ToLines(Field(content, "skills")) == []) &&
            (s[4] == "" <==> ToLines(Field(content, "certificates")) == [])
  {
  }

  // ---------------------------------------------------------------- the document

  /** The values the template interpolates. */
  datatype Doc = Doc(theme: string, name: string, jobTitle: string, contact: string, summary: string, sections: seq<string>)

  /** What `generateResumePDFFromData` fills in; None when the colour makes it throw. */
  function Assemble(content: Option<Json>, meta: Option<Json>): (r: Option<Doc>)
    ensures r.Some? ==> IsHexColor(r.value.theme) && |r.value.sections| == 5
    ensures r.Some? ==> r.value.name != "" && r.value.jobTitle != "" && r.value.summary != ""
  {
    var theme := Theme(Field(meta, "color_theme"));
    if theme.None? then None
    else
      var personal := Field(content, "personal");
      Some(Doc(theme.value,
               OrStr(ToStr(Field(personal, "full_name")), DefaultName),
               OrStr(ToStr(Field(personal, "title")), DefaultJobTitle),
               ContactLine(personal),
               OrStr(ToStr(Field(content, "summary")), DefaultSummary),
               Sections(content)))
  }

  /** A resume without a personal block or summary gets the placeholders, and a
      metadata record without a colour gets black. */
  lemma Placeholders(content: Json)
    requires Get(content, "personal").None? && Get(content, "summary").None?
    ensures var d := Assemble(Some(content), None);
            d.Some? && d.value.theme == Black && d.value.name == DefaultName &&
            d.value.jobTitle == DefaultJobTitle && d.value.summary == DefaultSummary && d.value.contact == ""
  {
    assert NonEmpty(["", "", "", ""]) == [] by { ContactLineOrder("", "", "", ""); }
  }

  const HeadOpen: string := "<!doctype html><html><head><meta charset=\"utf-8\"><style>\n    body{font-family:Arial,Helvetica,sans-serif;color:#000000;background:#ffffff;margin:0;padding:20px}\n    .page{width:210mm;min-height:297mm;margin:0 auto;background:#ffffff;padding:20mm;box-sizing:border-box}\n    h1{font-size:28px;font-weight:700;margin:0 0 6px 0;color:"
  const HeadMiddle: string := "}\n    h2{font-size:18px;font-weight:700;margin:16px 0 8px 0;border-bottom:2px solid "
  const HeadClose: string := ";padding-bottom:6px}\n    .muted{color:#444444}\n    .row{display:flex;justify-content:space-between;align-items:center}\n    .list{margin:6px 0 0 18px;padding:0}\n    .list li{margin:4px 0}\n    .chip{display:inline-block;background:#eeeeee;color:#333333;font-size:12px;font-weight:600;padding:4px 10px;border-radius:9999px;margin:2px}\n    .section{margin-top:14px}\n  </style></head><body>"

  /** The `<head>` with its style sheet, coloured by the theme. */
  function HeadHtml(theme: string): string {
    HeadOpen + theme + HeadMiddle + theme + HeadClose
  }

  /** The page up to the name. */
  function BeforeName(theme: string): string {
    HeadHtml(theme) + "\n    <div class=\"page\">\n      <header style=\"border-bottom:2px solid " + theme +
    ";padding-bottom:10px;margin-bottom:12px\">\n        <h1>"
  }

  /** The page after the name. */
  function AfterName(d: Doc): string
    requires |d.sections| == 5
  {
    "</h1>\n        <div class=\"muted\">" + d.jobTitle + "</div>\n        <div class=\"muted\" style=\"margin-top:6px\">" +
    d.contact + "</div>\n      </header>\n      <section class=\"section\">\n        <h2>职业概述</h2>\n        " +
    "<div style=\"font-size:14px;line-height:1.6;white-space:pre-line\">" + d.summary + "</div>\n      </section>\n      " +
    d.sections[0] + "\n      " + d.sections[1] + "\n      " + d.sections[2] + "\n      " + d.sections[3] + "\n      " +
    d.sections[4] + "\n    </div>\n  </body></html>"
  }

  /** The template `generateResumePDFFromData` renders. */
  function Html(d: Doc): string
    requires |d.sections| == 5
  {
    BeforeName(d.theme) + d.name + AfterName(d)
  }

  /** The rendered page shows the name it was given. */
  lemma HtmlShowsName(d: Doc)
    requires |d.sections| == 5
    ensures Contains(Html(d), d.name)
  {
    ContainsMiddle(BeforeName(d.theme), d.name, AfterName(d));
  }

  /** `opts?.filename || `${title}.pdf``, where `title` is `meta?.title || '未命名简历'` and
      `display` is how a template literal prints a value. */
  function Filename(display: Json -> string, meta: Option<Json>, opts: Option<Json>): (r: Json)
    ensures TruthyOpt(Field(opts, "filename")) ==> r == Field(opts, "filename").value
    ensures !TruthyOpt(Field(opts, "filename")) ==> r == JStr(display(Or(Field(meta, "title"), JStr(DefaultTitle))) + ".pdf")
  {
    var title := Or(Field(meta, "title"), JStr(DefaultTitle));
    Or(Field(opts, "filename"), JStr(display(title) + ".pdf"))
  }

  /** With no title and no filename option, the file is `未命名简历.pdf`. */
  lemma DefaultFilename(display: Json -> string, meta: Option<Json>, opts: Option<Json>)
    requires forall s :: display(JStr(s)) == s
    requires !TruthyOpt(Field(meta, "title")) && !TruthyOpt(Field(opts, "filename"))
    ensures Filename(display, meta, opts) == JStr(DefaultTitle + ".pdf")
  {
  }

  /** `generateResumePDFFromData`: the page and the filename handed to `html2pdf`. */
  function ResumePdf(display: Json -> string, content: Option<Json>, meta: Option<Json>, opts: Option<Json>): (r: Option<(string, Json)>)
    ensures r.Some? <==> Assemble(content, meta).Some?
  {
    match Assemble(content, meta)
    case None => None
    case Some(d) => Some((Html(d), Filename(display, meta, opts)))
  }

  // ---------------------------------------------------------------- the upload blob

  const BlobOpen: string := "<!doctype html><html><head><meta charset=\"utf-8\"><style>body{font-family:Arial,Helvetica,sans-serif;color:#000;background:#fff;margin:0;padding:20px}.page{width:210mm;min-height:297mm;margin:0 auto;background:#fff;padding:20mm;box-sizing:border-box}h1{font-size:28px;font-weight:700;margin:0 0 6px 0}h2{font-size:18px;font-weight:700;margin:16px 0 8px 0;border-bottom:2px solid "
  const BlobClose: string := ";padding-bottom:6px}.muted{color:#444}.row{display:flex;justify-content:space-between;align-items:center}.list{margin:6px 0 0 18px;padding:0}.list li{margin:4px 0}.chip{display:inline-block;background:#eee;color:#333;font-size:12px;font-weight:600;padding:4px 10px;border-radius:9999px;margin:2px}.section{margin-top:14px}</style></head><body><div class=\"page\"></div></body></html>"

  /** `generateResumePDFBlobFromData` as written: only the theme reaches the page,
      which is an empty `<div class="page">`. */
  function BlobHtmlAsWritten(content: Option<Json>, meta: Option<Json>): (r: Option<string>)
    ensures r.Some? <==> Theme(Field(meta, "color_theme")).Some?
  {
    match Theme(Field(meta, "color_theme"))
    case None => None
    case Some(theme) => Some(BlobOpen + theme + BlobClose)
  }

  /** As written, every resume uploads the same page: the content is never read. */
  lemma BlobIgnoresContent(c1: Option<Json>, c2: Option<Json>, meta: Option<Json>)
    ensures BlobHtmlAsWritten(c1, meta) == BlobHtmlAsWritten(c2, meta)
  {
  }

  /** The upload blob as evidently intended: the same page as the download. */
  function BlobHtml(content: Option<Json>, meta: Option<Json>): (r: Option<string>)
    ensures r.Some? <==> BlobHtmlAsWritten(content, meta).Some?
  {
    match Assemble(content, meta)
    case None => None
    case Some(d) => Some(Html(d))
  }

  /** The intended blob shows the resume's name. */
  lemma BlobShowsName(content: Option<Json>, meta: Option<Json>)
    requires BlobHtml(content, meta).Some?
    ensures Contains(BlobHtml(content, meta).value, Assemble(content, meta).value.name)
  {
    match Assemble(content, meta)
    case Some(d) => HtmlShowsName(d);
  }
}
