# Resume builder core, modelled in Dafny

The modelled system is a web application for building resumes, written in TypeScript on Next.js
and Supabase. Its server routes keep resume records, their JSON content, share links, view
counters, and a history of AI analyses. Its browser pages render Markdown, validate profile
input and crop avatars. Its libraries strip personal data before content goes to a language
model, and they normalise that model's replies.

This project models the decision logic of that core. It follows the program's own structure,
with one module per source file:

| module | source file | form |
|---|---|---|
| `Markdown` | `web/src/lib/markdown.ts` | pure inline rewriting; the line scanner is a `method` with loops |
| `Sanitize` | `web/src/lib/sanitize.ts` | a recursive `method` with a loop, proved against the function `Sanitized` |
| `ChineseKeyMapper` | `web/lib/chinese-key-mapper.ts` | functions |
| `AiSchema` | `web/types/ai.ts` | the zod schemas as validity predicates and parsers |
| `AnalyzeRoute` | `web/app/api/ai/analyze/route.ts` | the history table is a `class`; the handler is a `method` proved against the function `Analyze` |
| `ProfileRoute` | `web/app/api/profile/route.ts` | functions |
| `ProfilePage` | `web/app/profile/page.tsx` | functions (one per event handler) |
| `AvatarRoute` | `web/app/api/profile/avatar/route.ts` | functions |
| `Dashboard` | `web/app/dashboard/page.tsx` | functions |
| `Middleware`, `MiddlewareNew` | `web/middleware.ts`, `web/middleware-new.ts` | functions from path and session to a decision |
| `ApiAuth` | `web/src/lib/api-auth.ts` | functions |
| `ShareRoute` | `web/app/api/share/route.ts` | the `resumes` share columns are a `class`; the handler is a `method` proved against `Share` |
| `StatsRoute` | `web/app/api/stats/route.ts` | the counter table is a `class`; the handler is a `method` proved against `Record` |
| `ResumesRoute` | `web/app/api/resumes/route.ts` | the `resumes` and `resume_content` tables are a `class`; `POST` is a `method` proved against `Create` |
| `PdfGenerator` | `web/src/lib/simple-pdf-generator.ts` | functions |

Four shared modules support them:

- `Wrappers` holds `Option` and `Result`.
- `Text` holds `trim`, `startsWith`, `includes`, ASCII `toLowerCase`, joining and UTF-16 length.
- `JsonData` holds the `Json` datatype. It also holds JavaScript's property access (`Get`), truthiness (`Truthy`, `TruthyOpt`), `||` (`Or`) and `??` (`Nullish`).
- `Http` holds HTTP responses and the error bodies the routes send.

Each database table that a route reads back and changes is a class: the analysis history, the
share columns of `resumes`, the counters and the resume tables. A `seq` or `map` field holds its
rows, and the handler's method changes that field. The profile route and the avatar route are
the exception: each sends one upsert of the caller's own row and never reads it back, so their
handlers are functions that return the write they send (`ProfileRoute.NameWrite`, the
`avatarUrl` of `AvatarRoute.AvatarOutcome`) and no `profiles` table class exists. Every such method is proved against a pure function of
the old table, and the route's properties are lemmas about that function. Outside services
are parameters of the function or method: Supabase's `getUser`, the storage upload and the
insert and update errors, SHA-256, `JSON.parse`/`JSON.stringify`, `randomUUID`, the language
model, the clock and the Unicode letter class `\p{L}`.

## Model

| member | source | states |
|---|---|---|
| Markdown.EscapeChar | web/src/lib/markdown.ts:2 | a special character becomes an entity starting with `&`; every other character is kept |
| Markdown.EscapeHtml | web/src/lib/markdown.ts:1-3 | the output has no raw `<`, `>`, `"` or `'`; text without specials is unchanged |
| Markdown.UnescapeEscape | web/src/lib/markdown.ts:1-3 | decoding the five entities undoes escaping, so no character is lost or changed |
| Markdown.UrlRunEnd | web/src/lib/markdown.ts:9-10 | the URL character run `[^)\s]+` ends at the first `)`, whitespace or end of text |
| Markdown.LinkTailAt | web/src/lib/markdown.ts:9-10 | a `](url)` tail matches only when the URL is `http:` or `https:` followed by at least one character that is neither `)` nor whitespace |
| Markdown.LinkTailUrl | web/src/lib/markdown.ts:9-10 | a tail built from `](http`, an optional `s`, `:` and a run of URL characters holds an accepted URL |
| Markdown.LinkFrom | web/src/lib/markdown.ts:9-10 | the lazy `(.*?)` search returns a position where a URL tail matches |
| Markdown.LinkFromIsLazy | web/src/lib/markdown.ts:9-10 | the search stops at the first tail, and never crosses a line terminator (`.` does not match one) |
| Markdown.LinkFromMissesOnlyPastLine | web/src/lib/markdown.ts:9-10 | when the search fails, every later tail lies past a line terminator |
| Markdown.CloserFrom | web/src/lib/markdown.ts:7-8 | the lazy `(.+?)` search returns a position where the closing delimiter starts |
| Markdown.CloserFromIsLazy | web/src/lib/markdown.ts:7-8 | the closer found is the first one on the line; when none is found, every closer lies past a line terminator |
| Markdown.BoldAt | web/src/lib/markdown.ts:7 | a bold match starts at `*` and consumes at least one character |
| Markdown.ItalicAt | web/src/lib/markdown.ts:8 | an italic match starts at `*` and consumes at least one character |
| Markdown.ImageAt | web/src/lib/markdown.ts:9 | an image match starts at `!` and consumes at least one character |
| Markdown.LinkAt | web/src/lib/markdown.ts:10 | a link match starts at `[` and consumes at least one character |
| Markdown.MatchAt | web/src/lib/markdown.ts:7-10 | every rule matches only at `*`, `!` or `[` and always advances |
| Markdown.LinkUrlIsHttp | web/src/lib/markdown.ts:9-10 | the URL captured into `src` or `href` starts with `http:` or `https:` and holds no `)` or whitespace |
| Markdown.ImageTags | web/src/lib/markdown.ts:9 | an image replacement adds no `<` except the tags the rules write |
| Markdown.LinkTags | web/src/lib/markdown.ts:10 | a link replacement adds no `<` except the tags the rules write |
| Markdown.BoldTags | web/src/lib/markdown.ts:7 | a bold replacement adds no `<` except the tags the rules write |
| Markdown.ItalicTags | web/src/lib/markdown.ts:8 | an italic replacement adds no `<` except the tags the rules write |
| Markdown.ReplaceKeepsTags | web/src/lib/markdown.ts:7-10 | a global replace keeps the property that every `<` begins a rule-written tag |
| Markdown.TransformInlineTagsOk | web/src/lib/markdown.ts:5-12 | every `<` in the inline output begins `<strong>`, `</strong>`, `<em>`, `</em>`, `<img src="`, `<a href="` or `</a>`, so no tag comes from the input text |
| Markdown.ReplaceIdentity | web/src/lib/markdown.ts:7-10 | text with no `*`, `!` or `[` passes a rule unchanged |
| Markdown.EscapeKeepsPlain | web/src/lib/markdown.ts:1-3 | escaping adds no `*`, `!` or `[` |
| Markdown.PlainTextIsEscaped | web/src/lib/markdown.ts:5-12 | inline text without rule characters is only escaped |
| Markdown.NormalizeNewlines | web/src/lib/markdown.ts:15 | no `\r` survives `\r\n?` → `\n`; text without `\r` is unchanged |
| Markdown.SplitLines | web/src/lib/markdown.ts:15 | `split('\n')` gives at least one line, and no line holds `\n` |
| Markdown.JoinSplitLines | web/src/lib/markdown.ts:15 | joining the lines with `\n` rebuilds the text, so splitting loses nothing |
| Markdown.SpaceRunEnd | web/src/lib/markdown.ts:20-30 | the `\s+` run ends at the first non-space character |
| Markdown.DigitRunEnd | web/src/lib/markdown.ts:22-24 | the `\d+` run ends at the first non-digit character |
| Markdown.MarkerPrefix | web/src/lib/markdown.ts:20-30 | a `marker\s+` prefix starts with the marker and is longer than it |
| Markdown.H2Prefix | web/src/lib/markdown.ts:20 | a `##\s+` prefix covers more than the two hashes |
| Markdown.H1Prefix | web/src/lib/markdown.ts:21 | a `#\s+` prefix covers more than the hash |
| Markdown.ItemPrefix | web/src/lib/markdown.ts:22-30 | an ordered or bullet item prefix covers at least two characters |
| Markdown.BlankIffTrimEmpty | web/src/lib/markdown.ts:34 | a line is skipped exactly when its `trim()` is empty |
| Markdown.RunLength | web/src/lib/markdown.ts:24 | a list run never exceeds the remaining lines |
| Markdown.RunLengthItems | web/src/lib/markdown.ts:24 | a run is maximal: every line in it is an item of its kind, and the line after it is not |
| Markdown.CollectStep | web/src/lib/markdown.ts:24 | one more item line extends both the run and the emitted `<li>` list by one |
| Markdown.CollectItems | web/src/lib/markdown.ts:23-24 | the inner loop consumes exactly the maximal run and emits one `<li>` per line, in order |
| Markdown.ScanHeading2 | web/src/lib/markdown.ts:20 | a `##` line emits one `<h2>` and the scan continues with the next line |
| Markdown.ScanHeading1 | web/src/lib/markdown.ts:21 | a `#` line that is not `##` emits one `<h1>` |
| Markdown.ScanList | web/src/lib/markdown.ts:22-33 | a run of items emits one `<ol>` or `<ul>` |
| Markdown.ScanBlank | web/src/lib/markdown.ts:34 | a blank line emits nothing |
| Markdown.ScanParagraph | web/src/lib/markdown.ts:35-36 | any other line emits one `<p>` |
| Markdown.ScanBlock | web/src/lib/markdown.ts:19-36 | one pass of the outer loop strictly advances `i` and emits what the block specification gives for the lines it consumes |
| Markdown.RenderLines | web/src/lib/markdown.ts:16-38 | the outer loop's output is the concatenation of the blocks' HTML, in input order |
| Markdown.TransformInline | web/src/lib/markdown.ts:5-12 | escape, then bold, italic, image and link; `TransformInlineTagsOk` and `PlainTextIsEscaped` state its effect |
| Markdown.Render | web/src/lib/markdown.ts:14-39 | the block specification that `RenderMarkdown` is proved to compute; `RenderMarkupOk` and `BlocksKeepLines` state its properties |
| Markdown.RenderMarkdown | web/src/lib/markdown.ts:14-39 | the renderer computes the block specification of the normalised lines |
| Markdown.BlocksClassified | web/src/lib/markdown.ts:20-36 | patterns are tried in order: a `##` line is never an `<h1>`, a list is a non-empty run of its own kind, and a paragraph is a non-blank line no pattern takes |
| Markdown.BlocksKeepLines | web/src/lib/markdown.ts:20-36 | the blocks hold exactly the non-blank lines, each once, in order |
| Markdown.NonBlankKeepsAll | web/src/lib/markdown.ts:34 | without blank lines, no line is dropped |
| Markdown.ConcatMarkup | web/src/lib/markdown.ts:38 | joining safe fragments gives safe markup |
| Markdown.ItemsMarkup | web/src/lib/markdown.ts:22-33 | every `<li>` item is safe markup |
| Markdown.BlockMarkup | web/src/lib/markdown.ts:20-36 | every emitted block is safe markup |
| Markdown.RenderMarkupOk | web/src/lib/markdown.ts:14-39 | every `<` in the rendered page begins a tag the renderer writes, whatever the input |
| Sanitize.Sanitized | web/src/lib/sanitize.ts:6-33 | the sanitised value, element by element and key by key; `SanitizedHasNoSensitiveKeys`, `SanitizedLookup` and `SanitizedIdempotent` state its properties |
| Sanitize.RemoveSensitive | web/src/lib/sanitize.ts:9-34 | the recursive walk with its key loop computes `Sanitized` of its input |
| Sanitize.SanitizeResume | web/src/lib/sanitize.ts:6-38 | the result is `Sanitized(content)`, a new value, and the input is left as it was |
| Sanitize.SanitizedHasNoSensitiveKeys | web/src/lib/sanitize.ts:16-32 | no key whose lowercase form is a name or contact key survives, at any depth |
| Sanitize.SanitizedLookup | web/src/lib/sanitize.ts:12-33 | a sensitive key is gone; any other key keeps its value, sanitised under that key |
| Sanitize.SanitizedIdempotent | web/src/lib/sanitize.ts:6-38 | sanitising twice equals sanitising once |
| Sanitize.KeyIsSensitive | web/src/lib/sanitize.ts:16-23 | each listed name and contact key is deleted |
| Sanitize.KeyIsKept | web/src/lib/sanitize.ts:16-23 | the delete rules are exact: any other lowercase key, such as `username`, `title` or `summary`, is kept |
| Sanitize.ExampleKeys | web/src/lib/sanitize.ts:16-29 | the test's keys fall under the rules the test expects |
| Sanitize.SanitizeExample | web/src/lib/__tests__/sanitize.test.ts:5-17 | on the test's resume, `full_name`, `phone` and `email` disappear, school becomes `某大学` and company becomes `某企业` |
| ChineseKeyMapper.EnsureArray | web/lib/chinese-key-mapper.ts:43-47 | arrays are kept, a non-empty string becomes a one-item array, and anything else becomes `[]` |
| ChineseKeyMapper.HasChineseKeys | web/lib/chinese-key-mapper.ts:30-35 | false for a falsy value or a non-object, otherwise true when one of the four Chinese keys is present; it selects the path in `ChinesePathIsMapping` and `ValidEnglishKept` |
| ChineseKeyMapper.NormalizeJDMatchResponse | web/lib/chinese-key-mapper.ts:61-111 | `normalizeJDMatchResponse`; `NormalizeWellShaped`, `ChinesePathIsMapping`, `ValidEnglishKept`, `InvalidEnglishRepaired` and `NormalizeIdempotent` state each path's result |
| ChineseKeyMapper.MapChineseKeysToEnglish | web/lib/chinese-key-mapper.ts:41-55 | `match_score` is `匹配得分` when truthy and 0 otherwise; the three list fields are arrays |
| ChineseKeyMapper.ArrayOr | web/lib/chinese-key-mapper.ts:81-83 | a list field falls back to `[]` when it is not an array |
| ChineseKeyMapper.JDMatchToJsonFields | web/lib/chinese-key-mapper.ts:61-108 | a normalised record has all four English fields and no Chinese key |
| ChineseKeyMapper.ChinesePathIsMapping | web/lib/chinese-key-mapper.ts:61-107 | when any Chinese key is present, the English keys are ignored and the result is the mapping |
| ChineseKeyMapper.ValidEnglishKept | web/lib/chinese-key-mapper.ts:65-68 | an English object that satisfies `JDMatchSchema` is returned as parsed |
| ChineseKeyMapper.InvalidEnglishRepaired | web/lib/chinese-key-mapper.ts:71-87 | a failing English object keeps `match_score ?? 0` and its array fields; a non-object yields the empty fallback |
| ChineseKeyMapper.NormalizeWellShaped | web/lib/chinese-key-mapper.ts:61-108 | every path returns a record whose three list fields are arrays |
| ChineseKeyMapper.NormalizeIdempotent | web/lib/chinese-key-mapper.ts:61-108 | normalising the normalised record again changes nothing |
| ChineseKeyMapper.CleanText | web/lib/chinese-key-mapper.ts:118 | both fence passes and `trim()`; `CleanTextHasNoFence` states that no fence and no outer space remain |
| ChineseKeyMapper.RemoveFences | web/lib/chinese-key-mapper.ts:118 | the global `replace` never lengthens the text |
| ChineseKeyMapper.NoFenceLeft | web/lib/chinese-key-mapper.ts:118 | after removing three-backtick fences, none is left |
| ChineseKeyMapper.CleanTextHasNoFence | web/lib/chinese-key-mapper.ts:118 | the cleaned text holds no fence and has no whitespace at either end |
| ChineseKeyMapper.ParseChineseJson | web/lib/chinese-key-mapper.ts:113-135 | a parse failure yields `{0, [], [], []}`; otherwise the parsed cleaned text is normalised; either way the record is well shaped |
| AiSchema.Strings | web/types/ai.ts:22-24 | a string array's items rebuild the array |
| AiSchema.ValidJDMatch | web/types/ai.ts:20-25 | `JDMatchSchema` holds: an object with a score in [0, 100] and three string arrays; `ParseJDMatch` succeeds exactly when it holds |
| AiSchema.ParseJDMatch | web/types/ai.ts:20-25 | parsing succeeds exactly when `match_score` is in [0, 100] and the three lists are string arrays, and it yields a valid record |
| AiSchema.JDMatchRoundTrip | web/types/ai.ts:20-25 | a record survives serialise-then-parse exactly when it is valid |
| AiSchema.ValidResumeAnalysis | web/types/ai.ts:3-16 | `ResumeAnalysisSchema` holds: every score in [0, 100] and every nested list a string array; `ParseResumeAnalysis` succeeds exactly when it holds |
| AiSchema.ParseResumeAnalysis | web/types/ai.ts:3-16 | parsing succeeds exactly when every score is in [0, 100] and every list is a string array |
| AiSchema.AnalysisRoundTrip | web/types/ai.ts:3-16 | an analysis survives serialise-then-parse exactly when its scores are valid |
| AiSchema.StringsOfStrArray | web/types/ai.ts:11-15 | any list of strings survives serialise-then-parse |
| AiSchema.ScoresRoundTrip | web/types/ai.ts:5-9 | each of the three nested scores reads back the value written |
| AiSchema.CompletenessRoundTrip | web/types/ai.ts:10-13 | both lists under `content_completeness` read back the values written |
| ApiAuth.BearerToken | web/src/lib/api-auth.ts:8-14 | a token exists exactly when the header starts with `Bearer `, and the header is that prefix plus the token |
| ApiAuth.Authenticate | web/src/lib/api-auth.ts:7-27 | a missing or malformed header is rejected first; otherwise the user lookup decides between the user and `Invalid token` |
| ApiAuth.AuthGuard | web/src/lib/api-auth.ts:10-26 | a route proceeds exactly when authentication succeeded, and otherwise answers 401 |
| ApiAuth.BearerRoundTrip | web/src/lib/api-auth.ts:14 | `substring(7)` recovers any token sent after `Bearer ` |
| ApiAuth.BearerIsExact | web/src/lib/api-auth.ts:10 | the prefix test is case- and space-sensitive |
| ApiAuth.RejectionMessages | web/src/lib/api-auth.ts:10-24 | only the two messages occur, and the 401 body carries the one produced |
| AnalyzeRoute.LatestIn | web/app/api/ai/analyze/route.ts:43-51 | a found row is in the table and matches the resume id, type and input hash |
| AnalyzeRoute.LatestIsMostRecent | web/app/api/ai/analyze/route.ts:49-50 | the lookup misses exactly when no row matches, and a hit is the newest matching row |
| AnalyzeRoute.AnalysisHistory.Insert | web/app/api/ai/analyze/route.ts:112-118 | the history only grows: a row stamped with the table clock is appended |
| AnalyzeRoute.ModelName | web/app/api/ai/analyze/route.ts:115 | the `model` column is the provider name, or `openai` when none is set |
| AnalyzeRoute.ModelId | web/app/api/ai/analyze/route.ts:87 | `deepseek-chat` is chosen exactly when the provider is `deepseek` |
| AnalyzeRoute.SameSanitizedSameKey | web/app/api/ai/analyze/route.ts:31-32 | two contents that sanitise alike share a cache key |
| AnalyzeRoute.CachedResult | web/app/api/ai/analyze/route.ts:59-64 | a cached reply is the stored output plus `is_cached`, `cached_at` and `cached_model`; every other key is unchanged |
| AnalyzeRoute.AdjustPromptAsWritten | web/app/api/ai/analyze/route.ts:83 | the note is appended exactly when the prompt lacks `json` |
| AnalyzeRoute.AsWrittenPromptMayLackJson | web/app/api/ai/analyze/route.ts:83 | with the note as written, a prompt without `j` still lacks `json` |
| AnalyzeRoute.EmptyPromptLacksJson | web/app/api/ai/analyze/route.ts:83 | concrete case: the empty prompt ends up without `json` |
| AnalyzeRoute.JsonNoteHasJson | web/app/api/ai/analyze/route.ts:83 | the corrected note contains lowercase `json` |
| AnalyzeRoute.AdjustPrompt | web/app/api/ai/analyze/route.ts:82-84 | corrected: the system prompt always contains `json`, and a prompt that has it is unchanged |
| AnalyzeRoute.Analyze | web/app/api/ai/analyze/route.ts:16-125 | the handler, sending the as-written prompt of line 83 and treating a failed lookup as a miss, appends at most one `resume` row stamped with the clock, and answers 200, 400, 401 or 500 |
| AnalyzeRoute.Post | web/app/api/ai/analyze/route.ts:16-125 | the handler's response and new history are what `Analyze` gives for the old history |
| AnalyzeRoute.GuardsComeFirst | web/app/api/ai/analyze/route.ts:19-29 | an unauthenticated request gets 401 and a missing `resumeContent` gets 400, with the history unchanged |
| AnalyzeRoute.BypassIgnoresHistory | web/app/api/ai/analyze/route.ts:36-52 | without `resumeId`, with `forceReanalyze`, or when the lookup reports `fetchError`, the history does not affect the reply |
| AnalyzeRoute.HitSkipsModel | web/app/api/ai/analyze/route.ts:37-65 | on a hit the reply is the cached result, the history is unchanged, and the model is not consulted |
| AnalyzeRoute.MissRecords | web/app/api/ai/analyze/route.ts:78-120 | on a miss or a failed lookup the model gets the as-written prompt of line 83; its failure gives 500 and its success gives 200; a row is appended only with a `resumeId` and a successful insert |
| AnalyzeRoute.RepeatIsCached | web/app/api/ai/analyze/route.ts:37-119 | after a recorded run, the same request is answered from the cache with the output just stored |
| ProfileRoute.IsDisplayNameValid | web/app/api/profile/route.ts:5-10 | `isDisplayNameValid`; `DisplayNameRule` spells out which names it accepts |
| ProfileRoute.DisplayNameRule | web/app/api/profile/route.ts:5-10 | a name is valid exactly when it is a string whose trimmed length is 2 to 32 and whose every character is a letter, a digit, a space, `_`, `.` or `-` |
| ProfileRoute.ValidUnderTrim | web/app/api/profile/route.ts:7 | validity is unchanged by trimming |
| ProfileRoute.Post | web/app/api/profile/route.ts:24-37 | an unauthenticated request writes nothing; a write is for the caller's own row; 200 exactly when a write happened without error |
| ProfileRoute.PostWritesOnlyValid | web/app/api/profile/route.ts:32-34 | every stored name is valid |
| ProfileRoute.PostStoresTrimmed | web/app/api/profile/route.ts:32-34 | a valid name is stored trimmed |
| ProfileRoute.PostRejectsInvalid | web/app/api/profile/route.ts:33 | an invalid name gets 400 and nothing is written |
| ProfileRoute.GetProfile | web/app/api/profile/route.ts:12-22 | 401 before any read; a read error gives 500; otherwise the row, or `{}` when there is none |
| ProfilePage.ValidateName | web/app/profile/page.tsx:18-23 | the length message appears exactly when the trimmed length is outside 2 to 32 |
| ProfilePage.CharsetMessageMeaning | web/app/profile/page.tsx:20-21 | the charset message appears exactly when the length is fine and some character is not allowed |
| ProfilePage.ClientAgreesWithServer | web/app/profile/page.tsx:18-23 | the page accepts a name exactly when the server's `isDisplayNameValid` does |
| ProfilePage.SaveName | web/app/profile/page.tsx:25-31 | the name is sent only when it is valid, and shown only when the server accepted it |
| ProfilePage.ShownIsUntrimmed | web/app/profile/page.tsx:29-30 | the page shows the name as typed while the server stores it trimmed |
| ProfilePage.Crop | web/app/profile/page.tsx:41-43 | a centred square of side `min(w, h)` that lies inside the image and touches one pair of edges |
| ProfilePage.UploadName | web/app/profile/page.tsx:49 | the upload name is `avatar.png` exactly when the type contains `png`, and `avatar.jpg` otherwise |
| ProfilePage.FileChange | web/app/profile/page.tsx:33-49 | no file does nothing; a bad type or size raises the matching alert; otherwise it crops and names the upload |
| ProfilePage.SameRulesAsServer | web/app/profile/page.tsx:36-37 | the page uploads a file exactly when the avatar route's checks would pass it |
| ProfilePage.AfterUpload | web/app/profile/page.tsx:52-55 | the avatar is shown exactly on a 2xx reply; otherwise the alert is the error or `上传失败` |
| ProfilePage.UploadRoundTrip | web/app/profile/page.tsx:51-55 | an accepted upload shows the returned URL, and a storage error shows its message |
| AvatarRoute.IsAcceptedType | web/app/api/profile/avatar/route.ts:17 | the `/i` type test; `AcceptedSpellings` and `UpperCasePngStoredAsJpg` state which types pass |
| AvatarRoute.StoragePath | web/app/api/profile/avatar/route.ts:21 | `${user.id}/avatar.${ext}`; `JpgPath` and `AvatarUrlIsReturned` state the path used |
| AvatarRoute.Extension | web/app/api/profile/avatar/route.ts:21 | the extension is `png` exactly when the type contains `png`, and `jpg` otherwise |
| AvatarRoute.Check | web/app/api/profile/avatar/route.ts:13-18 | a file that passes has an accepted type and size |
| AvatarRoute.FirstFailureDecides | web/app/api/profile/avatar/route.ts:13-18 | the checks run in order (form, file, type, size) and the first failure picks the message |
| AvatarRoute.AcceptedSpellings | web/app/api/profile/avatar/route.ts:17 | the type test ignores case but is anchored |
| AvatarRoute.SizeBoundary | web/app/api/profile/avatar/route.ts:18 | 2·1024·1024 bytes pass and one more byte fails |
| AvatarRoute.UpperCasePngStoredAsJpg | web/app/api/profile/avatar/route.ts:17-21 | `IMAGE/PNG` is accepted but stored as `avatar.jpg`, because the extension test is case-sensitive |
| AvatarRoute.JpgPath | web/app/api/profile/avatar/route.ts:21 | a type without `png` is stored under `<user>/avatar.jpg` |
| AvatarRoute.Post | web/app/api/profile/avatar/route.ts:5-29 | 401 first; an upload happens only after every check passes, at the user's path; a URL is returned only after a successful upload |
| AvatarRoute.AvatarUrlIsReturned | web/app/api/profile/avatar/route.ts:25-28 | the returned URL is the public URL, or the storage path when there is none |
| AvatarRoute.UploadErrorLeavesProfile | web/app/api/profile/avatar/route.ts:22-23 | a storage error gives 500 and the profile is not updated |
| Dashboard.Bucket | web/app/dashboard/page.tsx:28-39 | weeks from seven days on, days from one, hours from one, minutes otherwise |
| Dashboard.BucketCounts | web/app/dashboard/page.tsx:28-39 | each shown number is the floor of the elapsed time in its unit, within that unit's range |
| Dashboard.RelativeText | web/app/dashboard/page.tsx:25-41 | an unparsable date shows `NaN` minutes |
| Dashboard.FutureIsZeroMinutes | web/app/dashboard/page.tsx:27 | a date in the future shows 0 minutes |
| Dashboard.MapRows | web/app/dashboard/page.tsx:25-41 | one listed item per row, in order, each with its relative text; no data gives none |
| Dashboard.FilterBy | web/app/dashboard/page.tsx:49 | `items.filter(...)`; `FilterByMembers`, `FilterByAppend` and `FilterByOne` state what it keeps and that order is kept |
| Dashboard.FilterByMembers | web/app/dashboard/page.tsx:49 | an item is kept exactly when its lowercased title contains the query |
| Dashboard.FilterByAppend | web/app/dashboard/page.tsx:49 | filtering keeps the order of the items |
| Dashboard.FilterByOne | web/app/dashboard/page.tsx:49 | one item is kept or dropped by the title test |
| Dashboard.Filtered | web/app/dashboard/page.tsx:46-50 | a blank query keeps every item |
| Dashboard.FilteredMeaning | web/app/dashboard/page.tsx:46-50 | a non-blank query keeps exactly the items whose lowercased title contains the trimmed, lowercased query |
| Dashboard.FormatUpdatedText | web/app/dashboard/page.tsx:52-54 | the first non-empty of text and fallback, else the empty string |
| Middleware.IsProtected | web/middleware.ts:37-40 | the three `startsWith` prefixes; `ResumesAreProtected` and `SignInNotProtected` state which paths are protected |
| Middleware.Route | web/middleware.ts:36-62 | any redirect goes to `/sign-in` or `/dashboard` |
| Middleware.RouteCases | web/middleware.ts:49-62 | a session at `/sign-in` goes to the dashboard; no session on a protected path goes to sign-in with `redirect=<path>`; everything else passes |
| Middleware.SignInNotProtected | web/middleware.ts:36-40 | `/sign-in` is not a protected path, so the two redirects never both apply |
| Middleware.SessionKeepsProtected | web/middleware.ts:55 | with a session, protected pages pass |
| Middleware.ResumesAreProtected | web/middleware.ts:39 | the `/resume` prefix also covers `/resumes…` |
| Middleware.PublicPathsPass | web/middleware.ts:41-47 | public paths always pass; the computed `isPublicRoute` flag is never used |
| Middleware.Unguarded | web/middleware.ts:43-47 | the public prefixes are neither protected nor the sign-in page |
| MiddlewareNew.Route | web/middleware-new.ts:37-101 | any redirect goes to `/sign-in` or `/dashboard` |
| MiddlewareNew.IsProtected | web/middleware-new.ts:10-14 | some protected prefix starts the path; `ProtectedAndAuthDisjoint` relates it to `IsAuthPath` |
| MiddlewareNew.IsAuthPath | web/middleware-new.ts:11-15 | some auth prefix starts the path; `AuthCodeErrorIsAuthPath` states that the error page is one |
| MiddlewareNew.ProtectedAndAuthDisjoint | web/middleware-new.ts:10-15 | no path is both protected and an auth page |
| MiddlewareNew.ErrorsGuardOnlyProtected | web/middleware-new.ts:42-101 | on a session error or a throw, protected paths go to sign-in and the rest pass |
| MiddlewareNew.SignedInLeavesAuthPages | web/middleware-new.ts:57-59 | a signed-in user on an auth page other than the error page goes to the dashboard |
| MiddlewareNew.SignedOutLeavesProtected | web/middleware-new.ts:62-70 | a signed-out user on a protected path goes to sign-in with a five-minute `redirectAfterAuth` cookie holding the path |
| MiddlewareNew.SignedInKeepsProtected | web/middleware-new.ts:62 | a signed-in user reaches protected paths |
| MiddlewareNew.AuthCodeErrorIsAuthPath | web/middleware-new.ts:11-15 | the auth-code error page counts as an auth path |
| MiddlewareNew.AuthCodeErrorPage | web/middleware-new.ts:57-88 | on the error page, a token plus a session goes to the dashboard; every other case passes |
| ShareRoute.Permission | web/app/api/share/route.ts:16 | the permission is the body's when truthy, and truthy in any case |
| ShareRoute.PermissionDefault | web/app/api/share/route.ts:16 | a missing or falsy permission becomes `public` |
| ShareRoute.MakePayload | web/app/api/share/route.ts:22-29 | the payload carries the new uuid and the permission; a hash is added exactly for `password` with a truthy password, and it is that password's SHA-256; a non-string password throws |
| ShareRoute.Apply | web/app/api/share/route.ts:31 | the update sets uuid and permission and keeps the old hash when none is sent |
| ShareRoute.Update | web/app/api/share/route.ts:31 | only the addressed row changes, and no row is added |
| ShareRoute.ShareTable.Apply | web/app/api/share/route.ts:31 | the table becomes `Update` of the old table |
| ShareRoute.Share | web/app/api/share/route.ts:5-34 | 401 without a user, and the table changes only on a 200 reply |
| ShareRoute.Post | web/app/api/share/route.ts:5-34 | the handler's reply and new table are what `Share` gives |
| ShareRoute.MissingIdWritesNothing | web/app/api/share/route.ts:20 | without `resume_id` the reply is 400 and nothing is written |
| ShareRoute.ShareWritesAndEchoes | web/app/api/share/route.ts:20-33 | a successful share writes the addressed row only and echoes uuid and permission |
| ShareRoute.PasswordShareWithoutPasswordKeepsHash | web/app/api/share/route.ts:26-29 | a `password` share without a password keeps the old hash |
| StatsRoute.LastMatch | web/app/api/stats/route.ts:19 | a found row matches the resume id and type; none is found exactly when no row matches |
| StatsRoute.Single | web/app/api/stats/route.ts:19 | `.single()` yields a row exactly when one row matches |
| StatsRoute.SetCountById | web/app/api/stats/route.ts:24 | only the row with that id changes, and only its count |
| StatsRoute.StatsTable.Insert | web/app/api/stats/route.ts:21 | a row with count 1 and a fresh id is appended |
| StatsRoute.StatsTable.SetCount | web/app/api/stats/route.ts:24 | the table becomes `SetCountById` of the old table |
| StatsRoute.Record | web/app/api/stats/route.ts:4-28 | the table changes only when the reply is `{ok: true}` |
| StatsRoute.Post | web/app/api/stats/route.ts:4-28 | the handler's reply and new table are what `Record` gives |
| StatsRoute.MatchCount | web/app/api/stats/route.ts:19 | how many rows the `.eq('resume_id').eq('type')` filter selects; `LastMatch` and `Single` state their results in terms of it |
| StatsRoute.ReadFailureInsertsAgain | web/app/api/stats/route.ts:19-21 | a failed `select` leaves the data null, so a fresh row with count 1 is inserted even when the key already has one |
| StatsRoute.RejectionsLeaveTable | web/app/api/stats/route.ts:10-25 | no user, a missing field or a write error gives an error reply and the table is kept |
| StatsRoute.FirstCallInserts | web/app/api/stats/route.ts:20-21 | the first count for a key inserts a row with count 1 |
| StatsRoute.LaterCallIncrements | web/app/api/stats/route.ts:23-24 | a later count raises that key's row by one, reading a missing count as 0, and changes nothing else |
| StatsRoute.UniqueCountsOnce | web/app/api/stats/route.ts:19 | with unique keys, at most one row matches |
| StatsRoute.TwoMatches | web/app/api/stats/route.ts:19 | two matching rows make `.single()` fail |
| StatsRoute.RecordKeepsTableSound | web/app/api/stats/route.ts:19-26 | keys stay unique and counts non-negative, and the key's row ends with a count of at least 1 |
| StatsRoute.DuplicatesInsertAgain | web/app/api/stats/route.ts:19-21 | once duplicates exist, `.single()` misses and another row is inserted |
| ResumesRoute.ResumeTables.InsertResume | web/app/api/resumes/route.ts:35-40 | a new resume row with a fresh id and stamp is appended and returned, and the content table is untouched |
| ResumesRoute.ResumeTables.InsertContent | web/app/api/resumes/route.ts:78 | a content row is appended and nothing else changes |
| ResumesRoute.Defaults | web/app/api/resumes/route.ts:31-33 | title, template and colour are the body's when truthy, and the defaults otherwise |
| ResumesRoute.SeedFor | web/app/api/resumes/route.ts:44-76 | every seed has non-empty education, experience, projects, skills and certificates |
| ResumesRoute.SeedChoice | web/app/api/resumes/route.ts:44-76 | `Classic` and `Creative` pick their seeds, and every other template including the default picks the engineer seed |
| ResumesRoute.SeedJson | web/app/api/resumes/route.ts:46-75 | the seed content has the seven resume sections in order |
| ResumesRoute.SeedListsNonEmpty | web/app/api/resumes/route.ts:46-75 | every list section of the stored seed is a non-empty array |
| ResumesRoute.Create | web/app/api/resumes/route.ts:20-81 | 401 without a user; at most one resume row is appended; content is written only after the resume and only on success |
| ResumesRoute.Post | web/app/api/resumes/route.ts:20-81 | the handler's reply and new tables are what `Create` gives |
| ResumesRoute.CreateLinksContent | web/app/api/resumes/route.ts:35-80 | on success the new row has the caller and the defaults, its content is the template's seed under the new id, and the reply is the row |
| ResumesRoute.ContentFailureKeepsResume | web/app/api/resumes/route.ts:78-79 | a content error gives 500 but the resume row stays |
| ResumesRoute.Owned | web/app/api/resumes/route.ts:14 | exactly the caller's rows |
| ResumesRoute.InsertByDate | web/app/api/resumes/route.ts:14 | inserting keeps the newest-first order and adds exactly one row |
| ResumesRoute.OrderNewestFirst | web/app/api/resumes/route.ts:14 | the result is sorted newest first and is a permutation of its input |
| ResumesRoute.TieOrder | web/app/api/resumes/route.ts:14 | of two rows with equal `updated_at`, the later input row is listed first |
| ResumesRoute.List | web/app/api/resumes/route.ts:4-17 | 401 without a user, and 200 exactly when there is a user and the query succeeded; `ListIsOwnedNewestFirst` states the items |
| ResumesRoute.ListIsOwnedNewestFirst | web/app/api/resumes/route.ts:4-17 | `GET` lists exactly the caller's resumes, newest first |
| ResumesRoute.UnauthenticatedRejected | web/app/api/resumes/route.ts:9-28 | both handlers answer 401 without a user and write nothing |
| PdfGenerator.SanitizeColor | web/src/lib/simple-pdf-generator.ts:44-48 | the result is a 3- or 6-digit hex colour; the input is kept exactly when it is one, and black replaces it otherwise |
| PdfGenerator.SanitizeColorIdempotent | web/src/lib/simple-pdf-generator.ts:44-48 | sanitising a colour twice equals once |
| PdfGenerator.Theme | web/src/lib/simple-pdf-generator.ts:44-52 | a missing colour gives black; a truthy non-string throws |
| PdfGenerator.ToStr | web/src/lib/simple-pdf-generator.ts:54 | strings are kept and everything else becomes `''` |
| PdfGenerator.ToLines | web/src/lib/simple-pdf-generator.ts:53 | arrays are kept and everything else becomes `[]` |
| PdfGenerator.NonEmpty | web/src/lib/simple-pdf-generator.ts:72 | `filter(Boolean)` keeps exactly the non-empty parts |
| PdfGenerator.NonEmptyAppend | web/src/lib/simple-pdf-generator.ts:72 | filtering keeps the order of the parts |
| PdfGenerator.ContactLine | web/src/lib/simple-pdf-generator.ts:72 | the filtered, joined contact parts; `ContactLineOrder` and `ContactLineExtremes` state the result |
| PdfGenerator.ContactLineOrder | web/src/lib/simple-pdf-generator.ts:72 | the contact line lists phone, email, LinkedIn and portfolio in that order, skipping empty ones |
| PdfGenerator.ContactLineExtremes | web/src/lib/simple-pdf-generator.ts:72 | all four present are joined by ` · `; none gives an empty line |
| PdfGenerator.HighlightsHtml | web/src/lib/simple-pdf-generator.ts:82-85 | the highlights list is omitted exactly when there are none |
| PdfGenerator.ListSection | web/src/lib/simple-pdf-generator.ts:78-92 | a section is omitted exactly when its list is empty |
| PdfGenerator.Sections | web/src/lib/simple-pdf-generator.ts:78-92 | the document has the five optional sections |
| PdfGenerator.SectionsOnlyWhenNonEmpty | web/src/lib/simple-pdf-generator.ts:78-92 | each optional section appears exactly when its field is a non-empty array |
| PdfGenerator.Assemble | web/src/lib/simple-pdf-generator.ts:51-94 | the theme is a hex colour, and name, job title and summary are never empty |
| PdfGenerator.Placeholders | web/src/lib/simple-pdf-generator.ts:70-76 | missing personal data and summary show the placeholders, with no contact line |
| PdfGenerator.Html | web/src/lib/simple-pdf-generator.ts:56-94 | the page template; `HtmlShowsName` states that it shows the name |
| PdfGenerator.HtmlShowsName | web/src/lib/simple-pdf-generator.ts:70 | the page shows the name |
| PdfGenerator.Filename | web/src/lib/simple-pdf-generator.ts:51-98 | the file name is the option when truthy, and otherwise the title (or the default title) plus `.pdf` |
| PdfGenerator.DefaultFilename | web/src/lib/simple-pdf-generator.ts:51-98 | without title and option the file is `未命名简历.pdf` |
| PdfGenerator.ResumePdf | web/src/lib/simple-pdf-generator.ts:50-104 | a PDF is produced exactly when the document can be assembled |
| PdfGenerator.BlobHtmlAsWritten | web/src/lib/simple-pdf-generator.ts:106-111 | the blob page is produced exactly when the colour can be sanitised |
| PdfGenerator.BlobIgnoresContent | web/src/lib/simple-pdf-generator.ts:108 | the blob page is the same whatever the resume content |
| PdfGenerator.BlobHtml | web/src/lib/simple-pdf-generator.ts:106-111 | corrected: the blob page fails in the same cases as the code as written |
| PdfGenerator.BlobShowsName | web/src/lib/simple-pdf-generator.ts:106-111 | corrected: the blob page shows the resume's name |

## Left out

- I/O and framework plumbing are not modelled. This covers `NextResponse`, request parsing, Supabase clients, cookie adapters, session refresh and the `config.matcher` patterns of both middlewares. A body that fails to parse is an input (`None`), and `req.json()` throwing in the analyze route is a 500.
- Supabase row-level security and the database's own checks are not modelled. Only the filters the routes apply are modelled.
- Concurrency is not modelled. Two requests that race on the same counter or share row are outside the model, because each handler is one atomic step on its table.
- Clocks are not modelled. `created_at` is a counter owned by the history table, so "most recent" means highest stamp. `Date.now()` and `new Date(...)` are parameters, and an unparsable date is `None`.
- Rows with equal `updated_at` come out with the later input row first (`ResumesRoute.TieOrder`). Postgres does not fix an order among ties, so this is one admissible order, and the database's own tie order is not modelled.
- Several oracles are parameters: SHA-256 (FIPS 180-4), `JSON.parse`, `JSON.stringify`, `randomUUID`, the language model, `getPrompt`, `\p{L}` (`isLetter`), `toLowerCase` in the dashboard filter (`lower`), and string conversion of a non-string title in a file name (`display`). `getPrompt` throwing is not modelled.
- `toLowerCase` inside `Sanitize` and the `/i` type test is ASCII-only. Other case mappings are not modelled.
- Numbers are reals, as JSON numbers are. `NaN`, infinities and floating-point rounding are not modelled. The one place they show, an unparsable date, is modelled explicitly.
- `AnalyzeRoute.Analyze`: the insert error is ignored, as in the source. A failed insert (`insertSucceeds` false) leaves the history unchanged and still answers 200.
- `AnalyzeRoute.CachedResult`: the spread of a stored output that is not an object is modelled as if it held no keys.
- `AvatarRoute.Post`: the result of the profile upsert after an upload is ignored, as in the source, so the profile's `avatar_url` is not a modelled table.
- `ProfilePage`: React state, the image load, canvas drawing and the canvas blob's own type and size are not modelled. Only the values the handlers compute are.
- `StatsRoute` and the share view counter: `(count || 0) + 1` is modelled for numbers and a missing count. A string count, which JavaScript would concatenate, is not modelled.
- `Sanitize.SanitizeResume`: the deep clone is value semantics, so the input value cannot change. Aliasing of the original object is not modelled.
- `Markdown.RenderLines` takes the inline renderer as a parameter. `RenderMarkdown` passes `TransformInline`, so the loop's proof does not depend on the inline rules.
- `PdfGenerator`: `html2pdf` rendering, the CSS, and the `generateSimplePDF`/`generateSimplePDFBlob` wrappers are left out, because they only hand a DOM element to the library. Each HTML item is modelled as its structure and text, not byte for byte.
- The `GET /api/share/[uuid]` reader and `/api/resumes/[id]` are not part of this model.

## Findings

| source | as written | input that shows it | evidently intended | confidence | as-written member | corrected member |
|---|---|---|---|---|---|---|
| web/app/api/ai/analyze/route.ts:83 | a prompt without `json` gets `...in valid JSON format.` appended, which holds `JSON` but not lowercase `json` | a prompt file without the letter `j`, such as the empty prompt | the system prompt sent to DeepSeek contains `json`, as line 82's comment says | not executed | AnalyzeRoute.AdjustPromptAsWritten, AnalyzeRoute.EmptyPromptLacksJson | AnalyzeRoute.AdjustPrompt |
| web/src/lib/simple-pdf-generator.ts:106-111 | the blob page is an empty `<div class="page"></div>` and never uses `content`; the shared-resume export at web/app/resume/[id]/export-share/page.tsx:117-125 uploads that blank PDF | any resume with a name, for example `{personal: {full_name: "A"}}` | the blob holds the same resume page as the downloaded PDF | not executed | PdfGenerator.BlobIgnoresContent | PdfGenerator.BlobShowsName |

The route handler `AnalyzeRoute.Analyze`, and `AnalyzeRoute.Post` with it, sends the as-written
prompt of line 83, as the source does. `AnalyzeRoute.AdjustPrompt` is the corrected adjustment,
proved on its own.
