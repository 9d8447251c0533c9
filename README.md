# SkillMap core, modelled in Dafny

SkillMap is a career-roadmap application. It has a mobile front end and an Express/Prisma back end. This project models the parts of it that hold decisions and verifies them:

- **Structured-output recovery** (`JsonParser`). This cleans text returned by the text-generation service:
  - citation markers `[n]` are deleted;
  - `[label](url)` links are rewritten to their label;
  - the JSON is cut out of the first fenced block, or else out of the span from the first `{` to the last `}`;
  - the result is parsed with at most one repair round-trip.
- **Roadmap creation in the back end** (`RoadmapController`). `generateCompleteRoadmap` is a function from the catalog, the request and the outcomes of the two service stages to the reply. The reply is either a refusal or the roadmap written with its links and resource rows. The function covers:
  - reconciling generated skill names with the selected catalog skills, both as a specification function and as a loop;
  - enrichment with per-skill data;
  - resolving prerequisite names to ids;
  - numbering and defaults.

  `createRoadmap` is modelled alongside it.
- **Progress updates in the back end** (`RoadmapProgress`):
  - the skill toggle of `updateSkillProgress`;
  - `updateMilestoneProgress`, which includes the `parseInt(level, 10)` it relies on. The first milestone of that level is updated in place, in an array.
- **API shaping** (`RoadmapFormatter`). This covers the resource, link and roadmap formatters with their defaults.
- **Form validation and sanitisation** (`Validation`). These are the field validators, the two form validators, `sanitizeEmail` and `sanitizeNome`. The regular expressions are written as predicates.
- **The device-local roadmap store** (`RoadmapStore`). `RoadmapService` is a class. Its two fields stand for the device storage: the roadmap list under its key, and one skill list per roadmap key. Its methods create, mark, update and delete. The mock skill selection is modelled with its ten-entry skill pool.
- **The skill cache** (`SkillCatalog`). `SkillService` is a class with the cache and its timestamp as fields, the five-minute freshness rule, the filters and the sorted category list.
- **CORS** (`Cors`). This covers parsing `CORS_ORIGINS`, the default origins, the anchored `*` patterns and the allow/deny callback.
- **Levels on the home screen** (`HomeLevels`). This covers the current level as the source's descending loop, the next level, progress within a level and the active/concluded filters.

Shared modules:
- `Wrappers` defines `Option` and `Result`.
- `Text` covers JavaScript's `trim`, `trimStart`, `toLowerCase`, `includes` and decimal digits.
- `Percent` covers `Math.round(part / total * 100)` on integers, rounding the exact quotient.

Where the code does something a reader might not expect, the model follows the code:
- The degraded path without a service key lists the selected skills in catalog order and answers 200, not 201.
- Prerequisites resolve to the catalog ids of skills in the same roadmap. When two names collide, the last one wins, as with a `Map` built from a list.
- An empty first fenced block falls through to the brace rule; later fences are not tried.
- A CORS entry with `*` keeps `.` as the regular-expression wildcard, so `https://*.example.com` admits `https://evilexample.com` (`Cors.DotIsAWildcard`).

## Model

| member | source | states |
|---|---|---|
| JsonParser.CitationAtComplete | backend/src/services/JsonParserService.ts:10 | wherever a marker `[digits]` stands at the front, the pattern matches exactly that marker |
| JsonParser.RemoveCitationsKeepsPlainText | backend/src/services/JsonParserService.ts:10 | citation removal never deletes a character other than a bracket or digit |
| JsonParser.CitationDeleted | backend/src/services/JsonParserService.ts:10 | a marker at the front is deleted and the pass resumes after it |
| JsonParser.NumericArrayDeleted | backend/src/services/JsonParserService.ts:10 | a one-element numeric JSON array such as `[7]` is deleted as if it were a citation |
| JsonParser.CitationBetween | backend/src/services/JsonParserService.ts:10 | a citation between two bracket-free texts is the only thing the replace removes |
| JsonParser.RemoveCitationsNoBracket | backend/src/services/JsonParserService.ts:10 | text without `[` is unchanged by citation removal |
| JsonParser.RemoveCitationsPrefix | backend/src/services/JsonParserService.ts:10 | a prefix without `[` is kept and the rest is cleaned on its own |
| JsonParser.RemoveCitations | backend/src/services/JsonParserService.ts:10 | the global replace of `/\[\d+\]/g` never lengthens the text; its behaviour is given by CitationDeleted, RemoveCitationsKeepsPlainText and RemoveCitationsNoBracket |
| JsonParser.LinkReplaced | backend/src/services/JsonParserService.ts:11 | a `[name](target)` link at the front is replaced by `name` and the pass resumes after `)` |
| JsonParser.RewriteLinksNoBracket | backend/src/services/JsonParserService.ts:11 | text without `[` is unchanged by link rewriting |
| JsonParser.RewriteLinks | backend/src/services/JsonParserService.ts:11 | no contract of its own: the global replace of `[name](target)` by `name`, specified by LinkReplaced and RewriteLinksNoBracket |
| JsonParser.RemoveWebSearchArtifacts | backend/src/services/JsonParserService.ts:8-13 | text containing no `[` is returned unchanged |
| JsonParser.FirstFenceBlock | backend/src/services/JsonParserService.ts:18 | a found fenced block's interior has no edge whitespace and contains no fence; which block is found is stated by FencedBlockFound and FenceBlockNeedsTwoFences |
| JsonParser.FencedBlockFound | backend/src/services/JsonParserService.ts:18 | in text whose first backtick opens a fence, then an optional `json` tag, white space, a body without backticks or edge white space, white space and a closing fence, the captured group is exactly the body (untagged, the white space and body after the fence must not start with `json`, which the optional tag would take) |
| JsonParser.FenceBlockNeedsTwoFences | backend/src/services/JsonParserService.ts:18 | a captured group needs an opening fence and a later closing fence that does not overlap it |
| JsonParser.FirstFenceBlockSkips | backend/src/services/JsonParserService.ts:18 | a match cannot start where there is no backtick, so the leftmost match is found past backtick-free text |
| JsonParser.FenceInterior | backend/src/services/JsonParserService.ts:18 | the captured group starts after the fence, the optional `json` tag and all the white space the greedy `\s*` takes |
| JsonParser.ClosingFence | backend/src/services/JsonParserService.ts:18 | the lazy group ends at the first fence after the interior's start |
| JsonParser.BraceSpan | backend/src/services/JsonParserService.ts:23-27 | a found span starts with `{`, ends with `}` and has at least two characters |
| JsonParser.CutJson | backend/src/services/JsonParserService.ts:18-29 | the JSON cut from the cleaned text never has edge white space |
| JsonParser.StripMarkdownJson | backend/src/services/JsonParserService.ts:15-30 | the result never has leading or trailing whitespace |
| JsonParser.StripFenced | backend/src/services/JsonParserService.ts:18-21 | a first fenced block with a non-empty interior gives exactly that trimmed interior |
| JsonParser.StripBraced | backend/src/services/JsonParserService.ts:23-27 | otherwise, when the first `{` precedes the last `}`, the result is exactly that inclusive substring |
| JsonParser.StripPlain | backend/src/services/JsonParserService.ts:29 | otherwise the result is the cleaned text, trimmed |
| JsonParser.StripBareObject | backend/src/services/JsonParserService.ts:15-30 | a bare JSON object without brackets or backticks comes back unchanged |
| JsonParser.NoFenceWithoutBacktick | backend/src/services/JsonParserService.ts:18 | text without a backtick has no fenced block |
| JsonParser.Excerpt | backend/src/services/JsonParserService.ts:50 | the excerpt is the substring from max(0,p-100) to min(len,p+100), at most 200 long, and holds the character at p |
| JsonParser.ErrorContext | backend/src/services/JsonParserService.ts:39-51 | it is empty when the message reports no position, else the excerpt around the reported position |
| JsonParser.ReportedPosition | backend/src/services/JsonParserService.ts:39 | no contract of its own: the first match of `/position (\d+)/` in the message, as a number; specified by ReportedPositionFound and ReportedPositionSkips |
| JsonParser.ReportedPositionFound | backend/src/services/JsonParserService.ts:39 | a message whose first "position " followed by a digit is "position " and the digits of n, followed by no further digit, reports n |
| JsonParser.ReportsDigits | backend/src/services/JsonParserService.ts:39 | a message starting with "position " and a run of digits reports their value |
| JsonParser.ReportedPositionSkips | backend/src/services/JsonParserService.ts:39 | no match starts at an index with no "position " and digit, so the search moves past such text |
| JsonParser.RepairAttempt | backend/src/services/JsonParserService.ts:83-95 | an empty reply or a thrown call parses nothing; otherwise the reply is cut by stripMarkdownJson and parsed exactly once |
| JsonParser.ParseWithFallback | backend/src/services/JsonParserService.ts:32-98 | the input is parsed first, at most two parses and at most one repair call happen, and a second parse implies a repair call |
| JsonParser.ParsedWithoutRepair | backend/src/services/JsonParserService.ts:36-37 | input that parses is returned with no repair call |
| JsonParser.NoClientNoRepair | backend/src/services/JsonParserService.ts:42-44 | without a client a parse failure throws, names the parser's message and makes no repair call |
| JsonParser.OneRepairRoundTrip | backend/src/services/JsonParserService.ts:46-92 | with a client there is exactly one repair call, carrying the message, the excerpt and the text, and its cut reply is parsed once |
| JsonParser.RepairFailureNamesBoth | backend/src/services/JsonParserService.ts:93-96 | a failed repair throws one error naming both the parse message and the repair error |
| JsonParser.RecoveredValueWasParsed | backend/src/services/JsonParserService.ts:36-92 | a returned value is what the parser produced for the last text it was given |
| RoadmapController.SelectFromCatalog | backend/src/controllers/roadmap.controller.ts:814 | the selected skills are exactly the catalog entries whose id was requested |
| RoadmapController.SelectionKeepsCatalogOrder | backend/src/controllers/roadmap.controller.ts:799-814 | selection distributes over concatenation of the catalog, so catalog order is kept |
| RoadmapController.FirstNameMatch | backend/src/controllers/roadmap.controller.ts:935-937 | the index found is the first selected skill whose lower-cased name equals the generated name |
| RoadmapController.MatchByName | backend/src/controllers/roadmap.controller.ts:935-937 | a match is a selected skill with that name, and some match is found whenever one exists |
| RoadmapController.FirstNameMatchByLowerCase | backend/src/controllers/roadmap.controller.ts:936 | names that agree after lower-casing find the same skill |
| RoadmapController.Organize | backend/src/controllers/roadmap.controller.ts:939-944 | the organised skill keeps the catalog skill, prerequisites and description; its hours are never 0: a missing or 0 value becomes 20 and any other value, negative included, is kept |
| RoadmapController.ReconcileSkills | backend/src/controllers/roadmap.controller.ts:933-948 | the loop over generated skills computes exactly the reconciled list |
| RoadmapController.ReconciledComplete | backend/src/controllers/roadmap.controller.ts:933-946 | every generated name that matches a selected skill contributes that skill |
| RoadmapController.ReconciledOrigin | backend/src/controllers/roadmap.controller.ts:933-946 | every reconciled entry comes from the first generated skill that matched its catalog skill |
| RoadmapController.ReconciledDistinct | backend/src/controllers/roadmap.controller.ts:938 | no catalog skill appears twice in the reconciled list |
| RoadmapController.ReconciledPrefix | backend/src/controllers/roadmap.controller.ts:934-948 | reconciling a longer reply only appends, so the output is in first-appearance order |
| RoadmapController.FirstOccurrenceWins | backend/src/controllers/roadmap.controller.ts:938-945 | the first generated skill that matches a catalog skill supplies its planning fields |
| RoadmapController.ReconciledEmptyIff | backend/src/controllers/roadmap.controller.ts:950-952 | the reconciled list is empty exactly when no generated name matches a selected skill |
| RoadmapController.ReconciledNamesDistinct | backend/src/controllers/roadmap.controller.ts:933-948 | no two reconciled skills share a lower-cased name |
| RoadmapController.Reconciled | backend/src/controllers/roadmap.controller.ts:933-946 | no contract of its own: the `skillsMap` as a list in insertion order, specified by ReconciledComplete, ReconciledOrigin, ReconciledDistinct, ReconciledPrefix and FirstOccurrenceWins |
| RoadmapController.FirstDataMatch | backend/src/controllers/roadmap.controller.ts:1018-1020 | the enrichment entry found is the first whose lower-cased name equals the skill's |
| RoadmapController.Enrich | backend/src/controllers/roadmap.controller.ts:1017-1048 | every organised skill is kept, in the same order |
| RoadmapController.EnrichOne | backend/src/controllers/roadmap.controller.ts:1017-1029 | the organised skill is kept; a failed stage or a missing `skills_data` gives empty lists; non-empty lists come from an entry whose name equals the skill's, ignoring case |
| RoadmapController.EnrichmentFailureLeavesListsEmpty | backend/src/controllers/roadmap.controller.ts:1041-1048 | a failed enrichment stage gives every skill empty resources and milestones |
| RoadmapController.EnrichmentTakesFirstMatch | backend/src/controllers/roadmap.controller.ts:1018-1030 | a skill takes resources and milestones from the first entry with its name |
| RoadmapController.EnrichmentWithoutMatchIsEmpty | backend/src/controllers/roadmap.controller.ts:1028-1029 | a skill without a matching entry gets empty lists |
| RoadmapController.LookupLastWins | backend/src/controllers/roadmap.controller.ts:1050 | a name found resolves to the id of a skill of that lower-cased name; an absent name resolves to nothing |
| RoadmapController.LookupFindsUniqueName | backend/src/controllers/roadmap.controller.ts:1050 | with distinct names, each skill's name resolves to its own id |
| RoadmapController.ResolvePrerequisites | backend/src/controllers/roadmap.controller.ts:1052-1055 | resolved ids are non-empty ids of skills in this roadmap, and no more than the names given |
| RoadmapController.ResolveOne | backend/src/controllers/roadmap.controller.ts:1054-1055 | one name gives at most one id, and that id is non-empty and belongs to a skill of this roadmap |
| RoadmapController.ResolveConcat | backend/src/controllers/roadmap.controller.ts:1053-1055 | resolution maps over the names one by one, keeping order and repetitions |
| RoadmapController.UnknownPrerequisiteDropped | backend/src/controllers/roadmap.controller.ts:1055 | a name of no skill in the roadmap is dropped |
| RoadmapController.KnownPrerequisiteResolved | backend/src/controllers/roadmap.controller.ts:1050-1055 | a name of a skill in the roadmap resolves, case-insensitively, to its id, including self-references |
| RoadmapController.EnrichedNamesDistinct | backend/src/controllers/roadmap.controller.ts:1050 | the enriched skills have distinct names, so the name map has no collisions |
| RoadmapController.PendingMilestones | backend/src/controllers/roadmap.controller.ts:1075 | every milestone is written with `completed:false`, its other fields unchanged |
| RoadmapController.LinkFor | backend/src/controllers/roadmap.controller.ts:1072-1079 | no contract of its own: the link of the skill at index k, specified field by field through BuildLinks |
| RoadmapController.BuildLinks | backend/src/controllers/roadmap.controller.ts:1071-1079 | one link per skill, order k+1, not concluded, hours never 0 and equal to the skill's own when those are not 0, its objectives, its milestones made pending and its prerequisite names resolved to ids, each naming a link of this roadmap |
| RoadmapController.RowFor | backend/src/controllers/roadmap.controller.ts:1108-1115 | the type defaults to `article`, `isFree` is false only when `is_free` is false, and the other fields are copied |
| RoadmapController.ResourceRows | backend/src/controllers/roadmap.controller.ts:1098-1119 | one row per resource, each for a skill of this roadmap |
| RoadmapController.ResourceRowsOfOne | backend/src/controllers/roadmap.controller.ts:1098-1119 | one skill gives exactly the rows of its resources, in order |
| RoadmapController.ResourceRowsConcat | backend/src/controllers/roadmap.controller.ts:1098-1119 | the rows of two lists of skills are the first list's rows followed by the second's, so skill order is kept |
| RoadmapController.NoResourcesNoRows | backend/src/controllers/roadmap.controller.ts:1099 | skills without resources produce no rows |
| RoadmapController.OrderingStage | backend/src/controllers/roadmap.controller.ts:909-931 | a failed or empty reply fails, and a success is a value the parser produced |
| RoadmapController.BatchStage | backend/src/controllers/roadmap.controller.ts:1000-1015 | a failed call fails, and a success is a value the parser produced |
| RoadmapController.BasicLinks | backend/src/controllers/roadmap.controller.ts:837-841 | the degraded links are the selected skills numbered 1..n, not concluded, without planning columns |
| RoadmapController.RejectedBeforeAnyCall | backend/src/controllers/roadmap.controller.ts:783-822 | 400 is answered exactly for an invalid request, whatever the service says, with the goal check first |
| RoadmapController.InvalidRequest | backend/src/controllers/roadmap.controller.ts:783-822 | no contract of its own: the three 400 guards (goal or experience empty, id list missing or empty, no catalog skill selected); specified by RejectedBeforeAnyCall |
| RoadmapController.TitleFor | backend/src/controllers/roadmap.controller.ts:832 | the default title is "Trilha: " followed by the career goal, unchanged |
| RoadmapController.DegradedRoadmap | backend/src/controllers/roadmap.controller.ts:826-876 | without a service key the selected skills are written in catalog order with title `Trilha: <goal>`, and 200 is answered |
| RoadmapController.GenerationFailsIff | backend/src/controllers/roadmap.controller.ts:924-952 | 500 is answered exactly when the ordering stage fails, has no skills array, or matches no selected skill |
| RoadmapController.GeneratedRoadmapShape | backend/src/controllers/roadmap.controller.ts:1063-1119 | the written roadmap numbers distinct requested catalog skills 1..n, prerequisites and resources refer to its links, and the title falls back |
| RoadmapController.DistinctBounded | backend/src/controllers/roadmap.controller.ts:938 | de-duplication by id means there are never more reconciled skills than selected ones |
| RoadmapController.BatchFailureStillWrites | backend/src/controllers/roadmap.controller.ts:1041-1048 | a failed enrichment stage still writes the roadmap with 201, without milestones or resources |
| RoadmapController.CreateRoadmap | backend/src/controllers/roadmap.controller.ts:16-45 | it refuses with 400 exactly on a missing field or empty skill list; otherwise the caller's ids become links 1..n in the caller's order |
| RoadmapController.GenerateComplete | backend/src/controllers/roadmap.controller.ts:778-1178 | no contract of its own: the endpoint's reply, specified by RejectedBeforeAnyCall, DegradedRoadmap, GenerationFailsIff, GeneratedRoadmapShape and BatchFailureStillWrites |
| RoadmapProgress.ToggleSkillProgress | backend/src/controllers/roadmap.controller.ts:443-459 | the flag is negated, the date is set exactly when it becomes true, nothing else changes, and a missing link is a 404 |
| RoadmapProgress.ToggleTwice | backend/src/controllers/roadmap.controller.ts:451-459 | toggling twice restores the flag |
| RoadmapProgress.ParseIntDecimal | backend/src/controllers/roadmap.controller.ts:492-493 | `parseInt(level,10)` yields a number exactly when a digit follows the leading whitespace and optional sign |
| RoadmapProgress.ParseIntTrimmed | backend/src/controllers/roadmap.controller.ts:492 | after the leading white space, a number exactly when a digit follows the optional sign |
| RoadmapProgress.ParseIntReadsRendering | backend/src/controllers/roadmap.controller.ts:492 | the decimal rendering of n, optionally signed, followed by a non-digit, parses to ±n |
| RoadmapProgress.ParseIntReadsDigits | backend/src/controllers/roadmap.controller.ts:492 | a run of decimal digits, optionally after `-`, followed by a non-digit, parses to the signed value of the digits |
| RoadmapProgress.ParseIntSkipsLeadingWhitespace | backend/src/controllers/roadmap.controller.ts:492 | leading whitespace does not change the parse |
| RoadmapProgress.FindMilestoneIndex | backend/src/controllers/roadmap.controller.ts:534 | the index is the first milestone of the level, or -1 exactly when there is none |
| RoadmapProgress.SetMilestoneCompleted | backend/src/controllers/roadmap.controller.ts:534-544 | only the first milestone of the level changes, and only its flag |
| RoadmapProgress.UpdateMilestoneProgress | backend/src/controllers/roadmap.controller.ts:484-544 | 400 for a non-boolean or unparsable level, 404/403/404 for the link checks; once they pass, an update exactly when a milestone has the level, else 404; the updated one is the first of that level and only its flag changes |
| RoadmapFormatter.ResourceRoundTrip | backend/src/utils/formatters/roadmap.formatter.ts:62-71 | the resource view loses nothing, and `is_free` is `isFree` |
| RoadmapFormatter.ResourcesToApi | backend/src/utils/formatters/roadmap.formatter.ts:117 | resources map one to one in order, or become `[]` when absent |
| RoadmapFormatter.ResourceToApi | backend/src/utils/formatters/roadmap.formatter.ts:62-71 | no contract of its own: field-for-field copy, specified by ResourceRoundTrip |
| RoadmapFormatter.ResourceFromApi | backend/src/utils/formatters/roadmap.formatter.ts:62-71 | no contract of its own: the inverse view used by ResourceRoundTrip |
| RoadmapFormatter.StatusOf | backend/src/utils/formatters/roadmap.formatter.ts:110 | the status is `concluido` exactly when concluded, else `pendente` |
| RoadmapFormatter.FullExtendsSimple | backend/src/utils/formatters/roadmap.formatter.ts:75-118 | the full view extends the simple one, which copies order, completion and the catalog skill id |
| RoadmapFormatter.FullViewDefaults | backend/src/utils/formatters/roadmap.formatter.ts:109-117 | it sets status from the flag, defaults milestones to `[]`, objectives to `''` and hours to 0, and gives the prerequisites passed |
| RoadmapFormatter.ToApiSimple | backend/src/utils/formatters/roadmap.formatter.ts:75-87 | no contract of its own: specified by FullExtendsSimple |
| RoadmapFormatter.ToApiFull | backend/src/utils/formatters/roadmap.formatter.ts:89-119 | no contract of its own: specified by FullExtendsSimple and FullViewDefaults |
| RoadmapFormatter.SimpleView | backend/src/utils/formatters/roadmap.formatter.ts:12-22 | no contract of its own: the fields `ApiRoadmapSkillFull` shares with `ApiRoadmapSkillSimple`, used by FullExtendsSimple |
| RoadmapFormatter.RoadmapToApi | backend/src/utils/formatters/roadmap.formatter.ts:123-133 | no contract of its own: the header, specified by ToApiWithSimpleSkills and ToApiWithFullSkills |
| RoadmapFormatter.ToApiWithSimpleSkills | backend/src/utils/formatters/roadmap.formatter.ts:135-140 | the header is copied and one simple view per link is given, in order |
| RoadmapFormatter.PrerequisitesOf | backend/src/utils/formatters/roadmap.formatter.ts:149 | the prerequisites are the map entry for the link id, or `[]` |
| RoadmapFormatter.ToApiWithFullSkills | backend/src/utils/formatters/roadmap.formatter.ts:142-153 | the header is copied, and one full view per link is given in order with its mapped prerequisites |
| RoadmapFormatter.ViewsAgree | backend/src/utils/formatters/roadmap.formatter.ts:123-153 | both roadmap formatters give the same header, the same number of links, and agreeing simple parts |
| Validation.EmailPatternAccepts | src/constants/index.ts:93 | every `local@domain.rest` built from non-space, non-@ parts matches the e-mail pattern |
| Validation.EmailPatternShape | src/constants/index.ts:93 | a matching address has exactly one `@`, not first, and no whitespace |
| Validation.MatchesEmailPattern | src/constants/index.ts:93 | no contract of its own: `/^[^\s@]+@[^\s@]+\.[^\s@]+$/` as a predicate, specified by EmailPatternAccepts and EmailPatternShape |
| Validation.ValidateEmail | src/utils/validation.ts:8-16 | it is null exactly when the pattern matches, gives the required message exactly for blank input, and `Email inválido` exactly for non-blank input the pattern refuses |
| Validation.SenhaPatternIsStrong | src/constants/index.ts:98 | the password pattern holds exactly for six or more characters with a lower-case letter, an upper-case letter and a digit |
| Validation.MatchesSenhaPattern | src/constants/index.ts:98 | no contract of its own: the three lookaheads and `.{6,}$` counted in UTF-16 units, specified by SenhaPatternIsStrong |
| Validation.AstralCharactersCountTwice | src/utils/validation.ts:22-27 | `Ab1` and two emoji, five characters but seven UTF-16 units, is a valid password |
| Validation.ValidateSenha | src/utils/validation.ts:18-29 | it is null exactly when the pattern matches, gives required exactly for empty input, the minimum-length message exactly for non-empty input under 6 UTF-16 units, and the strength message exactly for 6 or more units the pattern refuses |
| Validation.ValidateNome | src/utils/validation.ts:31-42 | it is null exactly for a non-blank name of 3..50 UTF-16 units drawn from `[a-zA-ZÀ-ÿ\s]` (U+00C0..U+00FF, × and ÷ included, and every white-space character); required exactly for blank; the range message exactly for a bad length; `Nome contém caracteres inválidos` exactly for a good length with another character |
| Validation.MatchesNomePattern | src/constants/index.ts:104 | no contract of its own: `/^[a-zA-ZÀ-ÿ\s]+$/` as a predicate, used by ValidateNome's contract |
| Validation.ValidateConfirmacaoSenha | src/utils/validation.ts:44-52 | it is null exactly for a non-empty equal confirmation, required exactly for an empty one, and `As senhas não coincidem` exactly for a non-empty different one |
| Validation.WithError | src/utils/validation.ts:61-65 | the field is set exactly when there is an error, and other fields are untouched |
| Validation.CollectLoginErrors | src/utils/validation.ts:58-68 | only the two login keys appear, each exactly when its error is present and carrying it |
| Validation.ValidateLoginForm | src/utils/validation.ts:58-68 | a key is present exactly when its validator fails, with that message |
| Validation.CollectErrors | src/utils/validation.ts:70-86 | each of the four keys is present exactly when its error is |
| Validation.ValidateCadastroForm | src/utils/validation.ts:70-86 | a key is present exactly when its validator fails, with that message |
| Validation.CleanCadastroForm | src/utils/validation.ts:70-86 | a form without errors has a valid e-mail, a strong matching password and a well-formed name |
| Validation.SanitizeEmail | src/utils/validation.ts:92-94 | the result is the trimmed address lower-cased character by character, so it has no edge whitespace and is lower-case |
| Validation.SanitizeEmailIdempotent | src/utils/validation.ts:92-94 | sanitising twice equals sanitising once |
| Text.Trim | src/utils/validation.ts:9 | `String.prototype.trim`: no edge white space is left; TrimInfix shows only blanks are removed |
| Text.ToLower | src/utils/validation.ts:93 | one character for each, each lower-cased by the ASCII and Latin-1 case map |
| Text.TrimInfix | src/utils/validation.ts:97 | the trimmed text stands in the original between two all-white-space parts |
| Text.Utf16Length | src/utils/validation.ts:22 | JavaScript's `.length` counts one or two UTF-16 units per character |
| Text.Utf16LengthOfPlane | src/utils/validation.ts:22 | inside the Basic Multilingual Plane the length is the character count |
| Text.Utf16LengthOfAstral | src/utils/validation.ts:22 | each character outside the Basic Multilingual Plane counts two units |
| Validation.CollapseWhitespace | src/utils/validation.ts:97 | the result is empty only for empty input, keeps a leading run as one space and a visible last character, and holds only single plain spaces |
| Validation.CollapseAfterVisible | src/utils/validation.ts:97 | text that ends with a visible character collapses independently of what follows it |
| Validation.CollapseLeadingRun | src/utils/validation.ts:97 | a run of white space before visible text becomes one space |
| Validation.CollapseBetweenVisible | src/utils/validation.ts:97 | a run of white space between two visible characters becomes exactly one space, and each side collapses on its own |
| Validation.CollapseFixed | src/utils/validation.ts:97 | text with single spaces only is unchanged |
| Validation.CollapseKeepsVisible | src/utils/validation.ts:97 | collapsing keeps every non-whitespace character, in order |
| Validation.TrimKeepsVisible | src/utils/validation.ts:97 | `trim` removes only whitespace: the non-whitespace characters survive, in order |
| Validation.SanitizeNome | src/utils/validation.ts:96-98 | the result has no edge whitespace, no adjacent whitespace and only plain spaces |
| Validation.SanitizeNomeJoins | src/utils/validation.ts:96-98 | two names joined by any run of white space sanitise to the two sanitised names joined by one space |
| Validation.SanitizeNomeKeepsVisible | src/utils/validation.ts:96-98 | sanitising keeps every non-whitespace character, in order |
| Validation.SanitizeNomeIdempotent | src/utils/validation.ts:96-98 | sanitising twice equals sanitising once |
| RoadmapStore.Recommended | src/services/RoadmapService.ts:236-249 | a pool skill is kept exactly when it has the type and no current skill is contained in its lower-cased name |
| RoadmapStore.Excluded | src/services/RoadmapService.ts:236-249 | no contract of its own: some current skill, lower-cased, occurs in the pool skill's lower-cased name; specified by Recommended |
| RoadmapStore.RecommendedConcat | src/services/RoadmapService.ts:237-249 | the filter keeps pool order |
| RoadmapStore.EmptyEntryExcludesType | src/services/RoadmapService.ts:236-249 | an empty current-skill entry excludes the whole type |
| RoadmapStore.MockFrom | src/services/RoadmapService.ts:227-256 | at most 4 hard skills then at most 3 soft skills, each the front of its filtered list |
| RoadmapStore.MockWithoutCurrentSkills | src/services/RoadmapService.ts:227-256 | with no current skills, the mock gives the first four hard and first three soft skills of the pool |
| RoadmapStore.GerarSkillsMock | src/services/RoadmapService.ts:227-256 | no contract of its own: MockFrom on the fixed pool, specified by MockFrom and MockWithoutCurrentSkills |
| RoadmapStore.RoadmapsOf | src/services/RoadmapService.ts:93 | exactly the stored roadmaps of the user |
| RoadmapStore.WithoutRoadmap | src/services/RoadmapService.ts:396 | exactly the stored roadmaps with another id |
| RoadmapStore.LinkIdsDistinct | src/services/RoadmapService.ts:298 | link ids `roadmap-skill-<id>-<index>` differ for different indices |
| RoadmapStore.FindSkillIndex | src/services/RoadmapService.ts:337 | the loop finds the first skill with the id, or -1 exactly when none has it |
| RoadmapStore.FindRoadmapIndex | src/services/RoadmapService.ts:374 | the loop finds the first roadmap with the id, or -1 exactly when none has it |
| RoadmapStore.Marked | src/services/RoadmapService.ts:344-345 | only that skill changes: it becomes concluded at `now` |
| RoadmapStore.MarkingCounts | src/services/RoadmapService.ts:344-350 | marking raises the concluded count by one exactly when the skill was pending |
| RoadmapStore.CountConcluded | src/services/RoadmapService.ts:350 | the concluded count never exceeds the number of skills |
| RoadmapStore.WithProgress | src/services/RoadmapService.ts:368-384 | only the first roadmap with the id gets the progress and date, and nothing happens without a stored list |
| RoadmapStore.ProgressUpdateTouchesOnlyMatch | src/services/RoadmapService.ts:374-380 | a roadmap with another id is unchanged |
| RoadmapStore.RoadmapService.constructor | src/services/RoadmapService.ts:83 | the service starts with no stored roadmap list and no skill lists |
| RoadmapStore.RoadmapService.CarregarRoadmaps | src/services/RoadmapService.ts:87-98 | `[]` without a stored list, else exactly the user's roadmaps |
| RoadmapStore.RoadmapService.CarregarRoadmapSkills | src/services/RoadmapService.ts:103-113 | no contract of its own: the stored list under the roadmap's key, or `[]`; used by CriarRoadmap and MarcarSkillConcluida |
| RoadmapStore.RoadmapService.CriarRoadmap | src/services/RoadmapService.ts:261-311 | with no skill, it fails and stores nothing; otherwise it appends one 0% roadmap and stores one pending link per skill under its key |
| RoadmapStore.GeneratedSkills | src/services/RoadmapService.ts:117-127 | no contract of its own: the generated list when the text-generation call produced one, the mock when no key is configured or the call failed; used by CriarRoadmap's contract |
| RoadmapStore.RoadmapService.MarcarSkillConcluida | src/services/RoadmapService.ts:324-358 | it fails and changes nothing without a list or the id; otherwise it marks that skill, stores the rounded percentage and grants 50 XP |
| RoadmapStore.RoadmapService.AtualizarProgresso | src/services/RoadmapService.ts:368-384 | the roadmap list becomes the progress update, and the skill lists are untouched |
| RoadmapStore.RoadmapService.DeletarRoadmap | src/services/RoadmapService.ts:389-404 | false and no change without a list; otherwise every roadmap with the id and its skills key are removed |
| RoadmapStore.CreatedSkills | src/services/RoadmapService.ts:297-302 | one pending link per skill, in order, with distinct ids |
| RoadmapStore.LinksFor | src/services/RoadmapService.ts:297-302 | no contract of its own: specified by CreatedSkills |
| RoadmapStore.CreatedRoadmapIsLoaded | src/services/RoadmapService.ts:279-294 | a created roadmap is loaded for its user, after the earlier ones |
| RoadmapStore.DeletedRoadmapNotLoaded | src/services/RoadmapService.ts:392-398 | after deletion the user's roadmaps are the earlier ones minus that id |
| RoadmapStore.MarkedProgressInRange | src/services/RoadmapService.ts:350-351 | the stored progress is in 0..100, and reaches 100 when the last pending skill is marked |
| Percent.RoundedPercent | src/services/RoadmapService.ts:351 | the result is the nearest integer to the exact value of 100·part/total, rounding halves up, in 0..100 for 0 ≤ part ≤ total |
| SkillCatalog.ClearedCacheIsStale | src/services/SkillService.ts:93-96 | after clearing, the next call fetches |
| SkillCatalog.Keep | src/services/SkillService.ts:69-81 | the filter keeps exactly the matching skills |
| SkillCatalog.KeepConcat | src/services/SkillService.ts:69-81 | the filter keeps order |
| SkillCatalog.LessTransitive | src/services/SkillService.ts:90 | the string order is transitive |
| SkillCatalog.LessTotal | src/services/SkillService.ts:90 | the string order is total |
| SkillCatalog.Insert | src/services/SkillService.ts:87-90 | inserting into a sorted set keeps it strictly sorted and adds exactly the element |
| SkillCatalog.SortedUnique | src/services/SkillService.ts:90 | two strictly sorted lists of the same elements are equal |
| SkillCatalog.SortedCategories | src/services/SkillService.ts:87-90 | exactly the distinct non-empty categories, strictly sorted |
| SkillCatalog.CategoriesAreTheSortedSet | src/services/SkillService.ts:87-90 | any strictly sorted list of those categories is the result |
| SkillCatalog.SkillService.constructor | src/services/SkillService.ts:7-8 | the cache is null and the timestamp 0 |
| SkillCatalog.SkillService.GetAllSkills | src/services/SkillService.ts:20-50 | a fresh cache is returned with no request; a success replaces the cache and stamps `now`; a failure returns the old cache or `[]` and changes nothing |
| SkillCatalog.IsFresh | src/services/SkillService.ts:24-28 | no contract of its own: no forced refresh, a cached list and an age under five minutes; GetAllSkills requests exactly when it does not hold, and ClearedCacheIsStale shows a cleared cache never holds |
| SkillCatalog.SkillService.GetSkillsByType | src/services/SkillService.ts:69-74 | `[]` without a cache, else exactly the cached skills of the type |
| SkillCatalog.SkillService.GetSkillsByCategory | src/services/SkillService.ts:76-81 | `[]` without a cache, else exactly the cached skills of the category |
| SkillCatalog.SkillService.GetAllCategories | src/services/SkillService.ts:83-91 | `[]` without a cache, else the distinct non-empty categories, strictly sorted |
| SkillCatalog.SkillService.ClearCache | src/services/SkillService.ts:93-96 | the cache is null and the timestamp 0 |
| SkillCatalog.FiltersKeepOrder | src/services/SkillService.ts:69-81 | both filters keep the cache's order |
| Cors.Split | backend/src/index.ts:27 | splitting gives at least one piece, none containing the separator |
| Cors.SplitJoin | backend/src/index.ts:27 | the pieces joined by the separator give back the text |
| Cors.ParseOrigins | backend/src/index.ts:27-32 | the four defaults when unset; otherwise entry k is piece k of the comma split, trimmed, so no entry has edge white space or a comma |
| Cors.OriginsRoundTrip | backend/src/index.ts:27 | a list of comma-free entries without edge white space, joined with commas, is read back as the same list |
| Cors.JoinSplit | backend/src/index.ts:27 | `split(',')` undoes joining pieces that contain no comma |
| Cors.StarMatches | backend/src/index.ts:45 | a `*` matches any substring without a line terminator, empty included |
| Cors.LiteralMatchesItself | backend/src/index.ts:45-46 | a pattern without `*` or line terminators matches its own text |
| Cors.WildcardAllows | backend/src/index.ts:44-46 | `prefix*suffix` allows `prefix` + anything + `suffix` |
| Cors.DotIsAWildcard | backend/src/index.ts:45 | `https://*.example.com` allows `https://evilexample.com`, because `.` keeps its regular-expression meaning |
| Cors.CheckOrigin | backend/src/index.ts:38-56 | no Origin is allowed; otherwise the origin is allowed exactly when some entry allows it |
| Cors.Matches | backend/src/index.ts:45-46 | no contract of its own: the anchored pattern with `*` as `.*`, specified by StarMatches, LiteralMatchesItself, WildcardAllows and DotIsAWildcard |
| Cors.EntryAllows | backend/src/index.ts:44-48 | no contract of its own: the pattern for an entry with `*`, equality otherwise, specified by PlainEntryIsExact and WildcardAllows |
| Cors.DefaultsAllowExactly | backend/src/index.ts:27-48 | with the defaults exactly the four localhost origins are allowed |
| Cors.PlainEntryIsExact | backend/src/index.ts:48 | an entry without `*` allows exactly the identical origin |
| HomeLevels.NiveisIncreasing | src/constants/index.ts:152-158 | the five levels are numbered 1..5 and their XP thresholds strictly increase from 0 |
| HomeLevels.LevelIndex | src/screens/HomeScreen.tsx:52-58 | it is the highest level whose threshold the XP reaches, falling back to the first |
| HomeLevels.GetNivelAtual | src/screens/HomeScreen.tsx:49-59 | the descending loop returns null without a user, else the level `LevelIndex` names |
| HomeLevels.NivelAtual | src/screens/HomeScreen.tsx:49-59 | null exactly without a user, else an entry of the level table |
| HomeLevels.ProximoNivelAsWritten | src/screens/HomeScreen.tsx:61-67 | null without a user |
| HomeLevels.FirstIndexOf | src/screens/HomeScreen.tsx:65 | `findIndex` with `===`: the first index holding the target, or -1 exactly when none does |
| HomeLevels.NextLevelAlwaysAprendiz | src/screens/HomeScreen.tsx:65-66 | as written, the next level is always Aprendiz |
| HomeLevels.ProximoNivel | src/screens/HomeScreen.tsx:61-67 | the level after the current one, or null exactly at the last level |
| HomeLevels.NextLevelAsWrittenWrongFromAprendiz | src/screens/HomeScreen.tsx:61-67 | the code as written and the intended next level agree exactly below 500 XP |
| HomeLevels.RoundPercent | src/screens/HomeScreen.tsx:78 | `Math.round(x/y*100)` as a JavaScript number: NaN for 0/0, ±Infinity for x/0, otherwise the exact value of 100·x/y rounded half up, for a negative divisor as well as a positive one |
| HomeLevels.FloorDiv | src/screens/HomeScreen.tsx:78 | the quotient rounded towards minus infinity, for a negative divisor as well as a positive one, as `Math.round` needs it |
| HomeLevels.ProgressoAsWritten | src/screens/HomeScreen.tsx:69-79 | 0 without a user |
| HomeLevels.ProgressAsWrittenOutOfRange | src/screens/HomeScreen.tsx:69-79 | as written, progress is -50 at 2000 XP, NaN at 500 XP and Infinity at 700 XP |
| HomeLevels.ProgressAsWrittenAgreesBelowAprendiz | src/screens/HomeScreen.tsx:69-79 | below 500 XP the code as written gives the intended progress |
| HomeLevels.Progresso | src/screens/HomeScreen.tsx:69-79 | 0 without a user or at the last level, else the rounded share of the way to the next level, in 0..100 |
| HomeLevels.Ativos | src/screens/HomeScreen.tsx:85 | exactly the roadmaps with progress below 100 |
| HomeLevels.Concluidos | src/screens/HomeScreen.tsx:86 | exactly the roadmaps with progress 100 |
| HomeLevels.ActiveAndConcludedPartition | src/screens/HomeScreen.tsx:85-86 | no roadmap is both active and concluded, and every roadmap with progress at most 100 is one of them |

## Left out

- Calls to the text-generation service and `JSON.parse` itself are parameters. They are the parser oracle, the repair call, the outcomes of the two stages, and `aiSkills` for `gerarSkillsComIA`. Prompt texts and the HTTP request inside `gerarSkillsComIA` are not modelled.
- Prisma, PostgreSQL and Express are not modelled. Requests and replies are datatypes. The writes are returned as a value, not performed. Re-reading the written tree, ownership queries and transaction atomicity are not modelled.
- Device storage becomes the two fields of `RoadmapStore.RoadmapService`. `JSON.stringify` and `JSON.parse` of stored lists are treated as identity.
- The `catch` branches that only answer a storage or database exception are not modelled. These are `criarRoadmap`'s `criadoError`, `marcarSkillConcluida`'s `success:false`, `deletarRoadmap`'s `false` and the controllers' 500 for a database error. The model has no exceptions to raise.
- Clocks, random ids and the 800 ms mock delay are parameters (`now`, `roadmapId`) or are left out. Dates are integers.
- Floating point: `Math.round` of a quotient is taken on the exact rational value, not on the doubles JavaScript computes. The two differ only where the exact value is a half; see the next two lines. `Number(percentualProgress)` is the identity.
- Percent.RoundedPercent: rounds the exact value of 100·part/total half up. JavaScript computes `part / total * 100` in double precision first, and at an exact half the double can fall just below it: 29 of 200 gives 14.499999999999998 there and rounds to 14, where this gives 15. RoadmapStore.RoadmapService.MarcarSkillConcluida stores this value and inherits the difference.
- HomeLevels.RoundPercent: the same exact rounding of `x / y * 100`, with the same difference at exact halves: 35 / -1000 * 100 is -3.5000000000000004 in JavaScript and rounds to -4, where this gives -3 (a user with 1535 XP in HomeLevels.ProgressoAsWritten). HomeLevels.ProgressoAsWritten and HomeLevels.Progresso inherit the difference.
- Text.ToLower: only ASCII and Latin-1 upper-case letters are lower-cased. The rest of Unicode case mapping is not modelled.
- SkillCatalog.Less: code points are compared. `Array.prototype.sort` compares UTF-16 code units, which differs only for characters outside the Basic Multilingual Plane.
- Cors.Matches: only `*` and `.` have a pattern meaning in an entry with `*`. Other regular-expression metacharacters are treated literally.
- RoadmapController.Organize: the ordering reply is read into a typed record. Hours are integers, so a fractional `estimated_hours`, which `|| 20` keeps, is not represented; a missing, null or NaN value is 0 in the record and becomes 20.
- RoadmapController.BuildLinks: `prerequisites` and `milestones` are lists in the model. A reply holding another JSON value there makes `.map` throw in the source (a 500); that path is not modelled, nor is a fractional hour count written to the integer column.
- RoadmapController.RowFor: `is_free` is a boolean or absent in the model. A `null` is written as null in the source; that case is not represented.
- JsonParser.Excerpt: positions and lengths count characters, where `substring` and the parser's reported position count UTF-16 units. They differ only for text outside the Basic Multilingual Plane, and a cut between the two halves of a surrogate pair cannot be represented.
- RoadmapController.ResourceRows: `skipDuplicates` is left to the database's unique constraint, so duplicate rows are not removed. A resource whose link is missing is never skipped, because every written skill has a link.
- `hashPassword` and `comparePassword` are SHA-256 through a native library. The singleton `getInstance`, `getSkillById`, loggers and UI rendering are not part of this model.

## Findings

| source | as written | input that shows it | evidently intended | confidence | as-written member | corrected member |
|---|---|---|---|---|---|---|
| src/screens/HomeScreen.tsx:65 | `findIndex` compares `n.level`, a field no level entry has (`undefined === undefined`), so the index is always 0 and the next level is always Aprendiz | `current_xp` 2000 (level Praticante): next level reported as Aprendiz | the entry after the current level, null at Mestre | high; not executed | HomeLevels.NextLevelAlwaysAprendiz | HomeLevels.ProximoNivel |
| src/screens/HomeScreen.tsx:75-78 | progress is measured against Aprendiz whatever the level, so it leaves 0..100 | `current_xp` 2000 gives -50; 500 gives NaN; 700 gives Infinity | rounded share of the way from the current to the next level, in 0..100 | high; not executed | HomeLevels.ProgressAsWrittenOutOfRange | HomeLevels.Progresso |
