# SEO content checker — a verified model

This project models the scoring core of the SEO content checker React component. The component reads three inputs: the article text, the target keyword and a meta description. From them it builds two feedback lists:

- **Content analysis** (`analyzeSEO`) runs seven rules in a fixed order: length, keyword in the introduction, keyword density, headings, links, lists and images. Each rule pushes one message onto the list. A passing rule adds its points to the score: 20, 15, 15, then 10 for each of the last four.
- **Meta-description analysis** (`analyzeMetaDescription`) pushes a length verdict and a keyword verdict. It awards no points.

An effect runs the content analysis whenever the text or keyword changes and both are non-empty. Another effect runs the meta analysis whenever the meta description changes and is non-empty. Both analyses store their results in the component's state.

The repository also holds an older copy of the component at its root. That copy has only the content analysis, with the same seven rule blocks.

## Modules

- `strings.dfy`, module `Strings`: the JavaScript string operations the checker uses.
  - `split(/\s+/)` with the full `\s` class, and its word count.
  - `toLowerCase` for ASCII letters, `slice(0, n)` and `includes`.
  - The number of matches of a global regular expression made from a literal keyword. Matches are found left to right and do not overlap.
- `messages.dfy`, module `Messages`:
  - the seven rules and their order;
  - one message per rule branch, with the exact text the page shows;
  - the points each message carries;
  - the meta-description messages.
- `rules.dfy`, module `ContentRules`: both analyses as pure functions, with the lemmas that say what each rule means.
  - The content analysis is `Feedback`, with its score `Score`; the meta analysis is `MetaFeedback`.
  - `KeywordDensity` keeps the source's expression `keywordCount / wordCount * 100`, in exact rationals. `DensityBranches` proves that its three branches coincide with whole-number cross-multiplication.
- `outline_tool.dfy`, module `OutlineTool`: the component's analyses as imperative code.
  - Each content rule block is a step that conditionally adds points and pushes a message. `Analyze` runs the seven steps from a zero score and an empty list. `AnalyzeMeta` runs the meta analysis.
  - Both are proved to produce exactly `Feedback`/`Score` and `MetaFeedback`.
  - The class `Tool` holds the component's state fields. As in the component, the feedback fields hold the displayed strings (`Texts` and `MetaTexts` of the message lists). Its methods take the effect guards as preconditions.
- `root_outline_tool.dfy`, module `RootOutlineTool`: the root copy.
  - Its analysis is specified by an independent rule table: a pass test, a passing and a failing message, and the points for each rule.
  - `RootSameAsSrc` proves the table gives the same feedback and score as the current component on every input.

## Model

| member | source | states |
|---|---|---|
| Strings.IsSpace | src/seo-content-outline-tool.js:29 | the `\s` class of ECMAScript: TAB, LF, VT, FF, CR, SP, U+00A0, U+1680, U+2000–U+200A, U+2028, U+2029, U+202F, U+205F, U+3000 and U+FEFF |
| Strings.Lower | src/seo-content-outline-tool.js:38 | `toLowerCase` keeps the length and maps each character on its own, turning `A`–`Z` into `a`–`z` and leaving every other character unchanged |
| Strings.Take | src/seo-content-outline-tool.js:38 | `slice(0, n)` is the prefix of length `min(n, length)` |
| Strings.LowerSlice | src/seo-content-outline-tool.js:38 | lower-casing a slice equals slicing the lower-cased text, so "slice then lower-case" looks at the first 100 lower-cased characters |
| Strings.ContainsIff | src/seo-content-outline-tool.js:58 | `includes(p)` holds exactly when `p` occurs at some position |
| Strings.ContainsCharIff | src/seo-content-outline-tool.js:58 | `includes` of a one-character string holds exactly when that character appears somewhere |
| Strings.ContainsTakeIff | src/seo-content-outline-tool.js:38 | the first `n` characters include `p` exactly when an occurrence of `p` ends at or before position `n` |
| Strings.Occurrences | src/seo-content-outline-tool.js:46 | the number of left-to-right, non-overlapping matches of a non-empty pattern that a global `match` returns |
| Strings.Contains | src/seo-content-outline-tool.js:58-82 | `includes(p)`: `p` occurs at some position, which needs `p` to be no longer than the text |
| Strings.OccurrencesBound | src/seo-content-outline-tool.js:46 | global matches of a non-empty pattern do not overlap: count × pattern length ≤ text length |
| Strings.OccurrencesPositive | src/seo-content-outline-tool.js:46 | the match count is positive exactly when the pattern occurs |
| Strings.CountMatches | src/seo-content-outline-tool.js:46 | the left-to-right scan that skips past each match returns the number of non-overlapping matches |
| Strings.Split | src/seo-content-outline-tool.js:29 | `split(/\s+/)` always returns at least one piece |
| Strings.SplitLength | src/seo-content-outline-tool.js:29 | the number of pieces is one more than the number of maximal whitespace runs |
| Strings.SplitPiecesHaveNoSpace | src/seo-content-outline-tool.js:29 | no piece contains a whitespace character |
| Strings.LeadingSpaceGivesEmptyPiece | src/seo-content-outline-tool.js:29 | text starting with whitespace yields an empty first piece, which the word count includes |
| Strings.TrailingSpaceGivesEmptyPiece | src/seo-content-outline-tool.js:29 | text ending with whitespace yields an empty last piece, which the word count includes |
| Strings.CountWords | src/seo-content-outline-tool.js:29 | a single pass counting whitespace-run starts returns `split(/\s+/).length` |
| Messages.PassUnique | src/seo-content-outline-tool.js:30-87 | each rule has at most one message that awards points: two passing messages of the same rule are equal |
| Messages.PassExists | src/seo-content-outline-tool.js:30-87 | each rule has a message that awards points, so with `PassUnique` exactly one |
| Messages.PointsOfPass | src/seo-content-outline-tool.js:30-87 | a message adds points exactly when it is a passing message; the points are a multiple of 5 and at most 20 |
| Messages.Text | src/seo-content-outline-tool.js:32-86 | the exact text pushed for each branch of the seven content checks |
| Messages.MetaText | src/seo-content-outline-tool.js:100-111 | the exact text pushed for each branch of the two meta-description checks |
| ContentRules.WordCount | src/seo-content-outline-tool.js:29 | `content.split(/\s+/).length`: the number of pieces, empty pieces at either end included |
| ContentRules.KeywordCount | src/seo-content-outline-tool.js:46 | the number of non-overlapping matches of the lower-cased keyword, taken literally, in the lower-cased content |
| ContentRules.LengthVerdict | src/seo-content-outline-tool.js:30-35 | the message the length block pushes for each branch |
| ContentRules.IntroVerdict | src/seo-content-outline-tool.js:38-43 | the message the introduction block pushes for each branch |
| ContentRules.DensityVerdict | src/seo-content-outline-tool.js:47-55 | the message the density block pushes for each branch, on the real-valued density |
| ContentRules.HeadingsVerdict | src/seo-content-outline-tool.js:58-63 | the message the headings block pushes for each branch |
| ContentRules.LinksVerdict | src/seo-content-outline-tool.js:66-71 | the message the links block pushes for each branch |
| ContentRules.ListsVerdict | src/seo-content-outline-tool.js:74-79 | the message the lists block pushes for each branch |
| ContentRules.ImageVerdict | src/seo-content-outline-tool.js:82-87 | the message the image block pushes for each branch |
| ContentRules.FeedbackOrder | src/seo-content-outline-tool.js:28-87 | the list has seven items, and item i belongs to the i-th rule: length, introduction, density, headings, links, lists, image |
| ContentRules.WordCountRuns | src/seo-content-outline-tool.js:29 | the word count is 1 + the number of whitespace runs, so it is at least 1 and the density division is never by zero |
| ContentRules.KeywordDensity | src/seo-content-outline-tool.js:47 | `(count / words) * 100` over the reals: never negative, and zero exactly when the keyword is not counted |
| ContentRules.LengthRule | src/seo-content-outline-tool.js:29-35 | the length item is "good" exactly when the text has at least 299 whitespace runs (300 pieces), otherwise "too short" |
| ContentRules.IntroRule | src/seo-content-outline-tool.js:38-43 | the introduction item is "present" exactly when the lower-cased keyword occurs in the lower-cased text ending within the first 100 characters, otherwise "missing" |
| ContentRules.IntroDependsOnPrefix | src/seo-content-outline-tool.js:38 | the introduction verdict of a text equals that of its first 100 characters alone |
| ContentRules.IntroIgnoresTail | src/seo-content-outline-tool.js:38 | two texts with the same first 100 characters get the same introduction verdict, whatever is typed, deleted or replaced from position 100 on |
| ContentRules.DensityBranches | src/seo-content-outline-tool.js:47-55 | density in [0.5, 2.5] (inclusive) iff `words <= 200·count` and `40·count <= words`; above 2.5 iff `40·count > words`; below 0.5 iff `200·count < words` |
| ContentRules.KeywordCountBound | src/seo-content-outline-tool.js:46 | the keyword's matches fit in the lower-cased text without overlapping |
| ContentRules.KeywordCountPositive | src/seo-content-outline-tool.js:46 | the keyword is counted at least once exactly when it occurs, ignoring case |
| ContentRules.DensityRule | src/seo-content-outline-tool.js:46-55 | the density item is good, stuffing or low according to the three whole-number bands, and exactly one holds |
| ContentRules.HeadingsRule | src/seo-content-outline-tool.js:58-63 | the headings item is "found" exactly when a `#` appears anywhere |
| ContentRules.LinksRule | src/seo-content-outline-tool.js:66-71 | the links item is "found" exactly when `http` or `www` occurs anywhere |
| ContentRules.ListsRule | src/seo-content-outline-tool.js:74-79 | the lists item is "found" exactly when a `-` or `1.` occurs anywhere |
| ContentRules.ImageRule | src/seo-content-outline-tool.js:82-87 | the image item is "found" exactly when both `![` and `](` occur, in any order and at any distance |
| ContentRules.Feedback | src/seo-content-outline-tool.js:24-92 | the list the analysis pushes: one verdict per rule, in the order of the seven blocks, so seven items |
| ContentRules.Score | src/seo-content-outline-tool.js:25-87 | the score a list of messages accumulates: the sum of each message's points |
| ContentRules.ScoreAppend | src/seo-content-outline-tool.js:30-32 | pushing a message adds exactly that message's points to the score |
| ContentRules.VerdictPoints | src/seo-content-outline-tool.js:30-55 | the length, introduction and density items carry 20, 15 and 15 points when they pass, 0 otherwise |
| ContentRules.ScoreSchedule | src/seo-content-outline-tool.js:25-87 | the score is 20·[length] + 15·[intro] + 15·[density] + 10·([headings] + [links] + [lists] + [image]) |
| ContentRules.ScoreMultipleOfFive | src/seo-content-outline-tool.js:31-83 | the score of any feedback list is a multiple of 5 |
| ContentRules.ScoreRange | src/seo-content-outline-tool.js:25-90 | the stored score is a multiple of 5 between 0 and 90, so 100 is never reached |
| ContentRules.ScoreMaximal | src/seo-content-outline-tool.js:25-90 | the score is 90 exactly when all seven items are passing messages |
| ContentRules.AllPassIff | src/seo-content-outline-tool.js:28-87 | seven items in rule order all pass exactly when they are the seven passing messages (each rule has one) |
| ContentRules.ScoreMaximalFeedback | src/seo-content-outline-tool.js:25-90 | the score is 90 exactly when the feedback is the list of the seven passing messages |
| ContentRules.MetaLengthVerdict | src/seo-content-outline-tool.js:98-105 | the message the meta length block pushes for each branch |
| ContentRules.MetaKeywordVerdict | src/seo-content-outline-tool.js:108-112 | the message the meta keyword block pushes for each branch |
| ContentRules.MetaFeedback | src/seo-content-outline-tool.js:94-116 | the list the meta analysis pushes: a length verdict first, then a keyword verdict |
| ContentRules.MetaShape | src/seo-content-outline-tool.js:94-112 | the meta list has two items: a length verdict, then a keyword verdict |
| ContentRules.MetaLengthRule | src/seo-content-outline-tool.js:98-105 | exactly one length branch holds: good on [50, 160], too short below 50, too long above 160 |
| ContentRules.MetaKeywordRule | src/seo-content-outline-tool.js:108-112 | the keyword item is "present" exactly when the lower-cased keyword occurs in the lower-cased description |
| ContentRules.MetaEmptyKeyword | src/seo-content-outline-tool.js:108 | with no keyword entered, the keyword item reads "present", since every string includes the empty string |
| OutlineTool.CheckLength | src/seo-content-outline-tool.js:29-35 | the length block returns the word count (at least 1), pushes the length verdict and adds its points |
| OutlineTool.CheckIntro | src/seo-content-outline-tool.js:38-43 | the introduction block pushes the introduction verdict and adds its points |
| OutlineTool.CheckDensity | src/seo-content-outline-tool.js:46-55 | the density block, comparing by cross-multiplication, pushes the same verdict as the real-valued density test and adds its points |
| OutlineTool.CheckHeadings | src/seo-content-outline-tool.js:58-63 | the headings block pushes the headings verdict and adds its points |
| OutlineTool.CheckLinks | src/seo-content-outline-tool.js:66-71 | the links block pushes the links verdict and adds its points |
| OutlineTool.CheckLists | src/seo-content-outline-tool.js:74-79 | the lists block pushes the lists verdict and adds its points |
| OutlineTool.CheckImage | src/seo-content-outline-tool.js:82-87 | the image block pushes the image verdict and adds its points |
| OutlineTool.Analyze | src/seo-content-outline-tool.js:24-92 | the accumulated list is the seven-rule feedback, and the accumulated score is its points: a multiple of 5, at most 90 |
| OutlineTool.AnalyzeMeta | src/seo-content-outline-tool.js:94-116 | the accumulated list is the two-item meta feedback |
| OutlineTool.Tool.constructor | src/seo-content-outline-tool.js:4-9 | initial state: empty strings, score 0, empty lists |
| OutlineTool.Tool.AnalyzeSEO | src/seo-content-outline-tool.js:12-16 | runs only with non-empty text and keyword; stores the texts of the feedback and its score and changes nothing else |
| OutlineTool.Tool.AnalyzeMetaDescription | src/seo-content-outline-tool.js:18-22 | runs only with a non-empty meta description; stores the texts of the meta feedback and leaves the score and content feedback as they were |
| RootOutlineTool.RuleVerdict | seo-content-outline-tool.js:19-78 | each rule's verdict belongs to that rule, and it is a passing message exactly when the rule's test holds |
| RootOutlineTool.RootShape | seo-content-outline-tool.js:17-78 | the root copy's list has seven items, in rule order |
| RootOutlineTool.RootScoreSchedule | seo-content-outline-tool.js:16-78 | the rule table's score is the 20/15/15/10/10/10/10 schedule over the passing rules |
| RootOutlineTool.RootFeedbackSame | seo-content-outline-tool.js:15-83 | on every input, the root copy's feedback equals the current component's |
| RootOutlineTool.RootSameAsSrc | seo-content-outline-tool.js:15-83 | on every input, the root copy's feedback and score equal the current component's |
| RootOutlineTool.Analyze | seo-content-outline-tool.js:15-83 | the root analysis yields the rule table's feedback (seven items in rule order) and score, a multiple of 5 at most 90 |
| RootOutlineTool.Tool.constructor | seo-content-outline-tool.js:4-7 | initial state: empty strings, score 0, empty list |
| RootOutlineTool.Tool.AnalyzeSEO | seo-content-outline-tool.js:9-13 | runs only with non-empty text and keyword; stores the texts of the rule table's feedback and its score |

## Left out

- Rendering, tabs, text inputs, and the scheduling of the effects are left out; the effects' guards are kept, as preconditions.
  - The setters are modelled as assignments to the `Tool` fields.
  - The meta effect lists only the meta description as a dependency. The meta keyword item therefore keeps its old verdict when only the keyword changes. The model states what each run computes, not when the runs happen.
- `api/analyze.js` (the URL-analysis relay endpoint) and `src/index.js` (mounting) are not part of this model.
- Floating point: the density is computed in exact rationals (`KeywordDensity`). IEEE rounding of `keywordCount / wordCount * 100` near the bounds 0.5 and 2.5 is not modelled.
- The keyword becomes a regular expression in the source, so a keyword with pattern metacharacters (`\ ^ $ . | ? * + ( ) [ ] { }`) can match differently, or throw. `]`, `{` and `}` on their own match literally under the web-compatible grammar of ECMAScript Annex B; the precondition excludes them anyway.
  - `OutlineTool.Analyze`, `OutlineTool.CheckDensity`, `OutlineTool.Tool.AnalyzeSEO`, `RootOutlineTool.Analyze` and `RootOutlineTool.Tool.AnalyzeSEO` require `IsLiteralPattern(keyword)`, and the model counts literal matches only.
  - They also require a non-empty keyword, which the effect guard ensures.
- `toLowerCase` is modelled for ASCII letters only. Other Unicode case mappings, including those that change the length, are not modelled.
- Characters are Unicode scalar values, while JavaScript strings are UTF-16 code units. A character outside the Basic Multilingual Plane (an emoji, say) counts once here but twice in JavaScript's `.length` and `slice`. So the meta-description length verdict and the 100-character introduction window can differ from the page for such text.
- What the checks do, as written:
  - The word count includes the empty pieces `split(/\s+/)` yields at either end: leading or trailing whitespace adds a word.
  - Headings, links, lists and images are plain substring tests. A `#` anywhere counts as a heading, a `-` anywhere as a list, and `![` and `](` need not form one image.
  - There are no content types and no call-to-action rule. An empty keyword gets no item of its own, because the analysis does not run without a keyword.
  - The maximum score is 90, though the page shows it out of 100 (src/seo-content-outline-tool.js:143).
