# GreenCity progress and achievement engine, in Dafny

GreenCity is a React app in which one user completes eco-challenges, earns points
and badges, and chats with an assistant. Its logic is spread over three pages, and
each page keeps its own in-memory copy of the progress that all of them store in
`localStorage`:

- **Home** shows five featured daily challenges with a "Mark as Done" button.
- **Challenges** shows the full catalog, a category filter and a progress bar capped at 200 points.
- **Profile** shows the display name, the badges earned, the completed challenges with their points, and a hint for the next badge.

The chat page falls back to a keyword classifier with twelve canned replies when it
cannot reach its remote model.

The model follows the same split, one module per source file, plus shared modules:

| file | module | what it holds |
|---|---|---|
| `seqs.dfy` | `Seqs` | `Option`, duplicate-freedom, `filter`, first-appearance de-duplication (`new Set`), substring search (`includes`), `find`, and `reduce` without an initial value |
| `jstext.dfy` | `JsText` | `trim` (ECMAScript whitespace), `toLowerCase`, `Number.prototype.toString` and `parseInt` |
| `json.dfy` | `Json` | `JSON.stringify` and `JSON.parse` of an array of strings |
| `storage.dfy` | `Storage` | `localStorage` as a class over a `map<string, string>`, the three keys, and what a page reads back after the two progress writes |
| `completion.dfy` | `Completion` | the completion rule that Home and Challenges share, the storage-mirrors-page predicate, and replays of click sequences |
| `challenges.dfy` | `ChallengesPage` | the catalog, categories, filter, progress bar, and the page as a class with mount and "Complete Challenge" |
| `home.dfy` | `HomePage` | the featured challenges, the page as a class with mount and "Mark as Done", and the disabled "Done" button |
| `profile.dfy` | `ProfilePage` | badges, next badge (as written and corrected), completed details and their point sum, the username, and the page as a class |
| `consistency.dfy` | `CatalogConsistency` | the three catalogs agree, so stored points equal the Profile page's "Points from Challenges" |
| `chatbot.dfy` | `ChatBot` | `getFallbackResponse` as a chain of branches and as a rule table tried in order |

The pages' state-changing handlers are methods of classes. These are the mount
effects, the completion buttons and the username editor. Their fields are the
page's `useState` variables, and they write to a shared `LocalStorage` object. The
filters, maps and reduces the pages render from are functions, with lemmas that
state what they compute.

`FallbackResponse` returns the text of a `Reply`. There are twelve `Reply` values,
so the answer is always one of the twelve fixed texts.

## Model

| member | source | states |
|---|---|---|
| Completion.Complete | src/pages/Challenges.js:109-120 | the completed id is recorded afterwards; the old list is a prefix of the new one, which has at most one more entry; points never decrease; a duplicate-free list stays duplicate-free |
| Completion.CompleteRecordedIsNoOp | src/pages/Challenges.js:110 | completing an id that is already recorded leaves points and list unchanged |
| Completion.CompleteNewAppends | src/pages/Challenges.js:112-116 | a new id adds exactly its points and is appended at the end, earlier entries kept in order |
| Completion.CompleteIdempotent | src/pages/Home.js:24-35 | completing the same id twice equals completing it once, whatever points the second call offers |
| Completion.LoadedFromEmpty | src/pages/Home.js:13-22 | with neither entry stored, a mounted page holds 0 points and no completions |
| Completion.WriteMirrors | src/pages/Challenges.js:118-119 | after the two writes, a page that mounts reads back exactly the written points and list |
| Completion.ReplayCompletedIsDistinct | src/pages/Challenges.js:109-120 | after any sequence of clicks the list is the clicked ids without repeats, in first-click order, and is duplicate-free |
| Storage.Get | src/pages/Challenges.js:102-103 | defined as the stored text for a present key, else `null` (`None`); specified by Storage.LocalStorage.GetItem |
| Storage.Truthy | src/pages/Challenges.js:105-106 | defined as the `if (saved)` test: `null` and the empty string are falsy, every other string truthy; specified by Storage.LoadAfterWrite and Completion.LoadedFromEmpty |
| Storage.LoadPoints | src/pages/Challenges.js:105 | defined as `parseInt` of a truthy stored points entry, else the page's current value; specified by Storage.LoadAfterWrite |
| Storage.LoadCompleted | src/pages/Challenges.js:106 | defined as `JSON.parse` of a truthy stored list entry, else the page's current value; specified by Storage.LoadAfterWrite |
| Storage.WriteProgress | src/pages/Challenges.js:118-119 | defined as the two `setItem` writes of points and list; specified by Storage.LoadAfterWrite |
| Storage.LoadAfterWrite | src/pages/Challenges.js:105-106 | after the writes storage is well formed, `parseInt` gives back the points, `JSON.parse` gives back the list, and every other key (the username) is untouched |
| Storage.LocalStorage.GetItem | src/pages/Challenges.js:102-103 | `getItem` gives the stored text exactly when the key is present |
| Storage.LocalStorage.SetItem | src/pages/Challenges.js:118 | `setItem` changes that one key and nothing else |
| Seqs.Contains | src/pages/ChatBot.js:10-52 | defined as `includes`: the pattern occurs at some position of the text; specified by Seqs.ContainsFrom and Seqs.ContainsSuffix |
| Seqs.Distinct | src/pages/Challenges.js:131 | defined as the `new Set` iteration order, each value at its first appearance; specified by Seqs.DistinctElements and Seqs.DistinctOrder |
| Seqs.Filter | src/pages/Challenges.js:132-134 | every kept element comes from the input and satisfies the test, and every input element that satisfies it is kept; specified by Seqs.FilterMultiset and Seqs.FilterIsSubsequence |
| Seqs.FirstWhere | src/pages/Profile.js:71 | `find`: nothing exactly when no element satisfies the test, otherwise the element at the first position that does |
| Seqs.Reduce | src/pages/Profile.js:84-90 | defined as `reduce` without an initial value, folding left from the first element; specified by Seqs.ReduceIsLeftmostMin |
| JsText.ParseIntOfNumberToString | src/pages/Challenges.js:105 | `parseInt(n.toString()) == n` for every n >= 0 |
| JsText.ParseInt | src/pages/Challenges.js:105 | defined as `parseInt` without a radix: skip whitespace, optional sign, optional `0x`, longest digit run, `NaN` as `None`; specified by JsText.ParseIntOfNumberToString |
| JsText.ToLowerCase | src/pages/ChatBot.js:8 | never shorter than its input; specified by JsText.ToLowerCaseIdempotent, JsText.ToLowerCaseHasNoCapitals and JsText.ToLowerCaseAppend |
| JsText.NumberToString | src/pages/Challenges.js:118 | `toString` writes only decimal digits, at least one, with no leading zero |
| JsText.Trim | src/pages/Profile.js:52-54 | the trimmed name is the slice of the input between all-whitespace margins; it is empty exactly when the input is blank, and otherwise starts and ends with a non-whitespace character |
| JsText.TrimIdempotent | src/pages/Profile.js:53-54 | trimming a trimmed name changes nothing |
| JsText.ToLowerCaseIdempotent | src/pages/ChatBot.js:8 | lower-casing twice is lower-casing once |
| JsText.ToLowerCaseHasNoCapitals | src/pages/ChatBot.js:8 | the lower-cased input holds no ASCII capital |
| JsText.ToLowerCaseAppend | src/pages/ChatBot.js:8 | lower-casing works piece by piece over a concatenation |
| Json.Stringify | src/pages/Challenges.js:119 | defined as the compact JSON array of the quoted, escaped strings; specified by Json.ParseOfStringify |
| Json.Parse | src/pages/Challenges.js:106 | defined as `JSON.parse` restricted to arrays of strings, `None` where it would throw or yield another value; specified by Json.ParseOfStringify |
| Json.ParseOfStringify | src/pages/Challenges.js:106 | `JSON.parse(JSON.stringify(xs))` is `xs`, order included, for every list of strings |
| Json.ParseStringOfQuote | src/pages/Challenges.js:119 | a string quoted and escaped as `JSON.stringify` does parses back to itself, whatever follows it |
| Json.ParseElementsOfElements | src/pages/Challenges.js:119 | the comma-separated elements and the closing bracket parse back to the list, whatever follows them |
| ChallengesPage.Categories | src/pages/Challenges.js:131 | defined as "All" followed by the first-appearance de-duplication of the categories; specified by ChallengesPage.CategoriesSpec |
| ChallengesPage.FilteredChallenges | src/pages/Challenges.js:132-134 | defined as the catalog for "All", else the filter by exact category; specified by ChallengesPage.FilteredChallengesSpec |
| ChallengesPage.CategoriesSpec | src/pages/Challenges.js:131 | the buttons are "All" and then every category of the catalog exactly once, in order of first appearance |
| ChallengesPage.CatalogCategories | src/pages/Challenges.js:3-94 | for this catalog the buttons are All, Waste, Transportation, Lifestyle, Energy, Food, Water, Community, Environment |
| ChallengesPage.FilteredChallengesSpec | src/pages/Challenges.js:132-134 | "All" shows the whole catalog; any other category shows exactly the entries of that category, each as often as in the catalog, as a subsequence of the catalog |
| ChallengesPage.ProgressPercentage | src/pages/Challenges.js:136-137 | the bar lies in [0, 100], is full exactly when points >= 200, and is points / 2 below that |
| ChallengesPage.ProgressPercentageMonotone | src/pages/Challenges.js:137 | more points never shrink the bar |
| ChallengesPage.Challenges.constructor | src/pages/Challenges.js:97-99 | the page starts with 0 points, no completions and "All" selected |
| ChallengesPage.Challenges.Mount | src/pages/Challenges.js:101-107 | each truthy stored entry replaces the page's value; a missing or empty one keeps it |
| ChallengesPage.Challenges.CompleteChallenge | src/pages/Challenges.js:109-120 | the page moves by `Complete`; storage is unchanged for a recorded id and otherwise holds the two writes, after which it mirrors the page; a mirroring storage stays mirroring |
| ChallengesPage.Challenges.SelectCategory | src/pages/Challenges.js:177 | a category button changes only the selection |
| HomePage.DoneButtonDisabledIffInert | src/pages/Home.js:89-90 | a featured challenge's button is disabled exactly when clicking it would change nothing |
| HomePage.Home.constructor | src/pages/Home.js:13-14 | the page starts with 0 points and no completions |
| HomePage.Home.Mount | src/pages/Home.js:16-22 | each truthy stored entry replaces the page's value |
| HomePage.Home.MarkChallengeDone | src/pages/Home.js:24-35 | the page moves by `Complete`; storage is unchanged for a recorded id and otherwise holds the same new points and list as the page |
| ProfilePage.EarnedBadges | src/pages/Profile.js:60-67 | defined as the filter of the catalog by threshold, points for point badges and the completion count otherwise; specified by ProfilePage.EarnedBadgesSpec and ProfilePage.EarnedBadgesMonotone |
| ProfilePage.Unearned | src/pages/Profile.js:81 | defined as the badges not in the earned list; specified by ProfilePage.UnearnedSpec |
| ProfilePage.NextBadgeStep | src/pages/Profile.js:84-89 | defined as the reduce step as written, both gaps measured against the candidate's progress; specified by ProfilePage.NextBadgeIsLeftmostMinRequirement |
| ProfilePage.NextBadge | src/pages/Profile.js:80-91 | defined as `null` for no unearned badge, else the reduce without an initial value over the unearned badges; specified by ProfilePage.NextBadgeSpec and ProfilePage.NextBadgeIsFirstUnearned |
| ProfilePage.NextBadgeByGap | src/pages/Profile.js:80-91 | defined as the same reduce with each gap measured against its own badge's progress; specified by ProfilePage.NextBadgeByGapSpec |
| ProfilePage.EarnedBadgesSpec | src/pages/Profile.js:60-67 | the earned badges are, in catalog order and each as often as in the catalog, exactly the badges whose points or completion count meets the threshold |
| ProfilePage.EarnedBadgesMonotone | src/pages/Profile.js:60-67 | more points and more completions never lose a badge |
| ProfilePage.UnearnedSpec | src/pages/Profile.js:81 | "not in the earned list" is "threshold not met" |
| ProfilePage.NextBadgeIsLeftmostMinRequirement | src/pages/Profile.js:80-91 | as written, the reduce picks the first unearned badge with the smallest requirement |
| ProfilePage.NextBadgeSpec | src/pages/Profile.js:81-90 | the hint is `null` exactly when every badge is earned; otherwise it is an unearned badge with the least requirement, and every unearned badge before it has a larger one |
| ProfilePage.BadgesAscending | src/pages/Profile.js:3-12 | the catalog lists badges by strictly increasing requirement |
| ProfilePage.NextBadgeIsFirstUnearned | src/pages/Profile.js:3-12 | with this catalog the hint is always the first unearned badge in catalog order |
| ProfilePage.NextBadgeWithFiveToNineCompletions | src/pages/Profile.js:84-90 | with 5 to 9 completions the hint is "Eco Warrior", whatever the points, 70 and 99 included |
| ProfilePage.NextBadgeByGapSpec | src/pages/Profile.js:84-90 | the corrected hint is `null` exactly when every badge is earned; otherwise it is an unearned badge with the smallest positive gap, ties going to the earlier badge |
| ProfilePage.NextBadgeByGapBeats | src/pages/Profile.js:84-90 | the corrected hint is no farther from being earned than any unearned badge |
| ProfilePage.CorrectedHintNearPointMaster | src/pages/Profile.js:84-90 | with 5 to 9 completions and 50 to 99 points, the corrected hint is "Point Master" once it is strictly closer than "Eco Warrior" |
| ProfilePage.NextBadgeByGapAt99Points | src/pages/Profile.js:84-90 | at 99 points and 5 completions the code shows "Eco Warrior" (gap 5) and the corrected hint is "Point Master" (gap 1) |
| ProfilePage.FindChallenge | src/pages/Profile.js:71 | `find` gives nothing exactly when no entry has the id, and otherwise the first entry with it |
| ProfilePage.ChallengeDetail | src/pages/Profile.js:71-72 | the detail carries the id; it is a catalog entry when one has the id, and otherwise "Unknown Challenge" worth 0 |
| ProfilePage.CompletedChallengeDetails | src/pages/Profile.js:69-74 | one detail per completed id, in the same order, each the catalog entry for its id or the "Unknown Challenge" placeholder |
| ProfilePage.TotalPoints | src/pages/Profile.js:78 | defined as the left-to-right sum of the details' points from 0; specified by ProfilePage.TotalPointsAppend |
| ProfilePage.TotalPointsFromChallenges | src/pages/Profile.js:78 | defined as the sum over the completed details; specified by ProfilePage.TotalPointsFromChallengesAppend and CatalogConsistency.StoredPointsMatchProfile |
| ProfilePage.TotalPointsAppend | src/pages/Profile.js:78 | the sum over two lists is the sum of the sums |
| ProfilePage.TotalPointsFromChallengesAppend | src/pages/Profile.js:78 | one more completed id adds the points of its entry, and nothing when the catalog does not know it |
| ProfilePage.LoadUsername | src/pages/Profile.js:44-45 | the shown name is never empty; a truthy stored name is shown as stored, anything else is "Eco Friend" |
| ProfilePage.LoadUsernameAfterSave | src/pages/Profile.js:51-58 | a saved non-blank name is the one a later mount shows |
| ProfilePage.Profile.ShownEarnedBadges | src/pages/Profile.js:76 | defined as the earned badges for the page's points and completion count; specified by ProfilePage.EarnedBadgesSpec |
| ProfilePage.Profile.ShownNextBadge | src/pages/Profile.js:80-93 | defined as the next-badge hint for the page's points and completion count; specified by ProfilePage.NextBadgeSpec and ProfilePage.NextBadgeIsFirstUnearned |
| ProfilePage.Profile.ShownTotalPointsFromChallenges | src/pages/Profile.js:77-78 | defined as the point sum over the page's completed details; specified by ProfilePage.TotalPointsFromChallengesAppend |
| ProfilePage.Profile.constructor | src/pages/Profile.js:33-37 | the page starts with an empty name, 0 points, no completions and no editing |
| ProfilePage.Profile.Mount | src/pages/Profile.js:39-49 | the name is loaded with its default, and each truthy progress entry replaces the page's value |
| ProfilePage.Profile.StartEditing | src/pages/Profile.js:144-147 | editing starts from the current name |
| ProfilePage.Profile.SetTempUsername | src/pages/Profile.js:120 | typing changes only the field being edited |
| ProfilePage.Profile.CancelEditing | src/pages/Profile.js:131-134 | Cancel ends editing and drops the typed text, the name kept |
| ProfilePage.Profile.SaveUsername | src/pages/Profile.js:51-58 | a blank name changes nothing; otherwise the trimmed name becomes the name in the page and in storage, editing ends, and a later mount shows it |
| CatalogConsistency.ProfileIdsDistinct | src/pages/Profile.js:14-30 | no id appears twice in the Profile catalog |
| CatalogConsistency.HomeCatalogInProfile | src/pages/Home.js:4-10 | each featured challenge is in the Profile catalog with the same title and points |
| CatalogConsistency.ChallengesCatalogInProfile | src/pages/Challenges.js:3-94 | each Challenges-page entry is in the Profile catalog with the same title and points |
| CatalogConsistency.DetailOfEntry | src/pages/Profile.js:71-72 | in a catalog without repeated ids, each entry is the detail found for its id |
| CatalogConsistency.OfferedResolves | src/pages/Profile.js:14-30 | every button the Home and Challenges pages offer resolves, on the Profile page, to the points that button adds |
| CatalogConsistency.ReplayPointsAgree | src/pages/Profile.js:78 | for any catalog that prices each click as its button did, the points reached equal the catalog's sum over the completed ids |
| CatalogConsistency.StoredPointsMatchProfile | src/pages/Profile.js:78 | from the initial state, whatever offered buttons are clicked, the points reached equal "Points from Challenges" over the completed ids |
| CatalogConsistency.StoredEntriesMatchProfile | src/pages/Profile.js:47-78 | from storage without progress entries, after any offered clicks, the points a page mounts from storage equal "Points from Challenges" over the list it mounts |
| Completion.StoredAfter | src/pages/Challenges.js:110-119 | defined as the storage after a sequence of clicks: nothing written for a recorded id, both entries for a new one; specified by Completion.StoredAfterMirrorsReplay |
| Completion.StoredAfterMirrorsReplay | src/pages/Home.js:24-35 | storage that starts out mirroring the initial state mirrors the replayed state after any clicks |
| ChatBot.ReplyText | src/pages/ChatBot.js:10-54 | defined as the twelve reply texts, verbatim, one per `Reply`; specified by ChatBot.FallbackIgnoresCase through FallbackResponse |
| ChatBot.FallbackResponse | src/pages/ChatBot.js:7-55 | defined as the text of the reply `Classify` picks for the lower-cased input, so always one of the twelve texts; specified by ChatBot.FallbackIgnoresCase and ChatBot.DefaultIffNoKeyword |
| ChatBot.Classify | src/pages/ChatBot.js:10-54 | defined as the branch chain in source order; specified by ChatBot.ClassifyIsFirstMatch, ChatBot.DefaultIffNoKeyword and ChatBot.FirstMentionedRuleAnswers |
| ChatBot.FirstMatch | src/pages/ChatBot.js:10-54 | the table walk answers with the default or some rule's reply, and with the default when no rule is mentioned |
| ChatBot.ClassifyIsFirstMatch | src/pages/ChatBot.js:10-54 | the branch chain is the rule table tried in order, first match winning |
| ChatBot.FallbackIgnoresCase | src/pages/ChatBot.js:8 | the reply depends only on the lower-cased input |
| ChatBot.PlasticWins | src/pages/ChatBot.js:10-12 | any input in which some spelling of "plastic" occurs gets the plastic reply, whatever else it holds |
| ChatBot.DefaultIffNoKeyword | src/pages/ChatBot.js:54 | the default reply comes exactly when no keyword of any branch occurs in the lower-cased input |
| ChatBot.FirstMatchDefaultIff | src/pages/ChatBot.js:10-54 | over rules that never answer with the default, the walk gives the default exactly when no remaining rule is mentioned |
| ChatBot.FirstMentionedRuleAnswers | src/pages/ChatBot.js:10-52 | otherwise the first branch whose keyword occurs gives the reply |
| ChatBot.ThisIsAGreeting | src/pages/ChatBot.js:46-48 | "this" gets the greeting, because "hi" is a plain substring test |
| ChatBot.EcoChallengeIsSubsumed | src/pages/ChatBot.js:34 | the "eco challenge" test never changes the outcome of its branch |

## Left out

- Rendering, styling and routing: all JSX, `getDifficultyColor` and `src/App.js`.
- `getBotResponse`, the remote model request and its error path, and the chat window's messages, timestamps and typing state. These are network I/O and UI state; only `getFallbackResponse` is modelled.
- ChallengesPage.ProgressPercentage: computed over exact reals, not IEEE doubles; `Math.round` in the displayed label is not modelled.
- Numbers are unbounded naturals. JavaScript's loss of integer precision above 2^53 is not modelled.
- JsText.ToLowerCase: keeps every character except A-Z, U+0130 and U+212A. Other Unicode case mappings cannot produce an ASCII keyword and are not modelled.
- Json.Parse: rejects `\u` escapes of surrogate halves, because strings here are sequences of Unicode scalar values. Other JSON values (numbers, objects, nested arrays) that `JSON.parse` would accept and the pages would then misuse are treated as parse failures.
- Malformed storage is excluded by a precondition of each `Mount`. The pages have no guard: `parseInt` can give `NaN` and `JSON.parse` can throw. The code is followed here: a malformed entry is not recovered from.
- Storage.WellFormed: also rejects a negative stored total. `parseInt` reads one without complaint, and the page would then show it; the pages never write one.
- Storage.LocalStorage.SetItem: cannot fail. `localStorage.setItem` can throw (storage full or disabled) after the page's state setters already ran, leaving storage behind the page.
- JsText.NumberToString: writes plain digits for every natural. JavaScript switches to exponent form from 1e21 on, where `parseInt` would no longer read the number back.
- The points a completion adds come from the button that calls it, as in the code; there is no catalog lookup. The cross-page agreement is proved instead, in `CatalogConsistency`.
- React scheduling is not modelled: render batching, a second click before a re-render, and pages holding stale copies of each other's progress. Operations are modelled as sequential.
- The next-badge hint follows the code, which measures both gaps against the candidate badge's progress. The smallest-positive-gap rule is proved for the corrected `NextBadgeByGap` only; see Findings.

## Findings

| source | as written | input that shows it | evidently intended | confidence | as-written member | corrected member |
|---|---|---|---|---|---|---|
| src/pages/Profile.js:84-90 | `closestGap` is computed from the candidate badge's progress value, so the reduce compares raw requirements and returns the first unearned badge | 99 points and 5 completed challenges: the hint is "Eco Warrior" (5 challenges to go) | the unearned badge closest to being earned: "Point Master" (1 point to go) | not executed; medium, since the variable names say "closest" and "gap" | ProfilePage.NextBadgeByGapAt99Points | ProfilePage.NextBadgeByGapSpec |
