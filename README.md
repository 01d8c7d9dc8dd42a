# QuizWebsite2 results and dashboard logic in Dafny

A Dafny model of the logic behind the two data pages of the QuizWebsite2
quiz website (a Next.js application), and of its question bank.

- **Admin results dashboard** (`app/results/admin/page.tsx`). It loads the
  stored quiz attempts and synthesises an id for any attempt without one. It
  loads the timer settings, falling back to defaults. It computes per-student
  and per-topic statistics: the attempt count and the average percentage,
  rounded with `Math.round`. It shows the results filtered by a search term,
  a topic and a difficulty, where `"all"` means no filter. Rows can be
  selected one at a time or all at once. The selected rows can be deleted.
  The selection, or everything, can be exported as CSV text. Times are shown
  as `m:ss`.
- **Student home page** (`app/page.tsx`). For the saved student it shows the
  three most recent attempts and the per-topic statistics, and it names the
  best topic. It colours each score by band. It validates the start-quiz
  form. It stores the custom time limit and its switch, under one rule shared
  by "start quiz" and "save settings". It accepts only positive numbers as a
  custom limit.
- **Question bank** (`lib/quiz-data.ts`). This is the constant catalogue of
  topics and questions.

The model has these modules, one per file:

- `Wrappers` (`wrappers.dfy`): `Option`.
- `Js` (`js.dfy`): the JavaScript built-ins the pages rely on. These are
  `Number.parseInt`, number-to-string conversion, `trim`, the
  `replace(/\s+/g, "-")` substitution, ASCII `toLowerCase`, `includes`,
  `join`, `split`, `Math.round` and the remainder operator `%`. Each is
  stated on exact integers, exact reals and `seq<char>`.
- `Results` (`results.dfy`): the stored attempt record and percentages. It
  also holds `Select`, the order-preserving `Array.prototype.filter` both
  pages use, with its algebra (membership, composition, partition,
  subsequence).
- `Statistics` (`statistics.dfy`): the grouping shared by `calculateStats`
  and the home page's topic statistics. A JavaScript dictionary object is
  modelled as an association list in key-insertion order. The two loops of
  the source are methods proved against the specification function `Stats`.
- `Sorting` (`sorting.dfy`): `Array.prototype.sort` with a comparator
  `(a, b) => key(b) - key(a)`. The language requires this sort to be stable,
  and a stable sort is determined by its comparator, so it is written as an
  insertion sort. Its properties are proved: order, permutation, stability,
  and that the head is the first maximum.
- `BrowserStorage` (`storage.dfy`): `localStorage` as a `map<string, string>`.
- `Admin` (`admin.dfy`): the admin page's operations, and the class
  `AdminPage` with the page state. Its invariant `Valid()` says the table
  shows the filtered results and the statistics describe all results.
- `Dashboard` (`dashboard.dfy`): the home page's operations and the class
  `Home`.
- `QuestionBank` (`quiz_data.dfy`): the catalogue, copied field for field,
  and its well-formedness.

Some things are given as parameters:

- The parsed `quizResults` list.
- Date parsing, `new Date(d).getTime()`, is the parameter `timeOf`.
- The locale date text, `toLocaleDateString()`, is the parameter `localeDate`.

Percentages are exact rationals: `score / totalQuestions * 100` with
`totalQuestions > 0`.

## Model

| member | source | states |
|---|---|---|
| Results.Select | app/results/admin/page.tsx:202-222 | `filter` never lengthens its input |
| Results.SelectMembership | app/results/admin/page.tsx:205-220 | a record is kept exactly when it is in the input and meets the criterion |
| Results.SelectSelect | app/results/admin/page.tsx:203-221 | two filters in a row keep what meets both |
| Results.SelectIsSubsequence | app/results/admin/page.tsx:202-222 | what a filter keeps stays in its original order |
| Results.SelectPartition | app/results/admin/page.tsx:244 | keeping the listed ids and keeping the others split the records between them |
| Results.SelectPermutation | app/page.tsx:46-56 | filtering two permutations of one list by one criterion keeps permutations of each other |
| Results.SumPercentPermutation | app/page.tsx:46-62 | the percentage sum does not depend on the order of the records, so tallying the sorted list gives the same totals |
| Results.SumPercentBounds | app/results/admin/page.tsx:173 | scores between 0 and the question count give a percentage sum between 0 and 100 per record |
| Statistics.KeysSpec | app/results/admin/page.tsx:164-186 | the keys are distinct, and a key is present exactly when some result carries it |
| Statistics.BumpTallied | app/results/admin/page.tsx:166-174 | the tallies of a list are those of the list without its last result, after one more forEach step for that result (create the entry if missing, count += 1, totalScore += percentage) |
| Statistics.TallyStep | app/results/admin/page.tsx:164-186 | the same forEach step, stated for the loop: the tallies of the first i + 1 results are one step from those of the first i |
| Statistics.Accumulate | app/page.tsx:55-66 | the home page's forEach leaves, for every topic of the list, its count and percentage sum |
| Statistics.Finalize | app/results/admin/page.tsx:189-195 | the second pass sets every entry's average to `Math.round(totalScore / count)` |
| Statistics.CalculateStats | app/results/admin/page.tsx:157-199 | both dictionaries equal the specification `Stats` by student and by topic |
| Statistics.StatsKeys | app/results/admin/page.tsx:164-186 | the statistics keys are exactly the names (topics) that occur, each once; no results give no keys |
| Statistics.LookupStats | app/results/admin/page.tsx:164-195 | a key's entry is missing when no result has it, and otherwise holds the number of its results, the sum of their percentages and the rounded mean |
| Statistics.AveragesWithinBounds | app/results/admin/page.tsx:189-195 | with valid scores every average is between 0 and 100 |
| Statistics.CountsAddUp | app/results/admin/page.tsx:173-184 | the counts add up to the number of results |
| Statistics.TwoAttemptsExample | app/results/admin/page.tsx:157-199 | attempts 8/10 and 6/10 at one topic give count 2, total 140, average 70 |
| Statistics.InheritedNameDropped | app/results/admin/page.tsx:166-174 | as written, a student named "constructor" gets no own entry, while `Stats` lists them |
| Sorting.SortDescSpec | app/page.tsx:46-47 | the sorted list is in non-increasing key order and is a permutation of the input |
| Sorting.SortDescStable | app/page.tsx:46-47 | elements with equal keys keep their relative order |
| Sorting.FirstMaxIndex | app/page.tsx:413 | the index of the greatest key, with every earlier key strictly smaller |
| Sorting.SortDescHead | app/page.tsx:413 | the first element after sorting is the first element with the greatest key |
| Admin.LoadResultsSpec | app/results/admin/page.tsx:111-114 | loading keeps the number and the order of the stored results and gives each its id |
| Admin.LoadedId | app/results/admin/page.tsx:111-114 | all fields are kept; a stored id is kept; a missing one becomes whitespace-free, and is exactly `name-topic-date` when those contain no whitespace |
| Admin.IdOfSpacedName | app/results/admin/page.tsx:113 | a run of whitespace inside the name becomes one dash |
| Admin.SettingOfSaved | app/results/admin/page.tsx:127-129 | a setting stored as the text of a number (or as "NaN") reads back as that value, so a saved setting survives a reload |
| Admin.TimerDefaults | app/results/admin/page.tsx:120-133 | with nothing stored, the settings are easy 60, medium 45, hard 30, custom null, and the default switch is off |
| Admin.SaveLoadRoundTrip | app/results/admin/page.tsx:318-328 | loading after saving gives back the saved settings and switch, except that a falsy custom limit is not written and the stored one remains |
| Admin.SaveKeepsOtherKeys | app/results/admin/page.tsx:318-328 | saving touches only the five setting keys |
| Admin.ApplyFilters | app/results/admin/page.tsx:202-222 | the step-by-step narrowing equals one filter by the search term (if any), the topic and the difficulty (unless "all") |
| Admin.FilterMembership | app/results/admin/page.tsx:205-220 | a result is shown exactly when it mentions the term case-insensitively in its name or topic and matches the topic and difficulty, each unless "all" or empty |
| Admin.FilterKeepsOrder | app/results/admin/page.tsx:202-222 | the shown results are an order-preserving subsequence of all results |
| Admin.NoFilterShowsAll | app/results/admin/page.tsx:203-221 | an empty term with both filters "all" shows the input unchanged |
| Admin.HardOnlyExample | app/results/admin/page.tsx:217-219 | difficulty "hard" alone shows exactly the hard results |
| Admin.Without | app/results/admin/page.tsx:227 | removing an id keeps every other id and drops that one |
| Admin.ToggleFlips | app/results/admin/page.tsx:224-232 | toggling flips the membership of that id and of no other |
| Admin.ToggleTwice | app/results/admin/page.tsx:224-232 | toggling twice restores every membership |
| Admin.ToggleNoDuplicates | app/results/admin/page.tsx:224-232 | toggling never selects an id twice |
| Admin.SelectAllSelects | app/results/admin/page.tsx:234-240 | checking selects exactly the ids of the shown results, and unchecking selects none |
| Admin.DeleteRemovesSelected | app/results/admin/page.tsx:244 | after a delete, a result remains exactly when its id was not selected, in the original order |
| Admin.DeleteAndExportPartition | app/results/admin/page.tsx:244-267 | with a selection, the deleted results are the ones the export covers, and the two counts add up to all results |
| Admin.DeleteNothing | app/results/admin/page.tsx:244 | with nothing selected, nothing is deleted |
| Admin.ExportCovers | app/results/admin/page.tsx:266-267 | the export covers the selected results if any are selected, otherwise all |
| Admin.CsvLineStructure | app/results/admin/page.tsx:269-292 | with no line break in the text columns, the file has 1 + n lines: the header, then one row per exported result in order |
| Admin.HeaderColumns | app/results/admin/page.tsx:270-279 | the header has the eight fixed column names |
| Admin.RowColumns | app/results/admin/page.tsx:280-290 | with no comma in the text columns, a row has eight columns: name, topic, score, question count, round(score/total*100) followed by "%", the locale date, the difficulty, and the time in seconds, which is "N/A" exactly when the time is missing or 0 |
| Admin.CommaInNameSplitsColumn | app/results/admin/page.tsx:280-290 | columns are not quoted: a comma inside a name splits it over two columns and gives nine |
| Admin.FormatTimeNone | app/results/admin/page.tsx:344-345 | the text is "N/A" exactly when the time is missing or 0 |
| Admin.FormatTimeReadsBack | app/results/admin/page.tsx:344-349 | for a positive time, the text is minutes, a colon and two-digit seconds below 60; minutes * 60 + seconds is the time |
| Admin.FormatTimeExample | app/results/admin/page.tsx:344-349 | 125 seconds read "2:05" |
| Admin.AdminPage.constructor | app/results/admin/page.tsx:69-84 | initial state: no results, filters "", "all", "all", default timer settings, empty statistics |
| Admin.AdminPage.Load | app/results/admin/page.tsx:106-136 | results with ids, timer settings with defaults, the switch, the statistics, and the filtered view |
| Admin.AdminPage.LoadStoredResults | app/results/admin/page.tsx:108-117 | both the results and the shown results become the stored results with ids |
| Admin.AdminPage.LoadTimers | app/results/admin/page.tsx:119-133 | the timer settings and the default switch become the stored ones, with the defaults where nothing is stored |
| Admin.AdminPage.ChangeFilters | app/results/admin/page.tsx:202-222 | new filter values, with the shown results re-filtered and everything else unchanged |
| Admin.AdminPage.SelectResult | app/results/admin/page.tsx:224-232 | the selection becomes the toggled selection |
| Admin.AdminPage.SelectAllResults | app/results/admin/page.tsx:234-240 | the selection becomes all shown ids, or none |
| Admin.AdminPage.DeleteSelected | app/results/admin/page.tsx:242-248 | results become the unselected ones, the selection becomes empty, and the statistics and the view are recomputed |
| Admin.AdminPage.ExportResults | app/results/admin/page.tsx:264-292 | with no line break in the text columns, the exported text has the header line and then one row line per exported result, in order; a result is exported exactly when it is a current result and, if anything is selected, its id is selected |
| Admin.AdminPage.EditTimerSettings | app/results/admin/page.tsx:771-848 | the sliders and the switch set the settings |
| Admin.AdminPage.SaveTimerSettings | app/results/admin/page.tsx:318-328 | the storage after saving is `SavedTimerSettings` of the current settings |
| Dashboard.RecentResultsSpec | app/page.tsx:43-48 | at most 3 results, all of that student's, newest first, and none of the student's results left out is newer than one shown |
| Dashboard.LookupStudentTopic | app/page.tsx:46-71 | per topic of the newest-first sorted list: nothing if the student never took it, otherwise that student's attempts at it and their rounded mean percentage, which the in-place sort does not change |
| Dashboard.StudentTopicsNewestFirst | app/page.tsx:46-73 | since the forEach runs over the list the sort reordered in place, the first topic entry is the topic of the student's newest attempt |
| Dashboard.NewerTopicListedFirst | app/page.tsx:46-73 | an older attempt at "A" and a newer one at "B", stored in that order, list "B" first |
| Dashboard.StudentSummary | app/page.tsx:43-73 | the sort, slice, forEach and averaging give the recent list, and the topic statistics tallied over the student's results sorted newest first |
| Dashboard.BestTopicIsFirstMax | app/page.tsx:413 | the best topic has the greatest average, and ties go to the entry listed first |
| Dashboard.ScoreColorBands | app/page.tsx:130-136 | each colour covers one band: at least 80, [60, 80), [40, 60), below 40 |
| Dashboard.ScoreColorMonotone | app/page.tsx:130-136 | a higher percentage never gets a lower colour |
| Dashboard.FormValidIff | app/page.tsx:86-100 | the form is valid exactly when the name has a non-whitespace character and a topic is chosen, that is, when neither error is set |
| Dashboard.BothErrors | app/page.tsx:88-98 | a blank name and no topic set both errors at once |
| Dashboard.PersistLoadRoundTrip | app/page.tsx:77-113 | the flag is stored as "true" exactly when the switch is on and the limit truthy; reloading then restores the limit and the switch |
| Dashboard.AcceptCustomTime | app/page.tsx:138-143 | the limit is unchanged or becomes a number above 0 |
| Dashboard.AcceptCustomTimeInputs | app/page.tsx:138-143 | typing n > 0 sets the limit to n; typing 0 or a negative number leaves it unchanged |
| Dashboard.AcceptCustomTimeNoDigits | app/page.tsx:138-143 | text without any digit leaves the limit unchanged |
| Dashboard.Home.constructor | app/page.tsx:24-33 | initial state: empty name and topic, difficulty "medium", no errors, results or stats, no custom limit |
| Dashboard.Home.Load | app/page.tsx:36-82 | with a saved name: the name, the recent list and the topic statistics tallied newest first; without one those stay as they were; a stored custom limit loads the limit and the switch |
| Dashboard.Home.LoadSavedName | app/page.tsx:37-74 | with a saved name: the name, the recent list and the topic statistics of that student, tallied newest first; without one nothing changes |
| Dashboard.Home.LoadSavedCustomTime | app/page.tsx:77-81 | a stored custom limit sets the limit to its `parseInt` and the switch to whether the stored flag is "true"; otherwise both stay |
| Dashboard.Home.EditForm | app/page.tsx:225-441 | typing and choosing set the name, topic and difficulty fields (lines 225-254), and the switch at line 441 sets the custom-time flag |
| Dashboard.Home.StartQuiz | app/page.tsx:84-123 | each field's error is set or cleared; it navigates to `/quiz/<topic>` and stores name, difficulty and the custom-time rule exactly when the form is valid, and otherwise stores nothing |
| Dashboard.Home.ValidateForm | app/page.tsx:86-100 | the name error is set exactly when the name is blank, the topic error exactly when no topic is chosen, and the form is valid exactly when neither is set |
| Dashboard.Home.StoreQuizSettings | app/page.tsx:104-113 | the storage gets the name, the difficulty and the custom-time rule, and nothing else |
| Dashboard.Home.CustomTimeChange | app/page.tsx:138-143 | the limit becomes `AcceptCustomTime` of the old limit and the input |
| Dashboard.Home.SaveSettings | app/page.tsx:494-499 | the same custom-time rule as starting a quiz |
| QuestionBank.QuizDataWellFormed | lib/quiz-data.ts:1-266 | `quizData` has five topics, and every topic is well formed: 7 questions, each with 4 distinct options, the correct answer among them, and a non-empty hint |
| QuestionBank.QuizDataTopicsDistinct | lib/quiz-data.ts:1-266 | the five topics of `quizData` carry pairwise distinct names |
| QuestionBank.DataStructuresAndAlgorithmsWellFormed | lib/quiz-data.ts:2-48 | 7 questions, each with 4 distinct options, the correct answer among them, and a non-empty hint |
| QuestionBank.ObjectOrientedProgrammingWellFormed | lib/quiz-data.ts:49-100 | as above for the second topic |
| QuestionBank.ComputerGraphicsWellFormed | lib/quiz-data.ts:101-147 | as above for the third topic |
| QuestionBank.WebDevelopmentWellFormed | lib/quiz-data.ts:148-204 | as above for the fourth topic |
| QuestionBank.MachineLearningWellFormed | lib/quiz-data.ts:205-266 | as above for the fifth topic |
| QuestionBank.OneCorrectOption | lib/quiz-data.ts:7-8 | in a well-formed question exactly one option is the correct answer |
| Js.ParseIntOfIntToString | app/results/admin/page.tsx:127-130 | `parseInt` reads back the text of an integer (in the model's unbounded integers; see "## Left out" for JavaScript's bound) |
| Js.TrimStartSpec | app/page.tsx:88 | trimming the start never lengthens its input, removes a leading whitespace character, stops at a non-whitespace character, keeps the last character and adds none; it is empty exactly when every character is whitespace |
| Js.TrimEndSpec | app/page.tsx:88 | trimming the end never lengthens its input and is empty exactly when every character is whitespace |
| Js.TrimEmptyIff | app/page.tsx:88 | a trimmed string is empty exactly when every character is whitespace |
| Js.ReplaceLeavesNoWhitespace | app/results/admin/page.tsx:113 | `replace(/\s+/g, "-")` leaves no whitespace |
| Js.ReplaceIdempotent | app/results/admin/page.tsx:113 | applying the replacement twice changes nothing more |
| Js.SplitJoin | app/results/admin/page.tsx:279-292 | splitting a join on a separator no part contains gives back the parts |
| Js.Round | app/results/admin/page.tsx:190 | `Math.round` gives the integer within half of its argument, rounding halves up |
| Js.JsRem | app/results/admin/page.tsx:347 | the remainder is what is left after the quotient rounded toward zero: the dividend is that quotient times the divisor plus the remainder, whose magnitude is below the divisor and whose sign is the dividend's |

## Left out

- Browser I/O is not modelled. This covers `localStorage` reads and writes (storage is a map passed in and returned), `JSON.parse` and `JSON.stringify`, `router.push`, toasts, and the Blob/anchor download. `StartQuiz` returns the route it would navigate to.
- The admin login check (`adminLoggedIn`, lines 88-104 of `app/results/admin/page.tsx`) and logout are left out. The login page `app/results/admin/login/page.tsx` is not part of this model.
- Date parsing and `toLocaleDateString` are parameters (`timeOf`, `localeDate`). An invalid date, for which `getTime()` is NaN and the sort comparator is inconsistent, is not modelled.
- Floating point is not modelled: percentages and averages are exact rationals. `Math.round` is `Floor(x + 0.5)`.
- Whole numbers (scores, timer settings, the custom limit) are unbounded integers, while JavaScript's are doubles. A double holds every integer only up to magnitude 2^53, and `toString` writes magnitudes of 1e21 and above in exponent notation ("1e+21"), which `parseInt` reads back as 1. The five members below rest on this and hold of JavaScript only within those bounds.
- Js.ParseIntOfIntToString: holds of JavaScript only for integers of magnitude at most 2^53 (and so below 1e21); beyond that the text is rounded or in exponent notation.
- Admin.SettingOfSaved: holds of JavaScript only for settings of magnitude at most 2^53, because it rests on `ParseIntOfIntToString`.
- Admin.SaveLoadRoundTrip: holds of JavaScript only for settings of magnitude at most 2^53; a saved setting of 1e21 or more reloads as 1.
- Dashboard.PersistLoadRoundTrip: holds of JavaScript only for a custom limit of at most 2^53; a limit of 1e21 or more is stored as "1e+21" and reloads as 1.
- Dashboard.AcceptCustomTimeInputs: holds of JavaScript only for n of at most 2^53; a larger typed number sets the nearest double, not n.
- `toLowerCase` lowers ASCII letters only. Unicode case mapping is left out.
- `Number.parseInt` reads optional whitespace, an optional sign and a run of decimal digits. The `0x` hexadecimal prefix is left out.
- JavaScript lists integer-like keys (such as "42") first, in numeric order, in `Object.keys` and `Object.entries`. The model keeps all keys in insertion order. This affects only the order of the statistics entries and the best-topic tie-break for such names.
- The statistics that follow the source's inherited-member behaviour are `BumpAsWritten`/`TalliedAsWritten`, and they model only the missing entry. The stray `count`/`totalScore` properties the source then writes onto the inherited member (for `__proto__`, onto `Object.prototype` itself) are not modelled.
- The "most attempted topic/student" badges (lines 737 and 746 of the admin page), the quiz and quiz-results pages, the rendering, themes and animation are left out. They are presentation or are outside the modelled files.
- Slider bounds and other widget-level limits on the timer values are left out. They are properties of the UI components.
- The quiz-taking engine (timer, answer checking, scoring) is not part of this model.
- Dashboard.Home.Load: the stored result list is taken already parsed, as `QuizResult` values. The home page never reads `id`, so the id synthesis is not applied there.

## Findings

| source | as written | input that shows it | evidently intended | confidence | as-written member | corrected member |
|---|---|---|---|---|---|---|
| app/results/admin/page.tsx:166-184 (also app/page.tsx:56-62) | `if (!data[key])` on a plain object `{}` also sees members every object inherits. For a name or topic such as "constructor", "toString" or "__proto__", no own entry is created. The `+=` updates go to the inherited member, and `Object.keys` never lists the key. | one result with studentName "constructor" | every student and topic that occurs gets an entry (an object without a prototype, or a `Map`) | not executed | Statistics.InheritedNameDropped (on Statistics.TalliedAsWritten) | Statistics.LookupStats (on Statistics.Stats, which Statistics.CalculateStats and Dashboard.StudentSummary compute) |
