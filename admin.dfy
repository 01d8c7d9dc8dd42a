/** The results dashboard for administrators: loading stored results (with
    ids synthesised where missing) and timer settings (with defaults), the
    search/topic/difficulty filters, selection, deletion, the CSV export and
    the time column. */
module Admin {

  import opened Wrappers
  import opened Js
  import opened Results
  import opened Statistics
  import opened BrowserStorage

  // ---------------------------------------------------------------------
  // Loading the results

  /** A result as it is read back from storage; older entries have no id. */
  datatype StoredResult = StoredResult(
    id: Option<string>,
    studentName: string,
    topic: string,
    score: int,
    totalQuestions: Positive,
    date: string,
    difficulty: string,
    timeTaken: Option<int>)

  /** `` `${studentName}-${topic}-${date}`.replace(/\s+/g, "-") ``. */
  function SynthesizedId(s: StoredResult): string
  {
    ReplaceWhitespaceRuns(s.studentName + "-" + s.topic + "-" + s.date)
  }

  /** `{ ...result, id: result.id || synthesised }`. */
  function WithId(s: StoredResult): QuizResult
  {
    QuizResult(if Present(s.id) then s.id.value else SynthesizedId(s),
               s.studentName, s.topic, s.score, s.totalQuestions, s.date, s.difficulty, s.timeTaken)
  }

  function LoadResults(stored: seq<StoredResult>): seq<QuizResult>
  {
    if stored == [] then [] else [WithId(stored[0])] + LoadResults(stored[1..])
  }

  /** Loading maps every stored result, in order, to the same result with an id. */
  lemma {:induction false} LoadResultsSpec(stored: seq<StoredResult>)
    ensures |LoadResults(stored)| == |stored|
    ensures forall i :: 0 <= i < |stored| ==> LoadResults(stored)[i] == WithId(stored[i])
  {
    if stored != [] {
      LoadResultsSpec(stored[1..]);
      forall i | 0 < i < |stored| ensures LoadResults(stored)[i] == WithId(stored[i]) {
        assert stored[1..][i - 1] == stored[i];
      }
    }
  }

  /** Loading keeps every field and a non-empty stored id; a missing or
      empty id is replaced by one without whitespace, which is exactly
      `name-topic-date` when none of those holds whitespace. */
  lemma LoadedId(s: StoredResult)
    ensures var r := WithId(s);
      && r.studentName == s.studentName && r.topic == s.topic && r.score == s.score
      && r.totalQuestions == s.totalQuestions && r.date == s.date
      && r.difficulty == s.difficulty && r.timeTaken == s.timeTaken
      && (Present(s.id) ==> r.id == s.id.value)
      && (!Present(s.id) ==> NoWhitespace(r.id))
      && ((!Present(s.id) && NoWhitespace(s.studentName) && NoWhitespace(s.topic) && NoWhitespace(s.date))
          ==> r.id == s.studentName + "-" + s.topic + "-" + s.date)
  {
    ReplaceLeavesNoWhitespace(s.studentName + "-" + s.topic + "-" + s.date);
    if NoWhitespace(s.studentName) && NoWhitespace(s.topic) && NoWhitespace(s.date) {
      PlainJoin(s.studentName, s.topic, s.date);
      ReplaceKeepsPlainText(s.studentName + "-" + s.topic + "-" + s.date);
    }
  }

  /** A run of whitespace inside a name becomes a single dash: a first name,
      spaces and a last name give `first-last-topic-date`. */
  lemma IdOfSpacedName(s: StoredResult, first: string, w: string, last: string)
    requires !Present(s.id) && s.studentName == first + w + last
    requires first != [] && NoWhitespace(first) && NoWhitespace(last)
    requires |w| > 0 && forall i :: 0 <= i < |w| ==> IsWhitespace(w[i])
    requires NoWhitespace(s.topic) && NoWhitespace(s.date)
    ensures WithId(s).id == first + "-" + last + "-" + s.topic + "-" + s.date
  {
    var tail := "-" + s.topic + "-" + s.date;
    var b := last + tail;
    assert s.studentName + "-" + s.topic + "-" + s.date == first + (w + b) by {
      AppendAssoc(first + w, last, tail);
      AppendAssoc(first, w, b);
    }
    PlainJoin(last, s.topic, s.date);
    assert b == last + "-" + s.topic + "-" + s.date;
    ReplacePlainRun(first, w, b);
    assert first + ("-" + b) == first + "-" + last + "-" + s.topic + "-" + s.date;
  }

  /** One whitespace run between two whitespace-free texts becomes one dash. */
  lemma ReplacePlainRun(a: string, w: string, b: string)
    requires a != [] && NoWhitespace(a) && NoWhitespace(b)
    requires |w| > 0 && forall i :: 0 <= i < |w| ==> IsWhitespace(w[i])
    ensures ReplaceWhitespaceRuns(a + (w + b)) == a + ("-" + b)
  {
    assert !IsWhitespace(a[|a| - 1]);
    ReplaceOneRun(a, w, b);
    ReplaceKeepsPlainText(a);
    ReplaceKeepsPlainText(b);
  }

  /** Joining whitespace-free parts with dashes leaves no whitespace. */
  lemma PlainJoin(x: string, y: string, z: string)
    requires NoWhitespace(x) && NoWhitespace(y) && NoWhitespace(z)
    ensures NoWhitespace(x + "-" + y + "-" + z)
  {
    var raw := x + "-" + y + "-" + z;
    forall i | 0 <= i < |raw| ensures !IsWhitespace(raw[i]) {
      if i < |x| {
        assert raw[i] == x[i];
      } else if i == |x| {
        assert raw[i] == '-';
      } else if i < |x| + 1 + |y| {
        assert raw[i] == y[i - |x| - 1];
      } else if i == |x| + 1 + |y| {
        assert raw[i] == '-';
      } else {
        assert raw[i] == z[i - |x| - |y| - 2];
      }
    }
  }

  // ---------------------------------------------------------------------
  // Timer settings

  /** Seconds per question for each difficulty and the optional custom
      limit; a value parsed from storage may be NaN. */
  datatype TimerSettings = TimerSettings(easy: JsInt, medium: JsInt, hard: JsInt, custom: Option<JsInt>)

  /** `saved ? Number.parseInt(saved) : fallback`. */
  function SettingOr(saved: Option<string>, fallback: int): JsInt
  {
    if Present(saved) then ParseInt(saved.value) else Int(fallback)
  }

  function LoadTimerSettings(store: Storage): TimerSettings
  {
    var custom := Get(store, "customTimeLimit");
    TimerSettings(
      SettingOr(Get(store, "timerEasy"), 60),
      SettingOr(Get(store, "timerMedium"), 45),
      SettingOr(Get(store, "timerHard"), 30),
      if Present(custom) then Some(ParseInt(custom.value)) else None)
  }

  function LoadUseCustomTimer(store: Storage): bool
  {
    Get(store, "useCustomTime") == Some("true")
  }

  const DefaultTimerSettings := TimerSettings(Int(60), Int(45), Int(30), None)

  /** Missing (or empty) settings fall back to 60, 45 and 30 seconds and no
      custom limit; the default flag is off unless "true" is stored. */
  lemma TimerDefaults(store: Storage)
    requires forall k :: k in ["timerEasy", "timerMedium", "timerHard", "customTimeLimit"] ==> !Present(Get(store, k))
    requires "useCustomTime" !in store
    ensures LoadTimerSettings(store) == DefaultTimerSettings
    ensures !LoadUseCustomTimer(store)
  {
    assert !Present(Get(store, "timerEasy"));
    assert !Present(Get(store, "timerMedium"));
    assert !Present(Get(store, "timerHard"));
    assert !Present(Get(store, "customTimeLimit"));
  }

  /** `saveTimerSettings`: the three values always, the custom limit only
      when it is truthy, and the flag as "true" or "false". */
  function SavedTimerSettings(store: Storage, t: TimerSettings, useCustomTimer: bool): Storage
  {
    var s := store["timerEasy" := JsToString(t.easy)]["timerMedium" := JsToString(t.medium)]["timerHard" := JsToString(t.hard)];
    var s' := if Truthy(t.custom) then s["customTimeLimit" := JsToString(t.custom.value)] else s;
    s'["useCustomTime" := if useCustomTimer then "true" else "false"]
  }

  /** A saved value reads back as itself. */
  lemma SettingOfSaved(x: JsInt, fallback: int)
    ensures SettingOr(Some(JsToString(x)), fallback) == x
  {
    if x.Int? {
      assert |NatToString(if x.value < 0 then -x.value else x.value)| > 0;
    }
    ParseIntOfJsToString(x);
  }

  /** Saving and loading again gives back the saved settings, except that a
      falsy custom limit is not written, so the one stored before remains. */
  lemma SaveLoadRoundTrip(store: Storage, t: TimerSettings, useCustomTimer: bool)
    ensures var saved := SavedTimerSettings(store, t, useCustomTimer);
      && LoadTimerSettings(saved)
         == t.(custom := if Truthy(t.custom) then t.custom else LoadTimerSettings(store).custom)
      && LoadUseCustomTimer(saved) == useCustomTimer
  {
    var saved := SavedTimerSettings(store, t, useCustomTimer);
    assert Get(saved, "timerEasy") == Some(JsToString(t.easy));
    assert Get(saved, "timerMedium") == Some(JsToString(t.medium));
    assert Get(saved, "timerHard") == Some(JsToString(t.hard));
    SettingOfSaved(t.easy, 60);
    SettingOfSaved(t.medium, 45);
    SettingOfSaved(t.hard, 30);
    if Truthy(t.custom) {
      assert Get(saved, "customTimeLimit") == Some(JsToString(t.custom.value));
      SettingOfSaved(t.custom.value, 0);
    } else {
      assert Get(saved, "customTimeLimit") == Get(store, "customTimeLimit");
    }
  }

  /** Saving touches only the five setting keys. */
  lemma SaveKeepsOtherKeys(store: Storage, t: TimerSettings, useCustomTimer: bool, k: string)
    requires k !in ["timerEasy", "timerMedium", "timerHard", "customTimeLimit", "useCustomTime"]
    ensures Get(SavedTimerSettings(store, t, useCustomTimer), k) == Get(store, k)
  {
  }

  // ---------------------------------------------------------------------
  // The filter effect

  function SearchCriterion(searchTerm: string): Criterion
  {
    if searchTerm == "" then Anything else Mentions(searchTerm)
  }

  /** `"all"` (and the empty choice) means no filter. */
  function TopicCriterion(filterTopic: string): Criterion
  {
    if filterTopic == "" || filterTopic == "all" then Anything else TopicIs(filterTopic)
  }

  function DifficultyCriterion(filterDifficulty: string): Criterion
  {
    if filterDifficulty == "" || filterDifficulty == "all" then Anything else DifficultyIs(filterDifficulty)
  }

  function AdminFilter(searchTerm: string, filterTopic: string, filterDifficulty: string): Criterion
  {
    Both(Both(SearchCriterion(searchTerm), TopicCriterion(filterTopic)), DifficultyCriterion(filterDifficulty))
  }

  /** Narrows `filtered` by `c` unless `c` keeps everything. */
  lemma NarrowStep(rs: seq<QuizResult>, a: Criterion, c: Criterion)
    ensures (if c == Anything then Select(rs, a) else Select(Select(rs, a), c)) == Select(rs, Both(a, c))
  {
    SelectSelect(rs, a, c);
    if c == Anything {
      SelectEquivalent(rs, a, Both(a, c));
    }
  }

  /** The filter effect: copy the results, then narrow them by the search
      term, the topic and the difficulty in turn. */
  method ApplyFilters(results: seq<QuizResult>, searchTerm: string, filterTopic: string, filterDifficulty: string)
    returns (filtered: seq<QuizResult>)
    ensures filtered == Select(results, AdminFilter(searchTerm, filterTopic, filterDifficulty))
  {
    filtered := results;
    if searchTerm != "" {
      filtered := Select(filtered, Mentions(searchTerm));
    } else {
      SelectKeepsAll(results, Anything);
    }
    var s := SearchCriterion(searchTerm);
    NarrowStep(results, s, TopicCriterion(filterTopic));
    if filterTopic != "" && filterTopic != "all" {
      filtered := Select(filtered, TopicIs(filterTopic));
    }
    NarrowStep(results, Both(s, TopicCriterion(filterTopic)), DifficultyCriterion(filterDifficulty));
    if filterDifficulty != "" && filterDifficulty != "all" {
      filtered := Select(filtered, DifficultyIs(filterDifficulty));
    }
  }

  /** A result is shown exactly when it is stored, mentions the search term
      (if any), and matches the topic and the difficulty (unless "all"). */
  lemma FilterMembership(results: seq<QuizResult>, searchTerm: string, filterTopic: string, filterDifficulty: string, x: QuizResult)
    ensures x in Select(results, AdminFilter(searchTerm, filterTopic, filterDifficulty))
        <==> && x in results
             && (searchTerm == "" || MentionsTerm(x, searchTerm))
             && (filterTopic == "" || filterTopic == "all" || x.topic == filterTopic)
             && (filterDifficulty == "" || filterDifficulty == "all" || x.difficulty == filterDifficulty)
  {
    SelectMembership(results, AdminFilter(searchTerm, filterTopic, filterDifficulty), x);
    FilterHolds(searchTerm, filterTopic, filterDifficulty, x);
  }

  lemma FilterHolds(searchTerm: string, filterTopic: string, filterDifficulty: string, x: QuizResult)
    ensures Holds(AdminFilter(searchTerm, filterTopic, filterDifficulty), x)
        <==> && (searchTerm == "" || MentionsTerm(x, searchTerm))
             && (filterTopic == "" || filterTopic == "all" || x.topic == filterTopic)
             && (filterDifficulty == "" || filterDifficulty == "all" || x.difficulty == filterDifficulty)
  {
    var s := SearchCriterion(searchTerm);
    var t := TopicCriterion(filterTopic);
    var d := DifficultyCriterion(filterDifficulty);
    assert Holds(AdminFilter(searchTerm, filterTopic, filterDifficulty), x) <==> Holds(s, x) && Holds(t, x) && Holds(d, x);
  }

  /** The shown results keep their stored order. */
  lemma FilterKeepsOrder(results: seq<QuizResult>, searchTerm: string, filterTopic: string, filterDifficulty: string)
    ensures IsSubsequence(Select(results, AdminFilter(searchTerm, filterTopic, filterDifficulty)), results)
  {
    SelectIsSubsequence(results, AdminFilter(searchTerm, filterTopic, filterDifficulty));
  }

  /** No search term and both filters on "all": everything is shown. */
  lemma NoFilterShowsAll(results: seq<QuizResult>)
    ensures Select(results, AdminFilter("", "all", "all")) == results
  {
    forall i | 0 <= i < |results| ensures Holds(AdminFilter("", "all", "all"), results[i]) {
      FilterHolds("", "all", "all", results[i]);
    }
    SelectKeepsAll(results, AdminFilter("", "all", "all"));
  }

  /** Choosing difficulty "hard" alone shows the hard results and nothing else. */
  lemma HardOnlyExample(results: seq<QuizResult>)
    ensures Select(results, AdminFilter("", "all", "hard")) == Select(results, DifficultyIs("hard"))
  {
    forall r ensures Holds(AdminFilter("", "all", "hard"), r) == Holds(DifficultyIs("hard"), r) {
      FilterHolds("", "all", "hard", r);
    }
    SelectEquivalent(results, AdminFilter("", "all", "hard"), DifficultyIs("hard"));
  }

  // ---------------------------------------------------------------------
  // Selection

  /** `prev.filter(resultId => resultId !== id)`. */
  function Without(prev: seq<string>, id: string): (next: seq<string>)
    ensures forall x :: x in next <==> x in prev && x != id
    ensures |next| <= |prev|
  {
    if prev == [] then []
    else (if prev[0] == id then [] else [prev[0]]) + Without(prev[1..], id)
  }

  /** `handleSelectResult`: deselect `id` if it is selected, otherwise select it. */
  function Toggle(prev: seq<string>, id: string): seq<string>
  {
    if id in prev then Without(prev, id) else prev + [id]
  }

  /** Toggling flips the membership of `id` and of nothing else. */
  lemma ToggleFlips(prev: seq<string>, id: string, other: string)
    requires other != id
    ensures id in Toggle(prev, id) <==> id !in prev
    ensures other in Toggle(prev, id) <==> other in prev
  {
  }

  /** Toggling twice restores every membership. */
  lemma ToggleTwice(prev: seq<string>, id: string, x: string)
    ensures x in Toggle(Toggle(prev, id), id) <==> x in prev
  {
  }

  predicate NoDuplicates(ids: seq<string>)
  {
    forall i, j :: 0 <= i < j < |ids| ==> ids[i] != ids[j]
  }

  lemma {:induction false} WithoutNoDuplicates(prev: seq<string>, id: string)
    requires NoDuplicates(prev)
    ensures NoDuplicates(Without(prev, id))
  {
    if prev != [] {
      assert NoDuplicates(prev[1..]) by {
        forall i, j | 0 <= i < j < |prev[1..]| ensures prev[1..][i] != prev[1..][j] {
          assert prev[1..][i] == prev[i + 1] && prev[1..][j] == prev[j + 1];
        }
      }
      WithoutNoDuplicates(prev[1..], id);
      assert prev[0] !in prev[1..] by {
        forall j | 0 <= j < |prev[1..]| ensures prev[1..][j] != prev[0] {
          assert prev[1..][j] == prev[j + 1];
        }
      }
    }
  }

  /** Toggling never selects the same id twice. */
  lemma ToggleNoDuplicates(prev: seq<string>, id: string)
    requires NoDuplicates(prev)
    ensures NoDuplicates(Toggle(prev, id))
  {
    if id in prev {
      WithoutNoDuplicates(prev, id);
    }
  }

  function Ids(rs: seq<QuizResult>): (ids: seq<string>)
    ensures |ids| == |rs| && forall i :: 0 <= i < |rs| ==> ids[i] == rs[i].id
  {
    if rs == [] then [] else [rs[0].id] + Ids(rs[1..])
  }

  /** `handleSelectAll`. */
  function SelectAll(checked: bool, filteredResults: seq<QuizResult>): seq<string>
  {
    if checked then Ids(filteredResults) else []
  }

  /** Checking selects exactly the ids of the shown results; unchecking selects none. */
  lemma SelectAllSelects(checked: bool, filteredResults: seq<QuizResult>, id: string)
    ensures id in SelectAll(checked, filteredResults)
        <==> checked && exists i :: 0 <= i < |filteredResults| && filteredResults[i].id == id
    ensures !checked ==> SelectAll(checked, filteredResults) == []
  {
    var ids := SelectAll(checked, filteredResults);
    if checked && id in ids {
      var i :| 0 <= i < |ids| && ids[i] == id;
      assert filteredResults[i].id == id;
    }
  }

  // ---------------------------------------------------------------------
  // Deleting the selected results

  /** `results.filter(result => !selectedResults.includes(result.id))`. */
  function Remaining(results: seq<QuizResult>, selected: seq<string>): seq<QuizResult>
  {
    Select(results, IdNotIn(selected))
  }

  /** After a delete no selected id is left, every other result is kept, and
      the kept ones are in their stored order. */
  lemma DeleteRemovesSelected(results: seq<QuizResult>, selected: seq<string>, x: QuizResult)
    ensures x in Remaining(results, selected) <==> x in results && x.id !in selected
    ensures IsSubsequence(Remaining(results, selected), results)
  {
    SelectMembership(results, IdNotIn(selected), x);
    SelectIsSubsequence(results, IdNotIn(selected));
  }

  /** The deleted results are exactly the ones an export of the same
      selection would cover, so together they account for every result. */
  lemma DeleteAndExportPartition(results: seq<QuizResult>, selected: seq<string>)
    requires |selected| > 0
    ensures |Remaining(results, selected)| + |ExportData(results, selected)| == |results|
  {
    SelectPartition(results, selected);
  }

  /** Deleting with nothing selected keeps all results. */
  lemma DeleteNothing(results: seq<QuizResult>)
    ensures Remaining(results, []) == results
  {
    SelectKeepsAll(results, IdNotIn([]));
  }

  // ---------------------------------------------------------------------
  // The CSV export

  /** The selected results when any are selected, otherwise all of them. */
  function ExportData(results: seq<QuizResult>, selected: seq<string>): seq<QuizResult>
  {
    if |selected| > 0 then Select(results, IdIn(selected)) else results
  }

  lemma ExportCovers(results: seq<QuizResult>, selected: seq<string>, x: QuizResult)
    ensures |selected| > 0 ==> (x in ExportData(results, selected) <==> x in results && x.id in selected)
    ensures |selected| == 0 ==> ExportData(results, selected) == results
  {
    SelectMembership(results, IdIn(selected), x);
  }

  const HeaderFields: seq<string> := [
    "Student Name", "Topic", "Score", "Total Questions",
    "Percentage", "Date", "Difficulty", "Time Taken (s)"
  ]

  function Header(): string
  {
    Join(HeaderFields, ',')
  }

  /** `` `${Math.round((score / totalQuestions) * 100)}%` ``. */
  function PercentText(r: QuizResult): string
  {
    IntToString(Round(Percent(r))) + "%"
  }

  /** `result.timeTaken || "N/A"`. */
  function TimeTakenText(timeTaken: Option<int>): string
  {
    if timeTaken.None? || timeTaken.value == 0 then "N/A" else IntToString(timeTaken.value)
  }

  /** The eight columns of one row; `localeDate` stands for
      `new Date(date).toLocaleDateString()`. */
  function RowFields(r: QuizResult, localeDate: string -> string): seq<string>
  {
    [r.studentName, r.topic, IntToString(r.score), IntToString(r.totalQuestions),
     PercentText(r), localeDate(r.date), r.difficulty, TimeTakenText(r.timeTaken)]
  }

  function Row(r: QuizResult, localeDate: string -> string): string
  {
    Join(RowFields(r, localeDate), ',')
  }

  /** One row per exported result, in order. */
  function RowLines(data: seq<QuizResult>, localeDate: string -> string): seq<string>
  {
    seq(|data|, i requires 0 <= i < |data| => Row(data[i], localeDate))
  }

  function CsvLines(results: seq<QuizResult>, selected: seq<string>, localeDate: string -> string): seq<string>
  {
    [Header()] + RowLines(ExportData(results, selected), localeDate)
  }

  /** The text of the exported file. */
  function Csv(results: seq<QuizResult>, selected: seq<string>, localeDate: string -> string): string
  {
    Join(CsvLines(results, selected, localeDate), '\n')
  }

  /** No text column of `r` holds the character `c`. */
  predicate TextAvoids(r: QuizResult, localeDate: string -> string, c: char)
  {
    c !in r.studentName && c !in r.topic && c !in r.difficulty && c !in localeDate(r.date)
  }

  /** Every column after the name avoids a character that the other text
      columns avoid and that no number, "%" or "N/A" contains. */
  lemma RowFieldsAvoid(r: QuizResult, localeDate: string -> string, c: char)
    requires c !in r.topic && c !in r.difficulty && c !in localeDate(r.date)
    requires !IsDigit(c) && c != '-' && c != '%' && c != 'N' && c != '/' && c != 'A'
    ensures forall i :: 1 <= i < 8 ==> c !in RowFields(r, localeDate)[i]
  {
    IntToStringAvoids(r.score, c);
    IntToStringAvoids(r.totalQuestions, c);
    IntToStringAvoids(Round(Percent(r)), c);
    if r.timeTaken.Some? {
      IntToStringAvoids(r.timeTaken.value, c);
    }
  }

  lemma RowAvoidsNewline(r: QuizResult, localeDate: string -> string)
    requires TextAvoids(r, localeDate, '\n')
    ensures '\n' !in Row(r, localeDate)
  {
    RowFieldsAvoid(r, localeDate, '\n');
    assert forall i :: 0 <= i < 8 ==> '\n' !in RowFields(r, localeDate)[i];
    JoinAvoids(RowFields(r, localeDate), ',', '\n');
  }

  lemma ExportAvoids(results: seq<QuizResult>, selected: seq<string>, localeDate: string -> string, c: char, i: nat)
    requires forall j :: 0 <= j < |results| ==> TextAvoids(results[j], localeDate, c)
    requires i < |ExportData(results, selected)|
    ensures TextAvoids(ExportData(results, selected)[i], localeDate, c)
  {
    var x := ExportData(results, selected)[i];
    ExportCovers(results, selected, x);
    assert x in results;
  }

  lemma RowLinesAvoidNewline(results: seq<QuizResult>, selected: seq<string>, localeDate: string -> string)
    requires forall i :: 0 <= i < |results| ==> TextAvoids(results[i], localeDate, '\n')
    ensures var rows := RowLines(ExportData(results, selected), localeDate);
      forall j :: 0 <= j < |rows| ==> '\n' !in rows[j]
  {
    var data := ExportData(results, selected);
    forall j | 0 <= j < |data| ensures '\n' !in RowLines(data, localeDate)[j] {
      ExportAvoids(results, selected, localeDate, '\n', j);
      RowAvoidsNewline(data[j], localeDate);
    }
  }

  lemma CsvLinesAvoidNewline(results: seq<QuizResult>, selected: seq<string>, localeDate: string -> string)
    requires forall i :: 0 <= i < |results| ==> TextAvoids(results[i], localeDate, '\n')
    ensures var lines := CsvLines(results, selected, localeDate);
      forall j :: 0 <= j < |lines| ==> '\n' !in lines[j]
  {
    HeaderAvoidsNewline();
    RowLinesAvoidNewline(results, selected, localeDate);
    ConsAvoids(Header(), RowLines(ExportData(results, selected), localeDate), '\n');
  }

  lemma HeaderFieldsAvoid()
    ensures forall i :: 0 <= i < |HeaderFields| ==> ',' !in HeaderFields[i] && '\n' !in HeaderFields[i]
  {
  }

  lemma HeaderAvoidsNewline()
    ensures '\n' !in Header()
  {
    HeaderFieldsAvoid();
    JoinAvoids(HeaderFields, ',', '\n');
  }

  /** With no line break inside the text columns, the export has one header
      line and then one line per exported result, in order. */
  lemma CsvLineStructure(results: seq<QuizResult>, selected: seq<string>, localeDate: string -> string)
    requires forall i :: 0 <= i < |results| ==> TextAvoids(results[i], localeDate, '\n')
    ensures var data := ExportData(results, selected);
      var lines := Split(Csv(results, selected, localeDate), '\n');
      && |lines| == 1 + |data|
      && lines[0] == Header()
      && forall i :: 0 <= i < |data| ==> lines[i + 1] == Row(data[i], localeDate)
  {
    var lines := CsvLines(results, selected, localeDate);
    CsvLinesAvoidNewline(results, selected, localeDate);
    SplitJoin(lines, '\n');
  }

  /** The header has the eight fixed column names. */
  lemma HeaderColumns()
    ensures Split(Header(), ',') == HeaderFields && |HeaderFields| == 8
  {
    HeaderFieldsAvoid();
    SplitJoin(HeaderFields, ',');
  }

  /** With no comma inside the text columns, a row splits back into its
      eight columns: the percentage column is the rounded percentage
      followed by "%", and the time column reads "N/A" exactly when the time
      is missing or 0. */
  lemma RowColumns(r: QuizResult, localeDate: string -> string)
    requires TextAvoids(r, localeDate, ',')
    ensures var cols := Split(Row(r, localeDate), ',');
      && |cols| == 8
      && cols[0] == r.studentName && cols[1] == r.topic
      && cols[2] == IntToString(r.score) && cols[3] == IntToString(r.totalQuestions)
      && cols[4] == IntToString(Round(Percent(r))) + "%"
      && cols[5] == localeDate(r.date) && cols[6] == r.difficulty
      && (cols[7] == "N/A" <==> r.timeTaken.None? || r.timeTaken.value == 0)
      && (r.timeTaken.Some? && r.timeTaken.value != 0 ==> cols[7] == IntToString(r.timeTaken.value))
  {
    RowFieldsAvoid(r, localeDate, ',');
    assert forall i :: 0 <= i < 8 ==> ',' !in RowFields(r, localeDate)[i];
    SplitJoin(RowFields(r, localeDate), ',');
    if r.timeTaken.Some? && r.timeTaken.value != 0 {
      var t := IntToString(r.timeTaken.value);
      IntToStringAvoids(r.timeTaken.value, 'N');
      assert 'N' in "N/A";
    }
  }

  /** The columns are not quoted: a comma inside a name splits the name over
      two columns and the row reads back as nine columns. */
  lemma CommaInNameSplitsColumn(r: QuizResult, localeDate: string -> string, first: string, last: string)
    requires r.studentName == first + "," + last && ',' !in first && ',' !in last
    requires ',' !in r.topic && ',' !in r.difficulty && ',' !in localeDate(r.date)
    ensures var cols := Split(Row(r, localeDate), ',');
      |cols| == 9 && cols[0] == first && cols[1] == last && cols[2] == r.topic
  {
    var fields := RowFields(r, localeDate);
    RowFieldsAvoid(r, localeDate, ',');
    assert fields == [r.studentName] + fields[1..];
    SplitJoinSeparatorInFirst(first, last, fields[1..], ',');
  }


  // ---------------------------------------------------------------------
  // The time column

  /** `formatTime`: "N/A" for a missing or zero time, otherwise minutes,
      a colon and the seconds padded to two digits. */
  function FormatTime(seconds: Option<int>): string
  {
    if seconds.None? || seconds.value == 0 then "N/A"
    else
      var s := seconds.value;
      var mins := s / 60;      // Math.floor(seconds / 60): Dafny's division floors for a positive divisor
      var secs := JsRem(s, 60);
      IntToString(mins) + ":" + (if secs < 10 then "0" else "") + IntToString(secs)
  }

  lemma FormatTimeNone(seconds: Option<int>)
    ensures FormatTime(seconds) == "N/A" <==> seconds.None? || seconds.value == 0
  {
    if seconds.Some? && seconds.value != 0 {
      var f := FormatTime(seconds);
      var m := IntToString(seconds.value / 60);
      assert f[|m|] == ':';
      assert |m| > 0 by { assert |NatToString(if seconds.value / 60 < 0 then -(seconds.value / 60) else seconds.value / 60)| > 0; }
      IntToStringAvoids(seconds.value / 60, 'N');
      assert f[0] != 'N' by { assert f[0] == m[0]; }
    }
  }

  /** For a positive time the text reads back as minutes and two-digit
      seconds that add up to the time. */
  lemma FormatTimeReadsBack(s: int)
    requires s > 0
    ensures var parts := Split(FormatTime(Some(s)), ':');
      && |parts| == 2
      && AllDigits(parts[0]) && AllDigits(parts[1]) && |parts[1]| == 2
      && DigitsValue(parts[1]) < 60
      && DigitsValue(parts[0]) * 60 + DigitsValue(parts[1]) == s
  {
    var mins := s / 60;
    var secs := s % 60;
    assert JsRem(s, 60) == secs;
    var m := NatToString(mins);
    var d := (if secs < 10 then "0" else "") + NatToString(secs);
    assert FormatTime(Some(s)) == m + [':'] + d;
    DigitsOfNat(mins);
    DigitsOfNat(secs);
    if secs < 10 {
      assert d == "0" + [DigitChar(secs)];
      assert d[..1] == "0";
    } else {
      assert NatToString(secs) == NatToString(secs / 10) + [DigitChar(secs % 10)];
    }
    assert AllDigits(d);
    assert ':' !in m && ':' !in d;
    SplitAtSeparator(m, ':', d);
    SplitWithoutSeparator(d, ':');
  }

  /** 125 seconds read "2:05". */
  lemma FormatTimeExample()
    ensures FormatTime(Some(125)) == "2:05"
  {
    assert NatToString(2) == "2";
    assert NatToString(5) == "5";
  }

  // ---------------------------------------------------------------------
  // The page

  class AdminPage {
    var results: seq<QuizResult>
    var filteredResults: seq<QuizResult>
    var searchTerm: string
    var filterTopic: string
    var filterDifficulty: string
    var selectedResults: seq<string>
    var timerSettings: TimerSettings
    var useCustomTimerByDefault: bool
    var studentStats: seq<Entry>
    var topicStats: seq<Entry>

    /** What the page keeps consistent after every handler and effect: the
        table shows the filtered results and the statistics describe all
        results. */
    ghost predicate Valid()
      reads this
    {
      && filteredResults == Select(results, AdminFilter(searchTerm, filterTopic, filterDifficulty))
      && studentStats == Stats(results, ByStudent)
      && topicStats == Stats(results, ByTopic)
    }

    /** The initial state of the page. */
    constructor ()
      ensures Valid()
      ensures results == [] && filteredResults == [] && selectedResults == []
      ensures searchTerm == "" && filterTopic == "all" && filterDifficulty == "all"
      ensures timerSettings == DefaultTimerSettings && !useCustomTimerByDefault
      ensures studentStats == [] && topicStats == []
    {
      results := [];
      filteredResults := [];
      searchTerm := "";
      filterTopic := "all";
      filterDifficulty := "all";
      selectedResults := [];
      timerSettings := DefaultTimerSettings;
      useCustomTimerByDefault := false;
      studentStats := [];
      topicStats := [];
    }

    /** The load effect: results with ids, the timer settings, the
        statistics, and the filter effect that follows. */
    method Load(stored: seq<StoredResult>, store: Storage)
      modifies this
      ensures Valid()
      ensures results == LoadResults(stored)
      ensures timerSettings == LoadTimerSettings(store)
      ensures useCustomTimerByDefault == LoadUseCustomTimer(store)
      ensures searchTerm == old(searchTerm) && filterTopic == old(filterTopic) && filterDifficulty == old(filterDifficulty)
      ensures selectedResults == old(selectedResults)
    {
      LoadStoredResults(stored);
      LoadTimers(store);
      studentStats, topicStats := CalculateStats(results);
      filteredResults := ApplyFilters(results, searchTerm, filterTopic, filterDifficulty);
    }

    /** The stored results, each with an id, shown unfiltered. */
    method LoadStoredResults(stored: seq<StoredResult>)
      modifies this`results, this`filteredResults
      ensures results == LoadResults(stored) && filteredResults == results
    {
      var resultsWithIds := LoadResults(stored);
      results := resultsWithIds;
      filteredResults := resultsWithIds;
    }

    /** The timer part of the load effect. */
    method LoadTimers(store: Storage)
      modifies this`timerSettings, this`useCustomTimerByDefault
      ensures timerSettings == LoadTimerSettings(store)
      ensures useCustomTimerByDefault == LoadUseCustomTimer(store)
    {
      var savedCustomTime := Get(store, "customTimeLimit");
      timerSettings := TimerSettings(
        SettingOr(Get(store, "timerEasy"), 60),
        SettingOr(Get(store, "timerMedium"), 45),
        SettingOr(Get(store, "timerHard"), 30),
        if Present(savedCustomTime) then Some(ParseInt(savedCustomTime.value)) else None);
      useCustomTimerByDefault := Get(store, "useCustomTime") == Some("true");
    }

    /** Typing a search term or choosing a topic or difficulty, followed by
        the filter effect. */
    method ChangeFilters(term: string, topic: string, difficulty: string)
      requires Valid()
      modifies this
      ensures Valid()
      ensures searchTerm == term && filterTopic == topic && filterDifficulty == difficulty
      ensures results == old(results) && selectedResults == old(selectedResults)
      ensures timerSettings == old(timerSettings) && useCustomTimerByDefault == old(useCustomTimerByDefault)
    {
      searchTerm := term;
      filterTopic := topic;
      filterDifficulty := difficulty;
      filteredResults := ApplyFilters(results, searchTerm, filterTopic, filterDifficulty);
    }

    method SelectResult(id: string)
      requires Valid()
      modifies this`selectedResults
      ensures Valid()
      ensures selectedResults == Toggle(old(selectedResults), id)
    {
      selectedResults := Toggle(selectedResults, id);
    }

    method SelectAllResults(checked: bool)
      requires Valid()
      modifies this`selectedResults
      ensures Valid()
      ensures selectedResults == SelectAll(checked, filteredResults)
    {
      selectedResults := SelectAll(checked, filteredResults);
    }

    /** `handleDeleteSelected`: drop the selected results, clear the
        selection, recompute the statistics; the filter effect then runs on
        the new results. */
    method DeleteSelected()
      requires Valid()
      modifies this
      ensures Valid()
      ensures results == Remaining(old(results), old(selectedResults))
      ensures selectedResults == []
      ensures searchTerm == old(searchTerm) && filterTopic == old(filterTopic) && filterDifficulty == old(filterDifficulty)
      ensures timerSettings == old(timerSettings) && useCustomTimerByDefault == old(useCustomTimerByDefault)
    {
      var updatedResults := Select(results, IdNotIn(selectedResults));
      results := updatedResults;
      selectedResults := [];
      studentStats, topicStats := CalculateStats(updatedResults);
      filteredResults := ApplyFilters(results, searchTerm, filterTopic, filterDifficulty);
    }

    /** The text `handleExportResults` offers for download: with no line
        break in the text columns, the header line and then one line per
        selected result (per result when none is selected), in order. */
    method ExportResults(localeDate: string -> string) returns (csvContent: string)
      ensures csvContent == Csv(results, selectedResults, localeDate)
      ensures (forall i :: 0 <= i < |results| ==> TextAvoids(results[i], localeDate, '\n')) ==>
        var lines := Split(csvContent, '\n');
        var data := ExportData(results, selectedResults);
        && |lines| == 1 + |data| && lines[0] == Header()
        && (forall i :: 0 <= i < |data| ==> lines[i + 1] == Row(data[i], localeDate))
        && (forall x :: x in data <==> x in results && (|selectedResults| > 0 ==> x.id in selectedResults))
    {
      var dataToExport := if |selectedResults| > 0 then Select(results, IdIn(selectedResults)) else results;
      var rows := seq(|dataToExport|, i requires 0 <= i < |dataToExport| => Row(dataToExport[i], localeDate));
      csvContent := Join([Join(HeaderFields, ',')] + rows, '\n');
      if forall i :: 0 <= i < |results| ==> TextAvoids(results[i], localeDate, '\n') {
        CsvLineStructure(results, selectedResults, localeDate);
        forall x ensures x in dataToExport <==> x in results && (|selectedResults| > 0 ==> x.id in selectedResults) {
          ExportCovers(results, selectedResults, x);
        }
      }
    }

    /** Moving a timer slider or the default switch. */
    method EditTimerSettings(settings: TimerSettings, useCustom: bool)
      requires Valid()
      modifies this`timerSettings, this`useCustomTimerByDefault
      ensures Valid()
      ensures timerSettings == settings && useCustomTimerByDefault == useCustom
    {
      timerSettings := settings;
      useCustomTimerByDefault := useCustom;
    }

    /** `saveTimerSettings`: the storage after saving. */
    method SaveTimerSettings(store: Storage) returns (saved: Storage)
      ensures saved == SavedTimerSettings(store, timerSettings, useCustomTimerByDefault)
    {
      saved := store["timerEasy" := JsToString(timerSettings.easy)];
      saved := saved["timerMedium" := JsToString(timerSettings.medium)];
      saved := saved["timerHard" := JsToString(timerSettings.hard)];
      if Truthy(timerSettings.custom) {
        saved := saved["customTimeLimit" := JsToString(timerSettings.custom.value)];
      }
      saved := saved["useCustomTime" := if useCustomTimerByDefault then "true" else "false"];
    }
  }
}
