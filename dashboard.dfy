/** The student's home page: the three most recent results and the
    per-topic statistics of the saved student, the best topic, the score
    colours, the start-quiz form and the custom time limit settings. */
module Dashboard {

  import opened Wrappers
  import opened Js
  import opened Results
  import opened Statistics
  import opened BrowserStorage
  import opened Sorting

  // ---------------------------------------------------------------------
  // The recent results

  /** `new Date(r.date).getTime()`, with date parsing given as `timeOf`. */
  function DateKey(timeOf: string -> int): QuizResult -> int
  {
    (r: QuizResult) => timeOf(r.date)
  }

  /** `.filter(same name).sort(newest first).slice(0, 3)`. */
  function RecentResults(allResults: seq<QuizResult>, name: string, timeOf: string -> int): seq<QuizResult>
  {
    var sorted := SortDesc(Select(allResults, StudentIs(name)), DateKey(timeOf));
    if |sorted| <= 3 then sorted else sorted[..3]
  }

  /** The recent list holds up to three of the student's own results, newest
      first, and no result of theirs left out is newer than one shown. */
  lemma RecentResultsSpec(allResults: seq<QuizResult>, name: string, timeOf: string -> int)
    ensures var mine := Select(allResults, StudentIs(name));
      var recent := RecentResults(allResults, name, timeOf);
      && |recent| == (if |mine| <= 3 then |mine| else 3)
      && (forall i :: 0 <= i < |recent| ==> recent[i].studentName == name)
      && multiset(recent) <= multiset(mine)
      && (forall i, j :: 0 <= i < j < |recent| ==> timeOf(recent[i].date) >= timeOf(recent[j].date))
      && (forall x, i :: x in mine && x !in recent && 0 <= i < |recent| ==> timeOf(x.date) <= timeOf(recent[i].date))
  {
    var mine := Select(allResults, StudentIs(name));
    var key := DateKey(timeOf);
    var sorted := SortDesc(mine, key);
    var recent := RecentResults(allResults, name, timeOf);
    SortDescSpec(mine, key);
    assert recent == if |sorted| <= 3 then sorted else sorted[..3];
    PrefixOfSorted(mine, sorted, recent, key);
    OnlyTheStudent(allResults, name, recent);
    forall i, j | 0 <= i < j < |recent| ensures timeOf(recent[i].date) >= timeOf(recent[j].date) {
      assert key(recent[i]) >= key(recent[j]);
    }
    forall x, i | x in mine && x !in recent && 0 <= i < |recent| ensures timeOf(x.date) <= timeOf(recent[i].date) {
      assert key(x) <= key(recent[i]);
    }
  }

  lemma OnlyTheStudent(allResults: seq<QuizResult>, name: string, picked: seq<QuizResult>)
    requires multiset(picked) <= multiset(Select(allResults, StudentIs(name)))
    ensures forall i :: 0 <= i < |picked| ==> picked[i].studentName == name
  {
    forall i | 0 <= i < |picked| ensures picked[i].studentName == name {
      assert picked[i] in multiset(picked);
      SelectMembership(allResults, StudentIs(name), picked[i]);
    }
  }

  /** What taking a prefix of a sorted permutation of `mine` guarantees. */
  lemma PrefixOfSorted(mine: seq<QuizResult>, sorted: seq<QuizResult>, recent: seq<QuizResult>, key: QuizResult -> int)
    requires multiset(sorted) == multiset(mine) && Descending(sorted, key)
    requires recent == if |sorted| <= 3 then sorted else sorted[..3]
    ensures |recent| == (if |mine| <= 3 then |mine| else 3)
    ensures multiset(recent) <= multiset(mine)
    ensures forall i, j :: 0 <= i < j < |recent| ==> key(recent[i]) >= key(recent[j])
    ensures forall x, i :: x in mine && x !in recent && 0 <= i < |recent| ==> key(x) <= key(recent[i])
  {
    assert |sorted| == |mine| by {
      assert |multiset(sorted)| == |multiset(mine)|;
    }
    assert sorted == recent + sorted[|recent|..];
    forall x, i | x in mine && x !in recent && 0 <= i < |recent|
      ensures key(x) <= key(recent[i])
    {
      assert x in multiset(sorted);
      var j :| 0 <= j < |sorted| && sorted[j] == x;
      assert recent[i] == sorted[i];
    }
  }

  // ---------------------------------------------------------------------
  // The student's statistics per topic

  /** The per-topic statistics of the student named `name`. The student's
      results are tallied after the newest-first sort, which `sort` performs
      in place on the very array the `forEach` then visits, so the topics
      are listed in the order of their newest attempt. */
  function StudentTopicStats(allResults: seq<QuizResult>, name: string, timeOf: string -> int): seq<Entry>
  {
    Stats(SortDesc(Select(allResults, StudentIs(name)), DateKey(timeOf)), ByTopic)
  }

  /** For each topic: nothing if the student never took it, otherwise the
      number of the student's attempts at it and their rounded mean
      percentage. */
  lemma LookupStudentTopic(allResults: seq<QuizResult>, name: string, topic: string, timeOf: string -> int)
    ensures var g := Select(allResults, Both(StudentIs(name), TopicIs(topic)));
      Lookup(StudentTopicStats(allResults, name, timeOf), topic)
      == if g == [] then None
         else Some(Stat(|g|, SumPercent(g), Round(SumPercent(g) / |g| as real)))
  {
    var mine := Select(allResults, StudentIs(name));
    var sorted := SortDesc(mine, DateKey(timeOf));
    var g := Select(mine, TopicIs(topic));
    var h := Select(sorted, TopicIs(topic));
    SortDescSpec(mine, DateKey(timeOf));
    LookupStats(sorted, ByTopic, topic);
    SelectSelect(allResults, StudentIs(name), TopicIs(topic));
    SelectPermutation(sorted, mine, TopicIs(topic));
    assert |h| == |g| by {
      assert |multiset(h)| == |multiset(g)|;
    }
    SumPercentPermutation(h, g);
  }

  /** The topics are listed in the order of the student's attempts, newest
      first: the first topic is that of the newest result (of several equally
      new ones, the one stored first). */
  lemma StudentTopicsNewestFirst(allResults: seq<QuizResult>, name: string, timeOf: string -> int)
    requires Select(allResults, StudentIs(name)) != []
    ensures var mine := Select(allResults, StudentIs(name));
      var stats := StudentTopicStats(allResults, name, timeOf);
      |stats| > 0 && stats[0].0 == mine[FirstMaxIndex(mine, DateKey(timeOf))].topic
  {
    var mine := Select(allResults, StudentIs(name));
    SortDescHead(mine, DateKey(timeOf));
    FirstKeyOfStats(SortDesc(mine, DateKey(timeOf)), ByTopic);
  }

  // ---------------------------------------------------------------------
  // The best topic

  function AvgScoreOf(e: Entry): int
  {
    e.1.avgScore
  }

  /** `Object.entries(topicStats).sort((a, b) => b[1].avgScore - a[1].avgScore)[0][0]`,
      shown only when there is at least one topic. */
  function BestTopic(topicStats: seq<Entry>): string
    requires |topicStats| > 0
  {
    SortDescHead(topicStats, AvgScoreOf);
    SortDesc(topicStats, AvgScoreOf)[0].0
  }

  /** An older attempt at "A" and a newer one at "B" list "B" first, so a
      tie between their averages goes to "B". */
  lemma NewerTopicListedFirst(older: QuizResult, newer: QuizResult, timeOf: string -> int)
    requires older.studentName == "Ann" && newer.studentName == "Ann"
    requires older.topic == "A" && newer.topic == "B"
    requires timeOf(older.date) < timeOf(newer.date)
    ensures var stats := StudentTopicStats([older, newer], "Ann", timeOf);
      |stats| > 0 && stats[0].0 == "B"
  {
    var all := [older, newer];
    var key := DateKey(timeOf);
    SelectKeepsAll(all, StudentIs("Ann"));
    assert FirstMaxIndex(all, key) == 1 by {
      assert key(all[0]) < key(all[1]);
    }
    StudentTopicsNewestFirst(all, "Ann", timeOf);
  }

  /** The best topic has the highest average; of several with that average
      it is the one listed first. */
  lemma BestTopicIsFirstMax(topicStats: seq<Entry>)
    requires |topicStats| > 0
    ensures exists i ::
      && 0 <= i < |topicStats| && BestTopic(topicStats) == topicStats[i].0
      && (forall j :: 0 <= j < |topicStats| ==> topicStats[j].1.avgScore <= topicStats[i].1.avgScore)
      && (forall j :: 0 <= j < i ==> topicStats[j].1.avgScore < topicStats[i].1.avgScore)
  {
    SortDescHead(topicStats, AvgScoreOf);
    var i := FirstMaxIndex(topicStats, AvgScoreOf);
    assert forall j :: 0 <= j < |topicStats| ==> AvgScoreOf(topicStats[j]) == topicStats[j].1.avgScore;
  }

  // ---------------------------------------------------------------------
  // Score colours

  /** `getScoreColor(score, total)`. */
  function ScoreColor(score: int, total: Positive): string
  {
    var percentage := (score as real / total as real) * 100.0;
    if percentage >= 80.0 then "bg-emerald-500"
    else if percentage >= 60.0 then "bg-blue-500"
    else if percentage >= 40.0 then "bg-amber-500"
    else "bg-red-500"
  }

  /** The colours in increasing order of score. */
  function ColorRank(color: string): nat
  {
    if color == "bg-emerald-500" then 3
    else if color == "bg-blue-500" then 2
    else if color == "bg-amber-500" then 1
    else 0
  }

  /** Each colour covers one band of percentages: [80, ...), [60, 80),
      [40, 60) and below 40. */
  lemma ScoreColorBands(score: int, total: Positive)
    ensures var p := (score as real / total as real) * 100.0;
      && (ScoreColor(score, total) == "bg-emerald-500" <==> 80.0 <= p)
      && (ScoreColor(score, total) == "bg-blue-500" <==> 60.0 <= p < 80.0)
      && (ScoreColor(score, total) == "bg-amber-500" <==> 40.0 <= p < 60.0)
      && (ScoreColor(score, total) == "bg-red-500" <==> p < 40.0)
  {
  }

  /** A higher percentage never gets a lower colour. */
  lemma ScoreColorMonotone(score1: int, total1: Positive, score2: int, total2: Positive)
    requires (score1 as real / total1 as real) <= (score2 as real / total2 as real)
    ensures ColorRank(ScoreColor(score1, total1)) <= ColorRank(ScoreColor(score2, total2))
  {
  }

  // ---------------------------------------------------------------------
  // The start-quiz form and the custom time settings

  const NameRequired := "Please enter your name"
  const TopicRequired := "Please select a quiz topic"

  function NameError(studentName: string): string
  {
    if Trim(studentName) == "" then NameRequired else ""
  }

  function TopicError(selectedTopic: string): string
  {
    if selectedTopic == "" then TopicRequired else ""
  }

  /** The form is valid when neither field has an error. */
  predicate FormValid(studentName: string, selectedTopic: string)
  {
    Trim(studentName) != "" && selectedTopic != ""
  }

  /** Valid exactly when the name has a character other than whitespace and
      a topic is chosen; each missing field reports its own error. */
  lemma FormValidIff(studentName: string, selectedTopic: string)
    ensures FormValid(studentName, selectedTopic)
        <==> (exists i :: 0 <= i < |studentName| && !IsWhitespace(studentName[i])) && selectedTopic != ""
    ensures NameError(studentName) == "" && TopicError(selectedTopic) == "" <==> FormValid(studentName, selectedTopic)
  {
    TrimEmptyIff(studentName);
  }

  /** A blank name and no topic: both errors at once. */
  lemma BothErrors()
    ensures NameError("  ") == NameRequired && TopicError("") == TopicRequired
  {
    TrimEmptyIff("  ");
    assert IsWhitespace("  "[0]) && IsWhitespace("  "[1]);
  }

  /** The custom-time rule shared by starting a quiz and saving settings:
      "true" and the limit when the switch is on and the limit is truthy,
      otherwise just "false". */
  function PersistCustomTime(store: Storage, useCustomTime: bool, customTimeLimit: Option<JsInt>): Storage
  {
    if useCustomTime && Truthy(customTimeLimit) then
      store["useCustomTime" := "true"]["customTimeLimit" := JsToString(customTimeLimit.value)]
    else store["useCustomTime" := "false"]
  }

  /** What starting a valid form stores. */
  function StartQuizStorage(store: Storage, studentName: string, selectedDifficulty: string,
                            useCustomTime: bool, customTimeLimit: Option<JsInt>): Storage
  {
    PersistCustomTime(store["studentName" := studentName]["selectedDifficulty" := selectedDifficulty],
                      useCustomTime, customTimeLimit)
  }

  /** The custom-time part of the load effect: a stored limit (and the flag
      with it) replaces the current ones; without one nothing changes. */
  function LoadCustomTime(store: Storage, customTimeLimit: Option<JsInt>, useCustomTime: bool): (Option<JsInt>, bool)
  {
    var saved := Get(store, "customTimeLimit");
    if Present(saved) then (Some(ParseInt(saved.value)), Get(store, "useCustomTime") == Some("true"))
    else (customTimeLimit, useCustomTime)
  }

  /** The flag is stored as "true" exactly when the switch is on and the
      limit truthy; the next load then restores both the limit and the
      switch, and after "false" the switch comes back off. */
  lemma PersistLoadRoundTrip(store: Storage, useCustomTime: bool, customTimeLimit: Option<JsInt>)
    ensures var saved := PersistCustomTime(store, useCustomTime, customTimeLimit);
      && (Get(saved, "useCustomTime") == Some("true") <==> useCustomTime && Truthy(customTimeLimit))
      && (useCustomTime && Truthy(customTimeLimit) ==> LoadCustomTime(saved, None, false) == (customTimeLimit, true))
      && !LoadCustomTime(saved, None, false).1 == !(useCustomTime && Truthy(customTimeLimit))
  {
    var saved := PersistCustomTime(store, useCustomTime, customTimeLimit);
    if useCustomTime && Truthy(customTimeLimit) {
      var x := customTimeLimit.value;
      assert |NatToString(if x.value < 0 then -x.value else x.value)| > 0;
      ParseIntOfJsToString(x);
      assert Get(saved, "customTimeLimit") == Some(JsToString(x));
    }
  }

  /** `handleCustomTimeChange`: only an input that parses to a number above
      0 replaces the limit. */
  function AcceptCustomTime(customTimeLimit: Option<JsInt>, input: string): (next: Option<JsInt>)
    ensures next == customTimeLimit || (next.Some? && next.value.Int? && next.value.value > 0)
  {
    var value := ParseInt(input);
    if value.Int? && value.value > 0 then Some(value) else customTimeLimit
  }

  /** Typing a positive number sets the limit to it; typing 0 or a negative
      number leaves it unchanged. */
  lemma AcceptCustomTimeInputs(customTimeLimit: Option<JsInt>, n: nat)
    ensures n > 0 ==> AcceptCustomTime(customTimeLimit, NatToString(n)) == Some(Int(n))
    ensures AcceptCustomTime(customTimeLimit, IntToString(-(n as int))) == customTimeLimit
  {
    ParseIntOfIntToString(n);
    ParseIntOfIntToString(-(n as int));
  }

  /** Text without any digit leaves the limit unchanged. */
  lemma AcceptCustomTimeNoDigits(customTimeLimit: Option<JsInt>, input: string)
    requires forall i :: 0 <= i < |input| ==> !IsDigit(input[i])
    ensures AcceptCustomTime(customTimeLimit, input) == customTimeLimit
  {
    var t := TrimStart(input);
    TrimStartSpec(input);
    forall i | 0 <= i < |t| ensures !IsDigit(t[i]) {
      assert t[i] in t;
      var j :| 0 <= j < |input| && input[j] == t[i];
    }
    if t != [] && (t[0] == '-' || t[0] == '+') {
      assert DigitPrefix(t[1..]) == [] by {
        if |t[1..]| > 0 {
          assert t[1..][0] == t[1];
        }
      }
    } else {
      assert DigitPrefix(t) == [];
    }
  }

  /** The part of the load effect for a saved name: sort and cut the
      student's results, then tally and average their topics. */
  method StudentSummary(allResults: seq<QuizResult>, name: string, timeOf: string -> int)
    returns (recent: seq<QuizResult>, stats: seq<Entry>)
    ensures recent == RecentResults(allResults, name, timeOf)
    ensures stats == StudentTopicStats(allResults, name, timeOf)
  {
    var studentResults := Select(allResults, StudentIs(name));
    var sorted := SortDesc(studentResults, DateKey(timeOf));
    recent := if |sorted| <= 3 then sorted else sorted[..3];
    var data := Accumulate(sorted, ByTopic);
    TalliedCountsPositive(sorted, ByTopic);
    stats := Finalize(data);
  }

  // ---------------------------------------------------------------------
  // The page

  class Home {
    var studentName: string
    var selectedTopic: string
    var selectedDifficulty: string
    var nameError: string
    var topicError: string
    var recentResults: seq<QuizResult>
    var topicStats: seq<Entry>
    var customTimeLimit: Option<JsInt>
    var useCustomTime: bool

    /** The initial state of the page. */
    constructor ()
      ensures studentName == "" && selectedTopic == "" && selectedDifficulty == "medium"
      ensures nameError == "" && topicError == ""
      ensures recentResults == [] && topicStats == []
      ensures customTimeLimit == None && !useCustomTime
    {
      studentName := "";
      selectedTopic := "";
      selectedDifficulty := "medium";
      nameError := "";
      topicError := "";
      recentResults := [];
      topicStats := [];
      customTimeLimit := None;
      useCustomTime := false;
    }

    /** The load effect, given the stored results (already parsed) and the
        date parser. */
    method Load(store: Storage, allResults: seq<QuizResult>, timeOf: string -> int)
      modifies this
      ensures var savedName := Get(store, "studentName");
        if Present(savedName) then
          && studentName == savedName.value
          && recentResults == RecentResults(allResults, savedName.value, timeOf)
          && topicStats == StudentTopicStats(allResults, savedName.value, timeOf)
        else
          studentName == old(studentName) && recentResults == old(recentResults) && topicStats == old(topicStats)
      ensures (customTimeLimit, useCustomTime) == LoadCustomTime(store, old(customTimeLimit), old(useCustomTime))
      ensures selectedTopic == old(selectedTopic) && selectedDifficulty == old(selectedDifficulty)
      ensures nameError == old(nameError) && topicError == old(topicError)
    {
      LoadSavedName(store, allResults, timeOf);
      LoadSavedCustomTime(store);
    }

    /** The saved name, with that student's recent results and topics. */
    method LoadSavedName(store: Storage, allResults: seq<QuizResult>, timeOf: string -> int)
      modifies this`studentName, this`recentResults, this`topicStats
      ensures var savedName := Get(store, "studentName");
        if Present(savedName) then
          && studentName == savedName.value
          && recentResults == RecentResults(allResults, savedName.value, timeOf)
          && topicStats == StudentTopicStats(allResults, savedName.value, timeOf)
        else
          studentName == old(studentName) && recentResults == old(recentResults) && topicStats == old(topicStats)
    {
      var savedName := Get(store, "studentName");
      if Present(savedName) {
        studentName := savedName.value;
        recentResults, topicStats := StudentSummary(allResults, savedName.value, timeOf);
      }
    }

    /** The saved custom time limit and switch. */
    method LoadSavedCustomTime(store: Storage)
      modifies this`customTimeLimit, this`useCustomTime
      ensures (customTimeLimit, useCustomTime) == LoadCustomTime(store, old(customTimeLimit), old(useCustomTime))
    {
      var savedCustomTime := Get(store, "customTimeLimit");
      if Present(savedCustomTime) {
        customTimeLimit := Some(ParseInt(savedCustomTime.value));
        useCustomTime := Get(store, "useCustomTime") == Some("true");
      }
    }

    /** Typing a name, choosing a topic or a difficulty, flipping the switch. */
    method EditForm(name: string, topic: string, difficulty: string, useCustom: bool)
      modifies this`studentName, this`selectedTopic, this`selectedDifficulty, this`useCustomTime
      ensures studentName == name && selectedTopic == topic && selectedDifficulty == difficulty
      ensures useCustomTime == useCustom
    {
      studentName := name;
      selectedTopic := topic;
      selectedDifficulty := difficulty;
      useCustomTime := useCustom;
    }

    /** `handleStartQuiz`: checks both fields, setting each one's error, and
        only for a valid form stores the settings and names the page to go to. */
    method StartQuiz(store: Storage) returns (saved: Storage, destination: Option<string>)
      modifies this`nameError, this`topicError
      ensures nameError == NameError(studentName) && topicError == TopicError(selectedTopic)
      ensures destination.Some? <==> FormValid(studentName, selectedTopic)
      ensures destination.Some? ==>
        && destination.value == "/quiz/" + selectedTopic
        && saved == StartQuizStorage(store, studentName, selectedDifficulty, useCustomTime, customTimeLimit)
      ensures destination.None? ==> saved == store
    {
      var isValid := ValidateForm();
      saved := store;
      destination := None;
      if isValid {
        saved := StoreQuizSettings(store);
        destination := Some("/quiz/" + selectedTopic);
      }
    }

    /** The two checks of `handleStartQuiz`, each setting its field's error. */
    method ValidateForm() returns (isValid: bool)
      modifies this`nameError, this`topicError
      ensures nameError == NameError(studentName) && topicError == TopicError(selectedTopic)
      ensures isValid <==> FormValid(studentName, selectedTopic)
    {
      isValid := true;
      if Trim(studentName) == "" {
        nameError := NameRequired;
        isValid := false;
      } else {
        nameError := "";
      }
      if selectedTopic == "" {
        topicError := TopicRequired;
        isValid := false;
      } else {
        topicError := "";
      }
    }

    /** What a valid `handleStartQuiz` writes to storage before navigating. */
    method StoreQuizSettings(store: Storage) returns (saved: Storage)
      ensures saved == StartQuizStorage(store, studentName, selectedDifficulty, useCustomTime, customTimeLimit)
    {
      saved := store["studentName" := studentName];
      saved := saved["selectedDifficulty" := selectedDifficulty];
      if useCustomTime && Truthy(customTimeLimit) {
        saved := saved["useCustomTime" := "true"];
        saved := saved["customTimeLimit" := JsToString(customTimeLimit.value)];
      } else {
        saved := saved["useCustomTime" := "false"];
      }
    }

    method CustomTimeChange(input: string)
      modifies this`customTimeLimit
      ensures customTimeLimit == AcceptCustomTime(old(customTimeLimit), input)
    {
      var value := ParseInt(input);
      if value.Int? && value.value > 0 {
        customTimeLimit := Some(value);
      }
    }

    /** The "Save Settings" button. */
    method SaveSettings(store: Storage) returns (saved: Storage)
      ensures saved == PersistCustomTime(store, useCustomTime, customTimeLimit)
    {
      if useCustomTime && Truthy(customTimeLimit) {
        saved := store["useCustomTime" := "true"];
        saved := saved["customTimeLimit" := JsToString(customTimeLimit.value)];
      } else {
        saved := store["useCustomTime" := "false"];
      }
    }
  }
}
