/**
 * The test-taking page: the clock display, the score colour and pass mark,
 * the key combinations that count as cheating, the timer and warning
 * effects, and a session object holding the page's state (current question,
 * chosen answers, time left, warning count, whether a result is shown).
 */
module TakeTest {
  import opened Wrappers
  import opened Text

  /** Seconds on the clock when the page opens (one hour). */
  const InitialTime: nat := 3600
  /** Warnings after which the test is submitted automatically. */
  const WarningLimit: nat := 3
  /** The score at which the result badge says "passed". */
  const PassMark: int := 70

  // ---------------------------------------------------------------- clock

  /** `n.toString().padStart(2, '0')`. */
  function Pad2(n: nat): string {
    PadStart(NatToString(n), 2, '0')
  }

  /** Below 100 the padded form is exactly two digits that read back as `n`. */
  lemma Pad2Value(n: nat)
    requires n < 100
    ensures |Pad2(n)| == 2 && IsDigits(Pad2(n)) && DecimalValue(Pad2(n)) == n
  {
    var d := NatToString(n);
    DecimalRoundTrip(n);
    if n < 10 {
      var p := Pad2(n);
      assert p == ['0'] + d;
      assert p[..1] == ['0'];
      assert DecimalValue(['0']) == 0 by { assert ['0'][..0] == []; }
      assert d[..0] == [];
    }
  }

  /** `formatTime(seconds)`: minutes and seconds, each padded to two digits,
      separated by a colon. */
  function FormatTime(seconds: nat): string {
    Pad2(seconds / 60) + ":" + Pad2(seconds % 60)
  }

  /** Two two-character texts around a colon split back into the two. */
  lemma ClockParts(a: string, b: string)
    requires |a| == 2 && |b| == 2
    ensures var r := a + ":" + b;
      |r| == 5 && r[2] == ':' && r[..2] == a && r[3..] == b
  {
    var r := a + ":" + b;
    assert r == a + [':'] + b;
  }

  /** Below 100 minutes the clock reads `MM:SS`: five characters, a colon in
      the middle, and digits that read back as the number of seconds. */
  lemma FormatTimeReadsBack(seconds: nat)
    requires seconds < 6000
    ensures var r := FormatTime(seconds);
      |r| == 5 && r[2] == ':' && IsDigits(r[..2]) && IsDigits(r[3..]) &&
      60 * DecimalValue(r[..2]) + DecimalValue(r[3..]) == seconds
  {
    var m, s := seconds / 60, seconds % 60;
    Pad2Value(m);
    Pad2Value(s);
    ClockParts(Pad2(m), Pad2(s));
  }

  // ---------------------------------------------------------------- score

  /** The colour `getScoreColor` gives a score. */
  datatype ScoreColor = Green | Blue | Yellow | Red

  /** The result badge's verdict: a fixed mark, whatever the test's own
      passing score is. */
  predicate Passed(score: int) {
    score >= PassMark
  }

  /** The result badge shows a pass exactly from 70, and the passing score a
      teacher sets for the test plays no part: a score at or above a lower
      passing score still fails below 70, and a score from 70 passes even
      below a higher one. */
  lemma VerdictIgnoresPassingScore(score: int, passingScore: int)
    ensures Passed(score) <==> score >= 70
    ensures passingScore <= score < 70 ==> !Passed(score)
    ensures 70 <= score < passingScore ==> Passed(score)
  {
  }

  /** Position of a colour on the scale, worst first. */
  function Rank(c: ScoreColor): nat {
    match c
    case Red => 0
    case Yellow => 1
    case Blue => 2
    case Green => 3
  }

  /** `getScoreColor(score)`: green from 80, blue from 70, yellow from 60,
      red below. The two colours of the upper half are exactly the passing
      scores. */
  function ScoreColorOf(score: int): (c: ScoreColor)
    ensures Passed(score) <==> (c == Green || c == Blue)
    ensures c == Red <==> score < 60
    ensures c == Green <==> score >= 80
  {
    if score >= 80 then Green
    else if score >= 70 then Blue
    else if score >= 60 then Yellow
    else Red
  }

  /** A higher score never gets a worse colour. */
  lemma ScoreColorMonotone(a: int, b: int)
    requires a <= b
    ensures Rank(ScoreColorOf(a)) <= Rank(ScoreColorOf(b))
  {
  }

  // ---------------------------------------------------------------- keys

  /** The parts of a `keydown` event the page looks at. */
  datatype KeyEvent = KeyEvent(key: string, ctrlKey: bool, metaKey: bool, shiftKey: bool)

  /** The letters that are blocked together with Ctrl or Meta. */
  const BlockedLetters: seq<string> := ["c", "v", "a", "x", "s", "p"]

  /** Ctrl or Meta with copy, paste, select-all, cut, save or print. */
  predicate IsCopyPasteShortcut(e: KeyEvent) {
    (e.ctrlKey || e.metaKey) && ToLower(e.key) in BlockedLetters
  }

  /** F12, or Ctrl+Shift with the key reported as upper-case `I`. */
  predicate IsDevToolsShortcut(e: KeyEvent) {
    e.key == "F12" || (e.ctrlKey && e.shiftKey && e.key == "I")
  }

  /** Warnings one `keydown` adds: one per matching rule. No key matches
      both rules, so a key press adds at most one warning, and it adds one
      exactly when it is one of the blocked shortcuts. */
  function KeyDownWarnings(e: KeyEvent): (n: nat)
    ensures n <= 1
    ensures n == 1 <==> IsCopyPasteShortcut(e) || IsDevToolsShortcut(e)
  {
    if IsDevToolsShortcut(e) then
      assert !IsCopyPasteShortcut(e) by {
        var low := ToLower(e.key);
        if e.key == "I" {
          assert low[0] == 'i';
          assert forall l :: l in BlockedLetters ==> l[0] != 'i';
        } else {
          assert |low| == 3;
        }
      }
      1
    else if IsCopyPasteShortcut(e) then 1
    else 0
  }

  // ---------------------------------------------------------------- effects

  /** What the timer effect does when it runs. */
  datatype TimerAction = ScheduleTick | SubmitNow | NoAction

  /** The timer effect as written: it schedules the next tick while time is
      left and no result is shown, and otherwise submits whenever the clock
      reads zero, whether or not a result is already on screen. */
  function TimerEffectAsWritten(timeLeft: nat, showResult: bool): TimerAction {
    if timeLeft > 0 && !showResult then ScheduleTick
    else if timeLeft == 0 then SubmitNow
    else NoAction
  }

  /** When the clock runs out, the submission that follows sets `showResult`;
      that change re-runs the effect with the clock still at zero, and the
      effect as written submits a second time. */
  lemma TimerResubmitsAfterResult()
    ensures TimerEffectAsWritten(0, false) == SubmitNow
    ensures TimerEffectAsWritten(0, true) == SubmitNow
  {
  }

  /** The timer effect with the evident intent: once a result is shown it
      does nothing. While no result is shown it behaves as written: it
      submits exactly when the clock reads zero and schedules a tick
      otherwise. */
  function TimerEffect(timeLeft: nat, showResult: bool): (a: TimerAction)
    ensures showResult ==> a == NoAction
    ensures !showResult ==> a == TimerEffectAsWritten(timeLeft, showResult)
    ensures a == SubmitNow <==> timeLeft == 0 && !showResult
  {
    if showResult then NoAction
    else if timeLeft > 0 then ScheduleTick
    else SubmitNow
  }

  /** The warning effect runs when the count changes and submits
      automatically once it has reached the limit. */
  function WarningEffect(before: nat, after: nat): (submit: bool)
    ensures submit ==> after >= WarningLimit
    ensures before < WarningLimit <= after ==> submit
    ensures after == before ==> !submit
  {
    after != before && after >= WarningLimit
  }

  // ---------------------------------------------------------------- answers

  /** One chosen answer: the option picked for a question. */
  datatype Answer = Answer(questionId: nat, optionId: int)

  /** The `answers` object holds integer keys, which JavaScript enumerates
      in ascending order; it is kept as its entries in that order. */
  predicate Ascending(e: seq<Answer>) {
    forall i, j :: 0 <= i < j < |e| ==> e[i].questionId < e[j].questionId
  }

  /** `answers[k]`: the option chosen for question `k`, if any. */
  function Lookup(e: seq<Answer>, k: nat): Option<int> {
    if e == [] then None
    else if e[0].questionId == k then Some(e[0].optionId)
    else Lookup(e[1..], k)
  }

  /** `{ ...answers, [q]: o }`: question `q` now maps to `o`, replacing any
      earlier choice, every other question keeps its answer, and the keys
      stay in ascending order. The count of answered questions shown on
      the page grows by one exactly when `q` had no answer yet. */
  function Put(e: seq<Answer>, q: nat, o: int): (r: seq<Answer>)
    requires Ascending(e)
    ensures Ascending(r)
    ensures forall k :: Lookup(r, k) == if k == q then Some(o) else Lookup(e, k)
    ensures r != [] && r[0].questionId == if e == [] || q < e[0].questionId then q else e[0].questionId
    ensures |r| == if Lookup(e, q).Some? then |e| else |e| + 1
  {
    if e == [] then [Answer(q, o)]
    else if e[0].questionId == q then [Answer(q, o)] + e[1..]
    else if q < e[0].questionId then
      LookupBelowFirst(e, q);
      [Answer(q, o)] + e
    else
      var rest := Put(e[1..], q, o);
      assert forall k :: Lookup([e[0]] + rest, k) == if k == e[0].questionId then Some(e[0].optionId) else Lookup(rest, k) by {
        assert ([e[0]] + rest)[1..] == rest;
      }
      [e[0]] + rest
  }

  /** In an ascending list, a key below the first is not there. */
  lemma {:induction false} LookupBelowFirst(e: seq<Answer>, k: nat)
    requires Ascending(e) && e != [] && k < e[0].questionId
    ensures Lookup(e, k).None?
  {
    if |e| > 1 {
      LookupBelowFirst(e[1..], k);
    }
  }

  /** In an ascending list, each entry is what lookup finds for its key. */
  lemma {:induction false} LookupAt(e: seq<Answer>, i: nat)
    requires Ascending(e) && i < |e|
    ensures Lookup(e, e[i].questionId) == Some(e[i].optionId)
  {
    if i > 0 {
      assert e[1..][i - 1] == e[i];
      LookupAt(e[1..], i - 1);
    }
  }

  /** A key that lookup finds is at some position of the list. */
  lemma {:induction false} LookupFound(e: seq<Answer>, k: nat) returns (i: nat)
    requires Lookup(e, k).Some?
    ensures i < |e| && e[i] == Answer(k, Lookup(e, k).value)
  {
    if e[0].questionId == k {
      i := 0;
    } else {
      var j := LookupFound(e[1..], k);
      i := j + 1;
    }
  }

  /** `Object.entries(answers)`: each key as its decimal text, with its value. */
  function ObjectEntries(e: seq<Answer>): seq<(string, int)> {
    seq(|e|, i requires 0 <= i < |e| => (NatToString(e[i].questionId), e[i].optionId))
  }

  /** One element of the submitted `answers` array. */
  datatype AnswerPayload = AnswerPayload(questionId: int, selectedOptionId: int)

  /** The submitted answers: each entry's key read back with `parseInt`,
      paired with the chosen option. */
  function SubmissionPayload(e: seq<Answer>): seq<AnswerPayload> {
    var entries := ObjectEntries(e);
    seq(|entries|, i requires 0 <= i < |entries| => AnswerPayload(DecimalValue(entries[i].0), entries[i].1))
  }

  /** The submission has one element per answered question and no more: the
      question ids are pairwise distinct and each element carries the option
      recorded for its question. */
  lemma SubmissionMatchesAnswers(e: seq<Answer>)
    requires Ascending(e)
    ensures |SubmissionPayload(e)| == |e|
    ensures forall a, b :: 0 <= a < b < |e| ==>
              SubmissionPayload(e)[a].questionId != SubmissionPayload(e)[b].questionId
    ensures forall a :: 0 <= a < |e| ==>
              SubmissionPayload(e)[a].questionId >= 0 &&
              Lookup(e, SubmissionPayload(e)[a].questionId as nat) == Some(SubmissionPayload(e)[a].selectedOptionId)
  {
    var p := SubmissionPayload(e);
    forall a | 0 <= a < |e|
      ensures p[a] == AnswerPayload(e[a].questionId, e[a].optionId)
    {
      DecimalRoundTrip(e[a].questionId);
    }
    forall a | 0 <= a < |e|
      ensures Lookup(e, e[a].questionId) == Some(e[a].optionId)
    {
      LookupAt(e, a);
    }
  }

  /** Every recorded answer appears in the submission, together with the
      facts that hold for every answer map. */
  lemma SubmissionOnePerQuestion(e: seq<Answer>, k: nat) returns (i: nat)
    requires Ascending(e)
    requires Lookup(e, k).Some?
    ensures |SubmissionPayload(e)| == |e|
    ensures forall a, b :: 0 <= a < b < |e| ==>
              SubmissionPayload(e)[a].questionId != SubmissionPayload(e)[b].questionId
    ensures forall a :: 0 <= a < |e| ==>
              SubmissionPayload(e)[a].questionId >= 0 &&
              Lookup(e, SubmissionPayload(e)[a].questionId as nat) == Some(SubmissionPayload(e)[a].selectedOptionId)
    ensures i < |e| && SubmissionPayload(e)[i] == AnswerPayload(k, Lookup(e, k).value)
  {
    SubmissionMatchesAnswers(e);
    i := LookupFound(e, k);
    DecimalRoundTrip(e[i].questionId);
  }

  // ---------------------------------------------------------------- session

  /** The state of one test attempt once its questions have loaded. */
  class TestSession {
    const questionCount: nat
    var currentQuestion: nat
    var answers: seq<Answer>
    var timeLeft: nat
    var warningCount: nat
    var showResult: bool

    /** The current question is one of the questions, the clock never runs
        above its starting value, and the answers are kept by ascending key. */
    ghost predicate Valid()
      reads this
    {
      (questionCount > 0 ==> currentQuestion < questionCount) &&
      (questionCount == 0 ==> currentQuestion == 0) &&
      timeLeft <= InitialTime &&
      Ascending(answers)
    }

    /** A fresh attempt: first question, no answers, a full hour, no
        warnings, no result. */
    constructor (count: nat)
      ensures Valid()
      ensures questionCount == count && currentQuestion == 0 && answers == []
      ensures timeLeft == InitialTime && warningCount == 0 && !showResult
    {
      questionCount := count;
      currentQuestion := 0;
      answers := [];
      timeLeft := InitialTime;
      warningCount := 0;
      showResult := false;
    }

    /** The "previous" button: one question back, never before the first. */
    method Previous()
      requires Valid()
      modifies this`currentQuestion
      ensures Valid()
      ensures currentQuestion == if old(currentQuestion) == 0 then 0 else old(currentQuestion) - 1
    {
      currentQuestion := if currentQuestion == 0 then 0 else currentQuestion - 1;
    }

    /** The "next" button, shown only when there are questions: one question
        on, never past the last. */
    method Next()
      requires Valid() && questionCount > 0
      modifies this`currentQuestion
      ensures Valid()
      ensures currentQuestion == if old(currentQuestion) + 1 < questionCount then old(currentQuestion) + 1 else questionCount - 1
    {
      currentQuestion := if currentQuestion + 1 < questionCount then currentQuestion + 1 else questionCount - 1;
    }

    /** `handleAnswerChange(q, o)`: the last choice for a question wins and
        the other answers stay as they were. */
    method AnswerChange(q: nat, o: int)
      requires Valid()
      modifies this`answers
      ensures Valid()
      ensures answers == Put(old(answers), q, o)
      ensures forall k :: Lookup(answers, k) == if k == q then Some(o) else Lookup(old(answers), k)
    {
      answers := Put(answers, q, o);
    }

    /** One second passes. The pending tick, which exists only while time is
        left and no result is shown, takes exactly one second off the clock;
        the timer effect then runs on the new value. The step from one to
        zero is the one that submits. */
    method Tick() returns (action: TimerAction)
      requires Valid()
      modifies this`timeLeft
      ensures Valid()
      ensures timeLeft == if old(timeLeft) > 0 && !showResult then old(timeLeft) - 1 else old(timeLeft)
      ensures action == if old(timeLeft) > 0 && !showResult then TimerEffect(timeLeft, showResult) else NoAction
      ensures action == SubmitNow <==> old(timeLeft) == 1 && !showResult
    {
      if timeLeft > 0 && !showResult {
        timeLeft := timeLeft - 1;
        action := TimerEffect(timeLeft, showResult);
      } else {
        action := NoAction;
      }
    }

    /** Adds `n` warnings; the result says whether the warning effect now
        submits the test. */
    method AddWarnings(n: nat) returns (autoSubmit: bool)
      requires Valid()
      modifies this`warningCount
      ensures Valid()
      ensures warningCount == old(warningCount) + n
      ensures autoSubmit == WarningEffect(old(warningCount), warningCount)
      ensures autoSubmit <==> n > 0 && warningCount >= WarningLimit
    {
      var before := warningCount;
      warningCount := warningCount + n;
      autoSubmit := WarningEffect(before, warningCount);
    }

    /** A key press: a blocked shortcut raises the count by exactly one. */
    method KeyDown(e: KeyEvent) returns (autoSubmit: bool)
      requires Valid()
      modifies this`warningCount
      ensures Valid()
      ensures warningCount == old(warningCount) + KeyDownWarnings(e)
      ensures warningCount <= old(warningCount) + 1
      ensures autoSubmit <==> KeyDownWarnings(e) == 1 && warningCount >= WarningLimit
    {
      autoSubmit := AddWarnings(KeyDownWarnings(e));
    }

    /** A right click: always one warning. */
    method ContextMenu() returns (autoSubmit: bool)
      requires Valid()
      modifies this`warningCount
      ensures Valid()
      ensures warningCount == old(warningCount) + 1
      ensures autoSubmit <==> warningCount >= WarningLimit
    {
      autoSubmit := AddWarnings(1);
    }

    /** Leaving the tab: one warning when the page becomes hidden, none when
        it becomes visible again. */
    method VisibilityChange(hidden: bool) returns (autoSubmit: bool)
      requires Valid()
      modifies this`warningCount
      ensures Valid()
      ensures warningCount == old(warningCount) + (if hidden then 1 else 0)
      ensures autoSubmit <==> hidden && warningCount >= WarningLimit
    {
      autoSubmit := AddWarnings(if hidden then 1 else 0);
    }

    /** A submission succeeded and its result is shown; the timer effect runs
        again and, once a result is shown, does nothing. */
    method ShowResult() returns (action: TimerAction)
      requires Valid()
      modifies this`showResult
      ensures Valid() && showResult
      ensures action == NoAction
    {
      showResult := true;
      action := TimerEffect(timeLeft, showResult);
    }
  }
}
