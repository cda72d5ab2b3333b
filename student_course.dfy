/**
 * The student's course page: the progress status and its percentage, the
 * status badge, which buttons are offered, the pre- and post-test lookups
 * and the improvement between the two scores.
 */
module StudentCourse {
  import opened Wrappers
  import opened Text
  import opened Sequences
  import opened Server
  import opened Courses

  const NotStarted := "not started"
  const InProgress := "in progress"
  const Completed := "สำเร็จแล้ว"

  /** `progress?.status || "not started"`: a missing or empty status counts
      as not started; any other status is kept as it is. */
  function CurrentStatus(status: Option<string>): (s: string)
    ensures s != ""
    ensures status.Some? && status.value != "" ==> s == status.value
    ensures status.None? || status.value == "" ==> s == NotStarted
  {
    if status.Some? && status.value != "" then status.value else NotStarted
  }

  /** The progress bar: halfway while in progress, full once completed, and
      empty for every other status. */
  function ProgressPercentage(status: string): (p: nat)
    ensures p == 0 || p == 50 || p == 100
    ensures p == 50 <==> status == InProgress
    ensures p == 100 <==> status == Completed
  {
    if status == Completed then 100 else if status == InProgress then 50 else 0
  }

  /** The badge shown for a status. */
  datatype Badge = CompletedBadge | InProgressBadge | NotStartedBadge | RawBadge(text: string)

  /** The text a badge shows. */
  function BadgeLabel(b: Badge): string {
    match b
    case CompletedBadge => "สำเร็จแล้ว"
    case InProgressBadge => "กำลังเรียน"
    case NotStartedBadge => "ยังไม่เริ่ม"
    case RawBadge(text) => text
  }

  /** `getStatusBadge` (and the identical `getProgressBadge` of the
      students page): the three known statuses get their own badge, and any
      other status is shown as it is. */
  function StatusBadge(status: string): (b: Badge)
    ensures b.RawBadge? <==> status != Completed && status != InProgress && status != NotStarted
    ensures b.RawBadge? ==> BadgeLabel(b) == status
    ensures status == Completed ==> b == CompletedBadge && BadgeLabel(b) == status
    ensures status == InProgress ==> b == InProgressBadge
    ensures status == NotStarted ==> b == NotStartedBadge
  {
    if status == Completed then CompletedBadge
    else if status == InProgress then InProgressBadge
    else if status == NotStarted then NotStartedBadge
    else RawBadge(status)
  }

  /** The status the start button sends. */
  const StartStatus := "in progress"

  /** The start button is offered only before the course is started: the
      bar is then empty and the post-test is not yet open. */
  function ShowStartButton(status: string): (b: bool)
    ensures b ==> ProgressPercentage(status) == 0 && !PostTestEnabled(status)
    ensures b <==> StatusBadge(status) == NotStartedBadge
  {
    status == NotStarted
  }

  /** The post-test button is enabled exactly while the course is in
      progress, that is while the bar stands at half; a finished course no
      longer allows it. */
  function PostTestEnabled(status: string): (b: bool)
    ensures b <==> ProgressPercentage(status) == 50
    ensures ProgressPercentage(status) == 100 ==> !b
  {
    status == InProgress
  }

  /** Once the start status is stored, the page shows the course as half
      done, hides the start button and enables the post-test. */
  lemma StartingOpensPostTest()
    ensures CurrentStatus(Some(StartStatus)) == InProgress
    ensures ProgressPercentage(CurrentStatus(Some(StartStatus))) == 50
    ensures !ShowStartButton(CurrentStatus(Some(StartStatus)))
    ensures PostTestEnabled(CurrentStatus(Some(StartStatus)))
    ensures ShowStartButton(CurrentStatus(None)) && !PostTestEnabled(CurrentStatus(None))
  {
  }

  /** A test of the course and a recorded score. */
  datatype TestInfo = TestInfo(id: int, testType: string)
  datatype Score = Score(testId: int, score: int)

  /** `tests.find(t => t.type === testType)`: the first test of that type. */
  function FindTest(tests: seq<TestInfo>, testType: string): (r: Option<TestInfo>)
    ensures r.Some? ==> r.value.testType == testType
    ensures r.Some? <==> exists i :: 0 <= i < |tests| && tests[i].testType == testType
    ensures r.Some? ==> exists i :: 0 <= i < |tests| && tests[i] == r.value &&
                                    forall j :: 0 <= j < i ==> tests[j].testType != testType
  {
    match FirstWhere(tests, (t: TestInfo) => t.testType == testType)
    case None => None
    case Some(i) => Some(tests[i])
  }

  /** `scores.find(s => s.testId === test?.id)`: the first score recorded
      for the test; none when there is no such test. */
  function FindScore(scores: seq<Score>, test: Option<TestInfo>): (r: Option<Score>)
    ensures test.None? ==> r.None?
    ensures test.Some? ==> (r.Some? <==> exists i :: 0 <= i < |scores| && scores[i].testId == test.value.id)
    ensures r.Some? ==> test.Some? && r.value.testId == test.value.id &&
                        exists i :: 0 <= i < |scores| && scores[i] == r.value &&
                                    forall j :: 0 <= j < i ==> scores[j].testId != test.value.id
  {
    if test.None? then None
    else
      match FirstWhere(scores, (s: Score) => s.testId == test.value.id)
      case None => None
      case Some(i) => Some(scores[i])
  }

  /** `disabled={!!preTestScore}`: the pre-test button is disabled exactly
      when some score was recorded for the course's first pre-test. */
  function PreTestDisabled(scores: seq<Score>, tests: seq<TestInfo>): (b: bool)
    ensures b <==> exists i :: 0 <= i < |tests| && tests[i].testType == "pre" &&
                              (forall j :: 0 <= j < i ==> tests[j].testType != "pre") &&
                              exists k :: 0 <= k < |scores| && scores[k].testId == tests[i].id
  {
    FirstOfType(tests, "pre");
    FindScore(scores, FindTest(tests, "pre")).Some?
  }

  /** Every position that is the first of its type holds the test `find`
      returns. */
  lemma FirstOfType(tests: seq<TestInfo>, testType: string)
    ensures forall i :: 0 <= i < |tests| && tests[i].testType == testType &&
                        (forall j :: 0 <= j < i ==> tests[j].testType != testType) ==>
              FindTest(tests, testType) == Some(tests[i])
  {
    forall i | 0 <= i < |tests| && tests[i].testType == testType &&
               (forall j :: 0 <= j < i ==> tests[j].testType != testType)
      ensures FindTest(tests, testType) == Some(tests[i])
    {
      var r := FindTest(tests, testType);
      var i' :| 0 <= i' < |tests| && tests[i'] == r.value &&
                forall j :: 0 <= j < i' ==> tests[j].testType != testType;
      assert i' == i;
    }
  }

  /** The improvement row: shown only when both scores exist, and then the
      post-test score minus the pre-test score. */
  function Improvement(pre: Option<Score>, post: Option<Score>): (d: Option<int>)
    ensures d.Some? <==> pre.Some? && post.Some?
    ensures d.Some? ==> pre.value.score + d.value == post.value.score
  {
    if pre.Some? && post.Some? then Some(post.value.score - pre.value.score) else None
  }

  /** The improvement as displayed, a plus sign before the difference; a
      drop in score therefore reads `+-` before its digits. */
  function ImprovementText(d: int): (t: string)
    ensures |t| >= 2 && t[0] == '+'
    ensures d >= 0 ==> t[1..] == NatToString(d)
    ensures d < 0 ==> |t| >= 3 && t[1] == '-' && t[2..] == NatToString(-d)
  {
    "+" + IntToString(d)
  }

  /** The progress query: the status from a successful answer, nothing
      from a failed one. */
  function FetchedStatus(r: Response, status: Option<string>): (s: Option<string>)
    ensures s.Some? ==> 200 <= r.status < 300
    ensures 200 <= r.status < 300 ==> s == status
  {
    if 200 <= r.status < 300 then status else None
  }

  /** The page reads its progress from `/api/courses/:id/progress/:userId`,
      which the API answers with 404; so against this API the page always
      shows the course as not started, offers the start button, and keeps
      the post-test button disabled. */
  lemma PostTestNeverEnabled(courseId: string, userId: nat, stored: Option<string>)
    requires '/' !in courseId
    ensures var path := Join(["", "api", "courses", courseId, "progress", NatToString(userId)], "/");
            CatchAll(Get, path).Some? &&
            var status := CurrentStatus(FetchedStatus(CatchAll(Get, path).value, stored));
            status == NotStarted && ShowStartButton(status) && !PostTestEnabled(status) &&
            ProgressPercentage(status) == 0
  {
    assert '/' !in NatToString(userId) by {
      assert forall i :: 0 <= i < |NatToString(userId)| ==> '0' <= NatToString(userId)[i] <= '9';
    }
    ProgressIsNotFound(courseId, NatToString(userId), Get);
  }
}
