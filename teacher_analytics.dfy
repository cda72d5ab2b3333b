/**
 * The teacher's analytics page: the CSV export of the students' scores and
 * the badge for a score improvement.
 */
module TeacherAnalytics {
  import opened Text

  /** A row of the score table. */
  datatype StudentScore = StudentScore(
    id: nat, name: string, course: string, preTest: int, postTest: int, improvement: int)

  /** The column titles of the export. */
  const Header: seq<string> := ["ชื่อ-นามสกุล", "หลักสูตร", "คะแนน Pre-test", "คะแนน Post-test", "การพัฒนา (%)"]

  /** The cells of one student's line: name, course, the two scores and the
      improvement, in that order, numbers written in decimal. */
  function Row(s: StudentScore): (r: seq<string>)
    ensures |r| == |Header|
    ensures r[0] == s.name && r[1] == s.course
    ensures r[2] == IntToString(s.preTest) && r[3] == IntToString(s.postTest) &&
            r[4] == IntToString(s.improvement)
  {
    [s.name, s.course, IntToString(s.preTest), IntToString(s.postTest), IntToString(s.improvement)]
  }

  /** `row.join(',')`: the cells as they are, with no quoting or escaping. */
  function Line(cells: seq<string>): string {
    Join(cells, ",")
  }

  /** The lines of the export: the header line, then one line per student in
      the table's order. */
  function Lines(scores: seq<StudentScore>): (ls: seq<string>)
    ensures |ls| == |scores| + 1
    ensures ls[0] == Line(Header)
    ensures forall i :: 0 <= i < |scores| ==> ls[i + 1] == Line(Row(scores[i]))
  {
    [Line(Header)] + RowLines(scores)
  }

  /** One line per student, in the table's order. */
  function RowLines(scores: seq<StudentScore>): (ls: seq<string>)
    ensures |ls| == |scores|
    ensures forall i :: 0 <= i < |scores| ==> ls[i] == Line(Row(scores[i]))
  {
    seq(|scores|, i requires 0 <= i < |scores| => Line(Row(scores[i])))
  }

  /** `csvData.map(row => row.join(',')).join('\n')`: no trailing newline. */
  function CsvContent(scores: seq<StudentScore>): string {
    Join(Lines(scores), "\n")
  }

  /** The names and courses hold no `c`. */
  predicate FreeOf(scores: seq<StudentScore>, c: char) {
    forall i :: 0 <= i < |scores| ==> c !in scores[i].name && c !in scores[i].course
  }

  /** No cell of a line holds `c` when neither the name nor the course does
      and `c` cannot be part of a number. */
  lemma RowFreeOf(s: StudentScore, c: char)
    requires c !in s.name && c !in s.course
    requires c != '-' && !('0' <= c <= '9')
    ensures forall k :: 0 <= k < |Row(s)| ==> c !in Row(s)[k]
  {
    IntToStringChars(s.preTest, c);
    IntToStringChars(s.postTest, c);
    IntToStringChars(s.improvement, c);
  }

  /** A student's line holds no line break when the name and the course
      hold none. */
  lemma RowLineFree(s: StudentScore)
    requires '\n' !in s.name && '\n' !in s.course
    ensures '\n' !in Line(Row(s))
  {
    RowFreeOf(s, '\n');
    JoinAvoids(Row(s), ",", '\n');
  }

  /** The header line holds no line break. */
  lemma HeaderLineFree()
    ensures '\n' !in Line(Header)
  {
    JoinAvoids(Header, ",", '\n');
  }

  /** Each line of the export holds no line break, as long as no name or
      course does. */
  lemma LinesFreeOfBreaks(scores: seq<StudentScore>)
    requires FreeOf(scores, '\n')
    ensures forall k :: 0 <= k < |Lines(scores)| ==> '\n' !in Lines(scores)[k]
  {
    var ls := Lines(scores);
    HeaderLineFree();
    forall k | 1 <= k < |ls|
      ensures '\n' !in ls[k]
    {
      assert ls[k] == Line(Row(scores[k - 1]));
      RowLineFree(scores[k - 1]);
    }
  }

  /** As long as no name or course holds a line break, the file has exactly
      one line per student after the header line, and each line is that
      row's cells joined with commas. */
  lemma CsvLines(scores: seq<StudentScore>)
    requires FreeOf(scores, '\n')
    ensures Split(CsvContent(scores), '\n') == Lines(scores)
    ensures |Split(CsvContent(scores), '\n')| == |scores| + 1
  {
    var ls := Lines(scores);
    LinesFreeOfBreaks(scores);
    assert "\n" == ['\n'];
    SplitJoin(ls, '\n');
  }

  /** The header line splits back into its five titles. */
  lemma HeaderColumns()
    ensures Split(Line(Header), ',') == Header
  {
    assert "," == [','];
    SplitJoin(Header, ',');
  }

  /** A student's line splits back into its five cells as long as the name
      and the course hold no comma. */
  lemma RowColumns(s: StudentScore)
    requires ',' !in s.name && ',' !in s.course
    ensures Split(Line(Row(s)), ',') == Row(s)
  {
    RowFreeOf(s, ',');
    assert "," == [','];
    SplitJoin(Row(s), ',');
  }

  /** As long as no name or course holds a comma or a line break, every line
      splits back into exactly its five cells: the header's titles, or a
      student's name, course and three numbers. */
  lemma CsvColumns(scores: seq<StudentScore>, k: nat)
    requires FreeOf(scores, '\n') && FreeOf(scores, ',')
    requires k <= |scores|
    ensures |Split(CsvContent(scores), '\n')| == |scores| + 1
    ensures |Split(Split(CsvContent(scores), '\n')[k], ',')| == |Header|
    ensures k == 0 ==> Split(Split(CsvContent(scores), '\n')[k], ',') == Header
    ensures k > 0 ==> Split(Split(CsvContent(scores), '\n')[k], ',') == Row(scores[k - 1])
  {
    CsvLines(scores);
    if k == 0 {
      HeaderColumns();
    } else {
      RowColumns(scores[k - 1]);
    }
  }

  /** A name or a course with a comma in it is not escaped, so that
      student's line splits into more than five columns. */
  lemma CommaShiftsColumns(s: StudentScore)
    requires ',' in s.name || ',' in s.course
    ensures |Split(Line(Row(s)), ',')| > |Header|
  {
    SplitCount(Line(Row(s)), ',');
    CountCharJoin(Row(s), ',');
    if ',' in s.name {
      CountInAllPositive(Row(s), ',', 0);
    } else {
      CountInAllPositive(Row(s), ',', 1);
    }
  }

  /** The badge for an improvement. */
  datatype ImprovementBadge = VeryGood | Good | Fair | NeedsWork

  /** The badge's text. */
  function BadgeText(b: ImprovementBadge): string {
    match b
    case VeryGood => "ดีมาก"
    case Good => "ดี"
    case Fair => "ปานกลาง"
    case NeedsWork => "ต้องปรับปรุง"
  }

  /** The badges from the lowest to the highest. */
  function Level(b: ImprovementBadge): nat {
    match b
    case NeedsWork => 0
    case Fair => 1
    case Good => 2
    case VeryGood => 3
  }

  /** `getImprovementBadge`: 20 and up is very good, 10 and up good, 5 and up
      fair, and anything lower needs work. */
  function BadgeFor(improvement: int): (b: ImprovementBadge)
    ensures b == VeryGood <==> improvement >= 20
    ensures b == Good <==> 10 <= improvement < 20
    ensures b == Fair <==> 5 <= improvement < 10
    ensures b == NeedsWork <==> improvement < 5
  {
    if improvement >= 20 then VeryGood
    else if improvement >= 10 then Good
    else if improvement >= 5 then Fair
    else NeedsWork
  }

  /** A larger improvement never earns a lower badge. */
  lemma BadgeMonotone(a: int, b: int)
    requires a <= b
    ensures Level(BadgeFor(a)) <= Level(BadgeFor(b))
  {
  }
}
