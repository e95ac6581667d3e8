/**
 * The grade distribution shown by the `stats` route: a count per grade
 * label present in the `students` table (pandas `value_counts`), or an
 * empty map when the table is empty.
 */
module StudentStats {
  import opened Grading

  /** The `students` table, keyed by row id. */
  type Table = map<int, Student>

  /** The ids of the rows carrying grade `g`. */
  function RowsWithGrade(table: Table, g: string): set<int>
  {
    set id | id in table && table[id].grade == g
  }

  /** The distinct grades that occur in the table. */
  function GradesPresent(table: Table): set<string>
  {
    set id | id in table :: table[id].grade
  }

  /**
   * The `grade_counts` map of the `stats` route: one entry per grade that
   * occurs, holding the number of rows with that grade.
   */
  function GradeCounts(table: Table): (counts: map<string, nat>)
    ensures |table| == 0 ==> counts == map[]
    ensures counts.Keys == GradesPresent(table)
    ensures forall g | g in counts :: counts[g] == |RowsWithGrade(table, g)| > 0
  {
    if |table| == 0 then map[]
    else
      PresentGradesOccur(table);
      map g | g in GradesPresent(table) :: |RowsWithGrade(table, g)|
  }

  /** Every grade that occurs is carried by at least one row. */
  lemma PresentGradesOccur(table: Table)
    ensures forall g | g in GradesPresent(table) :: |RowsWithGrade(table, g)| > 0
  {
    forall g | g in GradesPresent(table)
      ensures |RowsWithGrade(table, g)| > 0
    {
      var id :| id in table && table[id].grade == g;
      assert id in RowsWithGrade(table, g);
    }
  }

  /** A grade that does not occur is carried by no row. */
  lemma AbsentGradeHasNoRows(table: Table, g: string)
    requires g !in GradesPresent(table)
    ensures RowsWithGrade(table, g) == {}
  {
    forall id | id in RowsWithGrade(table, g)
      ensures false
    {
    }
  }

  /** The count recorded for `g`, zero when `g` is absent. */
  function CountOf(counts: map<string, nat>, g: string): nat
  {
    if g in counts then counts[g] else 0
  }

  /** The sum of the counts of the four labels. */
  function Tally(counts: map<string, nat>): nat
  {
    CountOf(counts, GradeA) + CountOf(counts, GradeB) + CountOf(counts, GradeC) + CountOf(counts, GradeF)
  }

  /**
   * When every row carries one of the four labels, the rows split into
   * four disjoint groups, one per label, whose sizes add up to the table's.
   */
  lemma {:induction false} RowsPartitionByLabel(table: Table)
    requires forall id | id in table :: table[id].grade in Labels
    ensures |RowsWithGrade(table, GradeA)| + |RowsWithGrade(table, GradeB)|
          + |RowsWithGrade(table, GradeC)| + |RowsWithGrade(table, GradeF)| == |table|
  {
    var a, b := RowsWithGrade(table, GradeA), RowsWithGrade(table, GradeB);
    var c, f := RowsWithGrade(table, GradeC), RowsWithGrade(table, GradeF);
    forall id | id in table.Keys
      ensures id in a + b + c + f
    {
      assert table[id].grade in Labels;
    }
    assert table.Keys == a + b + c + f;
    assert a !! b;
    assert |a + b| == |a| + |b|;
    assert (a + b) !! c;
    assert |a + b + c| == |a + b| + |c|;
    assert (a + b + c) !! f;
    assert |a + b + c + f| == |a + b + c| + |f|;
    assert |table.Keys| == |table|;
  }

  /**
   * When every row carries one of the four labels (as every row written by
   * insert or update does), the counts mention only those labels and add
   * up to the number of rows; so they are empty exactly when the table is.
   */
  lemma {:induction false} CountsSumToRows(table: Table)
    requires forall id | id in table :: table[id].grade in Labels
    ensures GradeCounts(table).Keys <= Labels
    ensures Tally(GradeCounts(table)) == |table|
    ensures GradeCounts(table) == map[] <==> |table| == 0
  {
    var counts := GradeCounts(table);
    forall g | g in Labels
      ensures CountOf(counts, g) == |RowsWithGrade(table, g)|
    {
      if g !in counts {
        AbsentGradeHasNoRows(table, g);
      }
    }
    RowsPartitionByLabel(table);
  }
}
