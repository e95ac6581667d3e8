/**
 * The grade calculator and the derived fields of a student row
 * (`calculate_grade`, and the arithmetic shared by `insert_student` and
 * `update_student` in app.py). Scores and percentages are exact reals.
 */
module Grading {

  const GradeA: string := "A, First Class Distinction"
  const GradeB: string := "B, Distinction"
  const GradeC: string := "C, Pass"
  const GradeF: string := "F, Failed"

  /** The four labels the calculator can produce. */
  const Labels: set<string> := {GradeA, GradeB, GradeC, GradeF}

  /**
   * Maps a percentage to a label through inclusive lower bounds 90, 75
   * and 50. Total on every real: no clamping, no validation.
   */
  function CalculateGrade(percentage: real): (g: string)
    ensures g in Labels
    ensures g == GradeA <==> percentage >= 90.0
    ensures g == GradeB <==> 75.0 <= percentage < 90.0
    ensures g == GradeC <==> 50.0 <= percentage < 75.0
    ensures g == GradeF <==> percentage < 50.0
  {
    if percentage >= 90.0 then GradeA
    else if percentage >= 75.0 then GradeB
    else if percentage >= 50.0 then GradeC
    else GradeF
  }

  /** Position of a label in the order F < C < B < A. */
  function Rank(g: string): nat
  {
    if g == GradeA then 3
    else if g == GradeB then 2
    else if g == GradeC then 1
    else 0
  }

  /** A higher percentage never earns a lower grade. */
  lemma GradeMonotone(p: real, q: real)
    requires p <= q
    ensures Rank(CalculateGrade(p)) <= Rank(CalculateGrade(q))
  {
  }

  /** A row of the `students` table, without its id (the table's key). */
  datatype Student = Student(
    name: string,
    math: real,
    science: real,
    english: real,
    total: real,
    percentage: real,
    grade: string)

  /**
   * The derived-field invariant of a row: the total is the sum of the
   * three scores, the percentage is the total out of 300 marks and the
   * grade is the calculator's label for that percentage.
   */
  predicate Consistent(s: Student)
  {
    && s.total == s.math + s.science + s.english
    && s.percentage == s.total / 300.0 * 100.0
    && s.grade == CalculateGrade(s.percentage)
  }

  /** The row `insert_student` writes for a name and three scores. */
  function Scored(name: string, math: real, science: real, english: real): (r: Student)
    ensures Consistent(r)
    ensures r.name == name && r.math == math && r.science == science && r.english == english
    ensures r.percentage * 3.0 == math + science + english
    ensures r.grade == GradeA <==> math + science + english >= 270.0
    ensures r.grade == GradeB <==> 225.0 <= math + science + english < 270.0
    ensures r.grade == GradeC <==> 150.0 <= math + science + english < 225.0
    ensures r.grade == GradeF <==> math + science + english < 150.0
  {
    var total := math + science + english;
    var percentage := total / 300.0 * 100.0;
    Student(name, math, science, english, total, percentage, CalculateGrade(percentage))
  }

  /**
   * The row `update_student` leaves behind: new scores and derived
   * fields, the old name.
   */
  function Rescored(s: Student, math: real, science: real, english: real): (r: Student)
    ensures Consistent(r)
    ensures r.name == s.name
    ensures r.math == math && r.science == science && r.english == english
    ensures r == Scored(s.name, math, science, english)
  {
    s.(math := math, science := science, english := english,
       total := math + science + english,
       percentage := (math + science + english) / 300.0 * 100.0,
       grade := CalculateGrade((math + science + english) / 300.0 * 100.0))
  }

  /** The insert example: scores 80, 90 and 70 give 240 marks, 80% and a B. */
  lemma AnnExample()
    ensures var r := Scored("Ann", 80.0, 90.0, 70.0);
            r.total == 240.0 && r.percentage == 80.0 && r.grade == GradeB
  {
  }
}
