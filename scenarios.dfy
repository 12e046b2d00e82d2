/**
 * Concrete runs of the queue: the two-task example of the ranking's design,
 * the five fallback tasks the page shows when the backend is unreachable,
 * and a small statistics example. Dates are UTC midnights in milliseconds.
 */
module Scenarios {
  import opened Wrappers
  import opened Tasks
  import Seqs
  import opened PrioritizedTasks

  /** 2025-07-30T00:00Z. */
  const July30: int := 1753833600000

  function Plain(id: string, priority: string, dueDate: int): Task
  {
    Task(id, "", "", dueDate, priority, None, Undefined, None, None)
  }

  /** A High task due in five days. */
  const FarHigh: Task := Plain("1", "High", July30 + 5 * DayMs)

  /** A Low task due right now. */
  const DueLow: Task := Plain("2", "Low", July30)

  /**
   * At Medium energy the Low task due now scores 1 + 10 = 11 against the
   * High task's 3 + 5 = 8, and is ranked first.
   */
  lemma NearDeadlineBeatsPriorityAtMediumEnergy()
    ensures Score(FarHigh, "Medium", July30) == 8
    ensures Score(DueLow, "Medium", July30) == 11
    ensures Queue([FarHigh, DueLow], "", "", "Medium", July30) == [DueLow, FarHigh]
  {
    assert FloorDiv(5 * DayMs, DayMs) == 5;
    assert FloorDiv(0, DayMs) == 0;
  }

  /**
   * At Low energy the weights invert: the Low task scores 3 + 10 = 13
   * against 1 + 5 = 6 and is still ranked first.
   */
  lemma NearDeadlineBeatsPriorityAtLowEnergy()
    ensures Score(FarHigh, "Low", July30) == 6
    ensures Score(DueLow, "Low", July30) == 13
    ensures Queue([FarHigh, DueLow], "", "", "Low", July30) == [DueLow, FarHigh]
  {
    assert FloorDiv(5 * DayMs, DayMs) == 5;
    assert FloorDiv(0, DayMs) == 0;
  }

  function Fixture(id: string, title: string, course: string, dueDate: int, priority: string,
                   description: string, progress: int, tags: seq<string>): Task
  {
    Task(id, title, course, dueDate, priority, Some(description), Defined(progress), Some(tags), None)
  }

  const ReadChapter: Task := Fixture("1", "Read Chapter 5", "Math", 1754006400000, "High",
    "Review advanced calculus concepts and practice problems", 60, ["homework", "calculus"])
  const EssayDraft: Task := Fixture("2", "Essay Draft", "English", 1754179200000, "Medium",
    "Write first draft of research essay on climate change", 30, ["writing", "research"])
  const LabReport: Task := Fixture("3", "Lab Report", "Science", 1754092800000, "Low",
    "Complete chemistry lab analysis and conclusions", 85, ["lab", "chemistry"])
  const GroupProject: Task := Fixture("4", "Group Project Presentation", "History", 1753920000000, "High",
    "Prepare slides for World War II presentation", 0, ["presentation", "group-work"])
  const Midterm: Task := Fixture("5", "Study for Midterm", "Physics", 1754352000000, "Medium",
    "Review mechanics and thermodynamics", 45, ["exam", "study"])

  /** The fallback task list, in the page's order. */
  const FallbackTasks: seq<Task> := [ReadChapter, EssayDraft, LabReport, GroupProject, Midterm]

  /** Whole days from 2025-07-30 to each fallback due date. */
  lemma FallbackDays()
    ensures FloorDiv(ReadChapter.dueDate - July30, DayMs) == 2
    ensures FloorDiv(EssayDraft.dueDate - July30, DayMs) == 4
    ensures FloorDiv(LabReport.dueDate - July30, DayMs) == 3
    ensures FloorDiv(GroupProject.dueDate - July30, DayMs) == 1
    ensures FloorDiv(Midterm.dueDate - July30, DayMs) == 6
  {
  }

  /** The suffixes that insertion sort and the filter recursion walk through. */
  lemma FallbackSuffixes()
    ensures FallbackTasks[1..] == [EssayDraft, LabReport, GroupProject, Midterm]
    ensures FallbackTasks[2..] == [LabReport, GroupProject, Midterm]
    ensures FallbackTasks[3..] == [GroupProject, Midterm]
    ensures FallbackTasks[4..] == [Midterm]
  {
  }

  lemma MediumScores()
    ensures Score(ReadChapter, "Medium", July30) == 11
    ensures Score(EssayDraft, "Medium", July30) == 8
    ensures Score(LabReport, "Medium", July30) == 8
    ensures Score(GroupProject, "Medium", July30) == 12
    ensures Score(Midterm, "Medium", July30) == 6
  {
    FallbackDays();
  }

  lemma LowScores()
    ensures Score(ReadChapter, "Low", July30) == 9
    ensures Score(EssayDraft, "Low", July30) == 8
    ensures Score(LabReport, "Low", July30) == 10
    ensures Score(GroupProject, "Low", July30) == 10
    ensures Score(Midterm, "Low", July30) == 6
  {
    FallbackDays();
  }

  /** The course labels of the fallback tasks, in list order. */
  lemma FallbackCourseLabels()
    ensures CourseLabels(FallbackTasks) == ["Math", "English", "Science", "History", "Physics"]
  {
    FallbackSuffixes();
  }

  /** Five different labels survive de-duplication unchanged. */
  lemma FiveDistinctLabels()
    ensures Seqs.Distinct(["Math", "English", "Science", "History", "Physics"], {})
            == ["Math", "English", "Science", "History", "Physics"]
  {
    Seqs.DistinctKeepsFresh(["Math", "English", "Science", "History", "Physics"], {});
  }

  /** The course filter offers the five fallback courses in the order of the tasks. */
  lemma FallbackCourses()
    ensures Courses(FallbackTasks) == ["Math", "English", "Science", "History", "Physics"]
  {
    FallbackCourseLabels();
    FiveDistinctLabels();
  }

  /** None of the fallback tasks is complete or overdue yet; two are urgent. */
  lemma FallbackStats()
    ensures ComputeStats(FallbackTasks, July30) == Stats(5, 0, 0, 2)
  {
    forall t | t in FallbackTasks ensures !IsCompleted(t) && !IsOverdue(t.dueDate, July30) {
    }
    FallbackSuffixes();
    assert Seqs.Filter(FallbackTasks[4..], IsUrgent) == [];
    assert Seqs.Filter(FallbackTasks[3..], IsUrgent) == [GroupProject];
    assert Seqs.Filter(FallbackTasks[2..], IsUrgent) == [GroupProject];
    assert Seqs.Filter(FallbackTasks[1..], IsUrgent) == [GroupProject];
  }

  /** Progress values 100, 50 and 100 make two completed tasks. */
  lemma TwoOfThreeCompleted()
    ensures ComputeStats([Task("a", "", "", 0, "", None, Defined(100), None, None),
                          Task("b", "", "", 0, "", None, Defined(50), None, None),
                          Task("c", "", "", 0, "", None, Defined(100), None, None)], 0).completed == 2
  {
  }
}
