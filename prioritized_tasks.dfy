/**
 * The smart task queue: each task gets a score from its priority (inverted
 * when the user's energy is "Low") plus an urgency bonus for a near or past
 * due date; the page filters the tasks by course and priority, ranks the
 * filtered tasks by score, recommends the first one, lists the distinct
 * courses and counts four statistics over all tasks.
 *
 * The current instant `now` is a parameter, fixed for one ranking.
 */
module PrioritizedTasks {
  import opened Wrappers
  import opened Seqs
  import opened Tasks
  import opened Ranking
  import TaskCard

  // ---------------------------------------------------------------- scoring

  /**
   * Priority weight: High 3, Medium 2, anything else 1; when the energy is
   * exactly "Low" the weight is recomputed with Low 3, Medium 2, anything
   * else (High included) 1.
   */
  function BaseScore(priority: string, energy: string): (s: int)
    ensures 1 <= s <= 3
    ensures energy != "Low" ==> (s == 3 <==> priority == "High") && (s == 2 <==> priority == "Medium")
    ensures energy == "Low" ==> (s == 3 <==> priority == "Low") && (s == 2 <==> priority == "Medium")
  {
    var normal := if priority == "High" then 3 else if priority == "Medium" then 2 else 1;
    if energy == "Low" then
      (if priority == "Low" then 3 else if priority == "Medium" then 2 else 1)
    else normal
  }

  /** `Math.max(0, 10 - Math.floor((due - now) / day))`. */
  function UrgencyBonus(dueDate: int, now: int): (b: int)
    ensures b >= 0
    ensures b == 0 <==> dueDate - now >= 10 * DayMs
    ensures IsOverdue(dueDate, now) ==> b > 10
    ensures now <= dueDate < now + DayMs ==> b == 10
  {
    var days := FloorDiv(dueDate - now, DayMs);
    if 10 - days > 0 then 10 - days else 0
  }

  /** A later due date never earns a larger bonus. */
  lemma UrgencyBonusAntitone(earlier: int, later: int, now: int)
    requires earlier <= later
    ensures UrgencyBonus(later, now) <= UrgencyBonus(earlier, now)
  {
    var f, g := FloorDiv(earlier - now, DayMs), FloorDiv(later - now, DayMs);
    assert DayMs * f < DayMs * (g + 1);
  }

  /** A task due `n` whole days ahead, `n` below 10, earns `10 - n`. */
  lemma BonusWithinTenDays(n: nat, r: int, now: int)
    requires n < 10 && 0 <= r < DayMs
    ensures UrgencyBonus(now + n * DayMs + r, now) == 10 - n
  {
    var days: int := n;
    assert FloorDiv(days * DayMs + r, DayMs) == days by {
      assert DayMs * days <= days * DayMs + r < DayMs * days + DayMs;
      var q := FloorDiv(days * DayMs + r, DayMs);
      if q < days {
        MulCancel(DayMs, q + 1, days + 1);
      } else if q > days {
        MulCancel(DayMs, days, q);
      }
    }
  }

  /** A task overdue by exactly `n` whole days earns `10 + n`. */
  lemma OverdueBonus(n: nat, now: int)
    ensures UrgencyBonus(now - n * DayMs, now) == 10 + n
  {
    var days: int := n;
    assert FloorDiv(-days * DayMs, DayMs) == -days;
  }

  /** The combined score the comparator computes for one task. */
  function Score(t: Task, energy: string, now: int): (s: int)
    ensures s >= 1
  {
    BaseScore(t.priority, energy) + UrgencyBonus(t.dueDate, now)
  }

  /** Tasks with the same due date are ranked by priority weight alone. */
  lemma SameDueScoreOrder(a: Task, b: Task, energy: string, now: int)
    requires a.dueDate == b.dueDate
    ensures Score(a, energy, now) > Score(b, energy, now)
            <==> BaseScore(a.priority, energy) > BaseScore(b.priority, energy)
  {
  }

  // ---------------------------------------------------------------- ranking

  /** The comparator's key: the combined score at this energy and instant. */
  function ScoreOf(energy: string, now: int): Task -> int
  {
    (t: Task) => Score(t, energy, now)
  }

  /**
   * With equal due dates, a task of larger priority weight is ranked ahead:
   * High before Medium before Low unless the energy is "Low", and Low before
   * Medium before High when it is. This holds in any list sorted by score,
   * the ranking and the queue included.
   */
  lemma PriorityOrderAtEqualDue(energy: string, now: int, r: seq<Task>, i: int, j: int)
    requires Sorted(r, ScoreOf(energy, now))
    requires 0 <= i < |r| && 0 <= j < |r|
    requires r[i].dueDate == r[j].dueDate
    requires energy != "Low" ==>
      (r[i].priority == "High" && r[j].priority == "Medium") || (r[i].priority == "Medium" && r[j].priority == "Low") ||
      (r[i].priority == "High" && r[j].priority == "Low")
    requires energy == "Low" ==>
      (r[i].priority == "Low" && r[j].priority == "Medium") || (r[i].priority == "Medium" && r[j].priority == "High") ||
      (r[i].priority == "Low" && r[j].priority == "High")
    ensures i < j
  {
    SameDueScoreOrder(r[i], r[j], energy, now);
    LargerKeyComesFirst(r, ScoreOf(energy, now), i, j);
  }

  // -------------------------------------------------------------- filtering

  /**
   * A task passes when each filter is empty ("All") or equals the task's
   * field exactly.
   */
  predicate Matches(t: Task, courseFilter: string, priorityFilter: string)
  {
    (courseFilter == "" || t.course == courseFilter) &&
    (priorityFilter == "" || t.priority == priorityFilter)
  }

  /** `tasks.filter(t => (!courseFilter || ...) && (!priorityFilter || ...))`. */
  function FilterTasks(tasks: seq<Task>, courseFilter: string, priorityFilter: string): (r: seq<Task>)
    ensures IsSubsequence(r, tasks)
    ensures forall t :: t in r ==> t in tasks
    ensures forall t :: t in r && courseFilter != "" ==> t.course == courseFilter
    ensures forall t :: t in r && priorityFilter != "" ==> t.priority == priorityFilter
    ensures forall t :: t in tasks && Matches(t, courseFilter, priorityFilter) ==> t in r
    ensures forall t :: t in tasks ==> multiset(r)[t] == if Matches(t, courseFilter, priorityFilter) then multiset(tasks)[t] else 0
    ensures courseFilter == "" && priorityFilter == "" ==> r == tasks
  {
    var p := (t: Task) => Matches(t, courseFilter, priorityFilter);
    FilterMembers(tasks, p);
    FilterSubsequence(tasks, p);
    FilterMultiplicity(tasks, p);
    if courseFilter == "" && priorityFilter == "" then
      FilterKeepsAll(tasks, p);
      Filter(tasks, p)
    else Filter(tasks, p)
  }

  /** The ranked tasks the page shows: filter first, then rank by score. */
  function Queue(tasks: seq<Task>, courseFilter: string, priorityFilter: string, energy: string, now: int): (r: seq<Task>)
    ensures Sorted(r, ScoreOf(energy, now))
    ensures multiset(r) == multiset(FilterTasks(tasks, courseFilter, priorityFilter))
    ensures forall t :: t in r <==> t in tasks && Matches(t, courseFilter, priorityFilter)
  {
    var filtered := FilterTasks(tasks, courseFilter, priorityFilter);
    var r := Rank(filtered, ScoreOf(energy, now));
    assert forall t :: t in r <==> t in filtered by {
      forall t ensures t in r <==> t in filtered {
        assert t in r <==> t in multiset(r);
        assert t in filtered <==> t in multiset(filtered);
      }
    }
    r
  }

  /**
   * `sortedTasks.length > 0 ? sortedTasks[0] : null`: the recommendation is
   * absent exactly when no task passes the filters, and otherwise a filtered
   * task whose score no filtered task exceeds.
   */
  function NextTask(filtered: seq<Task>, energy: string, now: int): (r: Option<Task>)
    ensures r.None? <==> filtered == []
    ensures r.Some? ==> r.value in filtered
    ensures r.Some? ==> forall t :: t in filtered ==> Score(t, energy, now) <= Score(r.value, energy, now)
  {
    var sorted := Rank(filtered, ScoreOf(energy, now));
    if |sorted| > 0 then
      assert sorted[0] in multiset(filtered);
      HeadIsFirstOfTopKey(filtered, ScoreOf(energy, now));
      Some(sorted[0])
    else None
  }

  /**
   * Among the filtered tasks of the top score, the recommendation is the one
   * that comes first in the input: every earlier task scores strictly less.
   */
  lemma NextTaskIsFirstOfBest(filtered: seq<Task>, energy: string, now: int)
    requires filtered != []
    ensures exists i :: 0 <= i < |filtered| && filtered[i] == NextTask(filtered, energy, now).value &&
              forall j :: 0 <= j < i ==> Score(filtered[j], energy, now) < Score(filtered[i], energy, now)
  {
    HeadIsFirstOfTopKey(filtered, ScoreOf(energy, now));
  }

  /** A course filter that no task has leaves nothing to rank or recommend. */
  lemma UnknownCourseEmptiesQueue(tasks: seq<Task>, course: string, priorityFilter: string, energy: string, now: int)
    requires course != ""
    requires forall t :: t in tasks ==> t.course != course
    ensures Queue(tasks, course, priorityFilter, energy, now) == []
    ensures NextTask(FilterTasks(tasks, course, priorityFilter), energy, now).None?
  {
  }

  // --------------------------------------------------- courses and statistics

  /** `tasks.map(t => t.course)`. */
  function CourseLabels(tasks: seq<Task>): (r: seq<string>)
    ensures |r| == |tasks|
    ensures forall i :: 0 <= i < |tasks| ==> r[i] == tasks[i].course
  {
    if tasks == [] then [] else [tasks[0].course] + CourseLabels(tasks[1..])
  }

  /**
   * `Array.from(new Set(tasks.map(t => t.course)))`: each course label once,
   * every task's course present, in order of appearance.
   */
  function Courses(tasks: seq<Task>): (r: seq<string>)
    ensures NoDuplicates(r)
    ensures forall t :: t in tasks ==> t.course in r
    ensures forall c :: c in r ==> exists t :: t in tasks && t.course == c
    ensures IsSubsequence(r, CourseLabels(tasks))
  {
    var labels := CourseLabels(tasks);
    assert forall t :: t in tasks ==> t.course in labels by {
      forall t | t in tasks ensures t.course in labels {
        var i :| 0 <= i < |tasks| && tasks[i] == t;
        assert labels[i] == t.course;
      }
    }
    assert forall c :: c in labels ==> exists t :: t in tasks && t.course == c by {
      forall c | c in labels ensures exists t :: t in tasks && t.course == c {
        var i :| 0 <= i < |labels| && labels[i] == c;
        assert tasks[i] in tasks;
      }
    }
    Distinct(labels, {})
  }

  /**
   * A task appended to the list adds its course at the end of the course
   * list exactly when no earlier task has that course: courses are listed in
   * order of first appearance.
   */
  lemma CoursesAppend(tasks: seq<Task>, t: Task)
    ensures Courses(tasks + [t]) ==
            Courses(tasks) + (if exists u :: u in tasks && u.course == t.course then [] else [t.course])
  {
    var labels := CourseLabels(tasks);
    assert CourseLabels(tasks + [t]) == labels + [t.course];
    assert (exists u :: u in tasks && u.course == t.course) <==> t.course in labels by {
      if t.course in labels {
        var i :| 0 <= i < |labels| && labels[i] == t.course;
        assert tasks[i] in tasks;
      }
      if u :| u in tasks && u.course == t.course {
        var i :| 0 <= i < |tasks| && tasks[i] == u;
        assert labels[i] == t.course;
      }
    }
    DistinctSnoc(labels, t.course, {});
  }

  /** The four counters on the statistics cards. */
  datatype Stats = Stats(total: nat, completed: nat, overdue: nat, urgent: nat)

  /** `t.progress === 100`. */
  predicate IsCompleted(t: Task)
  {
    t.progress == Defined(100)
  }

  /** `new Date(t.dueDate) < new Date()`. */
  function OverdueAt(now: int): Task -> bool
  {
    (t: Task) => IsOverdue(t.dueDate, now)
  }

  /** `t.priority === "High"`. */
  predicate IsUrgent(t: Task)
  {
    t.priority == "High"
  }

  /**
   * The statistics over the unfiltered task list: each counter is the length
   * of a filter, never above the total, and zero exactly when no task has
   * the counted property.
   */
  function ComputeStats(tasks: seq<Task>, now: int): (st: Stats)
    ensures st.total == |tasks|
    ensures st.completed <= st.total && st.overdue <= st.total && st.urgent <= st.total
    ensures st.completed == 0 <==> forall t :: t in tasks ==> !IsCompleted(t)
    ensures st.overdue == 0 <==> forall t :: t in tasks ==> !IsOverdue(t.dueDate, now)
    ensures st.urgent == 0 <==> forall t :: t in tasks ==> !IsUrgent(t)
  {
    var completed := Filter(tasks, IsCompleted);
    var overdue := Filter(tasks, OverdueAt(now));
    var urgent := Filter(tasks, IsUrgent);
    FilterMembers(tasks, IsCompleted);
    FilterMembers(tasks, OverdueAt(now));
    FilterMembers(tasks, IsUrgent);
    assert completed != [] ==> completed[0] in completed;
    assert overdue != [] ==> overdue[0] in overdue;
    assert urgent != [] ==> urgent[0] in urgent;
    Stats(|tasks|, |completed|, |overdue|, |urgent|)
  }

  /** Statistics of a concatenation are the sums of the parts' statistics. */
  lemma StatsAppend(a: seq<Task>, b: seq<Task>, now: int)
    ensures ComputeStats(a + b, now).total == ComputeStats(a, now).total + ComputeStats(b, now).total
    ensures ComputeStats(a + b, now).completed == ComputeStats(a, now).completed + ComputeStats(b, now).completed
    ensures ComputeStats(a + b, now).overdue == ComputeStats(a, now).overdue + ComputeStats(b, now).overdue
    ensures ComputeStats(a + b, now).urgent == ComputeStats(a, now).urgent + ComputeStats(b, now).urgent
  {
    FilterAppend(a, b, IsCompleted);
    FilterAppend(a, b, OverdueAt(now));
    FilterAppend(a, b, IsUrgent);
  }

  /** Completed and not-completed tasks together make up the total. */
  lemma CompletedAndOpenMakeTotal(tasks: seq<Task>, now: int)
    ensures ComputeStats(tasks, now).completed + |Filter(tasks, Not(IsCompleted))| == ComputeStats(tasks, now).total
  {
    FilterComplement(tasks, IsCompleted);
  }

  // ------------------------------------------------------------ task cards

  /**
   * The queue's cards, `<TaskCard task={task} showActions={true} />` for each
   * ranked task: actions are switched on but no handler is passed, so no
   * edit, delete or completion control ever appears.
   */
  function QueueCards(ranked: seq<Task>, now: int): (cards: seq<TaskCard.CardView>)
    ensures |cards| == |ranked|
    ensures forall i :: 0 <= i < |ranked| ==> cards[i] == TaskCard.RenderCard(ranked[i], now, true, false, false, false)
    ensures forall i :: 0 <= i < |cards| ==> !cards[i].showEdit && !cards[i].showDelete && !cards[i].showToggle
  {
    if ranked == [] then []
    else [TaskCard.RenderCard(ranked[0], now, true, false, false, false)] + QueueCards(ranked[1..], now)
  }

  /** The card carries the Overdue badge. */
  predicate ShowsOverdue(card: TaskCard.CardView)
  {
    card.overdueBadge
  }

  lemma {:induction false} OverdueCardsCount(ranked: seq<Task>, now: int)
    ensures |Filter(QueueCards(ranked, now), ShowsOverdue)| == |Filter(ranked, OverdueAt(now))|
  {
    if ranked != [] {
      OverdueCardsCount(ranked[1..], now);
      assert QueueCards(ranked, now)[1..] == QueueCards(ranked[1..], now);
    }
  }

  /**
   * With no filter chosen, the Overdue statistic equals the number of cards
   * in the queue that show the Overdue badge.
   */
  lemma OverdueStatMatchesBadges(tasks: seq<Task>, energy: string, now: int)
    ensures |Filter(QueueCards(Queue(tasks, "", "", energy, now), now), ShowsOverdue)| == ComputeStats(tasks, now).overdue
  {
    var ranked := Queue(tasks, "", "", energy, now);
    OverdueCardsCount(ranked, now);
    FilterCountPermutation(ranked, tasks, OverdueAt(now));
  }
}
