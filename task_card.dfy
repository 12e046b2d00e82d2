/**
 * What a task card shows, as a function of the task, the current instant and
 * the props the parent passes: the priority style, the Overdue badge, the
 * tone of the due-date badge, the relative-day label and the optional
 * sections. Only the choices are modelled, not the markup.
 */
module TaskCard {
  import opened Wrappers
  import opened Tasks

  /** The three entries of the priority style table. */
  datatype PriorityStyle = HighStyle | MediumStyle | LowStyle

  /** Tone of the due-date badge. */
  datatype Tone = Danger | Warning | Neutral

  /** The parenthesised relative label after the due date. */
  datatype DayLabel = Today | Tomorrow | InDays(days: int)

  /** Everything the card decides to render. */
  datatype CardView = CardView(
    style: PriorityStyle,
    overdueBadge: bool,
    dueTone: Tone,
    dueLabel: Option<DayLabel>,
    showDescription: bool,
    showProgress: bool,
    showTags: bool,
    showEdit: bool,
    showDelete: bool,
    showToggle: bool,
    toggleChecked: bool)

  /**
   * `priorityStyles[task.priority] || priorityStyles.Medium`: a priority
   * that is not one of the table's keys falls back to the Medium style.
   */
  function StyleFor(priority: string): (k: PriorityStyle)
    ensures k == HighStyle <==> priority == "High"
    ensures k == LowStyle <==> priority == "Low"
    ensures priority != "High" && priority != "Low" ==> k == MediumStyle
  {
    if priority == "High" then HighStyle
    else if priority == "Medium" then MediumStyle
    else if priority == "Low" then LowStyle
    else MediumStyle
  }

  /**
   * `Math.ceil((due - now) / day)`: the number of day-long steps from `now`
   * that first reaches the due instant.
   */
  function DaysUntilDue(dueDate: int, now: int): (n: int)
    ensures (n - 1) * DayMs < dueDate - now <= n * DayMs
  {
    CeilDiv(dueDate - now, DayMs)
  }

  /**
   * Class of the due-date badge: danger when overdue, otherwise warning when
   * at most three (rounded-up) days remain, otherwise neutral.
   */
  function DueTone(dueDate: int, now: int): (t: Tone)
    ensures t == Danger <==> IsOverdue(dueDate, now)
    ensures t == Warning <==> now <= dueDate <= now + 3 * DayMs
    ensures t == Neutral <==> dueDate > now + 3 * DayMs
  {
    if IsOverdue(dueDate, now) then Danger
    else if DaysUntilDue(dueDate, now) <= 3 then Warning
    else Neutral
  }

  /**
   * The relative label, shown when `!isOverdue && daysUntilDue >= 0`:
   * 0 reads "Today", 1 reads "Tomorrow", any other count "n days".
   */
  function DueLabel(dueDate: int, now: int): (l: Option<DayLabel>)
    ensures l.None? <==> IsOverdue(dueDate, now)
    ensures l == Some(Today) <==> dueDate == now
    ensures l == Some(Tomorrow) <==> now < dueDate <= now + DayMs
    ensures l.Some? && l.value.InDays? <==> dueDate > now + DayMs
    ensures l.Some? && l.value.InDays? ==> l.value.days >= 2
    ensures l.Some? && l.value.InDays? ==> l.value.days == DaysUntilDue(dueDate, now)
  {
    var days := DaysUntilDue(dueDate, now);
    if !IsOverdue(dueDate, now) && days >= 0 then
      Some(if days == 0 then Today else if days == 1 then Tomorrow else InDays(days))
    else None
  }

  /** The `daysUntilDue >= 0` half of the label's guard never excludes anything. */
  lemma NotOverdueHasDaysLeft(dueDate: int, now: int)
    requires !IsOverdue(dueDate, now)
    ensures DaysUntilDue(dueDate, now) >= 0
  {
    assert (DaysUntilDue(dueDate, now) - 1) * DayMs < dueDate - now;
  }

  /**
   * A task that is due but not yet due to the millisecond counts as one day
   * away on the card, while the queue's score counts whole days down:
   * anything within the coming day reads "Tomorrow" on the card and day 0 in
   * the urgency bonus.
   */
  lemma CardRoundsUpWhereQueueRoundsDown(dueDate: int, now: int)
    requires now < dueDate < now + DayMs
    ensures DaysUntilDue(dueDate, now) == 1
    ensures FloorDiv(dueDate - now, DayMs) == 0
    ensures DueLabel(dueDate, now) == Some(Tomorrow)
  {
    CeilFloorGap(dueDate - now, DayMs);
  }

  /**
   * The card for `task`. `showActions` and the presence of the `onEdit`,
   * `onDelete` and `onToggleComplete` handlers are the parent's props.
   */
  function RenderCard(task: Task, now: int, showActions: bool, hasOnEdit: bool,
                      hasOnDelete: bool, hasOnToggle: bool): (v: CardView)
    ensures v.style == StyleFor(task.priority)
    ensures v.overdueBadge <==> IsOverdue(task.dueDate, now)
    ensures v.overdueBadge <==> v.dueTone == Danger
    ensures v.overdueBadge <==> v.dueLabel.None?
    ensures v.dueTone == DueTone(task.dueDate, now)
    ensures v.dueLabel == DueLabel(task.dueDate, now)
    ensures v.showDescription <==> task.description.Some? && task.description.value != ""
    ensures v.showProgress <==> !task.progress.Undefined?
    ensures task.progress == Null ==> v.showProgress
    ensures v.showTags <==> task.tags.Some? && |task.tags.value| > 0
    ensures v.showEdit <==> showActions && hasOnEdit
    ensures v.showDelete <==> showActions && hasOnDelete
    ensures v.showToggle <==> hasOnToggle
    ensures v.toggleChecked <==> task.completed == Some(true)
  {
    CardView(
      style := StyleFor(task.priority),
      overdueBadge := IsOverdue(task.dueDate, now),
      dueTone := DueTone(task.dueDate, now),
      dueLabel := DueLabel(task.dueDate, now),
      showDescription := task.description.Some? && task.description.value != "",
      showProgress := !task.progress.Undefined?,
      showTags := task.tags.Some? && |task.tags.value| > 0,
      showEdit := showActions && hasOnEdit,
      showDelete := showActions && hasOnDelete,
      showToggle := hasOnToggle,
      toggleChecked := task.completed == Some(true))
  }
}
