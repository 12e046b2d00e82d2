/**
 * The task record the pages pass around, and the millisecond date arithmetic
 * they share. A due date is an instant in integer milliseconds since the
 * epoch, as `new Date(task.dueDate)` yields once the calendar string is parsed.
 */
module Tasks {
  import opened Wrappers

  /** One day, `1000 * 60 * 60 * 24` milliseconds. */
  const DayMs: int := 86400000

  /**
   * A document field JavaScript can see as missing (`undefined`), as `null`,
   * or as a value; the task card tells the first two apart.
   */
  datatype Field<T> = Undefined | Null | Defined(value: T)

  /**
   * A task document. `priority` is the raw string from the store: the pages
   * compare it against "High", "Medium" and "Low" and treat anything else
   * as a fourth, unnamed case. Optional fields are `None` when absent or null;
   * `progress` keeps `null` apart from a missing field.
   */
  datatype Task = Task(
    id: string,
    title: string,
    course: string,
    dueDate: int,
    priority: string,
    description: Option<string>,
    progress: Field<int>,
    tags: Option<seq<string>>,
    completed: Option<bool>)

  /** `Math.floor(a / d)` for a positive divisor: the largest q with d*q <= a. */
  function FloorDiv(a: int, d: int): (q: int)
    requires d > 0
    ensures d * q <= a < d * q + d
  {
    a / d
  }

  /** `Math.ceil(a / d)` for a positive divisor: the smallest q with a <= d*q. */
  function CeilDiv(a: int, d: int): (q: int)
    requires d > 0
    ensures d * q - d < a <= d * q
  {
    -((-a) / d)
  }

  /**
   * Ceiling and floor of the same quotient agree exactly on multiples of the
   * divisor and differ by one everywhere else.
   */
  lemma CeilFloorGap(a: int, d: int)
    requires d > 0
    ensures a % d == 0 ==> CeilDiv(a, d) == FloorDiv(a, d)
    ensures a % d != 0 ==> CeilDiv(a, d) == FloorDiv(a, d) + 1
  {
    var c, f := CeilDiv(a, d), FloorDiv(a, d);
    assert a == d * f + a % d;
    MulCancel(d, f, c + 1);
    MulCancel(d, c - 1, f + 1);
    if a % d == 0 {
      MulCancel(d, c - 1, f);
    } else {
      MulCancel(d, f, c);
    }
  }

  /** Multiplying by a positive factor preserves strict order, so it can be cancelled. */
  lemma MulCancel(d: int, x: int, y: int)
    requires d > 0 && d * x < d * y
    ensures x < y
  {
  }

  /** `new Date(task.dueDate) < new Date()`: the due instant has passed. */
  predicate IsOverdue(dueDate: int, now: int)
  {
    dueDate < now
  }
}
