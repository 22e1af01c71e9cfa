/**
 * The records the codec converts between: the task item Dataview hands
 * over, and the task record the planner stores and writes back.
 */
module TaskRecord {
  import opened Text
  import opened IsoTime

  /** A task length, as the record stores it: hours and minutes. */
  datatype Length = Length(hour: int, minute: int)

  /** The total minutes of a length. */
  function Minutes(l: Length): int
  {
    l.hour * 60 + l.minute
  }

  /** The `priority` value Dataview reports: absent, a number, or a keyword. */
  datatype PriorityValue = NoPriority | NumberPriority(n: int) | KeyPriority(key: string)

  /** A child item of a Dataview task: its position and whether it carries
      a completion date. */
  datatype Child = Child(sectionPath: string, line: int, hasCompletion: bool)

  /**
   * The fields of a Dataview task item that `textToTask` reads. Text fields
   * Dataview leaves out are empty strings (every falsy value behaves the
   * same); dates are the DateTime values Dataview parsed. `title` is the
   * first line of the text after the title clean-up, taken as given.
   */
  datatype RawItem = RawItem(
    text: string,
    title: string,
    sectionPath: string,
    line: int,
    hasParent: bool,
    scheduled: Option<Moment>,
    date: string,
    startTime: string,
    endTime: string,
    length: Option<Length>,
    due: Option<Moment>,
    completion: Option<Moment>,
    start: Option<Moment>,
    created: Option<Moment>,
    priority: PriorityValue,
    children: seq<Child>,
    tags: seq<string>,
    extraFields: seq<(string, string)>,
    path: string,
    heading: Option<string>)

  /** Dataview only hands over valid DateTime values. */
  predicate ValidItem(item: RawItem)
  {
    && (item.scheduled.Some? ==> ValidMoment(item.scheduled.value))
    && (item.due.Some? ==> ValidMoment(item.due.value))
    && (item.completion.Some? ==> ValidMoment(item.completion.value))
    && (item.start.Some? ==> ValidMoment(item.start.value))
    && (item.created.Some? ==> ValidMoment(item.created.value))
  }

  /** The task record (`TaskProps`) the planner keeps and serialises. */
  datatype Task = Task(
    id: string,
    title: string,
    tags: seq<string>,
    scheduled: Option<string>,
    due: Option<string>,
    start: Option<string>,
    created: Option<string>,
    completion: Option<string>,
    length: Option<Length>,
    priority: int,
    children: seq<string>,
    extraFields: seq<(string, string)>,
    path: string,
    heading: Option<string>,
    parent: Option<string>)

  /** JavaScript truthiness of an optional string field. */
  predicate Present(o: Option<string>)
  {
    o.Some? && o.value != ""
  }
}
