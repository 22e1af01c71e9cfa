/**
 * The priority enumeration and the Tasks-plugin emoji markers the codec
 * reads and writes. The enumeration is numbered as a TypeScript enum numbers
 * its members, highest first; the middle member DEFAULT is the priority of a
 * task that states none.
 */
module Enums {
  import opened Text

  const Highest: int := 0
  const High: int := 1
  const Medium: int := 2
  const Default: int := 3
  const Low: int := 4
  const Lowest: int := 5

  /** `priorityKeyToNumber[key]`. */
  function PriorityNumber(key: string): Option<int>
  {
    if key == "highest" then Some(Highest)
    else if key == "high" then Some(High)
    else if key == "medium" then Some(Medium)
    else if key == "default" then Some(Default)
    else if key == "low" then Some(Low)
    else if key == "lowest" then Some(Lowest)
    else None
  }

  /** `priorityNumberToKey[n]`, the inverse table. */
  function PriorityKey(n: int): Option<string>
  {
    if n == Highest then Some("highest")
    else if n == High then Some("high")
    else if n == Medium then Some("medium")
    else if n == Default then Some("default")
    else if n == Low then Some("low")
    else if n == Lowest then Some("lowest")
    else None
  }

  /** The Tasks-plugin markers (`keyToTasksEmoji`). */
  const HighestEmoji: char := '\U{1F53A}'
  const HighEmoji: char := '\U{23EB}'
  const MediumEmoji: char := '\U{1F53C}'
  const LowEmoji: char := '\U{1F53D}'
  const LowestEmoji: char := '\U{23EC}'
  const ScheduledEmoji: char := '\U{23F3}'
  const DueEmoji: char := '\U{1F4C5}'
  const StartEmoji: char := '\U{1F6EB}'
  const CreatedEmoji: char := '\U{2795}'
  const CompletionEmoji: char := '\U{2705}'

  /** `keyToTasksEmoji[key]` for the priority keys; `default` has no marker. */
  function PriorityEmoji(key: string): Option<char>
  {
    if key == "highest" then Some(HighestEmoji)
    else if key == "high" then Some(HighEmoji)
    else if key == "medium" then Some(MediumEmoji)
    else if key == "low" then Some(LowEmoji)
    else if key == "lowest" then Some(LowestEmoji)
    else None
  }

  /** The priority markers in the order the parser tries them, highest first. */
  const RankedEmoji: seq<char> := [HighestEmoji, HighEmoji, MediumEmoji, LowEmoji, LowestEmoji]

  /** `priorityKeyToNumber[TasksEmojiToKey[emoji]]` for each ranked marker. */
  const RankedNumber: seq<int> := [Highest, High, Medium, Low, Lowest]

  /** The number tables and the marker table agree: the marker written for a
      priority is the ranked marker of that priority, and the two number
      tables are inverse to each other. */
  lemma MarkerTablesAgree()
    ensures |RankedEmoji| == |RankedNumber| == 5
    ensures forall i, j :: 0 <= i < j < 5 ==> RankedEmoji[i] != RankedEmoji[j]
    ensures forall i :: 0 <= i < 5 ==>
      PriorityKey(RankedNumber[i]).Some? &&
      PriorityEmoji(PriorityKey(RankedNumber[i]).value) == Some(RankedEmoji[i])
    ensures forall n :: PriorityKey(n).Some? ==> PriorityNumber(PriorityKey(n).value) == Some(n)
  {
  }
}
