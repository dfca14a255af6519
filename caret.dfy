/**
 * The offsets `moveCaret`, `moveCaretLast` and `setRange` compute before handing them to
 * the DOM Selection API. The element is abstracted as two inputs: whether it has a first
 * child (a text node) and the length of its text.
 */
module CaretPlacement {
  import opened Wrappers
  import opened Blocks

  /** The start and end offsets given to `range.setStart` and `range.setEnd`. */
  datatype Range = Range(start: int, end: int)

  predicate Collapsed(r: Range)
  {
    r.start == r.end
  }

  /**
   * `setRange(node, from, node?, to?)`: the end is `to || from`, so an end that is
   * missing or 0 falls back to the start.
   */
  function SetRange(from: int, to: Option<int>): (r: Range)
    ensures r.start == from
    ensures to.None? || to.value == 0 ==> r.end == from
    ensures to.Some? && to.value != 0 ==> r.end == to.value
  {
    Range(from, if to.None? || to.value == 0 then from else to.value)
  }

  /**
   * `moveCaret(element, from, to)`. Without a text node the caret goes to 0. `'last'` goes
   * through `moveCaretLast`. A numeric start is clipped to the text length from above only;
   * the end is the clipped start when `to` is null, `to` clipped to the length otherwise,
   * and then `setRange` turns an end of 0 into the start.
   */
  function MoveCaret(hasText: bool, len: nat, from: CaretTarget, to: Option<int>): (r: Range)
    decreases if from.Last? then 2 else 0
    ensures !hasText ==> r == Range(0, 0)
    ensures hasText && from.Last? ==> r == Range(len, len)
    ensures hasText && from.Offset? ==> r.start == (if from.n > len then len else from.n)
    ensures hasText && from.Offset? && to.Some? && 0 < to.value ==> r.end <= len
    ensures hasText && from.Offset? && to.Some? && 0 < to.value <= len ==> r.end == to.value
    ensures hasText && from.Offset? && to.Some? && to.value > len > 0 ==> r.end == len
    ensures hasText && from.Offset? && to.Some? && to.value > len == 0 ==> r.end == r.start
    ensures hasText && from.Offset? && to.Some? && to.value == 0 ==> r.end == r.start
    ensures hasText && from.Offset? && to.Some? && to.value < 0 ==> r.end == to.value
    ensures to.None? ==> Collapsed(r)
  {
    if !hasText then
      SetRange(0, None)
    else
      match from
      case Last => MoveCaretLast(hasText, len)
      case Offset(n) =>
        var start := if n > len then len else n;
        SetRange(start, Some(if to.None? then start else if to.value > len then len else to.value))
  }

  /** `moveCaretLast(element)`: a collapsed caret after the last character, or 0 without text. */
  function MoveCaretLast(hasText: bool, len: nat): (r: Range)
    decreases 1
    ensures hasText ==> r == Range(len, len)
    ensures !hasText ==> r == Range(0, 0)
  {
    MoveCaret(hasText, len, Offset(len), Some(len))
  }

  /** A non-negative caret instruction lands inside the text: `0 <= start == end <= len`. */
  lemma CaretWithinText(hasText: bool, len: nat, target: CaretTarget)
    requires target.Offset? ==> target.n >= 0
    ensures var r := MoveCaret(hasText, len, target, None);
      Collapsed(r) && 0 <= r.start <= len
  {
  }

  /** An offset past the end of the text is placed at the end. */
  lemma CaretClampedToLength(len: nat, n: int)
    requires n > len
    ensures MoveCaret(true, len, Offset(n), None) == Range(len, len)
  {
  }

  /** A negative offset is passed through unclamped (the DOM would reject it). */
  lemma NegativeOffsetNotClamped(len: nat, n: int)
    requires n < 0
    ensures MoveCaret(true, len, Offset(n), None) == Range(n, n)
  {
  }

  /**
   * Resolving a caret instruction twice gives the same offsets: the offset the first
   * placement chose, requested again, is placed at the same spot.
   */
  lemma CaretIdempotent(hasText: bool, len: nat, target: CaretTarget)
    ensures var r := MoveCaret(hasText, len, target, None);
      MoveCaret(hasText, len, Offset(r.start), None) == r
  {
  }
}
