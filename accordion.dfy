/** The single-open disclosure used by every accordion of the portal: the FAQ lists of
    the contact and admission pages and the tutorial steps all click with
    `setExpanded(expanded === idx ? null : idx)`. */
module Accordion {
  import opened Options

  /** The expanded entry after clicking entry `idx`. */
  function Click(expanded: Option<int>, idx: int): (r: Option<int>)
    ensures forall k :: r == Some(k) <==> k == idx && expanded != Some(idx)
    ensures r == None <==> expanded == Some(idx)
  {
    if expanded == Some(idx) then None else Some(idx)
  }

  /** Clicking the same entry twice restores the state, unless another entry was open:
      that one stays closed. */
  lemma ClickTwice(expanded: Option<int>, idx: int)
    ensures Click(Click(expanded, idx), idx) == if expanded == Some(idx) then Some(idx) else None
  {
  }
}
