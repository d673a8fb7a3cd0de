/** The system state table, with the two rows the scheduler's gates read: instants are stored as ISO text. */
module SystemStateRepository {
  import opened Domain
  import opened Transitions
  import opened IsoText
  import opened CooldownText

  /** The value columns in use; a row fills one of them. */
  datatype StateRow = StateRow(text: Option<string>, datetime: Option<string>)

  const PAUSED := "paused"
  const RUNNING := "running"

  /** The row stores this instant, or none. */
  ghost predicate Stores(row: Option<StateRow>, t: Option<int>) {
    match t
    case None => row.None? || row.value.datetime.None?
    case Some(instant) => ValidTime(instant) && row.Some? && row.value.datetime == Some(ToIsoString(instant))
  }

  class SystemStateRepository {
    var nextReviewRow: Option<StateRow>
    var statusRow: Option<StateRow>
    /** The instant behind the stored text. */
    ghost var nextReview: Option<int>

    ghost predicate Valid()
      reads this
    {
      Stores(nextReviewRow, nextReview)
    }

    constructor ()
      ensures Valid() && nextReview == None && !Paused()
    {
      nextReviewRow, statusRow, nextReview := None, None, None;
    }

    /** Reading the row gives back the instant that was stored. */
    method GetNextReviewAvailableAt() returns (r: Option<int>)
      requires Valid()
      ensures r == nextReview
    {
      if nextReviewRow.None? || nextReviewRow.value.datetime.None? { return None; }
      IsoRoundTrip(nextReview.value);
      r := FromIsoString(nextReviewRow.value.datetime.value);
    }

    /** Replaces the row. An invalid date cannot be printed. */
    method SetNextReviewAvailableAt(t: int) returns (thrown: bool)
      requires Valid()
      modifies this`nextReviewRow, this`nextReview
      ensures Valid() && thrown == !ValidTime(t)
      ensures nextReview == if thrown then old(nextReview) else Some(t)
    {
      if !ValidTime(t) { return true; }
      nextReviewRow, nextReview, thrown := Some(StateRow(None, Some(ToIsoString(t)))), Some(t), false;
    }

    /** The SQL statement inserts the row, or replaces its text by a text that comes after it. `TextKeepsTheLater` says
        when this keeps the later instant. */
    method SetNextReviewAvailableAtIfLater(t: int) returns (thrown: bool)
      requires Valid()
      modifies this`nextReviewRow, this`nextReview
      ensures Valid() && thrown == !ValidTime(t)
      ensures nextReview == if thrown then old(nextReview) else KeptByText(old(nextReview), t)
    {
      if !ValidTime(t) { return true; }
      thrown := false;
      var text := ToIsoString(t);
      if nextReviewRow.None? {
        nextReviewRow, nextReview := Some(StateRow(None, Some(text))), Some(t);
        return;
      }
      var row := nextReviewRow.value;
      if row.datetime.None? || Before(row.datetime.value, text) {
        nextReviewRow, nextReview := Some(row.(datetime := Some(text))), Some(t);
      }
    }

    predicate Paused()
      reads this
    {
      statusRow.Some? && statusRow.value.text == Some(PAUSED)
    }

    method SetPaused(paused: bool)
      modifies this`statusRow
      ensures Paused() == paused
    {
      statusRow := Some(StateRow(Some(if paused then PAUSED else RUNNING), None));
    }
  }
}
