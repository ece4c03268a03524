/**
 * The history drawer (components/HistoryPanel.tsx): the list of notes
 * newest first with a label and a highlight per row, and the small state
 * machine that asks for confirmation before a note is deleted.
 */
module History {
  import opened Types
  import opened Entries

  const EmptyLabel := "Empty entry"
  const NoEntriesText := "No entries yet."

  datatype Row = Row(entry: NoteEntry, caption: string, highlighted: bool)

  /** The list area: a notice, or one row per note. */
  datatype Body = Notice(text: string) | Rows(rows: seq<Row>)

  /** What the drawer shows: the "N notes" count of its header and its list. */
  datatype Panel = Panel(count: nat, body: Body)

  /** `entry.snippet || "Empty entry"`: a row label is never empty. */
  function RowLabel(e: NoteEntry): (r: string)
    ensures r != ""
    ensures e.snippet != "" ==> r == e.snippet
    ensures r == e.snippet || r == EmptyLabel
  {
    if e.snippet != "" then e.snippet else EmptyLabel
  }

  /** One row: the note, its label, and whether it is the open note. */
  function RenderRow(e: NoteEntry, currentEntryId: Option<string>): (r: Row)
    ensures r.entry == e && r.caption != ""
    ensures r.caption == RowLabel(e)
    ensures r.highlighted <==> currentEntryId.Some? && currentEntryId.value == e.id
  {
    Row(e, RowLabel(e), currentEntryId == Some(e.id))
  }

  /**
   * The drawer for `entries`: the header counts every note; the list is the
   * notice when there are none, otherwise the notes sorted newest first,
   * each labelled, and highlighted exactly when it is the open note.
   */
  function Render(entries: seq<NoteEntry>, currentEntryId: Option<string>): (p: Panel)
    ensures p.count == |entries|
    ensures p.body.Notice? <==> entries == []
    ensures p.body.Notice? ==> p.body.text == NoEntriesText
    ensures p.body.Rows? ==>
      var rows := p.body.rows;
      && |rows| == |entries|
      && (forall i :: 0 <= i < |rows| ==> rows[i].entry == SortByCreatedDesc(entries)[i])
      && (forall i, j :: 0 <= i < j < |rows| ==> rows[i].entry.createdAt >= rows[j].entry.createdAt)
      && (forall i :: 0 <= i < |rows| ==>
            rows[i].caption == RowLabel(rows[i].entry) && rows[i].caption != ""
            && (rows[i].highlighted <==> currentEntryId == Some(rows[i].entry.id)))
  {
    var sorted := SortByCreatedDesc(entries);
    if |sorted| == 0 then Panel(|entries|, Notice(NoEntriesText))
    else Panel(|entries|, Rows(seq(|sorted|, i requires 0 <= i < |sorted| => RenderRow(sorted[i], currentEntryId))))
  }

  function RowEntries(rows: seq<Row>): seq<NoteEntry> {
    seq(|rows|, i requires 0 <= i < |rows| => rows[i].entry)
  }

  /** The rows show every note exactly as often as the list holds it: a permutation, nothing added or lost. */
  lemma RenderIsPermutation(entries: seq<NoteEntry>, currentEntryId: Option<string>)
    requires entries != []
    ensures multiset(RowEntries(Render(entries, currentEntryId).body.rows)) == multiset(entries)
  {
    var rows := Render(entries, currentEntryId).body.rows;
    assert RowEntries(rows) == SortByCreatedDesc(entries);
  }

  /** A click in the drawer. */
  datatype Click =
    | RowClick(entry: NoteEntry)
    | TrashClick(entry: NoteEntry)
    | DeleteClick
    | CancelClick
    | DialogClose

  /** A call from the drawer to the editor shell. */
  datatype Callback = Select(entry: NoteEntry) | Delete(id: string)

  /** The `deleteId` state of the drawer. */
  class DeleteConfirmation {
    var deleteId: Option<string>

    constructor ()
      ensures deleteId == None
    {
      deleteId := None;
    }

    /** The confirmation dialog is open exactly when `deleteId` is truthy. */
    predicate DialogOpen()
      reads this
      ensures DialogOpen() ==> deleteId.Some? && deleteId.value != ""
      ensures deleteId.Some? && deleteId.value != "" ==> DialogOpen()
    {
      Truthy(deleteId)
    }

    /**
     * A row click selects its note. The trash button only records the note
     * to delete (the click does not reach the row). Delete calls `onDelete`
     * once with the recorded id when there is one; Delete, Cancel and
     * closing the dialog all clear the record.
     */
    method Handle(click: Click) returns (call: Option<Callback>)
      modifies this
      ensures match click
        case RowClick(e) => call == Some(Select(e)) && deleteId == old(deleteId)
        case TrashClick(e) => call == None && deleteId == Some(e.id)
        case DeleteClick =>
          && call == (if Truthy(old(deleteId)) then Some(Delete(old(deleteId).value)) else None)
          && deleteId == None
        case CancelClick => call == None && deleteId == None
        case DialogClose => call == None && deleteId == None
      ensures !DialogOpen() || click.TrashClick? || click.RowClick?
    {
      match click
      case RowClick(e) =>
        call := Some(Select(e));
      case TrashClick(e) =>
        call := None;
        deleteId := Some(e.id);
      case DeleteClick =>
        call := None;
        if Truthy(deleteId) {
          call := Some(Delete(deleteId.value));
        }
        deleteId := None;
      case CancelClick =>
        call := None;
        deleteId := None;
      case DialogClose =>
        call := None;
        deleteId := None;
    }
  }
}
