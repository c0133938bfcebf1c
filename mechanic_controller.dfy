/** The mechanic's screen: the list of all requests, a search box that narrows
    it, and three buttons that move the selected request along its lifecycle. */
module MechanicScreen {
  import opened Common
  import opened Sequences
  import opened Model
  import opened Lifecycle

  /** The search box's condition: no text or empty text shows every request;
      otherwise a request shows when its client name or its vehicle text,
      lower-cased, contains the lower-cased text. A null field never matches. */
  predicate MatchesSearch(r: RequestRecord, text: Option<string>)
  {
    || text.None?
    || text.value == []
    || (r.clientName.Some? && Contains(Lower(r.clientName.value), Lower(text.value)))
    || (r.vehicleInfo.Some? && Contains(Lower(r.vehicleInfo.value), Lower(text.value)))
  }

  /** The search is case-insensitive: lower-casing the typed text changes nothing. */
  lemma SearchIgnoresCase(r: RequestRecord, text: string)
    ensures MatchesSearch(r, Some(text)) == MatchesSearch(r, Some(Lower(text)))
  {
    LowerIdempotent(text);
  }

  /** Typing more characters can only narrow the list: a request shown for
      `text + more` is shown for `text`. */
  lemma SearchNarrows(r: RequestRecord, text: string, more: string)
    requires MatchesSearch(r, Some(text + more))
    ensures MatchesSearch(r, Some(text))
  {
    if text != [] {
      LowerAppend(text, more);
      if r.clientName.Some? && Contains(Lower(r.clientName.value), Lower(text + more)) {
        ContainsPrefix(Lower(r.clientName.value), Lower(text), Lower(more));
      } else {
        ContainsPrefix(Lower(r.vehicleInfo.value), Lower(text), Lower(more));
      }
    }
  }

  class MechanicController {
    /** The requests loaded when the screen opens, as shared objects. */
    var masterData: seq<ServiceRequest>
    /** The search box's current text. */
    var searchText: Option<string>
    /** The table's selected row. */
    var selected: ServiceRequest?

    /** initialize(): load every request, show all of them, nothing selected. */
    constructor (requests: seq<ServiceRequest>)
      ensures masterData == requests && searchText == None && selected == null
    {
      masterData, searchText, selected := requests, None, null;
    }

    /** The rows the table shows: the requests the search admits, in load order. */
    function Visible(): (r: seq<ServiceRequest>)
      reads this, set o | o in masterData
      ensures forall o | o in r :: o in masterData && MatchesSearch(o.Snapshot(), searchText)
      ensures forall o | o in masterData && MatchesSearch(o.Snapshot(), searchText) :: o in r
    {
      var text := searchText;
      RequestsWhere(masterData, rec => MatchesSearch(rec, text))
    }

    /** The shown rows keep their load order, and an empty search shows them all. */
    lemma VisibleIsOrderedSublist()
      ensures IsSubsequence(Visible(), masterData)
      ensures searchText == None || searchText == Some("") ==> Visible() == masterData
    {
      var text := searchText;
      RequestsWhereIsFilter(masterData, rec => MatchesSearch(rec, text));
      if text == None || text == Some("") {
        RequestsWhereKeepsAll(masterData, rec => MatchesSearch(rec, text));
      }
    }

    /** The search field's listener: a new text replaces the predicate. */
    method SetSearchText(text: Option<string>)
      modifies this
      ensures masterData == old(masterData) && selected == old(selected) && searchText == text
    {
      searchText := text;
    }

    /** Selecting a row of the table, or clearing the selection. */
    method Select(o: ServiceRequest?)
      requires o == null || o in masterData
      modifies this
      ensures masterData == old(masterData) && searchText == old(searchText) && selected == o
    {
      selected := o;
    }

    /** handleAccept: a selected Pending request becomes In Progress. */
    method HandleAccept()
      modifies selected
      ensures selected != null ==> selected.Snapshot() == old(selected.Snapshot()).(status := Step(old(selected.status), Accept))
      ensures forall o | o in masterData && o != selected :: o.Snapshot() == old(o.Snapshot())
    {
      if selected != null && selected.status == Some(Pending) {
        selected.SetStatus(Some(InProgress));
      }
    }

    /** handleReject: a selected Pending request becomes Rejected. */
    method HandleReject()
      modifies selected
      ensures selected != null ==> selected.Snapshot() == old(selected.Snapshot()).(status := Step(old(selected.status), Reject))
      ensures forall o | o in masterData && o != selected :: o.Snapshot() == old(o.Snapshot())
    {
      if selected != null && selected.status == Some(Pending) {
        selected.SetStatus(Some(Rejected));
      }
    }

    /** handleComplete: a selected In Progress request becomes Completed. */
    method HandleComplete()
      modifies selected
      ensures selected != null ==> selected.Snapshot() == old(selected.Snapshot()).(status := Step(old(selected.status), Complete))
      ensures forall o | o in masterData && o != selected :: o.Snapshot() == old(o.Snapshot())
    {
      if selected != null && selected.status == Some(InProgress) {
        selected.SetStatus(Some(Completed));
      }
    }
  }
}
