/** The older log viewer screen: the same level filter, query and
    ten-line window as the current one, over entries without category or
    extra fields, and without the detail overlay. */
module LegacyLogs {
  import opened Common
  import Logs

  /** A log record as this screen holds it. */
  datatype LogEntry = LogEntry(timestamp: string, level: string, message: string, target: string)

  /** `filtered_entries`: the entries the level filter and the
      case-insensitive query admit, in order. */
  function Filtered(entries: seq<LogEntry>, f: Logs.LogLevelFilter, search: string): (r: seq<LogEntry>)
    ensures |r| <= |entries|
    ensures forall i :: 0 <= i < |r| ==> r[i] in entries && Logs.Admits(f, search, r[i].level, r[i].message)
  {
    if entries == [] then []
    else
      var rest := Filtered(entries[1..], f, search);
      if Logs.Admits(f, search, entries[0].level, entries[0].message) then [entries[0]] + rest else rest
  }

  /** Nothing admitted is dropped. */
  lemma {:induction false} FilteredComplete(entries: seq<LogEntry>, f: Logs.LogLevelFilter, search: string, e: LogEntry)
    requires e in entries && Logs.Admits(f, search, e.level, e.message)
    ensures e in Filtered(entries, f, search)
  {
    if entries[0] != e {
      FilteredComplete(entries[1..], f, search, e);
    }
  }

  class LogsState {
    var entries: seq<LogEntry>
    var selected: nat
    var offset: nat
    var filter: Logs.LogLevelFilter
    var search: string
    var isSearching: bool

    /** The highlighted row lies inside the window that starts at the
        scroll offset. */
    predicate Valid()
      reads this`selected, this`offset
    {
      offset <= selected < offset + Logs.VISIBLE_WINDOW
    }

    /** `LogsState::new` followed by `with_entries`. */
    constructor (es: seq<LogEntry>)
      ensures Valid()
      ensures entries == es && selected == 0 && offset == 0 && filter == Logs.LogLevelFilter.All
      ensures search == [] && !isSearching
    {
      entries := es;
      selected := 0;
      offset := 0;
      filter := Logs.LogLevelFilter.All;
      search := [];
      isSearching := false;
    }

    /** The entries currently listed. */
    function FilteredEntries(): (r: seq<LogEntry>)
      reads this`entries, this`filter, this`search
      ensures |r| <= |entries|
      ensures forall i :: 0 <= i < |r| ==> r[i] in entries && Logs.Admits(filter, search, r[i].level, r[i].message)
    {
      Filtered(entries, filter, search)
    }

    /** `selected_entry`: the listed entry at the highlighted row, if the
        row exists. */
    function SelectedEntry(): (r: Option<LogEntry>)
      reads this`entries, this`filter, this`search, this`selected
      ensures r.Some? <==> selected < |FilteredEntries()|
      ensures r.Some? ==> r.value == FilteredEntries()[selected] && r.value in entries
    {
      var listed := FilteredEntries();
      if selected < |listed| then Some(listed[selected]) else None
    }

    /** `select_prev`. */
    method SelectPrev()
      modifies this`selected, this`offset
      ensures selected == SatSub(old(selected), 1)
      ensures offset == if old(selected) > 0 then Logs.ScrollTo(selected, old(offset)) else old(offset)
      ensures old(Valid()) ==> Valid()
    {
      if selected > 0 {
        selected := selected - 1;
        offset := Logs.ScrollTo(selected, offset);
      }
    }

    /** `select_next`: one row down, never past the last listed entry. */
    method SelectNext()
      modifies this`selected, this`offset
      ensures var n := |FilteredEntries()|;
        selected == (if n > 0 && old(selected) < n - 1 then old(selected) + 1 else old(selected))
      ensures old(selected) < |FilteredEntries()| ==> selected < |FilteredEntries()|
      ensures selected != old(selected) ==> offset == Logs.ScrollTo(selected, old(offset))
      ensures selected == old(selected) ==> offset == old(offset)
      ensures old(Valid()) ==> Valid()
    {
      var listed := Filtered(entries, filter, search);
      if |listed| > 0 && selected < |listed| - 1 {
        selected := selected + 1;
        offset := Logs.ScrollTo(selected, offset);
      }
    }

    /** `page_up`. */
    method PageUp(pageSize: nat)
      modifies this`selected, this`offset
      ensures selected == SatSub(old(selected), pageSize)
      ensures offset == Logs.ScrollTo(selected, old(offset))
      ensures Valid()
    {
      selected := SatSub(selected, pageSize);
      offset := Logs.ScrollTo(selected, offset);
    }

    /** `page_down`: a page down, stopping at the last listed entry; with
        nothing listed, nothing moves. */
    method PageDown(pageSize: nat)
      modifies this`selected, this`offset
      ensures var n := |FilteredEntries()|;
        (n == 0 ==> selected == old(selected) && offset == old(offset))
        && (n > 0 ==> selected == Min(old(selected) + pageSize, n - 1) && selected < n
                      && offset == Logs.ScrollTo(selected, old(offset)))
      ensures old(Valid()) ==> Valid()
    {
      var listed := Filtered(entries, filter, search);
      if |listed| > 0 {
        selected := Min(selected + pageSize, |listed| - 1);
        offset := Logs.ScrollTo(selected, offset);
      }
    }

    /** `go_home`. */
    method GoHome()
      modifies this`selected, this`offset
      ensures selected == 0 && offset == 0 && Valid()
    {
      selected := 0;
      offset := 0;
    }

    /** `go_end`: the last listed entry; the window follows even when
        nothing is listed. */
    method GoEnd()
      modifies this`selected, this`offset
      ensures var n := |FilteredEntries()|;
        selected == (if n > 0 then n - 1 else old(selected))
      ensures offset == Logs.ScrollTo(selected, old(offset))
      ensures Valid()
    {
      var listed := Filtered(entries, filter, search);
      if |listed| > 0 {
        selected := |listed| - 1;
      }
      offset := Logs.ScrollTo(selected, offset);
    }

    /** `cycle_filter`: the next filter, back at the top of the list. */
    method CycleFilter()
      modifies this`filter, this`selected, this`offset
      ensures filter == Logs.NextFilter(old(filter))
      ensures selected == 0 && offset == 0 && Valid()
    {
      filter := Logs.NextFilter(filter);
      selected := 0;
      offset := 0;
    }

    /** `toggle_search`: turning search off clears the query and goes back
        to the top; turning it on keeps everything. */
    method ToggleSearch()
      modifies this`isSearching, this`search, this`selected, this`offset
      ensures isSearching == !old(isSearching)
      ensures !isSearching ==> search == [] && selected == 0 && offset == 0
      ensures isSearching ==> search == old(search) && selected == old(selected) && offset == old(offset)
      ensures old(Valid()) ==> Valid()
    {
      isSearching := !isSearching;
      if !isSearching {
        search := [];
        selected := 0;
        offset := 0;
      }
    }
  }
}
