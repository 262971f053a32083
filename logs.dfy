/** The log viewer screen: a list of log entries narrowed by a level filter
    and a search query, a highlighted entry kept inside a ten-line window,
    and a detail overlay for the highlighted entry. */
module Logs {
  import opened Common

  /** A log record as the screen holds it; `extra` is the record's
      additional key/value fields. */
  datatype LogEntry = LogEntry(
    timestamp: string,
    level: string,
    message: string,
    target: string,
    category: Option<string>,
    extra: map<string, string>)

  datatype LogLevelFilter = All | Error | Warn | Info | Debug | Trace

  /** `LogLevelFilter::matches`: which level names a filter lets through. */
  predicate Matches(f: LogLevelFilter, level: string)
  {
    match f
    case All => true
    case Error => level == "ERROR"
    case Warn => level == "WARN" || level == "ERROR"
    case Info => level == "INFO" || level == "WARN" || level == "ERROR"
    case Debug => level != "TRACE"
    case Trace => true
  }

  /** The filters nest: Error within Warn within Info within Debug within
      All, and All and Trace let everything through; Debug drops exactly
      TRACE. */
  lemma FilterChain(level: string)
    ensures Matches(Error, level) ==> Matches(Warn, level)
    ensures Matches(Warn, level) ==> Matches(Info, level)
    ensures Matches(Info, level) ==> Matches(Debug, level)
    ensures Matches(Debug, level) ==> Matches(All, level)
    ensures Matches(All, level) && Matches(Trace, level)
    ensures !Matches(Debug, level) <==> level == "TRACE"
  {
  }

  /** `LogLevelFilter::name`. */
  function Name(f: LogLevelFilter): string
  {
    match f
    case All => "All"
    case Error => "Error"
    case Warn => "Warn+"
    case Info => "Info+"
    case Debug => "Debug+"
    case Trace => "Trace"
  }

  /** The filter `cycle_filter` moves to. */
  function NextFilter(f: LogLevelFilter): LogLevelFilter
  {
    match f
    case All => Error
    case Error => Warn
    case Warn => Info
    case Info => Debug
    case Debug => Trace
    case Trace => All
  }

  /** `NextFilter` applied `n` times. */
  function CycleFilterN(f: LogLevelFilter, n: nat): LogLevelFilter
    decreases n
  {
    if n == 0 then f else CycleFilterN(NextFilter(f), n - 1)
  }

  /** Cycling the filter comes back after exactly six presses. */
  lemma CyclePeriodSix(f: LogLevelFilter)
    ensures CycleFilterN(f, 6) == f
    ensures forall k :: 0 < k < 6 ==> CycleFilterN(f, k) != f
  {
    assert CycleFilterN(f, 1) != f;
    assert CycleFilterN(f, 2) != f;
    assert CycleFilterN(f, 3) != f;
    assert CycleFilterN(f, 4) != f;
    assert CycleFilterN(f, 5) != f;
  }

  /** Whether an entry with this level and message passes the filter and
      the case-insensitive search query; an empty query lets everything
      through. */
  predicate Admits(f: LogLevelFilter, search: string, level: string, message: string)
  {
    Matches(f, level)
    && (search == []
        || Contains(ToLower(message), ToLower(search))
        || Contains(ToLower(level), ToLower(search)))
  }

  /** `filtered_entries`: the entries the filter and query admit, in
      order. */
  function Filtered(entries: seq<LogEntry>, f: LogLevelFilter, search: string): (r: seq<LogEntry>)
    ensures |r| <= |entries|
    ensures forall i :: 0 <= i < |r| ==> r[i] in entries && Admits(f, search, r[i].level, r[i].message)
  {
    if entries == [] then []
    else
      var rest := Filtered(entries[1..], f, search);
      if Admits(f, search, entries[0].level, entries[0].message) then [entries[0]] + rest else rest
  }

  /** Nothing admitted is dropped. */
  lemma {:induction false} FilteredComplete(entries: seq<LogEntry>, f: LogLevelFilter, search: string, e: LogEntry)
    requires e in entries && Admits(f, search, e.level, e.message)
    ensures e in Filtered(entries, f, search)
  {
    if entries[0] != e {
      FilteredComplete(entries[1..], f, search, e);
    }
  }

  /** With the default filter and no query every entry is listed. */
  lemma {:induction false} FilteredAllIsIdentity(entries: seq<LogEntry>)
    ensures Filtered(entries, All, []) == entries
  {
    if entries != [] {
      FilteredAllIsIdentity(entries[1..]);
    }
  }

  /** A filter that lets through at most what another one does lists at
      most as many entries. */
  lemma {:induction false} NarrowerFilterFewerEntries(entries: seq<LogEntry>, f: LogLevelFilter, g: LogLevelFilter, search: string)
    requires forall e :: e in entries ==> (Matches(f, e.level) ==> Matches(g, e.level))
    ensures |Filtered(entries, f, search)| <= |Filtered(entries, g, search)|
  {
    if entries != [] {
      NarrowerFilterFewerEntries(entries[1..], f, g, search);
    }
  }

  /** Rows of the list visible at once. */
  const VISIBLE_WINDOW: nat := 10

  /** `ensure_visible`: the new scroll offset; it only moves when the
      selection has left the window, and then just far enough. */
  function ScrollTo(selected: nat, offset: nat): (r: nat)
    ensures r <= selected < r + VISIBLE_WINDOW
    ensures offset <= selected < offset + VISIBLE_WINDOW ==> r == offset
    ensures selected < offset ==> r == selected
    ensures selected >= offset + VISIBLE_WINDOW ==> r + VISIBLE_WINDOW == selected + 1
  {
    if selected < offset then selected
    else if selected >= offset + VISIBLE_WINDOW then SatSub(selected, VISIBLE_WINDOW - 1)
    else offset
  }

  class LogsState {
    var entries: seq<LogEntry>
    var selected: nat
    var offset: nat
    var filter: LogLevelFilter
    var search: string
    var isSearching: bool
    var showDetail: bool

    /** The highlighted row lies inside the window that starts at the
        scroll offset. */
    predicate Valid()
      reads this`selected, this`offset
    {
      offset <= selected < offset + VISIBLE_WINDOW
    }

    /** `LogsState::new` followed by `with_entries`. */
    constructor (es: seq<LogEntry>)
      ensures Valid()
      ensures entries == es && selected == 0 && offset == 0 && filter == All
      ensures search == [] && !isSearching && !showDetail
    {
      entries := es;
      selected := 0;
      offset := 0;
      filter := All;
      search := [];
      isSearching := false;
      showDetail := false;
    }

    /** The entries currently listed. */
    function FilteredEntries(): (r: seq<LogEntry>)
      reads this`entries, this`filter, this`search
      ensures |r| <= |entries|
      ensures forall i :: 0 <= i < |r| ==> r[i] in entries && Admits(filter, search, r[i].level, r[i].message)
    {
      Filtered(entries, filter, search)
    }

    /** `selected_entry`: the listed entry at the highlighted row, if the
        row exists. */
    function SelectedEntry(): (r: Option<LogEntry>)
      reads this`entries, this`filter, this`search, this`selected
      ensures r.Some? <==> selected < |FilteredEntries()|
      ensures r.Some? ==> r.value == FilteredEntries()[selected] && r.value in entries
    {
      var listed := FilteredEntries();
      if selected < |listed| then Some(listed[selected]) else None
    }

    /** `select_prev`. */
    method SelectPrev()
      modifies this`selected, this`offset
      ensures selected == SatSub(old(selected), 1)
      ensures offset == if old(selected) > 0 then ScrollTo(selected, old(offset)) else old(offset)
      ensures old(Valid()) ==> Valid()
    {
      if selected > 0 {
        selected := selected - 1;
        offset := ScrollTo(selected, offset);
      }
    }

    /** `select_next`: one row down, never past the last listed entry. */
    method SelectNext()
      modifies this`selected, this`offset
      ensures var n := |FilteredEntries()|;
        selected == (if n > 0 && old(selected) < n - 1 then old(selected) + 1 else old(selected))
      ensures old(selected) < |FilteredEntries()| ==> selected < |FilteredEntries()|
      ensures selected != old(selected) ==> offset == ScrollTo(selected, old(offset))
      ensures selected == old(selected) ==> offset == old(offset)
      ensures old(Valid()) ==> Valid()
    {
      var listed := Filtered(entries, filter, search);
      if |listed| > 0 && selected < |listed| - 1 {
        selected := selected + 1;
        offset := ScrollTo(selected, offset);
      }
    }

    /** `page_up`. */
    method PageUp(pageSize: nat)
      modifies this`selected, this`offset
      ensures selected == SatSub(old(selected), pageSize)
      ensures offset == ScrollTo(selected, old(offset))
      ensures Valid()
    {
      selected := SatSub(selected, pageSize);
      offset := ScrollTo(selected, offset);
    }

    /** `page_down`: a page down, stopping at the last listed entry; with
        nothing listed, nothing moves. */
    method PageDown(pageSize: nat)
      modifies this`selected, this`offset
      ensures var n := |FilteredEntries()|;
        (n == 0 ==> selected == old(selected) && offset == old(offset))
        && (n > 0 ==> selected == Min(old(selected) + pageSize, n - 1) && selected < n
                      && offset == ScrollTo(selected, old(offset)))
      ensures old(Valid()) ==> Valid()
    {
      var listed := Filtered(entries, filter, search);
      if |listed| > 0 {
        selected := Min(selected + pageSize, |listed| - 1);
        offset := ScrollTo(selected, offset);
      }
    }

    /** `go_home`. */
    method GoHome()
      modifies this`selected, this`offset
      ensures selected == 0 && offset == 0 && Valid()
    {
      selected := 0;
      offset := 0;
    }

    /** `go_end`: the last listed entry; the window follows even when
        nothing is listed. */
    method GoEnd()
      modifies this`selected, this`offset
      ensures var n := |FilteredEntries()|;
        selected == (if n > 0 then n - 1 else old(selected))
      ensures offset == ScrollTo(selected, old(offset))
      ensures Valid()
    {
      var listed := Filtered(entries, filter, search);
      if |listed| > 0 {
        selected := |listed| - 1;
      }
      offset := ScrollTo(selected, offset);
    }

    /** `cycle_filter`: the next filter, back at the top of the list. */
    method CycleFilter()
      modifies this`filter, this`selected, this`offset
      ensures filter == NextFilter(old(filter))
      ensures selected == 0 && offset == 0 && Valid()
    {
      filter := NextFilter(filter);
      selected := 0;
      offset := 0;
    }

    /** `toggle_search`: turning search off clears the query and goes back
        to the top; turning it on keeps everything. */
    method ToggleSearch()
      modifies this`isSearching, this`search, this`selected, this`offset
      ensures isSearching == !old(isSearching)
      ensures !isSearching ==> search == [] && selected == 0 && offset == 0
      ensures isSearching ==> search == old(search) && selected == old(selected) && offset == old(offset)
      ensures old(Valid()) ==> Valid()
    {
      isSearching := !isSearching;
      if !isSearching {
        search := [];
        selected := 0;
        offset := 0;
      }
    }

    /** `toggle_detail`: only with an entry at the highlighted row. */
    method ToggleDetail()
      modifies this`showDetail
      ensures showDetail == if SelectedEntry().Some? then !old(showDetail) else old(showDetail)
    {
      var listed := Filtered(entries, filter, search);
      if selected < |listed| {
        showDetail := !showDetail;
      }
    }

    /** `close_detail`. */
    method CloseDetail()
      modifies this`showDetail
      ensures !showDetail
    {
      showDetail := false;
    }
  }
}
