/** The two paginated table readers of the profile crawler (`_scrape_affiliate_table_old_logic`
    and the live `_scrape_investments_table` in pb_tree_crawler.py), with the browser replaced
    by a description of what the page shows at each step. */
module TableReader {
  import opened Text
  import opened Records

  /** A link inside a cell: its visible text and its `href`, already resolved against the
      page's URL (`urljoin` is not part of this model). */
  datatype Anchor = Anchor(text: string, href: string)

  /** A table cell: its text, the link inside a `span.entity-hover` if any, the first link of
      any kind if any, and the texts of its `span.foot-note` elements. */
  datatype Cell = Cell(text: string, hoverLink: Option<Anchor>, anyLink: Option<Anchor>, footnotes: seq<string>)

  const ExitedFlag: string := "_is_exited_deal"

  /** The link a cell contributes: the entity-hover link, otherwise any link. */
  function LinkOf(c: Cell): (r: Option<Anchor>)
    ensures c.hoverLink.Some? ==> r == c.hoverLink
    ensures c.hoverLink.None? ==> r == c.anyLink
  {
    if c.hoverLink.Some? then c.hoverLink else c.anyLink
  }

  predicate IsNameColumn(header: string) {
    header == "Name" || header == "Company Name"
  }

  /** Some foot-note of the cell reads "x" once stripped and lower-cased. */
  predicate HasExitFootnote(c: Cell) {
    exists i :: 0 <= i < |c.footnotes| && Lower(Strip(c.footnotes[i])) == "x"
  }

  /** The key under which a column's link is stored. */
  function LinkKey(header: string): (k: string)
    ensures k != header && k != ExitedFlag
  {
    var k := header + "_link";
    assert k[|k| - 1] == 'k' && ExitedFlag[|ExitedFlag| - 1] == 'l';
    k
  }

  /** The entries a cell gives a row, from its text, its link and its exited flag. */
  function CellEntries(text: string, link: Option<Anchor>, exited: bool, header: string): (r: Fields)
    ensures r.Keys == {header, LinkKey(header), ExitedFlag}
    ensures r[ExitedFlag] == Bool(exited)
  {
    var base := map[header := Str(Strip(text)), LinkKey(header) := Str("")];
    assert base.Keys == {header, LinkKey(header)};
    var linked :=
      match link
      case None => base
      case Some(a) => base[header := Str(Strip(a.text))][LinkKey(header) := Str(a.href)];
    assert linked.Keys == base.Keys;
    linked[ExitedFlag := Bool(exited)]
  }

  /** `_extract_cell_content`: the cell's text under its header, the link's href under
      `header + "_link"` (the link's text replaces the cell text when there is a link), and
      the exited-deal flag, which only name columns can raise. */
  function ExtractCell(c: Cell, header: string): (r: Fields)
    ensures r.Keys == {header, LinkKey(header), ExitedFlag}
    ensures r[ExitedFlag] == Bool(IsNameColumn(header) && HasExitFootnote(c))
  {
    CellEntries(c.text, LinkOf(c), IsNameColumn(header) && HasExitFootnote(c), header)
  }

  /** The text and link a cell gives its column (unless the column is named like the flag):
      the link's text and href when the cell has a link, else the cell's text and "". */
  lemma CellTextAndLink(c: Cell, header: string)
    requires header != ExitedFlag
    ensures LinkOf(c).None? ==> ExtractCell(c, header)[header] == Str(Strip(c.text))
    ensures LinkOf(c).None? ==> ExtractCell(c, header)[LinkKey(header)] == Str("")
    ensures LinkOf(c).Some? ==> ExtractCell(c, header)[header] == Str(Strip(LinkOf(c).value.text))
    ensures LinkOf(c).Some? ==> ExtractCell(c, header)[LinkKey(header)] == Str(LinkOf(c).value.href)
  {
    CellEntriesText(c.text, LinkOf(c), IsNameColumn(header) && HasExitFootnote(c), header);
  }

  lemma CellEntriesText(text: string, link: Option<Anchor>, exited: bool, header: string)
    requires header != ExitedFlag
    ensures var r := CellEntries(text, link, exited, header);
      && r[header] == Str(Strip(if link.Some? then link.value.text else text))
      && r[LinkKey(header)] == Str(if link.Some? then link.value.href else "")
  {
    var lk := LinkKey(header);
    var base := map[header := Str(Strip(text)), lk := Str("")];
    var r := CellEntries(text, link, exited, header);
    if link.None? {
      assert r[header] == Str(Strip(text)) && r[lk] == Str("") by {
        assert r == base[ExitedFlag := Bool(exited)];
      }
    } else {
      var a := link.value;
      assert r[header] == Str(Strip(a.text)) && r[lk] == Str(a.href) by {
        assert r == base[header := Str(Strip(a.text))][lk := Str(a.href)][ExitedFlag := Bool(exited)];
      }
    }
  }

  /** A foot-note only matters in a name column. */
  lemma FootnotesIgnoredOutsideNameColumns(c: Cell, header: string, notes: seq<string>)
    requires !IsNameColumn(header)
    ensures ExtractCell(c, header) == ExtractCell(c.(footnotes := notes), header)
  {
    assert LinkOf(c) == LinkOf(c.(footnotes := notes));
  }

  /** When a cell has an entity-hover link, its other links do not matter. */
  lemma HoverLinkWins(c: Cell, header: string, other: Option<Anchor>)
    requires c.hoverLink.Some?
    ensures ExtractCell(c, header) == ExtractCell(c.(anyLink := other), header)
  {
    assert LinkOf(c) == LinkOf(c.(anyLink := other));
  }

  /** The number of cells of a row that have a header. */
  function Covered(headers: seq<string>, cells: seq<Cell>): (n: nat)
    ensures n <= |headers| && n <= |cells|
    ensures n == |cells| || n == |headers|
  {
    if |cells| < |headers| then |cells| else |headers|
  }

  /** A row as `row_data.update(...)` builds it: the cells are merged left to right, a later
      cell's keys overriding an earlier one's, and cells beyond the headers are ignored. */
  function AssembleRow(headers: seq<string>, cells: seq<Cell>): Fields
    decreases |cells|
  {
    if cells == [] then map[]
    else
      var k := |cells| - 1;
      AssembleRow(headers, cells[..k]) + (if k < |headers| then ExtractCell(cells[k], headers[k]) else map[])
  }

  /** The keys that the first `n` headers give a row. */
  function HeaderKeys(headers: seq<string>, n: nat): set<string>
    requires n <= |headers|
  {
    (set i | 0 <= i < n :: headers[i]) + (set i | 0 <= i < n :: LinkKey(headers[i])) + (if n > 0 then {ExitedFlag} else {})
  }

  lemma HeaderKeysStep(headers: seq<string>, k: nat)
    requires k < |headers|
    ensures HeaderKeys(headers, k + 1) == HeaderKeys(headers, k) + {headers[k], LinkKey(headers[k]), ExitedFlag}
  {
    var n := k + 1;
    assert (set i | 0 <= i < n :: headers[i]) == (set i | 0 <= i < k :: headers[i]) + {headers[k]};
    assert (set i | 0 <= i < n :: LinkKey(headers[i])) == (set i | 0 <= i < k :: LinkKey(headers[i])) + {LinkKey(headers[k])};
  }

  /** A covered cell is merged over what the cells before it built. */
  lemma CoveredCellStep(headers: seq<string>, cells: seq<Cell>)
    requires 0 < |cells| <= |headers|
    ensures var k := |cells| - 1;
      AssembleRow(headers, cells) == AssembleRow(headers, cells[..k]) + ExtractCell(cells[k], headers[k])
  {
  }

  /** The keys of a row are the covered headers, their `_link` companions and the exited
      flag; cells beyond the headers add nothing. */
  lemma {:induction false} AssembleRowKeys(headers: seq<string>, cells: seq<Cell>)
    ensures AssembleRow(headers, cells).Keys == HeaderKeys(headers, Covered(headers, cells))
    decreases |cells|
  {
    if cells != [] {
      var k := |cells| - 1;
      var pre := cells[..k];
      AssembleRowKeys(headers, pre);
      if k < |headers| {
        CoveredCellStep(headers, cells);
        assert Covered(headers, pre) == k && Covered(headers, cells) == k + 1;
        HeaderKeysStep(headers, k);
      } else {
        UncoveredCellAddsNothing(headers, cells);
        assert Covered(headers, pre) == Covered(headers, cells);
      }
    }
  }

  /** A cell beyond the headers adds nothing to a row. */
  lemma UncoveredCellAddsNothing(headers: seq<string>, cells: seq<Cell>)
    requires |cells| > |headers|
    ensures AssembleRow(headers, cells) == AssembleRow(headers, cells[..|cells| - 1])
  {
    var pre := AssembleRow(headers, cells[..|cells| - 1]);
    assert pre + map[] == pre;
  }

  /** A row ignores the cells that have no header. */
  lemma {:induction false} ExtraCellsIgnored(headers: seq<string>, cells: seq<Cell>)
    ensures AssembleRow(headers, cells) == AssembleRow(headers, cells[..Covered(headers, cells)])
    decreases |cells|
  {
    var n := Covered(headers, cells);
    if |cells| > |headers| {
      var pre := cells[..|cells| - 1];
      UncoveredCellAddsNothing(headers, cells);
      ExtraCellsIgnored(headers, pre);
      assert Covered(headers, pre) == n;
      assert pre[..n] == cells[..n];
    } else {
      assert cells[..n] == cells;
    }
  }

  /** The exited flag of a row is that of its last covered cell: a later non-name column
      resets an earlier name column's flag. */
  lemma ExitedFlagOfLastCell(headers: seq<string>, cells: seq<Cell>)
    requires Covered(headers, cells) > 0
    ensures ExitedFlag in AssembleRow(headers, cells)
    ensures var n := Covered(headers, cells);
      AssembleRow(headers, cells)[ExitedFlag] == Bool(IsNameColumn(headers[n - 1]) && HasExitFootnote(cells[n - 1]))
  {
    var n := Covered(headers, cells);
    ExtraCellsIgnored(headers, cells);
    var cs := cells[..n];
    CoveredCellStep(headers, cs);
    assert cs[n - 1] == cells[n - 1];
    LaterEntryWins(AssembleRow(headers, cs[..n - 1]), ExtractCell(cs[n - 1], headers[n - 1]), ExitedFlag);
  }

  /** In `row.update(...)`, the entries merged last win. */
  lemma LaterEntryWins(earlier: Fields, later: Fields, k: string)
    requires k in later
    ensures k in earlier + later && (earlier + later)[k] == later[k]
  {
  }

  /** The loop that builds one row. */
  method ReadRow(headers: seq<string>, cells: seq<Cell>) returns (row: Fields)
    ensures row == AssembleRow(headers, cells)
  {
    row := map[];
    var i := 0;
    while i < |cells|
      invariant 0 <= i <= |cells|
      invariant row == AssembleRow(headers, cells[..i])
    {
      var upto := cells[..i + 1];
      assert upto[..i] == cells[..i] && upto[i] == cells[i];
      if i < |headers| {
        CoveredCellStep(headers, upto);
        row := row + ExtractCell(cells[i], headers[i]);
      } else {
        UncoveredCellAddsNothing(headers, upto);
      }
      i := i + 1;
    }
    assert cells[..i] == cells;
  }

  // ---------------------------------------------------------------------------------------
  // What the browser shows

  /** The text of the active page button, read as `int(...)`. A label is taken to be the
      plain decimal form of its number, so "the text changed" (the wait for a new page) and
      "the number changed" agree. */
  datatype PageLabel = Number(n: int) | Unparsable

  /** The tab the affiliate reader may have to activate. */
  datatype TabState = TabMissing | TabInactive(activates: bool) | TabActive

  /** One look for data rows in the table body: rows are there, none yet, or none and the
      table body then fails to reappear. */
  datatype Probe = RowsFound | NoRowsYet | BodyLost

  /** What the reader meets before its first page: the section, the tab, the table, the
      table body, and the successive looks for rows. */
  datatype Setup = Setup(sectionVisible: bool, tab: TabState, tableVisible: bool, bodyPresent: bool, probes: seq<Probe>)

  /** The outcome of one click on the "previous page" button: it cannot be clicked (or the
      page does not change in time), or the active page button then shows a label. */
  datatype PrevStep = PrevFails | PrevShows(shown: PageLabel)

  /** The "next page" button: absent (or never clickable), disabled, or clicked, after
      which the active page button shows a label. */
  datatype NextControl = NextMissing | NextDisabled | NextClicked(shown: PageLabel)

  /** One page of the table: whether its body is found, its header texts, the cells of each
      of its body rows, and its "next page" button. */
  datatype TablePage = TablePage(bodyPresent: bool, headers: seq<string>, rows: seq<seq<Cell>>, next: NextControl)

  /** A whole table: the setup, the label on the active page button when the reader starts,
      the outcomes of the successive "previous" clicks, and the pages from page 1 on. */
  datatype Table = Table(setup: Setup, initialLabel: PageLabel, rewind: seq<PrevStep>, pages: seq<TablePage>)

  // ---------------------------------------------------------------------------------------
  // Setup

  /** The affiliate reader's setup succeeds when the section, the requested tab (if any),
      the table, the body and one data row all appear; any failure is fatal. */
  predicate AffiliateSetupOk(s: Setup, tabRequested: bool) {
    && s.sectionVisible
    && (tabRequested ==> s.tab == TabActive || s.tab == TabInactive(true))
    && s.tableVisible && s.bodyPresent
    && |s.probes| > 0 && s.probes[0] == RowsFound
  }

  /** Of the first three looks for data rows, the first that is not "none yet" finds rows.
      A look past the end of `probes` finds none. */
  function ProbeFrom(probes: seq<Probe>, attempt: nat): bool
    requires attempt <= 3
    decreases 3 - attempt
  {
    if attempt == 3 then false
    else
      var p := if attempt < |probes| then probes[attempt] else NoRowsYet;
      match p
      case RowsFound => true
      case BodyLost => false
      case NoRowsYet => ProbeFrom(probes, attempt + 1)
  }

  /** The investment reader's setup: a tab that cannot be found or activated is tolerated. */
  predicate InvestmentSetupOk(s: Setup) {
    s.sectionVisible && s.tableVisible && s.bodyPresent && ProbeFrom(s.probes, 0)
  }

  /** The investment reader never gives up because of the tab. */
  lemma InvestmentSetupIgnoresTab(s: Setup, t: TabState)
    ensures InvestmentSetupOk(s) == InvestmentSetupOk(s.(tab := t))
  {
  }

  /** Rows found within three looks are enough, and three empty looks are not. */
  lemma {:induction false} ProbeMeaning(probes: seq<Probe>)
    ensures ProbeFrom(probes, 0) <==>
      exists i :: 0 <= i < 3 && i < |probes| && probes[i] == RowsFound && forall j :: 0 <= j < i ==> probes[j] == NoRowsYet
  {
    var P := (i: int) => 0 <= i < 3 && i < |probes| && probes[i] == RowsFound && forall j :: 0 <= j < i ==> probes[j] == NoRowsYet;
    if ProbeFrom(probes, 0) {
      if 0 < |probes| && probes[0] == RowsFound {
        assert P(0);
      } else if 1 < |probes| && probes[1] == RowsFound {
        assert P(1);
      } else {
        assert P(2);
      }
    }
  }

  /** The retry loop of the investment reader. */
  method ProbeRows(probes: seq<Probe>) returns (found: bool)
    ensures found == ProbeFrom(probes, 0)
  {
    var attempt := 0;
    found := false;
    while attempt < 3
      invariant 0 <= attempt <= 3
      invariant ProbeFrom(probes, 0) == ProbeFrom(probes, attempt)
      decreases 3 - attempt
    {
      var p := if attempt < |probes| then probes[attempt] else NoRowsYet;
      if p == RowsFound {
        found := true;
        return;
      } else if p == BodyLost {
        return;
      }
      attempt := attempt + 1;
    }
  }

  // ---------------------------------------------------------------------------------------
  // Back to page 1

  /** The page number the reader starts from: an unreadable label counts as page 1. */
  function StartPage(shown: PageLabel): int {
    if shown.Number? then shown.n else 1
  }

  /** Whether the "previous" clicks bring the table to page 1: each click must show a new,
      readable number, and the walk must end exactly on 1 (a number below 1 ends the walk
      elsewhere). A start at or below 1 succeeds only on 1 itself. */
  function Rewind(current: int, steps: seq<PrevStep>): bool
    decreases |steps|
  {
    if current <= 1 then current == 1
    else if steps == [] then false
    else match steps[0]
      case PrevFails => false
      case PrevShows(shown) =>
        shown.Number? && shown.n != current && Rewind(shown.n, steps[1..])
  }

  /** A successful walk back ends on page 1: it never stops on a page above 1 or below it. */
  lemma {:induction false} RewindReachesOne(current: int, steps: seq<PrevStep>)
    requires Rewind(current, steps)
    ensures current == 1 || exists i :: 0 <= i < |steps| && steps[i] == PrevShows(Number(1))
    decreases |steps|
  {
    if current > 1 {
      var shown := steps[0].shown;
      RewindReachesOne(shown.n, steps[1..]);
      if shown.n != 1 {
        var i :| 0 <= i < |steps[1..]| && steps[1..][i] == PrevShows(Number(1));
        assert steps[i + 1] == PrevShows(Number(1));
      }
    }
  }

  /** The "previous" loop. */
  method RewindToFirst(start: int, steps: seq<PrevStep>) returns (ok: bool)
    ensures ok == Rewind(start, steps)
  {
    var current := start;
    var k := 0;
    if current != 1 {
      while current > 1
        invariant 0 <= k <= |steps|
        invariant Rewind(start, steps) == Rewind(current, steps[k..])
        decreases |steps| - k
      {
        if k == |steps| {
          return false;
        }
        match steps[k]
        case PrevFails =>
          return false;
        case PrevShows(shown) =>
          if shown.Unparsable? || shown.n == current {
            return false;
          }
          current := shown.n;
        assert steps[k..][1..] == steps[k + 1..];
        k := k + 1;
      }
    }
    ok := current == 1;
  }

  // ---------------------------------------------------------------------------------------
  // Pagination

  /** The rows of one page, under the given headers. */
  function PageRows(p: TablePage, headers: seq<string>): (rows: seq<Fields>)
    ensures |rows| == |p.rows|
    ensures forall i :: 0 <= i < |rows| ==> rows[i] == AssembleRow(headers, p.rows[i])
  {
    seq(|p.rows|, i requires 0 <= i < |p.rows| => AssembleRow(headers, p.rows[i]))
  }

  /** Whether page `k` is read and its rows kept, given the headers found so far (`[]`
      before the first page). */
  predicate PageRead(pages: seq<TablePage>, k: nat, headers: seq<string>) {
    k < |pages| && pages[k].bodyPresent
    && (if headers == [] then pages[k].headers else headers) != []
    && pages[k].rows != []
  }

  /** Whether the reader moves on from page `k` (current number `current`) to page `k + 1`:
      the next button is clicked and the active label changes to a readable number. */
  predicate MovesOn(p: TablePage, current: int) {
    p.next.NextClicked? && p.next.shown.Number? && p.next.shown.n != current
  }

  /** The rows read from page `k` on. The headers come from the first page read and are
      kept; the reader stops, keeping what it has, at a missing body, missing headers, an
      empty page, a missing or disabled next button, a label that does not change or cannot
      be read, and when the pages run out. */
  function Paginate(pages: seq<TablePage>, k: nat, headers: seq<string>, current: int): seq<Fields>
    decreases |pages| - k
  {
    if !PageRead(pages, k, headers) then []
    else
      var hs := if headers == [] then pages[k].headers else headers;
      PageRows(pages[k], hs) + (if MovesOn(pages[k], current) then Paginate(pages, k + 1, hs, pages[k].next.shown.n) else [])
  }

  /** The number of pages read from page `k` on. */
  function PagesRead(pages: seq<TablePage>, k: nat, headers: seq<string>, current: int): (n: nat)
    ensures k + n <= |pages| || n == 0
    decreases |pages| - k
  {
    if !PageRead(pages, k, headers) then 0
    else
      var hs := if headers == [] then pages[k].headers else headers;
      1 + (if MovesOn(pages[k], current) then PagesRead(pages, k + 1, hs, pages[k].next.shown.n) else 0)
  }

  /** The rows of pages `k` to `k + n - 1`, in order, under fixed headers. */
  function Concat(pages: seq<TablePage>, k: nat, n: nat, headers: seq<string>): seq<Fields>
    requires k + n <= |pages|
    decreases n
  {
    if n == 0 then [] else PageRows(pages[k], headers) + Concat(pages, k + 1, n - 1, headers)
  }

  /** The reader returns the rows of the pages it reads, in page order, every page read
      under the first page's headers. */
  lemma {:induction false} PaginateIsConcatenation(pages: seq<TablePage>, k: nat, headers: seq<string>, current: int)
    requires headers != [] && k <= |pages|
    ensures Paginate(pages, k, headers, current) == Concat(pages, k, PagesRead(pages, k, headers, current), headers)
    decreases |pages| - k
  {
    if PageRead(pages, k, headers) && MovesOn(pages[k], current) {
      PaginateIsConcatenation(pages, k + 1, headers, pages[k].next.shown.n);
    }
  }

  /** The first page's headers are used for every page: the headers later pages show are
      ignored. */
  lemma {:induction false} LaterHeadersIgnored(pages: seq<TablePage>, k: nat, headers: seq<string>, current: int, other: seq<TablePage>)
    requires headers != []
    requires |other| == |pages|
    requires forall i :: k <= i < |pages| ==> other[i] == pages[i].(headers := other[i].headers)
    ensures Paginate(pages, k, headers, current) == Paginate(other, k, headers, current)
    decreases |pages| - k
  {
    if PageRead(pages, k, headers) {
      assert PageRead(other, k, headers);
      assert PageRows(pages[k], headers) == PageRows(other[k], headers);
      if MovesOn(pages[k], current) {
        LaterHeadersIgnored(pages, k + 1, headers, pages[k].next.shown.n, other);
      }
    }
  }

  /** Every row returned is keyed by the headers in use, their `_link` keys and the exited
      flag only. */
  lemma {:induction false} PaginatedRowKeys(pages: seq<TablePage>, k: nat, headers: seq<string>, current: int)
    requires headers != []
    ensures forall r :: r in Paginate(pages, k, headers, current) ==> r.Keys <= HeaderKeys(headers, |headers|)
    decreases |pages| - k
  {
    if PageRead(pages, k, headers) {
      var rows := PageRows(pages[k], headers);
      forall r | r in rows
        ensures r.Keys <= HeaderKeys(headers, |headers|)
      {
        var i :| 0 <= i < |rows| && rows[i] == r;
        AssembleRowKeys(headers, pages[k].rows[i]);
      }
      if MovesOn(pages[k], current) {
        PaginatedRowKeys(pages, k + 1, headers, pages[k].next.shown.n);
      }
    }
  }

  /** The loop over the body rows of one page. */
  method ReadPageRows(page: TablePage, headers: seq<string>) returns (rows: seq<Fields>)
    ensures rows == PageRows(page, headers)
  {
    ghost var want := PageRows(page, headers);
    rows := [];
    var r := 0;
    while r < |page.rows|
      invariant 0 <= r <= |page.rows|
      invariant rows == want[..r]
    {
      var row := ReadRow(headers, page.rows[r]);
      assert want[..r + 1] == want[..r] + [row];
      rows := rows + [row];
      r := r + 1;
    }
    assert want[..r] == want;
  }

  /** One step of the reader: page `k` is read and the reader moves on. */
  lemma PaginateStep(pages: seq<TablePage>, k: nat, headers: seq<string>, current: int)
    requires PageRead(pages, k, headers)
    ensures var hs := if headers == [] then pages[k].headers else headers;
      Paginate(pages, k, headers, current) ==
      PageRows(pages[k], hs) + (if MovesOn(pages[k], current) then Paginate(pages, k + 1, hs, pages[k].next.shown.n) else [])
  {
  }

  /** Reading one page: its rows, the headers in force afterwards, whether the reader moves
      on, and the page number it moves to. */
  method ReadOnePage(pages: seq<TablePage>, k: nat, headers: seq<string>, current: int)
    returns (pageRows: seq<Fields>, hs: seq<string>, more: bool, next: int)
    requires PageRead(pages, k, headers)
    ensures hs == if headers == [] then pages[k].headers else headers
    ensures hs != []
    ensures Paginate(pages, k, headers, current) == pageRows + (if more then Paginate(pages, k + 1, hs, next) else [])
  {
    PaginateStep(pages, k, headers, current);
    var page := pages[k];
    hs := if headers == [] then page.headers else headers;
    pageRows := ReadPageRows(page, hs);
    more := MovesOn(page, current);
    next := if more then page.next.shown.n else current;
  }

  /** The pagination loop: `headers`, `current`, whether to go on and the accumulated rows
      are its state. */
  method ReadPages(pages: seq<TablePage>) returns (rows: seq<Fields>)
    ensures rows == Paginate(pages, 0, [], 1)
  {
    ghost var total := Paginate(pages, 0, [], 1);
    rows := [];
    var headers: seq<string> := [];
    var current := 1;
    var k := 0;
    var more := true;
    while more && PageRead(pages, k, headers)
      invariant more ==> rows + Paginate(pages, k, headers, current) == total
      invariant !more ==> rows == total
      decreases |pages| - k, more
    {
      var pageRows, hs, next;
      ghost var before := rows;
      pageRows, hs, more, next := ReadOnePage(pages, k, headers, current);
      rows := rows + pageRows;
      if more {
        ConcatAssoc(before, pageRows, Paginate(pages, k + 1, hs, next));
      } else {
        assert pageRows + [] == pageRows;
      }
      headers := hs;
      current := next;
      k := k + 1;
    }
    if more {
      assert rows + [] == rows;
    }
  }

  // ---------------------------------------------------------------------------------------
  // The two readers

  /** What both readers do once set up: walk back to page 1, then read the pages. A table
      that cannot be brought back to page 1 gives no rows. */
  function ReadPositioned(t: Table): seq<Fields> {
    if Rewind(StartPage(t.initialLabel), t.rewind) then Paginate(t.pages, 0, [], 1) else []
  }

  /** `_scrape_affiliate_table_old_logic`. */
  function AffiliateRows(t: Table, tabRequested: bool): seq<Fields> {
    if AffiliateSetupOk(t.setup, tabRequested) then ReadPositioned(t) else []
  }

  /** `_scrape_investments_table` (the second, live definition). */
  function InvestmentRows(t: Table): seq<Fields> {
    if InvestmentSetupOk(t.setup) then ReadPositioned(t) else []
  }

  method ReadPositionedTable(t: Table) returns (rows: seq<Fields>)
    ensures rows == ReadPositioned(t)
  {
    var ok := RewindToFirst(StartPage(t.initialLabel), t.rewind);
    if !ok {
      return [];
    }
    rows := ReadPages(t.pages);
  }

  method ScrapeAffiliateTable(t: Table, tabRequested: bool) returns (rows: seq<Fields>)
    ensures rows == AffiliateRows(t, tabRequested)
  {
    var s := t.setup;
    if !s.sectionVisible {
      return [];
    }
    if tabRequested && !(s.tab == TabActive || s.tab == TabInactive(true)) {
      return [];
    }
    if !s.tableVisible || !s.bodyPresent || |s.probes| == 0 || s.probes[0] != RowsFound {
      return [];
    }
    rows := ReadPositionedTable(t);
  }

  method ScrapeInvestmentsTable(t: Table) returns (rows: seq<Fields>)
    ensures rows == InvestmentRows(t)
  {
    var s := t.setup;
    if !s.sectionVisible || !s.tableVisible || !s.bodyPresent {
      return [];
    }
    var found := ProbeRows(s.probes);
    if !found {
      return [];
    }
    rows := ReadPositionedTable(t);
  }

  /** A table already on page 1 whose first page is readable and whose next button is
      disabled gives exactly that page's rows. */
  lemma SinglePageTable(t: Table)
    requires StartPage(t.initialLabel) == 1
    requires |t.pages| > 0 && PageRead(t.pages, 0, []) && t.pages[0].next == NextDisabled
    ensures ReadPositioned(t) == PageRows(t.pages[0], t.pages[0].headers)
  {
  }

  /** A walk back that fails yields no rows at all, whatever the pages hold. */
  lemma FailedRewindYieldsNothing(t: Table)
    requires !Rewind(StartPage(t.initialLabel), t.rewind)
    ensures AffiliateRows(t, true) == [] && AffiliateRows(t, false) == [] && InvestmentRows(t) == []
  {
  }
}
