/** The reconciliation engine of retool_bot.py: for every company of a crawled tree, search
    the target system by identifier, names and website, select the result rows that match,
    queue the near misses for review, and record the account IDs added. The browser is
    replaced by a search oracle: what the results table shows for a value and a search kind. */
module Reconcile {
  import opened Text
  import opened Records
  import opened Names

  // ---------------------------------------------------------------------------------------
  // The results table

  /** One row of the results table: its "data-item-index" attribute (absent on some rows),
      whether its "aria-selected" attribute is "false", the text of its name cell, and the
      text of its account-ID link (absent when the row has no such link). */
  datatype ResultRow = ResultRow(index: Option<string>, unselected: bool, name: string, accountId: Option<string>)

  /** What a search shows: the empty-state message (or nothing before the wait gives up),
      or rows, `screens[r]` being the rows visible after `r` scrolls. */
  datatype Results = NoRows | Shown(screens: seq<seq<ResultRow>>)

  /** Entering a value with a search kind: `None` when entering it fails. */
  type Search = (string, string) -> Option<Results>

  /** What happens to a result row that is not yet selected. */
  datatype Decision = Select | Review | Ignore

  /** With no company to validate against every row is selected; otherwise a row is
      selected when its name has the company's normal form, queued for review when it is
      merely similar, and ignored otherwise. The company's name is its legal name, or its
      "Name" when that is falsy. */
  function Decide(source: Option<Node>, resultName: string): (d: Decision)
    ensures source.None? ==> d == Select
    ensures d == Review ==> source.Some? && Normalize(NameOf(source.value.fields)) != Normalize(resultName)
  {
    if source.None? then Select
    else
      var want := NameOf(source.value.fields);
      if Normalize(want) == Normalize(resultName) then Select
      else if Similar(want, resultName) then Review
      else Ignore
  }

  /** The review entry for a near miss: a copy of the company with the reason naming the
      result, without its two lists of children. */
  function ReviewEntry(source: Node, resultName: string): Node {
    Node(source.fields["review_reason" := Str("Fuzzy match with Retool result: '" + resultName + "'")], [], [])
  }

  /** A row is selected exactly when its name has the company's normal form, whatever value
      the search was made with. */
  lemma SelectedIffSameNormalForm(source: Node, resultName: string)
    ensures Decide(Some(source), resultName) == Select <==> Normalize(NameOf(source.fields)) == Normalize(resultName)
  {
  }

  /** A row is queued for review exactly when both names are present, their normal forms
      differ, and the company's significant words (longer than two characters) are a
      non-empty subset of the result's words. */
  lemma ReviewedIffSignificantWordsContained(source: Node, resultName: string)
    ensures var want := NameOf(source.fields);
      Decide(Some(source), resultName) == Review <==>
        && want != [] && resultName != []
        && Normalize(want) != Normalize(resultName)
        && SignificantWords(Normalize(want)) != {}
        && SignificantWords(Normalize(want)) <= WordSet(Normalize(resultName))
  {
  }

  /** The exact check has no guard against empty names: a company with neither a legal name
      nor a "Name" selects a row whose name cell is blank. */
  lemma NamelessCompanySelectsBlankRow()
    ensures Decide(Some(Node(map[], [], [])), "") == Select
  {
    assert NameOf(map[]) == [];
  }

  // ---------------------------------------------------------------------------------------
  // `check_and_add_accounts`

  /** The state of the scan: the row indices handled, the account IDs recorded, the number
      of checkboxes clicked, and the review list. */
  datatype Scan = Scan(seen: set<string>, ids: seq<string>, clicked: nat, review: seq<Node>)

  /** A selected row's account ID, stripped, is recorded when the row has one and it is not
      empty. */
  function RecordId(ids: seq<string>, row: ResultRow): seq<string> {
    if row.accountId.Some? && Strip(row.accountId.value) != [] then ids + [Strip(row.accountId.value)] else ids
  }

  /** One row: a row without an index, or whose index was handled already, is passed over;
      otherwise its index is marked handled, and a row not yet selected is decided on. */
  function ScanRow(source: Option<Node>, s: Scan, row: ResultRow): Scan {
    if row.index.None? || row.index.value in s.seen then s
    else
      var seen := s.seen + {row.index.value};
      if !row.unselected then s.(seen := seen)
      else Take(source, s.(seen := seen), row)
  }

  /** The three cases of `ScanRow`: passed over, only marked handled, or decided on. */
  lemma ScanRowCases(source: Option<Node>, s: Scan, row: ResultRow)
    ensures row.index.None? || row.index.value in s.seen ==> ScanRow(source, s, row) == s
    ensures row.index.Some? && row.index.value !in s.seen && !row.unselected ==>
      ScanRow(source, s, row) == s.(seen := s.seen + {row.index.value})
    ensures row.index.Some? && row.index.value !in s.seen && row.unselected ==>
      ScanRow(source, s, row) == Take(source, s.(seen := s.seen + {row.index.value}), row)
  {
  }

  /** The three outcomes of `Take`, one per decision. */
  lemma TakeCases(source: Option<Node>, s: Scan, row: ResultRow)
    ensures var d := Decide(source, Strip(row.name));
      && (d == Select ==> Take(source, s, row) == s.(ids := RecordId(s.ids, row), clicked := s.clicked + 1))
      && (d == Review ==> Take(source, s, row) == s.(review := s.review + [ReviewEntry(source.value, Strip(row.name))]))
      && (d == Ignore ==> Take(source, s, row) == s)
  {
  }

  /** A row not yet selected: its Add button is clicked and its ID recorded, or a review
      entry is queued, or it is left alone. */
  function Take(source: Option<Node>, s: Scan, row: ResultRow): Scan {
    match Decide(source, Strip(row.name))
    case Select => s.(ids := RecordId(s.ids, row), clicked := s.clicked + 1)
    case Review => s.(review := s.review + [ReviewEntry(source.value, Strip(row.name))])
    case Ignore => s
  }

  /** The visible rows, in order. */
  function ScanRows(source: Option<Node>, s: Scan, rows: seq<ResultRow>): Scan
    decreases |rows|
  {
    if rows == [] then s else ScanRows(source, ScanRow(source, s, rows[0]), rows[1..])
  }

  const MaxScrolls: nat := 50

  /** The rows visible after `r` scrolls; scrolling past the last screen shows nothing new. */
  function Screen(screens: seq<seq<ResultRow>>, r: nat): seq<ResultRow> {
    if r < |screens| then screens[r] else []
  }

  /** At most fifty rounds of scanning the visible rows and scrolling; the scan stops early
      after a round that handles no new index. */
  function ScanScreens(source: Option<Node>, s: Scan, screens: seq<seq<ResultRow>>, r: nat, last: nat): Scan
    decreases MaxScrolls - r
  {
    if r >= MaxScrolls then s
    else
      var t := ScanRows(source, s, Screen(screens, r));
      if |t.seen| == last then t else ScanScreens(source, t, screens, r + 1, |t.seen|)
  }

  /** The account IDs recorded, the review list afterwards, and whether "Add Account" is
      pressed. */
  datatype CheckOutcome = CheckOutcome(ids: seq<string>, review: seq<Node>, pressesAdd: bool)

  /** `check_and_add_accounts`: nothing happens when the search shows no rows; otherwise the
      rows are scanned and "Add Account" is pressed when at least one checkbox was clicked. */
  function Check(source: Option<Node>, results: Results, review: seq<Node>): CheckOutcome {
    match results
    case NoRows => CheckOutcome([], review, false)
    case Shown(screens) =>
      var s := ScanScreens(source, Scan({}, [], 0, review), screens, 0, 0);
      CheckOutcome(s.ids, s.review, s.clicked > 0)
  }

  function RowIndices(rows: seq<ResultRow>): set<string> {
    set row | row in rows && row.index.Some? :: row.index.value
  }

  /** The indices shown on screens `r` onwards. */
  function IndicesFrom(screens: seq<seq<ResultRow>>, r: nat): set<string>
    decreases |screens| - r
  {
    if r >= |screens| then {} else RowIndices(screens[r]) + IndicesFrom(screens, r + 1)
  }

  /** What the scan promises between two of its states, with `idx` the indices shown in
      between: handled indices only accumulate, and only shown ones; the IDs and the review
      list are only appended to; every click and every review entry uses up a new index;
      an ID is recorded only with a click, and never an empty one. */
  predicate Grows(s: Scan, t: Scan, idx: set<string>) {
    && s.seen <= t.seen && t.seen <= s.seen + idx
    && s.ids <= t.ids && s.review <= t.review && s.clicked <= t.clicked
    && |t.ids| - |s.ids| <= t.clicked - s.clicked
    && (t.clicked - s.clicked) + (|t.review| - |s.review|) <= |t.seen| - |s.seen|
    && (forall i :: |s.ids| <= i < |t.ids| ==> t.ids[i] != [])
  }

  lemma GrowsTrans(s: Scan, t: Scan, u: Scan, i1: set<string>, i2: set<string>, idx: set<string>)
    requires Grows(s, t, i1) && Grows(t, u, i2) && i1 + i2 <= idx
    ensures Grows(s, u, idx)
  {
    forall i | |s.ids| <= i < |u.ids|
      ensures u.ids[i] != []
    {
      if i < |t.ids| {
        assert u.ids[i] == t.ids[i];
      }
    }
  }

  lemma ScanRowGrows(source: Option<Node>, s: Scan, row: ResultRow)
    ensures Grows(s, ScanRow(source, s, row), RowIndices([row]))
  {
    if row.index.Some? && row.index.value !in s.seen {
      var seen := s.seen + {row.index.value};
      assert row in [row];
      assert |seen| == |s.seen| + 1;
      var t := ScanRow(source, s, row);
      if row.unselected {
        var d := Decide(source, Strip(row.name));
        if d == Select {
          assert t.seen == seen && t.ids == RecordId(s.ids, row) && t.clicked == s.clicked + 1 && t.review == s.review;
        } else if d == Review {
          assert t.seen == seen && t.ids == s.ids && t.clicked == s.clicked && |t.review| == |s.review| + 1;
          assert s.review <= t.review;
        } else {
          assert t == s.(seen := seen);
        }
      } else {
        assert t == s.(seen := seen);
      }
    }
  }

  lemma {:induction false} ScanRowsGrows(source: Option<Node>, s: Scan, rows: seq<ResultRow>)
    ensures Grows(s, ScanRows(source, s, rows), RowIndices(rows))
    decreases |rows|
  {
    if rows == [] {
    } else {
      var t := ScanRow(source, s, rows[0]);
      ScanRowGrows(source, s, rows[0]);
      ScanRowsGrows(source, t, rows[1..]);
      assert RowIndices([rows[0]]) + RowIndices(rows[1..]) <= RowIndices(rows) by {
        assert forall row :: row in [rows[0]] ==> row in rows;
        assert forall row :: row in rows[1..] ==> row in rows;
      }
      GrowsTrans(s, t, ScanRows(source, t, rows[1..]), RowIndices([rows[0]]), RowIndices(rows[1..]), RowIndices(rows));
    }
  }

  lemma {:induction false} ScanScreensGrows(source: Option<Node>, s: Scan, screens: seq<seq<ResultRow>>, r: nat, last: nat)
    ensures Grows(s, ScanScreens(source, s, screens, r, last), IndicesFrom(screens, r))
    decreases MaxScrolls - r
  {
    if r < MaxScrolls {
      var rows := Screen(screens, r);
      var t := ScanRows(source, s, rows);
      ScanRowsGrows(source, s, rows);
      assert RowIndices(rows) <= IndicesFrom(screens, r);
      if |t.seen| != last {
        ScanScreensGrows(source, t, screens, r + 1, |t.seen|);
        GrowsTrans(s, t, ScanScreens(source, t, screens, r + 1, |t.seen|), RowIndices(rows), IndicesFrom(screens, r + 1), IndicesFrom(screens, r));
      }
    }
  }

  lemma {:induction false} SubsetCardinality(a: set<string>, b: set<string>)
    requires a <= b
    ensures |a| <= |b|
  {
    if a != {} {
      var x :| x in a;
      SubsetCardinality(a - {x}, b - {x});
    }
  }

  /** Each row index is handled at most once per call: the IDs recorded and the review
      entries added together never outnumber the distinct indices shown. Review entries are
      only appended, and every recorded ID is non-empty. */
  lemma CheckHandlesIndicesOnce(source: Option<Node>, screens: seq<seq<ResultRow>>, review: seq<Node>)
    ensures review <= Check(source, Shown(screens), review).review
    ensures |Check(source, Shown(screens), review).ids| + (|Check(source, Shown(screens), review).review| - |review|)
      <= |IndicesFrom(screens, 0)|
    ensures forall id :: id in Check(source, Shown(screens), review).ids ==> id != []
  {
    var s := Scan({}, [], 0, review);
    var t := ScanScreens(source, s, screens, 0, 0);
    ScanScreensGrows(source, s, screens, 0, 0);
    SubsetCardinality(t.seen, IndicesFrom(screens, 0));
  }

  /** With no company to validate against, every new row that is not yet selected is
      clicked; a row already selected is only marked handled. */
  lemma NoValidationSelectsEveryRow(s: Scan, row: ResultRow)
    requires row.index.Some? && row.index.value !in s.seen
    ensures row.unselected ==> ScanRow(None, s, row).clicked == s.clicked + 1
    ensures !row.unselected ==> ScanRow(None, s, row) == s.(seen := s.seen + {row.index.value})
  {
  }

  /** A near miss adds exactly one review entry, which carries the company's own entries,
      a reason naming the result, and no children, and clicks nothing. */
  lemma NearMissQueuedOnce(source: Node, s: Scan, row: ResultRow)
    requires row.index.Some? && row.index.value !in s.seen && row.unselected
    requires Normalize(NameOf(source.fields)) != Normalize(Strip(row.name))
    requires Similar(NameOf(source.fields), Strip(row.name))
    ensures var t := ScanRow(Some(source), s, row);
      && t.clicked == s.clicked && t.ids == s.ids
      && t.review == s.review + [ReviewEntry(source, Strip(row.name))]
    ensures var e := ReviewEntry(source, Strip(row.name));
      && e.related == [] && e.nested == []
      && (forall k :: k in source.fields && k != "review_reason" ==> e.fields[k] == source.fields[k])
      && "review_reason" in e.fields
  {
    var name := Strip(row.name);
    assert Decide(Some(source), name) == Review;
    var t := ScanRow(Some(source), s, row);
    assert t == s.(seen := s.seen + {row.index.value}, review := s.review + [ReviewEntry(source, name)]);
    ReviewEntryCopies(source, name);
  }

  /** A review entry keeps every entry of the company but the reason, and drops its children. */
  lemma ReviewEntryCopies(source: Node, resultName: string)
    ensures var e := ReviewEntry(source, resultName);
      && e.related == [] && e.nested == []
      && (forall k :: k in source.fields && k != "review_reason" ==> e.fields[k] == source.fields[k])
      && "review_reason" in e.fields
  {
  }

  /** Every recorded ID comes from a clicked row. */
  predicate IdsCounted(s: Scan) {
    |s.ids| <= s.clicked
  }

  lemma {:induction false} ScanRowsCounted(source: Option<Node>, s: Scan, rows: seq<ResultRow>)
    requires IdsCounted(s)
    ensures IdsCounted(ScanRows(source, s, rows))
    decreases |rows|
  {
    if rows != [] {
      ScanRowsCounted(source, ScanRow(source, s, rows[0]), rows[1..]);
    }
  }

  lemma {:induction false} ScanScreensCounted(source: Option<Node>, s: Scan, screens: seq<seq<ResultRow>>, r: nat, last: nat)
    requires IdsCounted(s)
    ensures IdsCounted(ScanScreens(source, s, screens, r, last))
    decreases MaxScrolls - r
  {
    if r < MaxScrolls {
      var t := ScanRows(source, s, Screen(screens, r));
      ScanRowsCounted(source, s, Screen(screens, r));
      if |t.seen| != last {
        ScanScreensCounted(source, t, screens, r + 1, |t.seen|);
      }
    }
  }

  /** Account IDs are recorded only when "Add Account" is then pressed, and never when the
      search shows no rows. */
  lemma IdsRecordedOnlyWithAdd(source: Option<Node>, results: Results, review: seq<Node>)
    ensures Check(source, results, review).ids != [] ==> Check(source, results, review).pressesAdd
    ensures results.NoRows? ==> Check(source, results, review) == CheckOutcome([], review, false)
  {
    if results.Shown? {
      ScanScreensCounted(source, Scan({}, [], 0, review), results.screens, 0, 0);
    }
  }

  // ---------------------------------------------------------------------------------------
  // `input_company_data`

  /** One search: the value, the search kind, and whether results are validated against the
      company's name. */
  datatype Attempt = Attempt(value: string, kind: string, validate: bool)

  /** The company keys searched, in order, with their search kinds; only the three name keys
      validate results. */
  const SearchKeys: seq<(string, Attempt)> := [
    ("pb_id", Attempt("", "Pitchbook ID", false)),
    ("legal_name", Attempt("", "Name", true)),
    ("former_names", Attempt("", "Name", true)),
    ("also_known_as", Attempt("", "Name", true)),
    ("website_link", Attempt("", "Website", false))
  ]

  /** The searches made for a company: one per key of `keys` whose value is truthy, in order. */
  function AttemptsFor(f: Fields, keys: seq<(string, Attempt)>): (r: seq<Attempt>)
    ensures |r| <= |keys|
  {
    if keys == [] then []
    else
      var (k, a) := keys[0];
      (if Truthy(Get(f, k)) then [a.(value := AsText(Get(f, k)))] else []) + AttemptsFor(f, keys[1..])
  }

  function Attempts(f: Fields): seq<Attempt> {
    AttemptsFor(f, SearchKeys)
  }

  /** The five searches of a company that has all five values, in their fixed order. */
  lemma AttemptsInOrder(f: Fields, id: string, legal: string, former: string, aka: string, site: string)
    requires id != [] && legal != [] && former != [] && aka != [] && site != []
    requires Get(f, "pb_id") == Str(id) && Get(f, "legal_name") == Str(legal) && Get(f, "former_names") == Str(former)
    requires Get(f, "also_known_as") == Str(aka) && Get(f, "website_link") == Str(site)
    ensures Attempts(f) == [
      Attempt(id, "Pitchbook ID", false), Attempt(legal, "Name", true), Attempt(former, "Name", true),
      Attempt(aka, "Name", true), Attempt(site, "Website", false)]
  {
    assert AttemptsFor(f, SearchKeys[5..]) == [];
    assert AttemptsFor(f, SearchKeys[4..]) == [Attempt(site, "Website", false)];
    assert AttemptsFor(f, SearchKeys[3..]) == [Attempt(aka, "Name", true), Attempt(site, "Website", false)];
    assert AttemptsFor(f, SearchKeys[2..]) == [Attempt(former, "Name", true), Attempt(aka, "Name", true), Attempt(site, "Website", false)];
    assert AttemptsFor(f, SearchKeys[1..]) == [
      Attempt(legal, "Name", true), Attempt(former, "Name", true), Attempt(aka, "Name", true), Attempt(site, "Website", false)];
  }

  /** A falsy value is never searched, and only name searches validate results. */
  lemma {:induction false} AttemptsSkipFalsy(f: Fields, keys: seq<(string, Attempt)>)
    requires forall i :: 0 <= i < |keys| ==> (keys[i].1.validate <==> keys[i].1.kind == "Name")
    ensures forall a :: a in AttemptsFor(f, keys) ==> (a.validate <==> a.kind == "Name")
    ensures forall a :: a in AttemptsFor(f, keys) ==>
      exists i :: 0 <= i < |keys| && Truthy(Get(f, keys[i].0)) && a == keys[i].1.(value := AsText(Get(f, keys[i].0)))
  {
    if keys != [] {
      AttemptsSkipFalsy(f, keys[1..]);
      forall a | a in AttemptsFor(f, keys)
        ensures exists i :: 0 <= i < |keys| && Truthy(Get(f, keys[i].0)) && a == keys[i].1.(value := AsText(Get(f, keys[i].0)))
      {
        if a !in AttemptsFor(f, keys[1..]) {
          assert Truthy(Get(f, keys[0].0)) && a == keys[0].1.(value := AsText(Get(f, keys[0].0)));
        } else {
          var i :| 0 <= i < |keys[1..]| && Truthy(Get(f, keys[1..][i].0)) && a == keys[1..][i].1.(value := AsText(Get(f, keys[1..][i].0)));
          assert keys[1..][i] == keys[i + 1];
        }
      }
    }
  }

  /** The IDs of a run of searches, and the review list afterwards. */
  datatype Inputs = Inputs(ids: seq<string>, review: seq<Node>)

  /** One search: a failed entry adds nothing; otherwise its results are checked, against
      the company when the search validates. */
  function RunAttempt(search: Search, node: Node, a: Attempt, review: seq<Node>): CheckOutcome {
    var res := search(a.value, a.kind);
    if res.None? then CheckOutcome([], review, false)
    else Check(if a.validate then Some(node) else None, res.value, review)
  }

  /** Every search runs, whatever the earlier ones found. */
  function RunAttempts(search: Search, node: Node, attempts: seq<Attempt>, review: seq<Node>): Inputs {
    if attempts == [] then Inputs([], review)
    else
      var o := RunAttempt(search, node, attempts[0], review);
      var rest := RunAttempts(search, node, attempts[1..], o.review);
      Inputs(o.ids + rest.ids, rest.review)
  }

  /** One step of a run of searches. */
  lemma RunAttemptsStep(search: Search, node: Node, attempts: seq<Attempt>, review: seq<Node>)
    requires attempts != []
    ensures var o := RunAttempt(search, node, attempts[0], review);
      var rest := RunAttempts(search, node, attempts[1..], o.review);
      && RunAttempts(search, node, attempts, review).ids == o.ids + rest.ids
      && RunAttempts(search, node, attempts, review).review == rest.review
  {
  }

  /** The IDs added for a company (without repeats) and the review list afterwards. */
  datatype Added = Added(ids: set<string>, review: seq<Node>)

  /** `input_company_data`. */
  function InputCompany(search: Search, node: Node, review: seq<Node>): Added {
    var r := RunAttempts(search, node, Attempts(node.fields), review);
    Added((set id | id in r.ids), r.review)
  }

  lemma RunAttemptGrows(search: Search, node: Node, a: Attempt, review: seq<Node>)
    ensures review <= RunAttempt(search, node, a, review).review
    ensures forall id :: id in RunAttempt(search, node, a, review).ids ==> id != []
  {
    var res := search(a.value, a.kind);
    if res.Some? && res.value.Shown? {
      CheckHandlesIndicesOnce(if a.validate then Some(node) else None, res.value.screens, review);
    }
  }

  lemma {:induction false} RunAttemptsGrows(search: Search, node: Node, attempts: seq<Attempt>, review: seq<Node>)
    ensures review <= RunAttempts(search, node, attempts, review).review
    ensures forall id :: id in RunAttempts(search, node, attempts, review).ids ==> id != []
  {
    if attempts != [] {
      var o := RunAttempt(search, node, attempts[0], review);
      RunAttemptGrows(search, node, attempts[0], review);
      RunAttemptsGrows(search, node, attempts[1..], o.review);
    }
  }

  /** A company's searches only append to the review list, and every ID they add is
      non-empty. */
  lemma InputCompanyGrows(search: Search, node: Node, review: seq<Node>)
    ensures review <= InputCompany(search, node, review).review
    ensures forall id :: id in InputCompany(search, node, review).ids ==> id != []
  {
    RunAttemptsGrows(search, node, Attempts(node.fields), review);
  }

  // ---------------------------------------------------------------------------------------
  // `process_pitchbook_hierarchy`

  /** The key under which a company is processed once: its truthy "pb_id", otherwise its
      normalised name. */
  function NodeKey(f: Fields): string {
    if Truthy(Get(f, "pb_id")) then AsText(Get(f, "pb_id")) else Normalize(NameOf(f))
  }

  /** The IDs already listed under "added_account_ids". */
  function ExistingIds(v: Value): set<string> {
    match v
    case Strs(items) => set id | id in items
    case Ids(ids) => ids
    case _ => {}
  }

  /** The result of the walk from one company: the updated company, the processed keys, the
      keys claimed in order, and the review list. */
  datatype Walk = Walk(node: Node, processed: set<string>, keys: seq<string>, review: seq<Node>)

  datatype WalkAll = WalkAll(nodes: seq<Node>, processed: set<string>, keys: seq<string>, review: seq<Node>)

  /** `process_pitchbook_hierarchy`: a company without a key, or whose key was processed
      already, is returned as it is and its children are not visited. Otherwise its key is
      claimed, it is searched for, the IDs found join its "added_account_ids" without
      repeats, and its related companies and then its nested related companies are walked. */
  function Process(search: Search, n: Node, processed: set<string>, review: seq<Node>): Walk
    decreases n, 1
  {
    var key := NodeKey(n.fields);
    if key == [] || key in processed then Walk(n, processed, [], review)
    else
      var input := InputCompany(search, n, review);
      var fields := n.fields["added_account_ids" := Ids(ExistingIds(Get(n.fields, "added_account_ids")) + input.ids)];
      var rel := ProcessAll(search, n.related, processed + {key}, input.review);
      var nest := ProcessAll(search, n.nested, rel.processed, rel.review);
      Walk(Node(fields, rel.nodes, nest.nodes), nest.processed, [key] + rel.keys + nest.keys, nest.review)
  }

  function ProcessAll(search: Search, ns: seq<Node>, processed: set<string>, review: seq<Node>): WalkAll
    decreases ns, 0
  {
    if ns == [] then WalkAll([], processed, [], review)
    else
      var w := Process(search, ns[0], processed, review);
      var rest := ProcessAll(search, ns[1..], w.processed, w.review);
      WalkAll([w.node] + rest.nodes, rest.processed, w.keys + rest.keys, rest.review)
  }

  /** What the claimed keys promise: the processed set grows by exactly them, none is
      claimed twice, none was processed before, and none is empty. */
  predicate KeysSound(keys: seq<string>, before: set<string>, after: set<string>) {
    && after == before + (set k | k in keys)
    && (forall i, j :: 0 <= i < j < |keys| ==> keys[i] != keys[j])
    && (forall k :: k in keys ==> k !in before && k != [])
  }

  lemma KeysAppend(a: seq<string>, b: seq<string>, p0: set<string>, p1: set<string>, p2: set<string>)
    requires KeysSound(a, p0, p1) && KeysSound(b, p1, p2)
    ensures KeysSound(a + b, p0, p2)
  {
    var ks := a + b;
    assert (set k | k in ks) == (set k | k in a) + (set k | k in b);
    forall i, j | 0 <= i < j < |ks|
      ensures ks[i] != ks[j]
    {
      if i < |a| && j >= |a| {
        assert ks[i] in a && ks[j] == b[j - |a|] && b[j - |a|] in b;
      } else if i >= |a| {
        assert ks[i] == b[i - |a|] && ks[j] == b[j - |a|];
      }
    }
  }

  /** Every company is processed at most once per run: each key is claimed once, never one
      processed before, and the processed set only grows, by exactly the claimed keys. The
      review list is only appended to. */
  lemma {:induction false} ProcessOnce(search: Search, n: Node, processed: set<string>, review: seq<Node>)
    ensures KeysSound(Process(search, n, processed, review).keys, processed, Process(search, n, processed, review).processed)
    ensures review <= Process(search, n, processed, review).review
    decreases n, 1
  {
    var key := NodeKey(n.fields);
    if key != [] && key !in processed {
      var input := InputCompany(search, n, review);
      InputCompanyGrows(search, n, review);
      var p1 := processed + {key};
      var rel := ProcessAll(search, n.related, p1, input.review);
      ProcessAllOnce(search, n.related, p1, input.review);
      var nest := ProcessAll(search, n.nested, rel.processed, rel.review);
      ProcessAllOnce(search, n.nested, rel.processed, rel.review);
      ClaimThenWalk(key, processed, rel.keys, rel.processed, nest.keys, nest.processed);
    }
  }

  /** Claiming a new key and then walking the two lists of children claims keys soundly. */
  lemma ClaimThenWalk(key: string, processed: set<string>, relKeys: seq<string>, relProcessed: set<string>,
                      nestKeys: seq<string>, nestProcessed: set<string>)
    requires key != [] && key !in processed
    requires KeysSound(relKeys, processed + {key}, relProcessed)
    requires KeysSound(nestKeys, relProcessed, nestProcessed)
    ensures KeysSound([key] + relKeys + nestKeys, processed, nestProcessed)
  {
    assert KeysSound([key], processed, processed + {key});
    KeysAppend([key], relKeys, processed, processed + {key}, relProcessed);
    KeysAppend([key] + relKeys, nestKeys, processed, relProcessed, nestProcessed);
  }

  lemma {:induction false} ProcessAllOnce(search: Search, ns: seq<Node>, processed: set<string>, review: seq<Node>)
    ensures KeysSound(ProcessAll(search, ns, processed, review).keys, processed, ProcessAll(search, ns, processed, review).processed)
    ensures review <= ProcessAll(search, ns, processed, review).review
    decreases ns, 0
  {
    if ns != [] {
      var w := Process(search, ns[0], processed, review);
      ProcessOnce(search, ns[0], processed, review);
      ProcessAllOnce(search, ns[1..], w.processed, w.review);
      var rest := ProcessAll(search, ns[1..], w.processed, w.review);
      KeysAppend(w.keys, rest.keys, processed, w.processed, rest.processed);
    }
  }

  /** A company without a key, or whose key was processed already, is left as it is, with no
      search and no change to the processed set. */
  lemma SkippedCompanyUntouched(search: Search, n: Node, processed: set<string>, review: seq<Node>)
    requires NodeKey(n.fields) == [] || NodeKey(n.fields) in processed
    ensures Process(search, n, processed, review) == Walk(n, processed, [], review)
  {
  }

  /** A processed company keeps its other entries and its number of children, and its
      "added_account_ids" becomes the union, without repeats, of the IDs it listed and the
      IDs its searches added. */
  lemma ProcessedCompanyShape(search: Search, n: Node, processed: set<string>, review: seq<Node>)
    requires NodeKey(n.fields) != [] && NodeKey(n.fields) !in processed
    ensures var w := Process(search, n, processed, review);
      && w.node.fields.Keys == n.fields.Keys + {"added_account_ids"}
      && (forall k :: k in n.fields && k != "added_account_ids" ==> w.node.fields[k] == n.fields[k])
      && w.node.fields["added_account_ids"]
           == Ids(ExistingIds(Get(n.fields, "added_account_ids")) + InputCompany(search, n, review).ids)
      && |w.node.related| == |n.related| && |w.node.nested| == |n.nested|
      && NodeKey(n.fields) in w.processed
  {
    var key := NodeKey(n.fields);
    var input := InputCompany(search, n, review);
    var rel := ProcessAll(search, n.related, processed + {key}, input.review);
    ProcessAllLength(search, n.related, processed + {key}, input.review);
    ProcessAllLength(search, n.nested, rel.processed, rel.review);
    ProcessAllOnce(search, n.related, processed + {key}, input.review);
    ProcessAllOnce(search, n.nested, rel.processed, rel.review);
  }

  lemma {:induction false} ProcessAllLength(search: Search, ns: seq<Node>, processed: set<string>, review: seq<Node>)
    ensures |ProcessAll(search, ns, processed, review).nodes| == |ns|
    decreases |ns|
  {
    if ns != [] {
      var w := Process(search, ns[0], processed, review);
      ProcessAllLength(search, ns[1..], w.processed, w.review);
    }
  }

  /** One step of the walk over a list of companies. */
  lemma ProcessAllStep(search: Search, ns: seq<Node>, processed: set<string>, review: seq<Node>)
    requires ns != []
    ensures var w := Process(search, ns[0], processed, review);
      var rest := ProcessAll(search, ns[1..], w.processed, w.review);
      && ProcessAll(search, ns, processed, review).nodes == [w.node] + rest.nodes
      && ProcessAll(search, ns, processed, review).processed == rest.processed
      && ProcessAll(search, ns, processed, review).review == rest.review
  {
  }

  // ---------------------------------------------------------------------------------------
  // The bot

  class Reconciler {
    const search: Search
    /** `processed_nodes_set`. */
    var processed: set<string>
    /** `companies_for_review`. */
    var review: seq<Node>

    constructor (search: Search)
      ensures this.search == search
      ensures processed == {} && review == []
    {
      this.search := search;
      processed := {};
      review := [];
    }

    /** `check_and_add_accounts`, with the scroll loop and the loop over the visible rows. */
    method CheckAndAddAccounts(source: Option<Node>, results: Results) returns (ids: seq<string>, pressesAdd: bool)
      modifies this
      ensures ids == Check(source, results, old(review)).ids
      ensures review == Check(source, results, old(review)).review
      ensures pressesAdd == Check(source, results, old(review)).pressesAdd
      ensures processed == old(processed)
    {
      if results.NoRows? {
        return [], false;
      }
      var screens := results.screens;
      ghost var whole := ScanScreens(source, Scan({}, [], 0, review), screens, 0, 0);
      var seen: set<string> := {};
      ids := [];
      var clicked: nat := 0;
      var last: nat := 0;
      var scrolls: nat := 0;
      while scrolls < MaxScrolls
        invariant processed == old(processed)
        invariant ScanScreens(source, Scan(seen, ids, clicked, review), screens, scrolls, last) == whole
      {
        var rows := Screen(screens, scrolls);
        ghost var start := Scan(seen, ids, clicked, review);
        var j := 0;
        while j < |rows|
          invariant 0 <= j <= |rows|
          invariant processed == old(processed)
          invariant ScanRows(source, Scan(seen, ids, clicked, review), rows[j..]) == ScanRows(source, start, rows)
        {
          assert rows[j..][1..] == rows[j + 1..];
          seen, ids, clicked := HandleRow(source, rows[j], seen, ids, clicked);
          j := j + 1;
        }
        assert rows[j..] == [];
        if |seen| == last {
          break;
        }
        last := |seen|;
        scrolls := scrolls + 1;
      }
      pressesAdd := clicked > 0;
    }

    /** One visible row. */
    method HandleRow(source: Option<Node>, row: ResultRow, seen: set<string>, ids: seq<string>, clicked: nat)
      returns (seen': set<string>, ids': seq<string>, clicked': nat)
      modifies this
      ensures Scan(seen', ids', clicked', review) == ScanRow(source, Scan(seen, ids, clicked, old(review)), row)
      ensures processed == old(processed)
    {
      ScanRowCases(source, Scan(seen, ids, clicked, review), row);
      seen', ids', clicked' := seen, ids, clicked;
      if row.index.None? || row.index.value in seen {
        return;
      }
      seen' := seen + {row.index.value};
      if !row.unselected {
        return;
      }
      var t := TakeRow(source, row, Scan(seen', ids, clicked, review));
      ids', clicked', review := t.ids, t.clicked, t.review;
    }

    /** The click, the review entry, or nothing, for a row not yet selected. */
    method TakeRow(source: Option<Node>, row: ResultRow, s: Scan) returns (t: Scan)
      ensures t == Take(source, s, row)
    {
      var resultName := Strip(row.name);
      var decision := Decide(source, resultName);
      TakeCases(source, s, row);
      if decision == Select {
        t := s.(ids := RecordId(s.ids, row), clicked := s.clicked + 1);
      } else if decision == Review {
        t := s.(review := s.review + [ReviewEntry(source.value, resultName)]);
      } else {
        t := s;
      }
    }

    /** `input_company_data`: the searches in order, each checked, the IDs gathered. */
    method InputCompanyData(node: Node) returns (ids: set<string>)
      modifies this
      ensures ids == InputCompany(search, node, old(review)).ids
      ensures review == InputCompany(search, node, old(review)).review
      ensures processed == old(processed)
    {
      var attempts := Attempts(node.fields);
      ghost var whole := RunAttempts(search, node, attempts, review);
      var all: seq<string> := [];
      var i := 0;
      while i < |attempts|
        invariant 0 <= i <= |attempts|
        invariant processed == old(processed)
        invariant all + RunAttempts(search, node, attempts[i..], review).ids == whole.ids
        invariant RunAttempts(search, node, attempts[i..], review).review == whole.review
      {
        all := SearchNext(node, attempts, i, all);
        i := i + 1;
      }
      assert attempts[i..] == [];
      ids := set id | id in all;
    }

    /** Search `i` of the run: its IDs are appended to those gathered so far. */
    method SearchNext(node: Node, attempts: seq<Attempt>, i: nat, all: seq<string>) returns (more: seq<string>)
      requires i < |attempts|
      modifies this
      ensures more + RunAttempts(search, node, attempts[i + 1..], review).ids
        == all + RunAttempts(search, node, attempts[i..], old(review)).ids
      ensures RunAttempts(search, node, attempts[i + 1..], review).review
        == RunAttempts(search, node, attempts[i..], old(review)).review
      ensures processed == old(processed)
    {
      var tail := attempts[i..];
      assert tail[1..] == attempts[i + 1..];
      RunAttemptsStep(search, node, tail, review);
      var found := SearchOnce(node, attempts[i]);
      ghost var rest := RunAttempts(search, node, attempts[i + 1..], review).ids;
      more := all + found;
      assert more + rest == all + (found + rest);
    }

    /** One search of `input_company_data`: entering the value, then checking the results. */
    method SearchOnce(node: Node, a: Attempt) returns (found: seq<string>)
      modifies this
      ensures found == RunAttempt(search, node, a, old(review)).ids
      ensures review == RunAttempt(search, node, a, old(review)).review
      ensures processed == old(processed)
    {
      var res := search(a.value, a.kind);
      found := [];
      if res.Some? {
        var source := if a.validate then Some(node) else None;
        var pressed;
        found, pressed := CheckAndAddAccounts(source, res.value);
      }
    }

    /** `process_pitchbook_hierarchy`. */
    method ProcessHierarchy(node: Node) returns (updated: Node)
      modifies this
      ensures updated == Process(search, node, old(processed), old(review)).node
      ensures processed == Process(search, node, old(processed), old(review)).processed
      ensures review == Process(search, node, old(processed), old(review)).review
      decreases node, 1
    {
      var key := NodeKey(node.fields);
      if key == [] || key in processed {
        return node;
      }
      processed := processed + {key};
      var ids := InputCompanyData(node);
      var fields := node.fields["added_account_ids" := Ids(ExistingIds(Get(node.fields, "added_account_ids")) + ids)];
      var related := ProcessList(node.related);
      var nested := ProcessList(node.nested);
      updated := Node(fields, related, nested);
    }

    /** The loop over one list of children. */
    method ProcessList(children: seq<Node>) returns (updated: seq<Node>)
      modifies this
      ensures updated == ProcessAll(search, children, old(processed), old(review)).nodes
      ensures processed == ProcessAll(search, children, old(processed), old(review)).processed
      ensures review == ProcessAll(search, children, old(processed), old(review)).review
      decreases children, 0
    {
      ghost var whole := ProcessAll(search, children, processed, review);
      updated := [];
      var i := 0;
      while i < |children|
        invariant 0 <= i <= |children|
        invariant updated + ProcessAll(search, children[i..], processed, review).nodes == whole.nodes
        invariant ProcessAll(search, children[i..], processed, review).processed == whole.processed
        invariant ProcessAll(search, children[i..], processed, review).review == whole.review
      {
        var tail := children[i..];
        assert tail[1..] == children[i + 1..];
        ProcessAllStep(search, tail, processed, review);
        var child := ProcessHierarchy(children[i]);
        updated := updated + [child];
        i := i + 1;
      }
      assert children[i..] == [];
    }
  }
}
