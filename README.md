# PitchBook tree crawler and Retool reconciliation — a Dafny model

This project models the data-handling core of a PitchBook-to-Retool tool, in Dafny. It has
three parts:

- **The crawler** (`pb_tree_crawler.py`). It reads a company's PitchBook profile and its
  affiliate and investment tables, page by page. It follows each related company's profile
  link, down to a maximum depth, and visits each profile URL once. The result is a tree of
  companies, which it exports as a flat CSV table.
- **The reconciliation engine** (`retool_bot.py`). It walks that tree and, for each company
  not yet processed, searches the Retool account list by Pitchbook ID, names and website.
  - It decides, row by row, which result rows to select. An exact normalised-name match is
    selected, a near miss is queued for human review, and anything else is ignored.
  - It records the account IDs it added on the company.
  - It appends the review queue to a JSON file.
  - It also builds the lookup map from Pitchbook IDs and normalised names to company details.
- **The viewer helpers** (`company_viewer.py`). These are the display labels for keys, the
  profile ID taken from a company's URLs, the scheme added to links, and which detail lines a
  company shows.

The browser, the Retool web application and the file system are replaced by plain values:

- A profile page is a record of what the page shows.
- A table is a record of its setup, the outcome of its "previous page" clicks, and its pages.
- A Retool search is a function from a search value and kind to the rows it shows, screen by
  screen.
- A stored file is what reading it gives.

Where the source updates an object in place, the model is a class whose methods are proved
equal to a specification function:

- `Crawler.WebScraper` keeps the visited set.
- `Reconcile.Reconciler` keeps the processed set and the review list.
- `LookupMap.LookupBuilder` keeps the map being built.

The properties are proved about those specification functions.

Files:

| file | module | models |
|---|---|---|
| `text.dfy` | `Text` | string helpers: ASCII case, punctuation, whitespace words, split, strip, join |
| `records.dfy` | `Records` | JSON-like values, dictionaries and company nodes, Python truthiness |
| `names.dfy` | `Names` | `normalize_name` and `are_names_similar` |
| `table_reader.dfy` | `TableReader` | cell extraction, row assembly, table setup, rewind to page 1 and pagination |
| `crawler.dfy` | `Crawler` | `_clean_url`, `_prepare_related_companies_for_recursion`, `scrape_profile_and_affiliates` |
| `csv_export.dfy` | `CsvExport` | `save_to_csv`: flattening and header order |
| `reconcile.dfy` | `Reconcile` | `check_and_add_accounts`, `input_company_data`, `process_pitchbook_hierarchy` |
| `lookup_map.dfy` | `LookupMap` | `load_company_data_from_json` |
| `review_file.dfy` | `ReviewFile` | `write_companies_to_review_json` |
| `viewer.dfy` | `Viewer` | `clean_key`, `extract_pitchbook_id`, `open_link`, `_display_company_details` |

## Model

| member | source | states |
|---|---|---|
| Text.Strip | retool_bot.py:769 | a stripped string neither starts nor ends with whitespace |
| Text.StripSlice | retool_bot.py:769 | the stripped string is a slice of the input with only whitespace before and after it, so `strip` removes whitespace and only at the two ends |
| Text.SplitOn | company_viewer.py:48 | splitting yields at least one piece, no piece contains the separator, and joining the pieces with the separator gives back the input |
| Names.Normalize | retool_bot.py:77-84 | an absent or empty name gives ""; every result is lower case, has no punctuation and no suffix word, with single spaces between words and none at either end; for a present name, its words are the words of the lowered name without punctuation, minus the suffix words, in order |
| Names.NormalizeIdempotent | retool_bot.py:77-84 | normalising a normalised name changes nothing |
| Names.SuffixOnlyNameVanishes | retool_bot.py:77-84 | a name made only of corporate suffixes normalises to "" |
| Names.SuffixOnlyNamesMatch | retool_bot.py:229-253 | two names made only of suffixes (e.g. "Inc." and "LLC") normalise alike and count as similar |
| Names.SimilarWhenEqualForms | retool_bot.py:241-246 | present names with equal normal forms are similar in both directions |
| Names.SimilarOnNormalForms | retool_bot.py:241-253 | similarity depends only on the normal forms of the two names |
| TableReader.ExtractCell | pb_tree_crawler.py:263-302 | a cell gives exactly its text, its link and the exited flag; the flag is set only in a name column with an "x" foot-note |
| TableReader.CellTextAndLink | pb_tree_crawler.py:267-287 | without a link the stripped cell text and an empty link are stored; with one, the link's stripped text and its address |
| TableReader.HoverLinkWins | pb_tree_crawler.py:274-283 | the entity-hover link is used whatever other link the cell has |
| TableReader.FootnotesIgnoredOutsideNameColumns | pb_tree_crawler.py:289-300 | foot-notes matter only in "Name" and "Company Name" columns |
| TableReader.AssembleRowKeys | pb_tree_crawler.py:1105-1112 | a row holds exactly the entries of the cells that have a header |
| TableReader.ExtraCellsIgnored | pb_tree_crawler.py:1108-1109 | cells beyond the headers are ignored |
| TableReader.ExitedFlagOfLastCell | pb_tree_crawler.py:290-298 | a row's exited flag is that of its last covered cell, because each cell writes it |
| TableReader.ReadRow | pb_tree_crawler.py:1105-1112 | the loop over a row's cells builds exactly the assembled row (whose key set `TableReader.AssembleRowKeys` gives) |
| TableReader.ProbeMeaning | pb_tree_crawler.py:1008-1027 | the setup finds rows exactly when, among the first three looks, rows appear before any look fails |
| TableReader.ProbeRows | pb_tree_crawler.py:1008-1027 | the retry loop decides as the probe specification does |
| TableReader.InvestmentSetupIgnoresTab | pb_tree_crawler.py:962-985 | the investment reader does not give up over the tab |
| TableReader.RewindReachesOne | pb_tree_crawler.py:1040-1083 | a successful rewind starts on page 1 or ends on a click that shows page 1 |
| TableReader.RewindToFirst | pb_tree_crawler.py:1040-1083 | the "previous" loop succeeds exactly as the rewind specification says |
| TableReader.PaginateIsConcatenation | pb_tree_crawler.py:1085-1141 | the rows read are the concatenation of the rows of the pages read, in page order |
| TableReader.LaterHeadersIgnored | pb_tree_crawler.py:1089-1096 | the headers of the first page read are used for every later page |
| TableReader.PaginatedRowKeys | pb_tree_crawler.py:1085-1141 | every row read has only keys derived from the headers |
| TableReader.ReadPageRows | pb_tree_crawler.py:1105-1112 | the loop over a page's rows yields one assembled row per row, in order |
| TableReader.ReadPages | pb_tree_crawler.py:1085-1141 | the pagination loop returns exactly the paginated rows |
| TableReader.ScrapeAffiliateTable | pb_tree_crawler.py:339-524 | the affiliate reader returns the rows of its specification: nothing on a failed setup or rewind |
| TableReader.ScrapeInvestmentsTable | pb_tree_crawler.py:943-1141 | the investment reader returns the rows of its specification |
| TableReader.SinglePageTable | pb_tree_crawler.py:1114-1119 | a table on page 1 whose next button is disabled yields just its first page |
| TableReader.FailedRewindYieldsNothing | pb_tree_crawler.py:458-460 | when page 1 cannot be reached, both readers return no rows |
| Crawler.CleanUrl | pb_tree_crawler.py:929-941 | an empty URL gives `None`; a cleaned URL is never longer than the original |
| Crawler.CleanPlainUrl | pb_tree_crawler.py:929-941 | a URL without a scheme loses exactly one trailing "/" |
| Crawler.CleanSchemeUrl | pb_tree_crawler.py:929-941 | a URL starting with "http://" or "https://" and holding no other scheme loses that scheme and exactly one trailing "/" |
| Crawler.CleanTwice | pb_tree_crawler.py:1264 | cleaning twice, as a merged child's website is, drops the scheme ("http://", "https://" or none) and two trailing slashes |
| Crawler.Tagged | pb_tree_crawler.py:330-334 | a kept row is tagged with its source, has an empty nested list and loses the exited flag |
| Crawler.PreparedOfConcat | pb_tree_crawler.py:309-336 | preparing keeps row order: preparing a concatenation concatenates the results |
| Crawler.PreparedLength | pb_tree_crawler.py:317-328 | only investment rows can be dropped; affiliate rows are all kept |
| Crawler.PreparedRowsShape | pb_tree_crawler.py:304-337 | every prepared row comes from a kept, renamed input row, with its source tag and no exited flag |
| Crawler.InvestmentRowDropped | pb_tree_crawler.py:317-328 | an investment whose deal type is not "Merger/Acquisition", or that is exited, is dropped |
| Crawler.PrepareRelated | pb_tree_crawler.py:304-337 | the preparation loop returns the prepared rows |
| Crawler.BaseProfile | pb_tree_crawler.py:1147-1168 | a fresh profile has its URL, depth and "scraped" status, with every attribute `None` |
| Crawler.VisitedOrTooDeep | pb_tree_crawler.py:1171-1181 | a visited URL gives the "already_visited" stub, and a depth beyond the maximum gives `None`; neither claims a URL |
| Crawler.StubShape | pb_tree_crawler.py:1174-1177 | the stub carries the URL, the "already_visited" status and no related companies |
| Crawler.CrawlClaims | pb_tree_crawler.py:1144-1332 | a crawl visits each URL at most once, never one visited before, and only at depths between the start and the maximum |
| Crawler.VisitedGrows | pb_tree_crawler.py:1183 | the visited set only grows |
| Crawler.MergeRowsShape | pb_tree_crawler.py:1251-1330 | each related row keeps its own entries and gains the attribute keys; a row whose link is not followed gets `None` attributes and no nested list |
| Crawler.MergedRowCarriesChild | pb_tree_crawler.py:1262-1277 | a followed child's attributes are copied (its website cleaned again) and its related companies become the nested list |
| Crawler.CrawledRelatedRows | pb_tree_crawler.py:1218-1244 | a newly crawled profile has one related row per prepared affiliate and investment, in order; each keeps its own entries outside the sixteen attributes and gains those attributes, and a row whose link is not followed has them set to None |
| Crawler.WebScraper.ScrapeProfileAndAffiliates | pb_tree_crawler.py:1144-1332 | the recursive method returns the crawl's result and leaves the visited set the crawl computes |
| Crawler.WebScraper.MergeRelated | pb_tree_crawler.py:1251-1330 | the loop over related rows yields the merged rows and visited set |
| CsvExport.Flatten | pb_tree_crawler.py:1348-1366 | the first row is the node's own row |
| CsvExport.FlattenIsPreOrder | pb_tree_crawler.py:1348-1366 | there is one row per company, in pre-order (related companies, then nested ones), each without the omitted keys |
| CsvExport.ChildRowNamesParent | pb_tree_crawler.py:1351-1362 | the row of every related company sits right after its parent's row and the rows of the related companies before it, and names the parent's "Name" and "profile_url" when they are truthy |
| CsvExport.NestedRowNamesParent | pb_tree_crawler.py:1351-1365 | the row of every nested related company follows all the related companies' rows and the nested ones before it, and names the parent's "Name" and "profile_url" when they are truthy |
| CsvExport.RootRowHasNoParent | pb_tree_crawler.py:1352-1355 | a root row gets no source columns |
| CsvExport.FlattenInto | pb_tree_crawler.py:1348-1366 | the recursive appending procedure appends exactly the flattened rows |
| CsvExport.SeveralRootsInOrder | pb_tree_crawler.py:1370-1373 | a list of profiles is exported as its trees, in list order |
| CsvExport.AllKeys | pb_tree_crawler.py:1384-1386 | the header keys are exactly the keys of some row |
| CsvExport.Insert | pb_tree_crawler.py:1389 | inserting into a sorted key list keeps it strictly sorted, with the right members |
| CsvExport.FieldnamesOrder | pb_tree_crawler.py:1388-1390 | the header lists each present key once: the preferred keys first, in their fixed order, then the rest sorted |
| CsvExport.LexTransitive | pb_tree_crawler.py:1389 | the key order is transitive (with LexAsymmetric and LexTotal: a strict total order) |
| Reconcile.Decide | retool_bot.py:761-793 | a search without validation always selects; a review is queued only for a validated search whose company name differs from the result name after normalisation |
| Reconcile.SelectedIffSameNormalForm | retool_bot.py:771-777 | a row is selected exactly when its name normalises like the company's name |
| Reconcile.ReviewedIffSignificantWordsContained | retool_bot.py:778-787 | a row is queued for review exactly when the normal forms differ and the company's significant words all occur in the row's name |
| Reconcile.NamelessCompanySelectsBlankRow | retool_bot.py:767-777 | a company without a name selects a row with a blank name |
| Reconcile.NoValidationSelectsEveryRow | retool_bot.py:791-808 | without validation every new unselected row is clicked and a selected row is only marked handled |
| Reconcile.NearMissQueuedOnce | retool_bot.py:779-787 | a near miss appends exactly one review entry and clicks nothing; that entry keeps the company's entries, carries a review reason and has no children |
| Reconcile.CheckHandlesIndicesOnce | retool_bot.py:742-825 | the review list only grows; recorded IDs are non-empty, and IDs plus review entries never outnumber the distinct row indices shown |
| Reconcile.IdsRecordedOnlyWithAdd | retool_bot.py:795-831 | IDs are recorded only when "Add Account" is then pressed; a search with no rows records nothing |
| Reconcile.Reconciler.CheckAndAddAccounts | retool_bot.py:686-890 | the nested scan-and-scroll loops compute the IDs `check_and_add_accounts` returns, the review list and whether "Add Account" is pressed |
| Reconcile.Reconciler.HandleRow | retool_bot.py:742-809 | one row's handling is the row specification |
| Reconcile.Reconciler.TakeRow | retool_bot.py:761-808 | a row not yet selected is clicked with its ID recorded, queued for review, or left alone, exactly as the decision on its stripped name says |
| Reconcile.AttemptsInOrder | retool_bot.py:104-161 | a company with all five values is searched by Pitchbook ID, legal name, former names, also-known-as, then website |
| Reconcile.AttemptsSkipFalsy | retool_bot.py:104-161 | each search comes from a truthy value, and only the name searches validate |
| Reconcile.InputCompanyGrows | retool_bot.py:85-165 | a company's searches only add to the review list and record only non-empty IDs |
| Reconcile.Reconciler.InputCompanyData | retool_bot.py:85-165 | the search loop returns the set of IDs found and the new review list |
| Reconcile.SkippedCompanyUntouched | retool_bot.py:186-196 | a company without a key, or already processed, is left as it is and its children are not visited |
| Reconcile.ProcessedCompanyShape | retool_bot.py:199-210 | a processed company's "added_account_ids" becomes its old IDs joined with the new ones, without repeats |
| Reconcile.ProcessOnce | retool_bot.py:168-226 | each key is processed at most once per run, and the processed set grows by exactly the keys claimed |
| Reconcile.ProcessAllLength | retool_bot.py:216-226 | walking a list of companies keeps its length |
| Reconcile.Reconciler.ProcessHierarchy | retool_bot.py:168-226 | the recursive method computes the walk's company, processed set and review list |
| LookupMap.PbIdSearch | retool_bot.py:1043-1049 | an extracted ID is non-empty and made of letters, digits and "-" |
| LookupMap.PbIdOfProfilePath | retool_bot.py:1043-1049 | "/profile/ID" followed by "/" or nothing gives ID |
| LookupMap.CompanyDetails | retool_bot.py:1061-1081 | every map entry carries a profile ID field and a depth |
| LookupMap.ProfileIdOverwrites | retool_bot.py:1084-1085 | a company with a profile ID replaces the entry under that ID, whatever its name |
| LookupMap.NameKeyRule | retool_bot.py:1084-1094 | a truthy name with a non-empty normal form takes that key exactly when the key is absent, is the company's own profile ID, or holds an entry without a profile ID while the company has one; otherwise the key keeps its entry; any other name enters only the profile ID |
| LookupMap.ProfileIdTakesNameKey | retool_bot.py:1087-1094 | a company with a profile ID takes over a name key held by an entry without one |
| LookupMap.LoadAllWellFormed | retool_bot.py:1051-1155 | the finished map has no empty key, and every entry has a profile ID field and a depth |
| LookupMap.LookupBuilder.ProcessCompany | retool_bot.py:1051-1155 | the recursive loading method builds the map the loading specification gives |
| ReviewFile.WriteAppends | retool_bot.py:45-75 | writing keeps the stored list in front and appends the new entries in order |
| ReviewFile.NoDeduplication | retool_bot.py:67 | the same entry written twice is stored twice |
| ReviewFile.WritesAccumulate | retool_bot.py:45-75 | two writes store both batches one after the other |
| ReviewFile.MalformedFileReplaced | retool_bot.py:57-64 | a missing, invalid or non-list file is replaced by the new entries |
| Viewer.CleanKeyCharwise | company_viewer.py:31-50 | a key without a different fixed label keeps its length; "_" becomes a space, each word starts upper case and continues lower case |
| Viewer.CleanKeyReplaced | company_viewer.py:33-47 | a key with a different fixed label is shown with that label |
| Viewer.SelfMappedKeyRecapitalised | company_viewer.py:41-49 | "Deal Date" is shown as "Deal date", because a label equal to its key is recapitalised |
| Viewer.ProfileIdSearch | company_viewer.py:59 | a found ID is non-empty, has no "/", and occurs between "/profile/" and "/" |
| Viewer.FirstProfileId | company_viewer.py:52-61 | the ID comes from the first URL field that is truthy and matches, every earlier field yielding none; there is no ID exactly when no field yields one |
| Viewer.ProfileIdFieldOrder | company_viewer.py:54-61 | "profile_url" wins when it matches; otherwise the search moves on to "Name_link" and "contact_profile_link" |
| Viewer.NoIdWithoutClosingSlash | company_viewer.py:59 | a URL that ends right after the ID gives no ID |
| Viewer.WithScheme | company_viewer.py:63-66 | the opened URL has a scheme; it is unchanged exactly when it already had one, and otherwise gets "http://" in front |
| Viewer.LineIffShown | company_viewer.py:275-280 | an entry gets a line exactly when its key is not excluded, it is not `None`, a string does not strip to "", "N/A" or "None", and a list has a non-blank item |
| Viewer.AttributeLinesOfShown | company_viewer.py:275-280 | one line per shown entry, in order, each starting with the entry's label and ": " |
| Viewer.DetailLines | company_viewer.py:259-280 | the account-ID line (exactly when the name has IDs) and the Pitchbook ID line (exactly when one is found) come before the entry lines, and there are no other lines |

## Left out

- **Browser, waits, sleeps and exceptions.** Selenium, explicit waits, screenshots, printing
  and logging are left out. So are the exception paths of each page action: a timeout is
  modelled as a failed observation, and stale-element and other per-row errors are not
  modelled. The profile readers (`_get_profile_website`, `_scrape_contact_info`,
  `_scrape_office_address` and the like) are a record of what the page shows.
- **Login, logout, SSO, cleanup-queue scraping, `find_and_click_row_with_retry`,
  `enter_data_into_retool_search` and `main`.** These are browser drivers outside the core.
  The outcome of `enter_data_into_retool_search` is part of the search function: a failed
  entry shows no rows.
- **`urljoin`** is an opaque function parameter (`resolve`). The absolute link stored for a
  table cell is the anchor's address as given.
- **Retool search.** The search is a pure function of the value and the kind, so an account
  added by an earlier search does not change what a later search shows. The outcome of the
  "Add Account" and "OK" clicks is not modelled: IDs are recorded whether or not the button
  click succeeds, which is what the source returns.
- **Text.** Lowercasing and capitalisation are ASCII only. Unicode case mapping and
  normalisation are left out. Whitespace (`str.split`, `str.strip`, `\s`) is the full
  `str.isspace` set.
- Names.Normalize: removes a suffix only when it is a whole whitespace-separated word. The
  source's `\b` also places a word boundary next to any character that is neither a word
  character nor removed punctuation, such as "®": "Acme Inc.®" normalises to "acme ®" in the
  source and to "acme inc®" here. The two agree whenever every character left after
  punctuation is deleted is whitespace or a word character (a Unicode letter, digit or "_").
  Tokenising at `\w` boundaries would need Unicode character classes.
- **Dictionary key order.**
  - Dictionaries are maps, and `Viewer.AttributeLines` takes the entries in an explicit order.
  - CSV columns follow the modelled header order. The `csv` writer itself and file output are
    not modelled.
  - `CsvExport.Header` uses a sorted sequence chosen by specification (a ghost function).
- **CSV fallback.** When the data is neither a profile nor a list of profiles, the source
  writes it as-is. `CsvExport.ExportRows` returns `None` for that case.
- **File I/O.** JSON reading and writing are left out. `ReviewFile.WriteReview` models what
  the file holds afterwards. The viewer's Tk widgets, colours, fonts, callbacks and browser
  opening are left out; only the lines of text are modelled.
- **Non-dictionary nodes.** retool_bot.py skips nodes and rows that are not dictionaries.
  `save_to_csv` would raise on one, because `flatten_recursive` calls `.items()` on every node
  it is given. The crawler never produces one, and the typed model cannot represent one. A
  "scraped_affiliates_table_data" or "related_companies" value that is not a list likewise
  cannot occur.
- **Page labels.** A page button's label is taken to be the plain decimal form of its number.
  The source waits for the label's text to differ from `str(old)` and then parses it with
  `int()`. For a plain label, "the text changed" and "the number changed" agree. A label such as
  "03" after "3" passes the source's wait with the same number, so the source carries on where
  the model's pagination and rewind stop.
- **Review entries.** `Reconcile.ReviewEntry` removes the related and nested lists by giving
  the entry empty ones, since a node always has both.
- Reconcile.ReviewEntry: the entry is a value copy. The source's `.copy()` is shallow
  (retool_bot.py:782), so when the company already holds an "added_account_ids" list, the
  review entry shares that list. The `extend` at retool_bot.py:209 then appends the node's new
  IDs to the shared list before the node is given a fresh de-duplicated list. The review file
  written at retool_bot.py:1404 therefore holds the old IDs followed by the new ones, repeats
  included; the model's entry holds the old IDs only.
- Viewer.Display: `Value` has no floating-point numbers and no nested dictionaries, so their
  `str()` forms are not modelled (company_viewer.py:279). A list holds only strings, so the
  skipping of `None` items and the `str()` of non-string items (company_viewer.py:277) are not
  modelled either.
- **Set values.** `Viewer.DetailLines` requires that no value is a set. JSON data holds none,
  and a set's display order is not defined.
- **Cleaning the website twice.** A followed child's website is cleaned again when it is
  merged. `Crawler.CleanTwice` states the effect.
- **Two behaviours of the code that may be unexpected; the model follows the code.**
  - `check_and_add_accounts` selects a row whose name normalises to "" when the company's
    name also does (for instance "Inc." against "LLC", or a company without a name), because
    the exact check does not guard against empty names. See
    `Reconcile.NamelessCompanySelectsBlankRow` and `Names.SuffixOnlyNamesMatch`.
  - `process_pitchbook_hierarchy` returns early for a company that is skipped, so the children
    of a skipped company are not visited (`Reconcile.SkippedCompanyUntouched`).
