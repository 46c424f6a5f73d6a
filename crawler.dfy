/** The bounded-depth profile crawler of pb_tree_crawler.py (`scrape_profile_and_affiliates`
    with `_prepare_related_companies_for_recursion` and `_clean_url`). The browser is replaced
    by a site: a map from absolute URL to what that profile page shows. */
module Crawler {
  import opened Text
  import opened Records
  import opened TableReader

  // ---------------------------------------------------------------------------------------
  // `_clean_url`

  /** `_clean_url`: a falsy URL gives `None`; otherwise every "http://" is removed, then
      every "https://", then one trailing "/". */
  function CleanUrl(url: string): (r: Option<string>)
    ensures url == [] <==> r.None?
    ensures r.Some? ==> |r.value| <= |url|
  {
    if url == [] then None
    else
      var c := RemoveAll(RemoveAll(url, "http://"), "https://");
      Some(if EndsWith(c, "/") then c[..|c| - 1] else c)
  }

  /** `_clean_url` applied to a dictionary value; only strings and `None` reach it. */
  function CleanValue(v: Value): Value {
    if v.Str? then OptValue(CleanUrl(v.s)) else Null
  }

  function OptValue(o: Option<string>): Value {
    if o.Some? then Str(o.value) else Null
  }

  /** A URL without either scheme loses exactly its one trailing "/", if it has one. */
  lemma CleanPlainUrl(url: string)
    requires url != [] && !Contains(url, "http://") && !Contains(url, "https://")
    ensures CleanUrl(url) == Some(if EndsWith(url, "/") then url[..|url| - 1] else url)
  {
    RemoveAllAbsent(url, "http://");
    RemoveAllAbsent(url, "https://");
  }

  /** A URL that starts with either scheme and has none inside loses the scheme and one
      trailing "/": both "http://x.com/" and "https://x.com/" clean to "x.com". */
  lemma CleanSchemeUrl(scheme: string, u: string)
    requires scheme == "http://" || scheme == "https://"
    requires !Contains(u, "http://") && !Contains(u, "https://")
    ensures CleanUrl(scheme + u) == Some(if EndsWith(u, "/") then u[..|u| - 1] else u)
  {
    SchemeRemoved(scheme, u);
  }

  /** Both removals together take away the leading scheme and nothing else. */
  lemma SchemeRemoved(scheme: string, u: string)
    requires scheme == "http://" || scheme == "https://"
    requires !Contains(u, "http://") && !Contains(u, "https://")
    ensures scheme + u != []
    ensures RemoveAll(RemoveAll(scheme + u, "http://"), "https://") == u
  {
    if scheme == "http://" {
      RemoveLeading("http://", u);
      RemoveAllAbsent(u, "http://");
    } else {
      HttpsSurvivesHttp(u);
      RemoveLeading("https://", u);
    }
    RemoveAllAbsent(u, "https://");
  }

  /** Removing a piece from a string that starts with it removes that occurrence first. */
  lemma RemoveLeading(p: string, u: string)
    requires p != []
    ensures RemoveAll(p + u, p) == RemoveAll(u, p)
  {
    assert (p + u)[..|p|] == p && (p + u)[|p|..] == u;
  }

  /** "https://" followed by a string without "http://" contains no "http://". */
  lemma HttpsSurvivesHttp(u: string)
    requires !Contains(u, "http://")
    ensures RemoveAll("https://" + u, "http://") == "https://" + u
  {
    var url := "https://" + u;
    assert url[..7] == "https:/";
    assert url[1..] == "ttps://" + u;
    NoLeadOccurrence("ttps://", u, "http://");
    RemoveAllAbsent(url[1..], "http://");
    assert [url[0]] + url[1..] == url;
  }

  /** A piece that cannot start inside `x` occurs in `x + u` only if it occurs in `u`. */
  lemma {:induction false} NoLeadOccurrence(x: string, u: string, p: string)
    requires p != [] && !Contains(u, p)
    requires forall k :: 0 <= k < |x| ==> x[k] != p[0]
    ensures !Contains(x + u, p)
    decreases |x|
  {
    if x == [] {
      assert x + u == u;
    } else {
      assert (x + u)[0] == x[0];
      assert !StartsWith(x + u, p);
      assert (x + u)[1..] == x[1..] + u;
      NoLeadOccurrence(x[1..], u, p);
    }
  }

  lemma {:induction false} ContainsOfPrefix(s: string, n: nat, p: string)
    requires n <= |s| && Contains(s[..n], p)
    ensures Contains(s, p)
    decreases n
  {
    if !StartsWith(s[..n], p) {
      assert s[..n][1..] == s[1..][..n - 1];
      ContainsOfPrefix(s[1..], n - 1, p);
    } else {
      assert s[..|p|] == s[..n][..|p|];
    }
  }

  /** Dropping the last character of a URL without either scheme leaves it without them. */
  lemma NoSchemeInPrefix(url: string)
    requires url != [] && !Contains(url, "http://") && !Contains(url, "https://")
    ensures !Contains(url[..|url| - 1], "http://") && !Contains(url[..|url| - 1], "https://")
  {
    if Contains(url[..|url| - 1], "http://") {
      ContainsOfPrefix(url, |url| - 1, "http://");
    }
    if Contains(url[..|url| - 1], "https://") {
      ContainsOfPrefix(url, |url| - 1, "https://");
    }
  }

  /** A URL without either scheme that ends in "/" loses exactly that one character. */
  lemma CleanDropsSlash(url: string)
    requires url != [] && url[|url| - 1] == '/'
    requires !Contains(url, "http://") && !Contains(url, "https://")
    ensures CleanUrl(url) == Some(url[..|url| - 1])
  {
    assert url[|url| - 1..] == [url[|url| - 1]] == "/";
    CleanPlainUrl(url);
  }

  /** Cleaning twice, as a merged child's website is, removes two trailing slashes where
      cleaning once removes one, after removing the scheme: "https://x.com//" is "x.com/"
      on the child's own profile and "x.com" in the parent's row. */
  lemma CleanTwice(scheme: string, u: string)
    requires scheme == "" || scheme == "http://" || scheme == "https://"
    requires |u| >= 3 && EndsWith(u, "//")
    requires !Contains(u, "http://") && !Contains(u, "https://")
    ensures CleanUrl(scheme + u) == Some(u[..|u| - 1])
    ensures CleanUrl(u[..|u| - 1]) == Some(u[..|u| - 2])
  {
    assert u[|u| - 2..] == "//";
    assert EndsWith(u, "/") by { assert u[|u| - 1..] == u[|u| - 2..][1..]; }
    if scheme == "" {
      assert scheme + u == u;
      CleanPlainUrl(u);
    } else {
      CleanSchemeUrl(scheme, u);
    }
    CleanDropsSecondSlash(u);
  }

  /** The URL without its last character, when that ends in "/", loses that "/" too. */
  lemma CleanDropsSecondSlash(url: string)
    requires |url| >= 2 && url[|url| - 2] == '/'
    requires !Contains(url, "http://") && !Contains(url, "https://")
    ensures CleanUrl(url[..|url| - 1]) == Some(url[..|url| - 2])
  {
    var once := url[..|url| - 1];
    assert |once| == |url| - 1 && once[|once| - 1] == url[|url| - 2];
    assert once[..|once| - 1] == url[..|url| - 2];
    NoSchemeInPrefix(url);
    CleanDropsSlash(once);
  }

  // ---------------------------------------------------------------------------------------
  // `_prepare_related_companies_for_recursion`

  const AffiliateSource: string := "Affiliate"
  const InvestmentSource: string := "Investment (Buy-Side)"
  const RequiredDealType: string := "Merger/Acquisition"

  /** The name column and its link renamed to "Name" and "Name_link". */
  function Renamed(row: Fields, nameHeader: string): Fields {
    if nameHeader != "Name" && nameHeader in row then
      var r1 := (row - {nameHeader})["Name" := row[nameHeader]];
      var lk := LinkKey(nameHeader);
      if lk in r1 then (r1 - {lk})["Name_link" := r1[lk]] else r1
    else row
  }

  /** Whether a renamed row survives: rows of other sources always do; an investment row
      needs the required deal type (when one is given) and no exited-deal flag. */
  predicate Keep(row: Fields, sourceType: string, required: Option<string>) {
    sourceType != InvestmentSource
    || ((required.None? || required.value == [] || Get(row, "Deal Type") == Str(required.value))
        && !Truthy(Get(row, ExitedFlag)))
  }

  /** A surviving row, tagged with its source, with an empty nested list and without the
      exited-deal flag. */
  function Tagged(row: Fields, sourceType: string): (n: Node)
    ensures n.related == [] && n.nested == []
    ensures ExitedFlag !in n.fields
    ensures "Source_Type" in n.fields && n.fields["Source_Type"] == Str(sourceType)
  {
    Node(row["Source_Type" := Str(sourceType)] - {ExitedFlag}, [], [])
  }

  function PrepareRow(row: Fields, nameHeader: string, sourceType: string, required: Option<string>): seq<Node> {
    var r := Renamed(row, nameHeader);
    if Keep(r, sourceType, required) then [Tagged(r, sourceType)] else []
  }

  /** The prepared rows, in input order. */
  function Prepared(raw: seq<Fields>, nameHeader: string, sourceType: string, required: Option<string>): seq<Node> {
    if raw == [] then []
    else PrepareRow(raw[0], nameHeader, sourceType, required) + Prepared(raw[1..], nameHeader, sourceType, required)
  }

  /** Preparing keeps the order of the rows: preparing two tables one after the other is
      preparing their concatenation. */
  lemma {:induction false} PreparedOfConcat(a: seq<Fields>, b: seq<Fields>, nameHeader: string, sourceType: string, required: Option<string>)
    ensures Prepared(a + b, nameHeader, sourceType, required) == Prepared(a, nameHeader, sourceType, required) + Prepared(b, nameHeader, sourceType, required)
  {
    if a == [] {
      assert a + b == b;
    } else {
      assert (a + b)[1..] == a[1..] + b;
      PreparedOfConcat(a[1..], b, nameHeader, sourceType, required);
      var head := PrepareRow(a[0], nameHeader, sourceType, required);
      assert (a + b)[0] == a[0];
      assert head + (Prepared(a[1..], nameHeader, sourceType, required) + Prepared(b, nameHeader, sourceType, required))
          == (head + Prepared(a[1..], nameHeader, sourceType, required)) + Prepared(b, nameHeader, sourceType, required);
    }
  }

  /** Affiliate rows are never dropped, and rows never multiply. */
  lemma {:induction false} PreparedLength(raw: seq<Fields>, nameHeader: string, sourceType: string, required: Option<string>)
    ensures |Prepared(raw, nameHeader, sourceType, required)| <= |raw|
    ensures sourceType != InvestmentSource ==> |Prepared(raw, nameHeader, sourceType, required)| == |raw|
  {
    if raw != [] {
      PreparedLength(raw[1..], nameHeader, sourceType, required);
    }
  }

  /** Every prepared row is tagged with its source, has an empty nested list, no exited-deal
      flag, and passed the filter on its renamed form. */
  lemma {:induction false} PreparedRowsShape(raw: seq<Fields>, nameHeader: string, sourceType: string, required: Option<string>)
    ensures forall n :: n in Prepared(raw, nameHeader, sourceType, required) ==>
      && n.nested == [] && ExitedFlag !in n.fields
      && "Source_Type" in n.fields && n.fields["Source_Type"] == Str(sourceType)
      && exists i :: 0 <= i < |raw| && Keep(Renamed(raw[i], nameHeader), sourceType, required)
                     && n == Tagged(Renamed(raw[i], nameHeader), sourceType)
  {
    if raw != [] {
      PreparedRowsShape(raw[1..], nameHeader, sourceType, required);
      forall n | n in Prepared(raw, nameHeader, sourceType, required)
        ensures exists i :: 0 <= i < |raw| && Keep(Renamed(raw[i], nameHeader), sourceType, required)
                            && n == Tagged(Renamed(raw[i], nameHeader), sourceType)
      {
        if n !in PrepareRow(raw[0], nameHeader, sourceType, required) {
          var j :| 0 <= j < |raw[1..]| && Keep(Renamed(raw[1..][j], nameHeader), sourceType, required)
                   && n == Tagged(Renamed(raw[1..][j], nameHeader), sourceType);
          assert raw[1..][j] == raw[j + 1];
        }
      }
    }
  }

  /** An investment row whose deal type is not the required one, or that carries the exited
      flag, is dropped. */
  lemma InvestmentRowDropped(row: Fields, nameHeader: string)
    requires var r := Renamed(row, nameHeader);
      Get(r, "Deal Type") != Str(RequiredDealType) || Truthy(Get(r, ExitedFlag))
    ensures PrepareRow(row, nameHeader, InvestmentSource, Some(RequiredDealType)) == []
  {
  }

  /** The preparation loop. */
  method PrepareRelated(raw: seq<Fields>, nameHeader: string, sourceType: string, required: Option<string>)
    returns (prepared: seq<Node>)
    ensures prepared == Prepared(raw, nameHeader, sourceType, required)
  {
    prepared := [];
    var i := 0;
    while i < |raw|
      invariant 0 <= i <= |raw|
      invariant prepared == Prepared(raw[..i], nameHeader, sourceType, required)
    {
      var row := Renamed(raw[i], nameHeader);
      PreparedOfConcat(raw[..i], [raw[i]], nameHeader, sourceType, required);
      assert raw[..i] + [raw[i]] == raw[..i + 1];
      if Keep(row, sourceType, required) {
        prepared := prepared + [Tagged(row, sourceType)];
      }
      i := i + 1;
    }
    assert raw[..i] == raw;
  }

  // ---------------------------------------------------------------------------------------
  // The site and the profile dictionary

  /** What a profile page shows once its General Information section is visible: the
      website, former names, "also known as" and legal name values, the contact and office
      field maps, and the affiliate and investment tables. */
  datatype Page = Page(
    website: Option<string>, formerNames: Option<string>, alsoKnownAs: Option<string>, legalName: Option<string>,
    contact: Fields, office: Fields, affiliates: Table, investments: Table)

  /** The profile pages that load, by absolute URL; a URL outside the map does not load. */
  type Site = map<string, Page>

  const AlreadyVisited: string := "already_visited"

  /** The sixteen attributes a profile carries and a related row receives from its child. */
  const AttributeKeys: set<string> := {
    "website_link", "former_names", "also_known_as", "legal_name",
    "contact_name", "contact_profile_link", "contact_title", "contact_email", "contact_email_link",
    "contact_business_phone", "contact_mobile_phone",
    "office_address_line1", "office_address_line2", "office_address_line3", "office_email", "office_phone"
  }

  /** The profile dictionary before anything is scraped: every attribute `None`. */
  function BaseProfile(url: string, depth: int): (f: Fields)
    ensures f.Keys == AttributeKeys + {"profile_url", "depth", "status"}
    ensures f["profile_url"] == Str(url) && f["depth"] == Num(depth) && f["status"] == Str("scraped")
    ensures forall k :: k in AttributeKeys ==> f[k] == Null
  {
    var none := map k | k in AttributeKeys :: Null;
    assert "profile_url" !in none && "depth" !in none && "status" !in none;
    none["profile_url" := Str(url)]["depth" := Num(depth)]["status" := Str("scraped")]
  }

  /** The dictionary for a visited URL: the base profile with status "already_visited". */
  function Stub(url: string, depth: int): Node {
    Node(BaseProfile(url, depth)["status" := Str(AlreadyVisited)], [], [])
  }

  /** The scraped profile: the page's four values, then the contact map, then the office
      map, each written over what came before. */
  function ProfileFields(base: Fields, p: Page): Fields {
    base["website_link" := OptValue(CleanUrl(if p.website.Some? then p.website.value else []))]
        ["former_names" := OptValue(p.formerNames)]
        ["also_known_as" := OptValue(p.alsoKnownAs)]
        ["legal_name" := OptValue(p.legalName)]
      + p.contact + p.office
  }

  /** The prepared affiliates followed by the prepared investments of a page. */
  function RelatedRows(p: Page): seq<Node> {
    Prepared(AffiliateRows(p.affiliates, true), "Name", AffiliateSource, None)
      + Prepared(InvestmentRows(p.investments), "Company Name", InvestmentSource, Some(RequiredDealType))
  }

  /** The link of a related row; only strings are ever stored under "Name_link". */
  function LinkText(row: Node): string {
    AsText(Get(row.fields, "Name_link"))
  }

  /** Whether the crawler follows a related row's link from a page at `depth`. */
  predicate Follows(link: string, depth: int, maxDepth: int) {
    link != [] && depth < maxDepth && Contains(link, "/profile/") && CountChar(link, '/') >= 4
  }

  /** The sixteen attributes copied from a child profile; its website is cleaned again. */
  function ChildAttributes(child: Fields): Fields {
    map k | k in AttributeKeys :: if k == "website_link" then CleanValue(Get(child, k)) else Get(child, k)
  }

  function NullAttributes(): Fields {
    map k | k in AttributeKeys :: Null
  }

  /** A row that was not followed, or whose child came back `None` or as a stub: every
      attribute `None` and an empty nested list. */
  function NullOut(row: Node): Node {
    Node(row.fields + NullAttributes(), row.related, [])
  }

  /** A row after its child came back: merged with the child's attributes and given the
      child's related rows as its nested list, unless the child is `None` or a stub. */
  function MergeChild(row: Node, child: Option<Node>): Node {
    if child.Some? && Get(child.value.fields, "status") != Str(AlreadyVisited) then
      Node(row.fields + ChildAttributes(child.value.fields), row.related, child.value.related)
    else NullOut(row)
  }

  // ---------------------------------------------------------------------------------------
  // The crawl

  /** A URL claimed (added to the visited set) at a depth. */
  datatype Claim = Claim(url: string, depth: int)

  /** The result of one call: the dictionary (or `None`), the visited set afterwards, and
      the URLs the call and its recursive calls claimed, in order. */
  datatype CrawlOutcome = CrawlOutcome(node: Option<Node>, visited: set<string>, claims: seq<Claim>)

  /** The result of the loop over a page's related rows. */
  datatype MergeOutcome = MergeOutcome(rows: seq<Node>, visited: set<string>, claims: seq<Claim>)

  /** The absolute form of a profile link: kept when it starts with "http", otherwise
      resolved against the base URL by `resolve`. */
  function Absolute(resolve: string -> string, url: string): string {
    if StartsWith(url, "http") then url else resolve(url)
  }

  /** `scrape_profile_and_affiliates(url, depth, maxDepth)` run with visited set `visited`. */
  function Crawl(site: Site, resolve: string -> string, url: string, depth: int, maxDepth: int, visited: set<string>): CrawlOutcome
    decreases maxDepth - depth, 1
  {
    var abs := Absolute(resolve, url);
    if abs in visited then CrawlOutcome(Some(Stub(url, depth)), visited, [])
    else if depth > maxDepth then CrawlOutcome(None, visited, [])
    else
      var claimed := visited + {abs};
      if abs !in site then CrawlOutcome(Some(Node(BaseProfile(url, depth), [], [])), claimed, [Claim(abs, depth)])
      else
        var p := site[abs];
        var m := MergeRows(site, resolve, RelatedRows(p), depth, maxDepth, claimed);
        CrawlOutcome(Some(Node(ProfileFields(BaseProfile(url, depth), p), m.rows, [])), m.visited, [Claim(abs, depth)] + m.claims)
  }

  /** The loop over the related rows of a page at `depth`, in order, threading the
      visited set through the recursive calls. */
  function MergeRows(site: Site, resolve: string -> string, rows: seq<Node>, depth: int, maxDepth: int, visited: set<string>): MergeOutcome
    decreases maxDepth - depth, 0, |rows|
  {
    if rows == [] then MergeOutcome([], visited, [])
    else
      var row := rows[0];
      if Follows(LinkText(row), depth, maxDepth) then
        var child := Crawl(site, resolve, LinkText(row), depth + 1, maxDepth, visited);
        var rest := MergeRows(site, resolve, rows[1..], depth, maxDepth, child.visited);
        MergeOutcome([MergeChild(row, child.node)] + rest.rows, rest.visited, child.claims + rest.claims)
      else
        var rest := MergeRows(site, resolve, rows[1..], depth, maxDepth, visited);
        MergeOutcome([NullOut(row)] + rest.rows, rest.visited, rest.claims)
  }

  // ---------------------------------------------------------------------------------------
  // Properties of the crawl

  /** A visited URL gives the stub, without claiming anything; otherwise a call beyond the
      maximum depth gives `None`, again without claiming anything. */
  lemma VisitedOrTooDeep(site: Site, resolve: string -> string, url: string, depth: int, maxDepth: int, visited: set<string>)
    ensures var o := Crawl(site, resolve, url, depth, maxDepth, visited);
      && (Absolute(resolve, url) in visited ==>
            o.node == Some(Stub(url, depth)) && o.visited == visited && o.claims == [])
      && (Absolute(resolve, url) !in visited && depth > maxDepth ==>
            o.node.None? && o.visited == visited && o.claims == [])
  {
  }

  /** The stub has status "already_visited", the original (not absolutised) URL, every
      attribute `None` and no related rows. */
  lemma StubShape(url: string, depth: int)
    ensures var s := Stub(url, depth);
      && s.fields["status"] == Str(AlreadyVisited) && s.fields["profile_url"] == Str(url)
      && (forall k :: k in AttributeKeys ==> s.fields[k] == Null)
      && s.related == [] && s.nested == []
  {
  }

  function ClaimedUrls(cs: seq<Claim>): set<string> {
    set c | c in cs :: c.url
  }

  /** No URL is claimed twice. */
  predicate DistinctClaims(cs: seq<Claim>) {
    forall i, j :: 0 <= i < j < |cs| ==> cs[i].url != cs[j].url
  }

  /** What the claim log promises about a call that starts with visited set `visited`. */
  predicate ClaimsSound(cs: seq<Claim>, visited: set<string>, after: set<string>, depth: int, maxDepth: int) {
    && after == visited + ClaimedUrls(cs)
    && DistinctClaims(cs)
    && (forall c :: c in cs ==> c.url !in visited)
    && (forall c :: c in cs ==> depth <= c.depth <= maxDepth)
  }

  lemma ClaimsAppend(a: seq<Claim>, b: seq<Claim>, v0: set<string>, v1: set<string>, v2: set<string>, depth: int, maxDepth: int)
    requires ClaimsSound(a, v0, v1, depth, maxDepth)
    requires ClaimsSound(b, v1, v2, depth, maxDepth)
    ensures ClaimsSound(a + b, v0, v2, depth, maxDepth)
  {
    var cs := a + b;
    assert ClaimedUrls(cs) == ClaimedUrls(a) + ClaimedUrls(b) by {
      forall u | u in ClaimedUrls(cs) ensures u in ClaimedUrls(a) + ClaimedUrls(b) {
        var c :| c in cs && c.url == u;
      }
      forall u | u in ClaimedUrls(a) + ClaimedUrls(b) ensures u in ClaimedUrls(cs) {
        if u in ClaimedUrls(a) {
          var c :| c in a && c.url == u;
          assert c in cs;
        } else {
          var c :| c in b && c.url == u;
          assert c in cs;
        }
      }
    }
    forall i, j | 0 <= i < j < |cs| ensures cs[i].url != cs[j].url {
      if j >= |a| && i < |a| {
        assert cs[i] in a && cs[j] in b;
        assert cs[i].url in v1;
      }
    }
    forall c | c in cs ensures c.url !in v0 {
      if c in b {
        assert c.url !in v1;
      }
    }
  }

  /** Every URL is scraped at most once, and never one that was already visited; the
      visited set grows by exactly the claimed URLs; and nothing is scraped outside the
      depths `depth` to `maxDepth`. */
  lemma {:induction false} CrawlClaims(site: Site, resolve: string -> string, url: string, depth: int, maxDepth: int, visited: set<string>)
    ensures var o := Crawl(site, resolve, url, depth, maxDepth, visited);
      ClaimsSound(o.claims, visited, o.visited, depth, maxDepth)
    decreases maxDepth - depth, 1
  {
    var abs := Absolute(resolve, url);
    if abs !in visited && depth <= maxDepth {
      var claimed := visited + {abs};
      var first := [Claim(abs, depth)];
      assert ClaimedUrls(first) == {abs};
      assert ClaimsSound(first, visited, claimed, depth, maxDepth);
      if abs in site {
        var m := MergeRows(site, resolve, RelatedRows(site[abs]), depth, maxDepth, claimed);
        MergeClaims(site, resolve, RelatedRows(site[abs]), depth, maxDepth, claimed);
        ClaimsAppend(first, m.claims, visited, claimed, m.visited, depth, maxDepth);
      }
    }
  }

  lemma {:induction false} MergeClaims(site: Site, resolve: string -> string, rows: seq<Node>, depth: int, maxDepth: int, visited: set<string>)
    ensures var m := MergeRows(site, resolve, rows, depth, maxDepth, visited);
      ClaimsSound(m.claims, visited, m.visited, depth, maxDepth)
    decreases maxDepth - depth, 0, |rows|
  {
    if rows != [] {
      var row := rows[0];
      if Follows(LinkText(row), depth, maxDepth) {
        var child := Crawl(site, resolve, LinkText(row), depth + 1, maxDepth, visited);
        CrawlClaims(site, resolve, LinkText(row), depth + 1, maxDepth, visited);
        var rest := MergeRows(site, resolve, rows[1..], depth, maxDepth, child.visited);
        MergeClaims(site, resolve, rows[1..], depth, maxDepth, child.visited);
        ClaimsAppend(child.claims, rest.claims, visited, child.visited, rest.visited, depth, maxDepth);
      } else {
        MergeClaims(site, resolve, rows[1..], depth, maxDepth, visited);
      }
    }
  }

  /** The visited set only grows. */
  lemma VisitedGrows(site: Site, resolve: string -> string, url: string, depth: int, maxDepth: int, visited: set<string>)
    ensures visited <= Crawl(site, resolve, url, depth, maxDepth, visited).visited
  {
    CrawlClaims(site, resolve, url, depth, maxDepth, visited);
  }

  /** What the loop does to one row, whatever the child: the row's own entries outside
      the attributes stay, the attributes are added, and its related list is untouched. */
  predicate RowShaped(before: Node, after: Node) {
    && after.fields.Keys == before.fields.Keys + AttributeKeys
    && (forall k :: k in before.fields && k !in AttributeKeys ==> after.fields[k] == before.fields[k])
    && after.related == before.related
  }

  lemma MergeChildShape(row: Node, child: Option<Node>)
    ensures RowShaped(row, MergeChild(row, child))
    ensures RowShaped(row, NullOut(row))
  {
  }

  /** Every related row is kept, in order: a followed row whose child came back is merged
      with it, and every other row has its attributes set to `None` and an empty nested
      list. The row's own entries outside the attributes are untouched. */
  lemma {:induction false} MergeRowsShape(site: Site, resolve: string -> string, rows: seq<Node>, depth: int, maxDepth: int, visited: set<string>)
    ensures var m := MergeRows(site, resolve, rows, depth, maxDepth, visited);
      && |m.rows| == |rows|
      && forall i :: 0 <= i < |rows| ==>
           && RowShaped(rows[i], m.rows[i])
           && (!Follows(LinkText(rows[i]), depth, maxDepth) ==> m.rows[i] == NullOut(rows[i]))
    decreases |rows|
  {
    if rows != [] {
      var row := rows[0];
      var m := MergeRows(site, resolve, rows, depth, maxDepth, visited);
      var v1 := visited;
      if Follows(LinkText(row), depth, maxDepth) {
        var child := Crawl(site, resolve, LinkText(row), depth + 1, maxDepth, visited);
        MergeRowsFollow(site, resolve, rows, depth, maxDepth, visited);
        MergeChildShape(row, child.node);
        v1 := child.visited;
      } else {
        MergeRowsSkip(site, resolve, rows, depth, maxDepth, visited);
        MergeChildShape(row, None);
      }
      var rest := MergeRows(site, resolve, rows[1..], depth, maxDepth, v1);
      MergeRowsShape(site, resolve, rows[1..], depth, maxDepth, v1);
      assert m.rows[1..] == rest.rows;
      assert RowShaped(row, m.rows[0]);
      ShapedCons(rows, m.rows, depth, maxDepth);
    }
  }

  /** The shape of the rows after a row, with that of the row itself, is the shape of all. */
  lemma ShapedCons(rows: seq<Node>, out: seq<Node>, depth: int, maxDepth: int)
    requires rows != [] && |out| == |rows|
    requires RowShaped(rows[0], out[0]) && (!Follows(LinkText(rows[0]), depth, maxDepth) ==> out[0] == NullOut(rows[0]))
    requires forall i :: 0 <= i < |rows| - 1 ==>
      && RowShaped(rows[1..][i], out[1..][i])
      && (!Follows(LinkText(rows[1..][i]), depth, maxDepth) ==> out[1..][i] == NullOut(rows[1..][i]))
    ensures forall i :: 0 <= i < |rows| ==>
      && RowShaped(rows[i], out[i])
      && (!Follows(LinkText(rows[i]), depth, maxDepth) ==> out[i] == NullOut(rows[i]))
  {
    forall i | 0 < i < |rows|
      ensures out[i] == out[1..][i - 1] && rows[i] == rows[1..][i - 1]
    {
    }
  }

  /** One step of the loop over the related rows, for a row that is followed. */
  lemma MergeRowsFollow(site: Site, resolve: string -> string, rows: seq<Node>, depth: int, maxDepth: int, visited: set<string>)
    requires rows != [] && Follows(LinkText(rows[0]), depth, maxDepth)
    ensures var child := Crawl(site, resolve, LinkText(rows[0]), depth + 1, maxDepth, visited);
      var rest := MergeRows(site, resolve, rows[1..], depth, maxDepth, child.visited);
      MergeRows(site, resolve, rows, depth, maxDepth, visited)
        == MergeOutcome([MergeChild(rows[0], child.node)] + rest.rows, rest.visited, child.claims + rest.claims)
  {
  }

  /** One step of the loop over the related rows, for a row that is not followed. */
  lemma MergeRowsSkip(site: Site, resolve: string -> string, rows: seq<Node>, depth: int, maxDepth: int, visited: set<string>)
    requires rows != [] && !Follows(LinkText(rows[0]), depth, maxDepth)
    ensures var rest := MergeRows(site, resolve, rows[1..], depth, maxDepth, visited);
      MergeRows(site, resolve, rows, depth, maxDepth, visited)
        == MergeOutcome([NullOut(rows[0])] + rest.rows, rest.visited, rest.claims)
  {
  }

  /** A followed row whose child was scraped carries the child's related rows as its nested
      list and the child's attributes, the website cleaned a second time. */
  lemma MergedRowCarriesChild(row: Node, child: Node)
    requires Get(child.fields, "status") != Str(AlreadyVisited)
    ensures var m := MergeChild(row, Some(child));
      && m.nested == child.related
      && (forall k :: k in AttributeKeys && k != "website_link" ==> m.fields[k] == Get(child.fields, k))
      && m.fields["website_link"] == CleanValue(Get(child.fields, "website_link"))
  {
  }

  /** A loaded profile's related rows are its prepared affiliates followed by its prepared
      investments, each kept once and in order: each keeps its own entries outside the
      attributes, and a row that is not followed has its attributes set to `None`. */
  lemma CrawledRelatedRows(site: Site, resolve: string -> string, url: string, depth: int, maxDepth: int, visited: set<string>)
    requires Absolute(resolve, url) !in visited && depth <= maxDepth && Absolute(resolve, url) in site
    ensures var o := Crawl(site, resolve, url, depth, maxDepth, visited);
      var rows := RelatedRows(site[Absolute(resolve, url)]);
      && o.node.Some? && |o.node.value.related| == |rows|
      && forall i :: 0 <= i < |rows| ==>
           && RowShaped(rows[i], o.node.value.related[i])
           && (!Follows(LinkText(rows[i]), depth, maxDepth) ==> o.node.value.related[i] == NullOut(rows[i]))
  {
    var abs := Absolute(resolve, url);
    MergeRowsShape(site, resolve, RelatedRows(site[abs]), depth, maxDepth, visited + {abs});
  }

  // ---------------------------------------------------------------------------------------
  // The scraper object

  class WebScraper {
    const site: Site
    /** `urljoin(self.base_url, ·)`. */
    const resolve: string -> string
    /** `visited_urls`. */
    var visited: set<string>

    constructor (site: Site, resolve: string -> string)
      ensures this.site == site && this.resolve == resolve
      ensures visited == {}
    {
      this.site := site;
      this.resolve := resolve;
      visited := {};
    }

    /** `scrape_profile_and_affiliates`. */
    method ScrapeProfileAndAffiliates(url: string, depth: int, maxDepth: int) returns (node: Option<Node>)
      modifies this
      ensures node == Crawl(site, resolve, url, depth, maxDepth, old(visited)).node
      ensures visited == Crawl(site, resolve, url, depth, maxDepth, old(visited)).visited
      decreases maxDepth - depth, 2
    {
      var base := BaseProfile(url, depth);
      var abs := Absolute(resolve, url);
      if abs in visited {
        return Some(Node(base["status" := Str(AlreadyVisited)], [], []));
      }
      if depth > maxDepth {
        return None;
      }
      visited := visited + {abs};
      if abs !in site {
        return Some(Node(base, [], []));
      }
      var page := site[abs];
      var fields := ProfileFields(base, page);
      var rawAffiliates := ScrapeAffiliateTable(page.affiliates, true);
      var affiliates := PrepareRelated(rawAffiliates, "Name", AffiliateSource, None);
      var rawInvestments := ScrapeInvestmentsTable(page.investments);
      var investments := PrepareRelated(rawInvestments, "Company Name", InvestmentSource, Some(RequiredDealType));
      var rows := affiliates + investments;
      var merged := MergeRelated(rows, depth, maxDepth);
      node := Some(Node(fields, merged, []));
    }

    /** The loop over the related rows, which updates each row in place. */
    method MergeRelated(rows: seq<Node>, depth: int, maxDepth: int) returns (merged: seq<Node>)
      modifies this
      ensures merged == MergeRows(site, resolve, rows, depth, maxDepth, old(visited)).rows
      ensures visited == MergeRows(site, resolve, rows, depth, maxDepth, old(visited)).visited
      decreases maxDepth - depth, 1
    {
      ghost var whole := MergeRows(site, resolve, rows, depth, maxDepth, visited);
      merged := [];
      var i := 0;
      while i < |rows|
        invariant 0 <= i <= |rows|
        invariant merged + MergeRows(site, resolve, rows[i..], depth, maxDepth, visited).rows == whole.rows
        invariant MergeRows(site, resolve, rows[i..], depth, maxDepth, visited).visited == whole.visited
      {
        var tail := rows[i..];
        assert tail[1..] == rows[i + 1..];
        var entry := MergeOne(tail, depth, maxDepth);
        ConcatAssoc(merged, [entry], MergeRows(site, resolve, rows[i + 1..], depth, maxDepth, visited).rows);
        merged := merged + [entry];
        i := i + 1;
      }
      assert rows[i..] == [];
    }

    /** One pass of the loop: the first row of `tail` is followed (or not) and updated. */
    method MergeOne(tail: seq<Node>, depth: int, maxDepth: int) returns (entry: Node)
      requires tail != []
      modifies this
      ensures MergeRows(site, resolve, tail, depth, maxDepth, old(visited)).rows
        == [entry] + MergeRows(site, resolve, tail[1..], depth, maxDepth, visited).rows
      ensures MergeRows(site, resolve, tail, depth, maxDepth, old(visited)).visited
        == MergeRows(site, resolve, tail[1..], depth, maxDepth, visited).visited
      decreases maxDepth - depth, 0
    {
      var row := tail[0];
      var link := LinkText(row);
      if Follows(link, depth, maxDepth) {
        ghost var o := Crawl(site, resolve, link, depth + 1, maxDepth, visited);
        ghost var rest := MergeRows(site, resolve, tail[1..], depth, maxDepth, o.visited);
        MergeRowsFollow(site, resolve, tail, depth, maxDepth, visited);
        var child := ScrapeProfileAndAffiliates(link, depth + 1, maxDepth);
        entry := MergeChild(row, child);
      } else {
        MergeRowsSkip(site, resolve, tail, depth, maxDepth, visited);
        entry := NullOut(row);
      }
    }
  }
}
