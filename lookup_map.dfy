/** The lookup map of retool_bot.py (`load_company_data_from_json`): each company of the
    loaded file, and the companies reached from it through "scraped_affiliates_table_data"
    rows and their "full_affiliate_profile_data", is entered under its profile ID and under
    its normalised name. Only those two keys are followed; "related_companies" and
    "nested_related_companies" are not. */
module LookupMap {
  import opened Text
  import opened Records
  import opened Names

  // ---------------------------------------------------------------------------------------
  // `extract_pb_id_from_url`

  /** The characters of the class `[A-Za-z0-9-]`. */
  predicate IdChar(c: char) {
    ('A' <= c <= 'Z') || ('a' <= c <= 'z') || ('0' <= c <= '9') || c == '-'
  }

  /** Length of the leading run of identifier characters. */
  function IdRun(s: string): (n: nat)
    ensures n <= |s|
    ensures forall i :: 0 <= i < n ==> IdChar(s[i])
    ensures n < |s| ==> !IdChar(s[n])
  {
    if s == [] || !IdChar(s[0]) then 0 else 1 + IdRun(s[1..])
  }

  const ProfileMarker: string := "/profile/"

  /** What may follow the identifier for `(?:/|$)` to match: a "/", the end, or a final
      newline (before which `$` also matches). */
  predicate IdEnds(rest: string) {
    rest == [] || rest[0] == '/' || rest == "\n"
  }

  /** The identifier matched at the start of `s`, if the pattern matches there. The greedy
      run can only be followed by a character outside the class, so no shorter run can
      match where the longest does not. */
  function PbIdAt(s: string): (r: Option<string>)
    ensures r.Some? ==> StartsWith(s, ProfileMarker) && r.value != [] && (forall c :: c in r.value ==> IdChar(c))
  {
    if StartsWith(s, ProfileMarker) then
      var t := s[|ProfileMarker|..];
      var n := IdRun(t);
      if n > 0 && IdEnds(t[n..]) then
        assert forall c :: c in t[..n] ==> IdChar(c) by {
          forall c | c in t[..n] ensures IdChar(c) {
            var i :| 0 <= i < n && t[..n][i] == c;
          }
        }
        Some(t[..n])
      else None
    else None
  }

  /** `re.search(r'/profile/([A-Za-z0-9-]+)(?:/|$)', s)`: the leftmost match. */
  function PbIdSearch(s: string): (r: Option<string>)
    ensures r.Some? ==> r.value != [] && (forall c :: c in r.value ==> IdChar(c))
    decreases |s|
  {
    if s == [] then None
    else if PbIdAt(s).Some? then PbIdAt(s)
    else PbIdSearch(s[1..])
  }

  /** `extract_pb_id_from_url`: nothing for a falsy URL. */
  function ExtractPbId(url: Value): Option<string> {
    if !Truthy(url) then None else PbIdSearch(AsText(url))
  }

  /** A URL whose path is "/profile/" then an identifier, then "/" or nothing, gives the
      identifier. */
  lemma PbIdOfProfilePath(id: string, rest: string)
    requires id != [] && forall c :: c in id ==> IdChar(c)
    requires rest == [] || rest[0] == '/'
    ensures PbIdSearch(ProfileMarker + id + rest) == Some(id)
  {
    var s := ProfileMarker + id + rest;
    assert s[..|ProfileMarker|] == ProfileMarker;
    var t := s[|ProfileMarker|..];
    assert t == id + rest;
    IdRunOfWord(id, rest);
    assert t[..|id|] == id && t[|id|..] == rest;
  }

  lemma {:induction false} IdRunOfWord(w: string, rest: string)
    requires forall c :: c in w ==> IdChar(c)
    requires rest == [] || !IdChar(rest[0])
    ensures IdRun(w + rest) == |w|
  {
    if w != [] {
      assert w[0] in w;
      assert (w + rest)[1..] == w[1..] + rest;
      IdRunOfWord(w[1..], rest);
    }
  }

  /** Characters where no "/profile/" starts are passed over. */
  lemma {:induction false} PbIdSearchSkips(p: string, s: string)
    requires forall k :: 0 <= k < |p| ==> !StartsWith((p + s)[k..], ProfileMarker)
    ensures PbIdSearch(p + s) == PbIdSearch(s)
  {
    if p != [] {
      assert (p + s)[0..] == p + s;
      assert (p + s)[1..] == p[1..] + s;
      forall k | 0 <= k < |p[1..]|
        ensures !StartsWith((p[1..] + s)[k..], ProfileMarker)
      {
        assert (p[1..] + s)[k..] == (p + s)[k + 1..];
      }
      PbIdSearchSkips(p[1..], s);
    } else {
      assert p + s == s;
    }
  }

  // ---------------------------------------------------------------------------------------
  // The saved crawl, as this loader reads it

  /** A company of the saved file: its entries and its "scraped_affiliates_table_data" rows
      (an absent or falsy list reads as no rows). */
  datatype Company = Company(fields: Fields, affiliates: seq<AffiliateRow>)

  /** An affiliates-table row: its entries, its truthy "full_affiliate_profile_data" if any,
      and its "related_companies" list. */
  datatype AffiliateRow = AffiliateRow(fields: Fields, full: Option<Company>, related: seq<Company>)

  /** The contact and office entries copied into every map entry. */
  const CopiedKeys: seq<string> := [
    "contact_name", "contact_profile_link", "contact_title", "contact_email", "contact_email_link",
    "contact_business_phone", "contact_mobile_phone", "office_address_line1", "office_address_line2",
    "office_address_line3", "office_email", "office_phone"
  ]

  /** `d.get(a) or d.get(b)`. */
  function FirstValue(f: Fields, a: string, b: string): Value {
    if Truthy(Get(f, a)) then Get(f, a) else Get(f, b)
  }

  function Copied(f: Fields): Fields {
    map k | k in CopiedKeys :: Get(f, k)
  }

  /** The map entry for a company of the tree. */
  function CompanyDetails(f: Fields, depth: int): (d: Fields)
    ensures "pb_id" in d && "depth" in d
  {
    Copied(f)["profile_url" := Get(f, "profile_url")]
      ["pb_id" := OptValue(ExtractPbId(Get(f, "profile_url")))]
      ["website_link" := Get(f, "website_link")]["former_names" := Get(f, "former_names")]
      ["legal_name" := FirstValue(f, "legal_name", "Name")]["also_known_as" := Get(f, "also_known_as")]
      ["depth" := Num(depth)]
  }

  /** The map entry for a direct affiliate: its profile URL is its "Name_link", and its
      own "Name" is kept. */
  function AffiliateDetails(f: Fields, depth: int): (d: Fields)
    ensures "pb_id" in d && "depth" in d
  {
    Copied(f)["profile_url" := Get(f, "Name_link")]
      ["pb_id" := OptValue(ExtractPbId(Get(f, "Name_link")))]
      ["website_link" := Get(f, "website_link")]["former_names" := Get(f, "former_names")]
      ["legal_name" := FirstValue(f, "legal_name", "Name")]["also_known_as" := Get(f, "also_known_as")]
      ["Name" := Get(f, "Name")]
      ["depth" := Num(depth)]
  }

  function OptValue(o: Option<string>): Value {
    if o.Some? then Str(o.value) else Null
  }

  type Lookup = map<string, Fields>

  /** Entering one company: under its profile ID, always, so a later company with the same
      ID replaces it; under its normalised name when that is not empty, if the name is not
      a key yet or its entry has no profile ID while this company has one. */
  function Enter(m: Lookup, pbId: Option<string>, name: Value, details: Fields): Lookup {
    var m1 := if pbId.Some? then m[pbId.value := details] else m;
    var key := Normalize(AsText(name));
    if Truthy(name) && key != [] && (key !in m1 || (Get(m1[key], "pb_id") == Null && pbId.Some?)) then
      m1[key := details]
    else m1
  }

  /** `process_node_and_add_to_map(node, depth)`. */
  function LoadCompany(m: Lookup, c: Company, depth: int): Lookup
    decreases c, 2
  {
    var m1 := Enter(m, ExtractPbId(Get(c.fields, "profile_url")), FirstValue(c.fields, "legal_name", "Name"), CompanyDetails(c.fields, depth));
    LoadRows(m1, c.affiliates, depth)
  }

  /** The rows of an affiliates table, in order. */
  function LoadRows(m: Lookup, rows: seq<AffiliateRow>, depth: int): Lookup
    decreases rows, 1
  {
    if rows == [] then m else LoadRows(LoadRow(m, rows[0], depth), rows[1..], depth)
  }

  /** One row: the full profile one level down when there is one; otherwise the row itself
      one level down and its related companies two levels down. */
  function LoadRow(m: Lookup, row: AffiliateRow, depth: int): Lookup
    decreases row, 0
  {
    if row.full.Some? then LoadCompany(m, row.full.value, depth + 1)
    else
      var m1 := Enter(m, ExtractPbId(Get(row.fields, "Name_link")), FirstValue(row.fields, "legal_name", "Name"), AffiliateDetails(row.fields, depth + 1));
      LoadCompanies(m1, row.related, depth + 2)
  }

  function LoadCompanies(m: Lookup, cs: seq<Company>, depth: int): Lookup
    decreases cs, 3
  {
    if cs == [] then m else LoadCompanies(LoadCompany(m, cs[0], depth), cs[1..], depth)
  }

  /** The map built from the companies of the saved file, each at depth 0. */
  function LoadAll(roots: seq<Company>): Lookup {
    LoadCompanies(map[], roots, 0)
  }

  // ---------------------------------------------------------------------------------------
  // Properties of the map

  /** A company with a profile ID is the entry under that ID afterwards, whatever its name. */
  lemma ProfileIdOverwrites(m: Lookup, pbId: string, name: Value, details: Fields)
    ensures Enter(m, Some(pbId), name, details)[pbId] == details
  {
  }

  /** The rule for a name key. A truthy name with a non-empty normal form takes that key
      exactly when the key is the company's own profile ID, or is absent, or holds an entry
      without a profile ID while this company has one; otherwise the key keeps what it had.
      A falsy name, or one whose normal form is empty, enters the company under its profile
      ID only. */
  lemma NameKeyRule(m: Lookup, pbId: Option<string>, name: Value, details: Fields)
    ensures var key := Normalize(AsText(name));
      Truthy(name) && key != [] ==>
        Enter(m, pbId, name, details)[key]
          == if (pbId.Some? && key == pbId.value) || key !in m || (Get(m[key], "pb_id") == Null && pbId.Some?)
             then details else m[key]
    ensures !Truthy(name) || Normalize(AsText(name)) == [] ==>
      Enter(m, pbId, name, details) == if pbId.Some? then m[pbId.value := details] else m
  {
  }

  /** A company with a profile ID takes the name key from an entry that has none. */
  lemma ProfileIdTakesNameKey(m: Lookup, pbId: string, name: Value, details: Fields)
    requires Truthy(name) && Normalize(AsText(name)) != []
    requires Normalize(AsText(name)) in m && Get(m[Normalize(AsText(name))], "pb_id") == Null
    ensures Enter(m, Some(pbId), name, details)[Normalize(AsText(name))] == details
  {
  }

  /** What every map built by the loader satisfies: the empty string is never a key, and
      every entry records a profile ID (possibly `None`) and a depth. */
  predicate WellFormed(m: Lookup) {
    && "" !in m
    && forall k :: k in m ==> "pb_id" in m[k] && "depth" in m[k]
  }

  lemma EnterWellFormed(m: Lookup, pbId: Option<string>, name: Value, details: Fields)
    requires WellFormed(m) && "pb_id" in details && "depth" in details
    requires pbId.Some? ==> pbId.value != []
    ensures WellFormed(Enter(m, pbId, name, details))
  {
  }

  /** Loading keeps the map well formed: in particular an empty name is never a key. */
  lemma {:induction false} LoadCompanyWellFormed(m: Lookup, c: Company, depth: int)
    requires WellFormed(m)
    ensures WellFormed(LoadCompany(m, c, depth))
    decreases c, 2
  {
    var pbId := ExtractPbId(Get(c.fields, "profile_url"));
    var m1 := Enter(m, pbId, FirstValue(c.fields, "legal_name", "Name"), CompanyDetails(c.fields, depth));
    EnterWellFormed(m, pbId, FirstValue(c.fields, "legal_name", "Name"), CompanyDetails(c.fields, depth));
    LoadRowsWellFormed(m1, c.affiliates, depth);
  }

  lemma {:induction false} LoadRowsWellFormed(m: Lookup, rows: seq<AffiliateRow>, depth: int)
    requires WellFormed(m)
    ensures WellFormed(LoadRows(m, rows, depth))
    decreases rows, 1
  {
    if rows != [] {
      LoadRowWellFormed(m, rows[0], depth);
      LoadRowsWellFormed(LoadRow(m, rows[0], depth), rows[1..], depth);
    }
  }

  lemma {:induction false} LoadRowWellFormed(m: Lookup, row: AffiliateRow, depth: int)
    requires WellFormed(m)
    ensures WellFormed(LoadRow(m, row, depth))
    decreases row, 0
  {
    if row.full.Some? {
      LoadCompanyWellFormed(m, row.full.value, depth + 1);
    } else {
      var pbId := ExtractPbId(Get(row.fields, "Name_link"));
      var name := FirstValue(row.fields, "legal_name", "Name");
      EnterWellFormed(m, pbId, name, AffiliateDetails(row.fields, depth + 1));
      LoadCompaniesWellFormed(Enter(m, pbId, name, AffiliateDetails(row.fields, depth + 1)), row.related, depth + 2);
    }
  }

  lemma {:induction false} LoadCompaniesWellFormed(m: Lookup, cs: seq<Company>, depth: int)
    requires WellFormed(m)
    ensures WellFormed(LoadCompanies(m, cs, depth))
    decreases cs, 3
  {
    if cs != [] {
      LoadCompanyWellFormed(m, cs[0], depth);
      LoadCompaniesWellFormed(LoadCompany(m, cs[0], depth), cs[1..], depth);
    }
  }

  lemma LoadAllWellFormed(roots: seq<Company>)
    ensures WellFormed(LoadAll(roots))
  {
    LoadCompaniesWellFormed(map[], roots, 0);
  }

  // ---------------------------------------------------------------------------------------
  // The builder

  class LookupBuilder {
    /** `company_data_map`. */
    var entries: Lookup

    constructor ()
      ensures entries == map[]
    {
      entries := map[];
    }

    method AddEntry(pbId: Option<string>, name: Value, details: Fields)
      modifies this
      ensures entries == Enter(old(entries), pbId, name, details)
    {
      var m := entries;
      if pbId.Some? {
        m := m[pbId.value := details];
      }
      ghost var m1 := m;
      assert m1 == if pbId.Some? then entries[pbId.value := details] else entries;
      var key := Normalize(AsText(name));
      if Truthy(name) && key != [] && (key !in m || (Get(m[key], "pb_id") == Null && pbId.Some?)) {
        m := m[key := details];
      }
      assert m == if Truthy(name) && key != [] && (key !in m1 || (Get(m1[key], "pb_id") == Null && pbId.Some?))
        then m1[key := details] else m1;
      entries := m;
    }

    /** `process_node_and_add_to_map`. */
    method ProcessCompany(c: Company, depth: int)
      modifies this
      ensures entries == LoadCompany(old(entries), c, depth)
      decreases c, 2
    {
      AddEntry(ExtractPbId(Get(c.fields, "profile_url")), FirstValue(c.fields, "legal_name", "Name"), CompanyDetails(c.fields, depth));
      ghost var m1 := entries;
      var i := 0;
      while i < |c.affiliates|
        invariant 0 <= i <= |c.affiliates|
        invariant LoadRows(entries, c.affiliates[i..], depth) == LoadRows(m1, c.affiliates, depth)
      {
        assert c.affiliates[i..][1..] == c.affiliates[i + 1..];
        ProcessRow(c.affiliates[i], depth);
        i := i + 1;
      }
      assert c.affiliates[i..] == [];
    }

    method ProcessRow(row: AffiliateRow, depth: int)
      modifies this
      ensures entries == LoadRow(old(entries), row, depth)
      decreases row, 0
    {
      if row.full.Some? {
        ProcessCompany(row.full.value, depth + 1);
      } else {
        AddEntry(ExtractPbId(Get(row.fields, "Name_link")), FirstValue(row.fields, "legal_name", "Name"), AffiliateDetails(row.fields, depth + 1));
        ProcessCompanies(row.related, depth + 2);
      }
    }

    method ProcessCompanies(cs: seq<Company>, depth: int)
      modifies this
      ensures entries == LoadCompanies(old(entries), cs, depth)
      decreases cs, 3
    {
      ghost var m0 := entries;
      var i := 0;
      while i < |cs|
        invariant 0 <= i <= |cs|
        invariant LoadCompanies(entries, cs[i..], depth) == LoadCompanies(m0, cs, depth)
      {
        assert cs[i..][1..] == cs[i + 1..];
        ProcessCompany(cs[i], depth);
        i := i + 1;
      }
      assert cs[i..] == [];
    }
  }
}
