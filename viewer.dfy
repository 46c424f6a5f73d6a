/** The pure helpers of company_viewer.py: display labels for keys, the profile ID of a
    company, the scheme added to links, and the detail lines shown for a company. */
module Viewer {
  import opened Text
  import opened Records

  // ---------------------------------------------------------------------------------------
  // `clean_key`

  /** The fixed display labels. */
  const Replacements: map<string, string> := map[
    "website_link" := "Website", "former_names" := "Former Names", "also_known_as" := "Also Known As",
    "legal_name" := "Legal Name", "contact_name" := "Contact Name", "contact_profile_link" := "Contact Profile Link",
    "contact_title" := "Contact Title", "contact_email" := "Contact Email", "contact_business_phone" := "Business Phone",
    "contact_mobile_phone" := "Mobile Phone", "office_address_line1" := "Office Address Line 1",
    "office_address_line2" := "Office Address Line 2", "office_address_line3" := "Office Address Line 3",
    "office_email" := "Office Email", "office_phone" := "Office Phone", "Deal Date" := "Deal Date",
    "Deal Type" := "Deal Type", "Deal Size" := "Deal Size", "Co-Investors" := "Co-Investors",
    "Company Stage" := "Company Stage", "Lead Partner" := "Lead Partner", "rnd_budget_usd" := "R&D Budget USD",
    "key_products" := "Key Products", "employees" := "Employees", "funding_rounds" := "Funding Rounds",
    "last_valuation" := "Last Valuation", "founded_year" := "Founded Year", "headquarters" := "Headquarters",
    "specialization" := "Specialization", "focus" := "Focus", "next_gen_tech" := "Next-Gen Tech",
    "solution" := "Solution", "clients" := "Clients", "Year Founded" := "Year Founded", "Source_Type" := "Source Type"
  ]

  /** `str.capitalize()`: the first character upper case, the rest lower case. */
  function Capitalize(w: string): string {
    if w == [] then [] else [UpperChar(w[0])] + Lower(w[1..])
  }

  function CapitalizeAll(ws: seq<string>): (r: seq<string>)
    ensures |r| == |ws|
  {
    if ws == [] then [] else [Capitalize(ws[0])] + CapitalizeAll(ws[1..])
  }

  /** `clean_key`: the fixed label when the key has one that differs from it; otherwise the
      key's '_'-separated words, each capitalised, joined with spaces. */
  function CleanKey(key: string): string {
    var shown := if key in Replacements then Replacements[key] else key;
    if shown != key then shown
    else Join(CapitalizeAll(SplitOn(key, '_')), " ")
  }

  /** The label of one character of a key: '_' becomes a space, a character that starts a
      word is upper case, and every other character lower case. */
  function TitleChar(key: string, i: nat): char
    requires i < |key|
  {
    if key[i] == '_' then ' '
    else if i == 0 || key[i - 1] == '_' then UpperChar(key[i])
    else LowerChar(key[i])
  }

  /** The label of a key without a fixed one, character by character; `atStart` says whether
      the first character starts a word. */
  function Titled(s: string, atStart: bool): (r: string)
    ensures |r| == |s|
    ensures forall i :: 0 <= i < |s| && s[i] == '_' ==> r[i] == ' '
    ensures forall i :: 0 <= i < |s| && s[i] != '_' && ((i == 0 && atStart) || (i > 0 && s[i - 1] == '_')) ==> r[i] == UpperChar(s[i])
    ensures forall i :: 0 <= i < |s| && s[i] != '_' && !((i == 0 && atStart) || (i > 0 && s[i - 1] == '_')) ==> r[i] == LowerChar(s[i])
  {
    if s == [] then []
    else
      var rest := Titled(s[1..], s[0] == '_');
      var head := if s[0] == '_' then ' ' else if atStart then UpperChar(s[0]) else LowerChar(s[0]);
      assert forall i :: 1 <= i < |s| ==> ([head] + rest)[i] == rest[i - 1] && s[i] == s[1..][i - 1];
      [head] + rest
  }

  lemma JoinHead(c: char, w: string, rest: seq<string>, sep: string)
    ensures Join([[c] + w] + rest, sep) == [c] + Join([w] + rest, sep)
  {
    if rest != [] {
      assert ([[c] + w] + rest)[1..] == rest && ([w] + rest)[1..] == rest;
    }
  }

  /** Splitting at '_', capitalising the words (only lowering the first one when it does not
      start a word) and joining with spaces labels the key character by character. */
  lemma {:induction false} SplitCapitalizeJoin(s: string, atStart: bool)
    ensures var ps := SplitOn(s, '_');
      var first := if atStart then Capitalize(ps[0]) else Lower(ps[0]);
      Join([first] + CapitalizeAll(ps[1..]), " ") == Titled(s, atStart)
  {
    if s == [] {
    } else if s[0] == '_' {
      SplitCapitalizeJoin(s[1..], true);
      SplitJoinAtSeparator(s, atStart);
    } else {
      SplitCapitalizeJoin(s[1..], false);
      SplitJoinInWord(s, atStart);
    }
  }

  /** The step of `SplitCapitalizeJoin` for a key that starts with '_'. */
  lemma SplitJoinAtSeparator(s: string, atStart: bool)
    requires s != [] && s[0] == '_'
    requires var q := SplitOn(s[1..], '_');
      Join([Capitalize(q[0])] + CapitalizeAll(q[1..]), " ") == Titled(s[1..], true)
    ensures var ps := SplitOn(s, '_');
      var first := if atStart then Capitalize(ps[0]) else Lower(ps[0]);
      Join([first] + CapitalizeAll(ps[1..]), " ") == Titled(s, atStart)
  {
    var ps := SplitOn(s, '_');
    var q := SplitOn(s[1..], '_');
    assert ps == [""] + q;
    assert ps[1..] == q;
    assert CapitalizeAll(q) == [Capitalize(q[0])] + CapitalizeAll(q[1..]);
    var first := if atStart then Capitalize(ps[0]) else Lower(ps[0]);
    assert first == [];
    var ws := [first] + CapitalizeAll(q);
    assert ws[1..] == CapitalizeAll(q);
  }

  /** The step of `SplitCapitalizeJoin` for a key that starts inside a word. */
  lemma SplitJoinInWord(s: string, atStart: bool)
    requires s != [] && s[0] != '_'
    requires var q := SplitOn(s[1..], '_');
      Join([Lower(q[0])] + CapitalizeAll(q[1..]), " ") == Titled(s[1..], false)
    ensures var ps := SplitOn(s, '_');
      var first := if atStart then Capitalize(ps[0]) else Lower(ps[0]);
      Join([first] + CapitalizeAll(ps[1..]), " ") == Titled(s, atStart)
  {
    var ps := SplitOn(s, '_');
    var q := SplitOn(s[1..], '_');
    assert ps == [[s[0]] + q[0]] + q[1..];
    var w := [s[0]] + q[0];
    assert w[1..] == q[0];
    var g := if atStart then UpperChar(s[0]) else LowerChar(s[0]);
    var first := if atStart then Capitalize(w) else Lower(w);
    assert first == [g] + Lower(q[0]);
    assert ps[1..] == q[1..];
    JoinHead(g, Lower(q[0]), CapitalizeAll(q[1..]), " ");
  }

  /** A key without a different fixed label is shown character by character: '_' becomes a
      space, each word starts upper case and continues lower case, and the length is kept. */
  lemma CleanKeyCharwise(key: string)
    requires key !in Replacements || Replacements[key] == key
    ensures |CleanKey(key)| == |key|
    ensures forall i :: 0 <= i < |key| ==> CleanKey(key)[i] == TitleChar(key, i)
  {
    CleanKeyTitled(key);
  }

  /** A key without a different fixed label is shown as its title form. */
  lemma CleanKeyTitled(key: string)
    requires key !in Replacements || Replacements[key] == key
    ensures CleanKey(key) == Titled(key, true)
  {
    var ps := SplitOn(key, '_');
    SplitCapitalizeJoin(key, true);
    assert CapitalizeAll(ps) == [Capitalize(ps[0])] + CapitalizeAll(ps[1..]);
  }

  lemma DealDateSelfMapped()
    ensures "Deal Date" in Replacements && Replacements["Deal Date"] == "Deal Date"
  {
  }

  /** A key with a different fixed label is shown with it. */
  lemma CleanKeyReplaced(key: string)
    requires key in Replacements && Replacements[key] != key
    ensures CleanKey(key) == Replacements[key]
  {
  }

  /** Keys mapped to themselves are still recapitalised: "Deal Date" is shown as "Deal date". */
  lemma SelfMappedKeyRecapitalised()
    ensures CleanKey("Deal Date") == "Deal date"
  {
    DealDateSelfMapped();
    CleanKeyTitled("Deal Date");
    DealDateTitled();
  }

  lemma DealDateTitled()
    ensures Titled("Deal Date", true) == "Deal date"
  {
    var r := Titled("Deal Date", true);
    assert r[0] == 'D' && r[1] == 'e' && r[2] == 'a' && r[3] == 'l' && r[4] == ' ';
    assert r[5] == 'd' && r[6] == 'a' && r[7] == 't' && r[8] == 'e';
  }

  // ---------------------------------------------------------------------------------------
  // `extract_pitchbook_id`

  const ProfileMarker: string := "/profile/"

  /** Length of the leading run of characters other than '/'. */
  function SlashFreeRun(s: string): (n: nat)
    ensures n <= |s|
    ensures forall i :: 0 <= i < n ==> s[i] != '/'
    ensures n < |s| ==> s[n] == '/'
  {
    if s == [] || s[0] == '/' then 0 else 1 + SlashFreeRun(s[1..])
  }

  /** The match of `/profile/([^/]+)/` at the start of `s`: the greedy run must be followed by
      '/', and a shorter run is followed by a character that is not. */
  function ProfileIdAt(s: string): Option<string> {
    if StartsWith(s, ProfileMarker) then
      var t := s[|ProfileMarker|..];
      var n := SlashFreeRun(t);
      if 0 < n < |t| then Some(t[..n]) else None
    else None
  }

  /** `re.search(r'/profile/([^/]+)/', s)`: the leftmost match. An ID found is non-empty,
      has no '/', and occurs in `s` between "/profile/" and a '/'. */
  function ProfileIdSearch(s: string): (r: Option<string>)
    ensures r.Some? ==> r.value != [] && '/' !in r.value && Contains(s, ProfileMarker + r.value + "/")
    decreases |s|
  {
    if s == [] then None
    else if ProfileIdAt(s).Some? then
      var t := s[|ProfileMarker|..];
      var n := SlashFreeRun(t);
      var id := t[..n];
      assert '/' !in id by {
        forall i | 0 <= i < |id| ensures id[i] != '/' { assert id[i] == t[i]; }
      }
      assert s[..|ProfileMarker| + n + 1] == ProfileMarker + id + "/";
      Some(id)
    else ProfileIdSearch(s[1..])
  }

  /** The fields searched, in order. */
  const UrlFields: seq<string> := ["profile_url", "Name_link", "contact_profile_link"]

  /** Whether a field's value is truthy and contains a profile ID. */
  predicate YieldsId(f: Fields, field: string) {
    Truthy(Get(f, field)) && ProfileIdSearch(AsText(Get(f, field))).Some?
  }

  /** The first of `fields` whose value is truthy and matches; a present value that does not
      match does not stop the search, and when no field matches there is no ID. */
  function FirstProfileId(f: Fields, fields: seq<string>): (r: Option<string>)
    ensures r.Some? ==> exists i :: (0 <= i < |fields| && YieldsId(f, fields[i])
      && ProfileIdSearch(AsText(Get(f, fields[i]))) == r
      && forall j :: 0 <= j < i ==> !YieldsId(f, fields[j]))
    ensures r.None? <==> forall i :: 0 <= i < |fields| ==> !YieldsId(f, fields[i])
  {
    if fields == [] then None
    else
      var url := Get(f, fields[0]);
      if YieldsId(f, fields[0]) then ProfileIdSearch(AsText(url))
      else
        var r := FirstProfileId(f, fields[1..]);
        assert forall i :: 1 <= i < |fields| ==> fields[i] == fields[1..][i - 1];
        assert r.Some? ==> exists i :: (1 <= i < |fields| && YieldsId(f, fields[i])
          && ProfileIdSearch(AsText(Get(f, fields[i]))) == r
          && forall j :: 0 <= j < i ==> !YieldsId(f, fields[j])) by {
          if r.Some? {
            var i :| 0 <= i < |fields[1..]| && YieldsId(f, fields[1..][i])
              && ProfileIdSearch(AsText(Get(f, fields[1..][i]))) == r
              && forall j :: 0 <= j < i ==> !YieldsId(f, fields[1..][j]);
            assert fields[1..][i] == fields[i + 1];
            forall j | 0 <= j < i + 1 ensures !YieldsId(f, fields[j]) {
              if j > 0 { assert fields[j] == fields[1..][j - 1]; }
            }
          }
        }
        r
  }

  /** `extract_pitchbook_id`. */
  function ExtractPitchbookId(f: Fields): Option<string> {
    FirstProfileId(f, UrlFields)
  }

  /** An earlier field that yields an ID wins over the later ones; an earlier field that is
      missing, falsy or does not match is passed over. */
  lemma ProfileIdFieldOrder(f: Fields)
    ensures YieldsId(f, "profile_url") ==> ExtractPitchbookId(f) == ProfileIdSearch(AsText(Get(f, "profile_url")))
    ensures !YieldsId(f, "profile_url") ==> ExtractPitchbookId(f) == FirstProfileId(f, ["Name_link", "contact_profile_link"])
  {
    assert UrlFields[1..] == ["Name_link", "contact_profile_link"];
  }

  /** A match needs two '/' characters, so a string with at most one has no ID. */
  lemma {:induction false} OneSlashNoId(s: string)
    requires forall i, k :: 0 <= i < k < |s| && s[i] == '/' ==> s[k] != '/'
    ensures ProfileIdSearch(s) == None
  {
    if s != [] {
      assert |s| < |ProfileMarker| || s[0] != ProfileMarker[0] || s[8] != ProfileMarker[8];
      forall i, k | 0 <= i < k < |s[1..]| && s[1..][i] == '/' ensures s[1..][k] != '/' {
        assert s[1..][i] == s[i + 1] && s[1..][k] == s[k + 1];
      }
      OneSlashNoId(s[1..]);
    }
  }

  lemma {:induction false} ProfileIdSearchSkips(p: string, s: string)
    requires forall k :: 0 <= k < |p| ==> !StartsWith((p + s)[k..], ProfileMarker)
    ensures ProfileIdSearch(p + s) == ProfileIdSearch(s)
  {
    if p != [] {
      assert (p + s)[0..] == p + s;
      assert (p + s)[1..] == p[1..] + s;
      forall k | 0 <= k < |p[1..]|
        ensures !StartsWith((p[1..] + s)[k..], ProfileMarker)
      {
        assert (p[1..] + s)[k..] == (p + s)[k + 1..];
      }
      ProfileIdSearchSkips(p[1..], s);
    } else {
      assert p + s == s;
    }
  }

  /** A URL that ends right after the ID gives nothing, when no "/profile/" starts before
      the last one. */
  lemma NoIdWithoutClosingSlash(p: string, id: string)
    requires '/' !in id
    requires forall k :: 0 <= k < |p| ==> !StartsWith((p + ProfileMarker + id)[k..], ProfileMarker)
    ensures ProfileIdSearch(p + ProfileMarker + id) == None
  {
    assert p + ProfileMarker + id == p + (ProfileMarker + id);
    ProfileIdSearchSkips(p, ProfileMarker + id);
    MarkerThenIdNoId(id);
  }

  lemma MarkerThenIdNoId(id: string)
    requires '/' !in id
    ensures ProfileIdSearch(ProfileMarker + id) == None
  {
    var s := ProfileMarker + id;
    assert s[..|ProfileMarker|] == ProfileMarker;
    assert s[|ProfileMarker|..] == id;
    assert forall i :: 0 <= i < |id| ==> id[i] in id;
    assert ProfileIdAt(s).None?;
    forall i | 0 <= i < |s[1..]| && i != 7 ensures s[1..][i] != '/' {
      if i + 1 < |ProfileMarker| {
        assert s[1..][i] == ProfileMarker[i + 1];
      } else {
        assert s[1..][i] == id[i + 1 - |ProfileMarker|] && id[i + 1 - |ProfileMarker|] in id;
      }
    }
    OneSlashNoId(s[1..]);
  }

  // ---------------------------------------------------------------------------------------
  // `open_link`

  /** The URL opened: "http://" is put in front unless it starts with either scheme. */
  function WithScheme(url: string): (r: string)
    ensures StartsWith(r, "http://") || StartsWith(r, "https://")
    ensures r == url <==> StartsWith(url, "http://") || StartsWith(url, "https://")
    ensures r != url ==> r == "http://" + url
  {
    if StartsWith(url, "http://") || StartsWith(url, "https://") then url
    else
      assert ("http://" + url)[..7] == "http://";
      "http://" + url
  }

  // ---------------------------------------------------------------------------------------
  // `_display_company_details`

  /** The keys never shown as detail lines. */
  const Excluded: set<string> := {
    "profile_url", "depth", "status", "legal_name", "root_name", "Name", "Name_link", "Industry_link",
    "Location_link", "Year Founded_link", "contact_profile_link", "contact_email_link",
    "Deal Date_link", "Deal Type_link", "Deal Size_link", "Co-Investors_link",
    "Company Stage_link", "Lead Partner_link", "related_companies", "nested_related_companies", "website_link"
  }

  /** Stripped string values that count as empty. */
  const Placeholders: set<string> := {"", "N/A", "None"}

  /** The items of a list that are not blank. */
  function NonBlank(items: seq<string>): (r: seq<string>)
    ensures forall w :: w in r ==> w in items && Strip(w) != []
  {
    if items == [] then []
    else (if Strip(items[0]) != [] then [items[0]] else []) + NonBlank(items[1..])
  }

  /** No item is kept exactly when every item is blank. */
  lemma {:induction false} NonBlankEmpty(items: seq<string>)
    ensures NonBlank(items) == [] <==> forall i :: 0 <= i < |items| ==> Strip(items[i]) == []
  {
    if items != [] {
      NonBlankEmpty(items[1..]);
      if Strip(items[0]) == [] {
        forall i | 1 <= i < |items| ensures items[i] == items[1..][i - 1] {}
      }
    }
  }

  /** The text shown for a value, if any. JSON data holds no sets. */
  function Display(v: Value): Option<string>
    requires !v.Ids?
  {
    match v
    case Null => None
    case Str(s) => if Strip(s) in Placeholders then None else Some(Strip(s))
    case Bool(b) => Some(if b then "True" else "False")
    case Num(n) => Some(IntToString(n))
    case Strs(items) =>
      var j := Join(NonBlank(items), ", ");
      if j == [] then None else Some(j)
  }

  /** The detail line for one entry. */
  function DetailLine(key: string, v: Value): Option<string>
    requires !v.Ids?
  {
    if key in Excluded then None
    else
      var d := Display(v);
      if d.Some? then Some(CleanKey(key) + ": " + d.value) else None
  }

  /** When an entry gets a line: its key is not excluded, its value is not `None`, a string
      value does not strip to "", "N/A" or "None", and a list has a non-blank item. */
  predicate Shown(key: string, v: Value) {
    && key !in Excluded
    && v != Null
    && (v.Str? ==> Strip(v.s) !in Placeholders)
    && (v.Strs? ==> exists i :: 0 <= i < |v.items| && Strip(v.items[i]) != [])
  }

  lemma JoinOfNonEmptyFirst(ws: seq<string>, sep: string)
    requires ws != [] && ws[0] != []
    ensures Join(ws, sep) != []
  {
  }

  /** An entry gets a line exactly when it should be shown. */
  lemma LineIffShown(key: string, v: Value)
    requires !v.Ids?
    ensures DetailLine(key, v).Some? <==> Shown(key, v)
  {
    if v.Strs? {
      NonBlankEmpty(v.items);
      var ws := NonBlank(v.items);
      if ws != [] {
        assert ws[0] in ws;
        JoinOfNonEmptyFirst(ws, ", ");
      }
    }
  }

  /** The detail lines of a company's entries, in their order. */
  function AttributeLines(items: seq<(string, Value)>): (r: seq<string>)
    requires forall i :: 0 <= i < |items| ==> !items[i].1.Ids?
    ensures |r| <= |items|
  {
    if items == [] then []
    else
      var line := DetailLine(items[0].0, items[0].1);
      (if line.Some? then [line.value] else []) + AttributeLines(items[1..])
  }

  /** The entries that should be shown, in order. */
  function ShownItems(items: seq<(string, Value)>): seq<(string, Value)> {
    if items == [] then []
    else (if Shown(items[0].0, items[0].1) then [items[0]] else []) + ShownItems(items[1..])
  }

  /** One line per entry that should be shown, in order, each starting with the entry's
      label and ": ". */
  lemma {:induction false} AttributeLinesOfShown(items: seq<(string, Value)>)
    requires forall i :: 0 <= i < |items| ==> !items[i].1.Ids?
    ensures |AttributeLines(items)| == |ShownItems(items)|
    ensures forall i :: 0 <= i < |ShownItems(items)| ==>
      StartsWith(AttributeLines(items)[i], CleanKey(ShownItems(items)[i].0) + ": ")
  {
    if items != [] {
      LineIffShown(items[0].0, items[0].1);
      AttributeLinesOfShown(items[1..]);
      var line := DetailLine(items[0].0, items[0].1);
      var head := if line.Some? then [line.value] else [];
      var rest := AttributeLines(items[1..]);
      if line.Some? {
        var prefix := CleanKey(items[0].0) + ": ";
        assert line.value[..|prefix|] == prefix;
        forall i | 0 <= i < |ShownItems(items)|
          ensures StartsWith(AttributeLines(items)[i], CleanKey(ShownItems(items)[i].0) + ": ")
        {
          if i > 0 {
            assert AttributeLines(items)[i] == rest[i - 1];
            assert ShownItems(items)[i] == ShownItems(items[1..])[i - 1];
          }
        }
      } else {
        assert AttributeLines(items) == rest;
        assert ShownItems(items) == ShownItems(items[1..]);
      }
    }
  }

  /** The entries as a dictionary, built in order, so a later entry for a key wins. */
  function FieldsOf(items: seq<(string, Value)>): (r: Fields)
    ensures forall k :: k in r <==> exists i :: 0 <= i < |items| && items[i].0 == k
    ensures forall i :: (0 <= i < |items| && (forall j :: i < j < |items| ==> items[j].0 != items[i].0)
      ==> r[items[i].0] == items[i].1)
  {
    if items == [] then map[]
    else
      var last := items[|items| - 1];
      var r := FieldsOf(items[..|items| - 1])[last.0 := last.1];
      assert forall i :: 0 <= i < |items| - 1 ==> items[..|items| - 1][i] == items[i];
      r
  }

  /** `_display_company_details` as the lines it shows: the account IDs recorded for the
      company's name (legal name, else "Name") when there are any, its profile ID when one is
      found, then one line per entry that should be shown. */
  function DetailLines(items: seq<(string, Value)>, accounts: map<string, seq<string>>): (r: seq<string>)
    requires forall i :: 0 <= i < |items| ==> !items[i].1.Ids?
    ensures |AttributeLines(items)| <= |r| <= |AttributeLines(items)| + 2
    ensures r[|r| - |AttributeLines(items)|..] == AttributeLines(items)
    ensures var pb := ExtractPitchbookId(FieldsOf(items));
      pb.Some? ==> |r| > |AttributeLines(items)| && r[|r| - |AttributeLines(items)| - 1] == "Pitchbook ID: " + pb.value
    ensures ExtractPitchbookId(FieldsOf(items)).None? ==> |r| <= |AttributeLines(items)| + 1
    ensures var name := FirstText(FieldsOf(items), "legal_name", "Name");
      |r| == |AttributeLines(items)| + (if name != [] && name in accounts then 1 else 0)
        + (if ExtractPitchbookId(FieldsOf(items)).Some? then 1 else 0)
    ensures var name := FirstText(FieldsOf(items), "legal_name", "Name");
      name != [] && name in accounts ==> r != [] && r[0] == "Account IDs: " + Join(accounts[name], ", ")
    ensures var name := FirstText(FieldsOf(items), "legal_name", "Name");
      !(name != [] && name in accounts) ==> |r| <= |AttributeLines(items)| + 1
  {
    var f := FieldsOf(items);
    var name := FirstText(f, "legal_name", "Name");
    var pb := ExtractPitchbookId(f);
    (if name != [] && name in accounts then ["Account IDs: " + Join(accounts[name], ", ")] else [])
      + (if pb.Some? then ["Pitchbook ID: " + pb.value] else [])
      + AttributeLines(items)
  }
}
