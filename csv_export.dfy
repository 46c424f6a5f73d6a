/** The CSV export of a crawl (`save_to_csv` in pb_tree_crawler.py): the tree of profile
    dictionaries flattened to one row per node, and the column order of the header. */
module CsvExport {
  import opened Records

  // ---------------------------------------------------------------------------------------
  // Flattening

  /** The keys a node's row never carries. */
  const Omitted: set<string> := {"related_companies", "nested_related_companies", "status", "depth"}

  /** The keys naming the parent of a row. */
  const SourceKeys: set<string> := {"source_company_name", "source_profile_url"}

  /** The row written for one node: its entries other than the omitted ones, then the
      parent's name and profile URL, each only when it is truthy. */
  function NodeRow(n: Node, parentName: Value, parentUrl: Value): Fields {
    var own := map k | k in n.fields && k !in Omitted :: n.fields[k];
    var named := if Truthy(parentName) then own["source_company_name" := parentName] else own;
    if Truthy(parentUrl) then named["source_profile_url" := parentUrl] else named
  }

  /** `flatten_recursive`: the node's row, then the rows of its related companies, then the
      rows of its nested related companies, each child with this row's "Name" and
      "profile_url" as its parent. */
  function Flatten(n: Node, parentName: Value, parentUrl: Value): (rows: seq<Fields>)
    ensures rows != [] && rows[0] == NodeRow(n, parentName, parentUrl)
    decreases n, 1
  {
    var row := NodeRow(n, parentName, parentUrl);
    [row] + FlattenAll(n.related, Get(row, "Name"), Get(row, "profile_url"))
      + FlattenAll(n.nested, Get(row, "Name"), Get(row, "profile_url"))
  }

  function FlattenAll(ns: seq<Node>, parentName: Value, parentUrl: Value): (rows: seq<Fields>)
    ensures ns != [] ==> rows != [] && rows[0] == NodeRow(ns[0], parentName, parentUrl)
    decreases ns, 0
  {
    if ns == [] then [] else Flatten(ns[0], parentName, parentUrl) + FlattenAll(ns[1..], parentName, parentUrl)
  }

  /** The nodes of a tree in pre-order: a node, then the subtrees of its related companies,
      then those of its nested related companies. */
  function PreOrder(n: Node): (r: seq<Node>)
    ensures r != [] && r[0] == n
    decreases n, 1
  {
    [n] + PreOrderAll(n.related) + PreOrderAll(n.nested)
  }

  function PreOrderAll(ns: seq<Node>): seq<Node>
    decreases ns, 0
  {
    if ns == [] then [] else PreOrder(ns[0]) + PreOrderAll(ns[1..])
  }

  /** `row` is what the export writes for `node`: none of the omitted keys, and every other
      entry of the node except the two parent keys carried over unchanged. */
  predicate RowOf(row: Fields, node: Node) {
    && (forall k :: k in row ==> k !in Omitted)
    && (forall k :: k in node.fields && k !in Omitted && k !in SourceKeys ==> k in row && row[k] == node.fields[k])
  }

  /** Rows and nodes paired up one by one. */
  predicate RowsOf(rows: seq<Fields>, nodes: seq<Node>) {
    |rows| == |nodes| && forall i :: 0 <= i < |rows| ==> RowOf(rows[i], nodes[i])
  }

  lemma RowsOfConcat(r1: seq<Fields>, n1: seq<Node>, r2: seq<Fields>, n2: seq<Node>)
    requires RowsOf(r1, n1) && RowsOf(r2, n2)
    ensures RowsOf(r1 + r2, n1 + n2)
  {
    forall i | 0 <= i < |r1 + r2|
      ensures RowOf((r1 + r2)[i], (n1 + n2)[i])
    {
      if i >= |r1| {
        assert (r1 + r2)[i] == r2[i - |r1|] && (n1 + n2)[i] == n2[i - |r1|];
      }
    }
  }

  /** The export writes exactly one row per node, in pre-order, each row that node's data. */
  lemma {:induction false} FlattenIsPreOrder(n: Node, parentName: Value, parentUrl: Value)
    ensures RowsOf(Flatten(n, parentName, parentUrl), PreOrder(n))
    decreases n, 1
  {
    var row := NodeRow(n, parentName, parentUrl);
    var name, url := Get(row, "Name"), Get(row, "profile_url");
    FlattenAllIsPreOrder(n.related, name, url);
    FlattenAllIsPreOrder(n.nested, name, url);
    assert RowsOf([row], [n]);
    RowsOfConcat([row], [n], FlattenAll(n.related, name, url), PreOrderAll(n.related));
    RowsOfConcat([row] + FlattenAll(n.related, name, url), [n] + PreOrderAll(n.related),
                 FlattenAll(n.nested, name, url), PreOrderAll(n.nested));
  }

  lemma {:induction false} FlattenAllIsPreOrder(ns: seq<Node>, parentName: Value, parentUrl: Value)
    ensures RowsOf(FlattenAll(ns, parentName, parentUrl), PreOrderAll(ns))
    decreases ns, 0
  {
    if ns != [] {
      FlattenIsPreOrder(ns[0], parentName, parentUrl);
      FlattenAllIsPreOrder(ns[1..], parentName, parentUrl);
      RowsOfConcat(Flatten(ns[0], parentName, parentUrl), PreOrder(ns[0]),
                   FlattenAll(ns[1..], parentName, parentUrl), PreOrderAll(ns[1..]));
    }
  }

  /** A child's row names its parent: when the parent's row has a truthy "Name" and
      "profile_url", the row of its `i`-th related company, which follows the parent's row
      and the rows of the related companies before it, carries them as its source keys. */
  lemma ChildRowNamesParent(n: Node, parentName: Value, parentUrl: Value, i: nat)
    requires i < |n.related|
    ensures var row := NodeRow(n, parentName, parentUrl);
      var at := 1 + |FlattenAll(n.related[..i], Get(row, "Name"), Get(row, "profile_url"))|;
      var rows := Flatten(n, parentName, parentUrl);
      && at < |rows| && rows[at] == NodeRow(n.related[i], Get(row, "Name"), Get(row, "profile_url"))
      && (Truthy(Get(row, "Name")) ==> rows[at]["source_company_name"] == Get(row, "Name"))
      && (Truthy(Get(row, "profile_url")) ==> rows[at]["source_profile_url"] == Get(row, "profile_url"))
  {
    var row := NodeRow(n, parentName, parentUrl);
    var name, url := Get(row, "Name"), Get(row, "profile_url");
    ChildAt(n.related, i, name, url);
    var rest := FlattenAll(n.nested, name, url);
    assert Flatten(n, parentName, parentUrl) == [row] + FlattenAll(n.related, name, url) + rest;
  }

  /** The same for the `j`-th nested related company, whose row follows the rows of all the
      related companies and of the nested ones before it. */
  lemma NestedRowNamesParent(n: Node, parentName: Value, parentUrl: Value, j: nat)
    requires j < |n.nested|
    ensures var row := NodeRow(n, parentName, parentUrl);
      var at := 1 + |FlattenAll(n.related, Get(row, "Name"), Get(row, "profile_url"))|
        + |FlattenAll(n.nested[..j], Get(row, "Name"), Get(row, "profile_url"))|;
      var rows := Flatten(n, parentName, parentUrl);
      && at < |rows| && rows[at] == NodeRow(n.nested[j], Get(row, "Name"), Get(row, "profile_url"))
      && (Truthy(Get(row, "Name")) ==> rows[at]["source_company_name"] == Get(row, "Name"))
      && (Truthy(Get(row, "profile_url")) ==> rows[at]["source_profile_url"] == Get(row, "profile_url"))
  {
    var row := NodeRow(n, parentName, parentUrl);
    var name, url := Get(row, "Name"), Get(row, "profile_url");
    ChildAt(n.nested, j, name, url);
    var head := [row] + FlattenAll(n.related, name, url);
    assert Flatten(n, parentName, parentUrl) == head + FlattenAll(n.nested, name, url);
  }

  /** The row of the `i`-th of some children sits right after the rows of those before it. */
  lemma ChildAt(children: seq<Node>, i: nat, parentName: Value, parentUrl: Value)
    requires i < |children|
    ensures var at := |FlattenAll(children[..i], parentName, parentUrl)|;
      at < |FlattenAll(children, parentName, parentUrl)|
      && FlattenAll(children, parentName, parentUrl)[at] == NodeRow(children[i], parentName, parentUrl)
  {
    FlattenAllConcat(children[..i], children[i..], parentName, parentUrl);
    assert children[..i] + children[i..] == children;
    assert children[i..][0] == children[i];
  }

  /** The root row has no source keys unless the root carries them itself. */
  lemma RootRowHasNoParent(n: Node)
    requires forall k :: k in SourceKeys ==> k !in n.fields
    ensures forall k :: k in SourceKeys ==> k !in Flatten(n, Null, Null)[0]
  {
  }

  lemma {:induction false} FlattenAllConcat(a: seq<Node>, b: seq<Node>, parentName: Value, parentUrl: Value)
    ensures FlattenAll(a + b, parentName, parentUrl) == FlattenAll(a, parentName, parentUrl) + FlattenAll(b, parentName, parentUrl)
  {
    if a == [] {
      assert a + b == b;
    } else {
      assert (a + b)[1..] == a[1..] + b;
      FlattenAllConcat(a[1..], b, parentName, parentUrl);
    }
  }

  /** The rows of the first `i + 1` children are those of the first `i`, then child `i`'s. */
  lemma FlattenAllSnoc(children: seq<Node>, i: nat, parentName: Value, parentUrl: Value)
    requires i < |children|
    ensures FlattenAll(children[..i + 1], parentName, parentUrl)
      == FlattenAll(children[..i], parentName, parentUrl) + Flatten(children[i], parentName, parentUrl)
  {
    FlattenAllConcat(children[..i], [children[i]], parentName, parentUrl);
    assert children[..i] + [children[i]] == children[..i + 1];
    assert FlattenAll([children[i]], parentName, parentUrl) == Flatten(children[i], parentName, parentUrl) + [];
  }

  /** The rows of some of a node's children, appended one child at a time. */
  method AppendChildren(children: seq<Node>, parentName: Value, parentUrl: Value, acc: seq<Fields>)
    returns (out: seq<Fields>)
    ensures out == acc + FlattenAll(children, parentName, parentUrl)
    decreases children, 0
  {
    out := acc;
    var i := 0;
    while i < |children|
      invariant 0 <= i <= |children|
      invariant out == acc + FlattenAll(children[..i], parentName, parentUrl)
    {
      FlattenAllSnoc(children, i, parentName, parentUrl);
      ghost var done := FlattenAll(children[..i], parentName, parentUrl);
      ghost var next := Flatten(children[i], parentName, parentUrl);
      ConcatAssoc(acc, done, next);
      out := FlattenInto(children[i], parentName, parentUrl, out);
      i := i + 1;
    }
    assert children[..i] == children;
  }

  /** `flatten_recursive`, appending to the list of rows. */
  method FlattenInto(n: Node, parentName: Value, parentUrl: Value, acc: seq<Fields>) returns (out: seq<Fields>)
    ensures out == acc + Flatten(n, parentName, parentUrl)
    decreases n, 1
  {
    var row := NodeRow(n, parentName, parentUrl);
    out := acc + [row];
    out := AppendChildren(n.related, Get(row, "Name"), Get(row, "profile_url"), out);
    out := AppendChildren(n.nested, Get(row, "Name"), Get(row, "profile_url"), out);
  }

  /** What `save_to_csv` is given: one profile dictionary, or a list of them. */
  datatype Saved = Single(root: Node) | Several(roots: seq<Node>)

  /** The rows to write; `None` when the data is not in either profile shape (a dictionary
      without "profile_url", or a list that is empty or whose first element has none),
      in which case the data is written as it is. */
  function ExportRows(d: Saved): Option<seq<Fields>> {
    match d
    case Single(root) => if "profile_url" in root.fields then Some(Flatten(root, Null, Null)) else None
    case Several(roots) =>
      if roots != [] && "profile_url" in roots[0].fields then Some(FlattenAll(roots, Null, Null)) else None
  }

  /** A list of profiles is exported as the concatenation of their trees, in list order. */
  lemma SeveralRootsInOrder(roots: seq<Node>)
    requires roots != [] && "profile_url" in roots[0].fields
    ensures ExportRows(Several(roots)) == Some(Flatten(roots[0], Null, Null) + FlattenAll(roots[1..], Null, Null))
    ensures RowsOf(ExportRows(Several(roots)).value, PreOrderAll(roots))
  {
    FlattenAllIsPreOrder(roots, Null, Null);
  }

  // ---------------------------------------------------------------------------------------
  // The header

  /** Python's string order: by code point, a proper prefix first. */
  predicate LexLess(a: string, b: string) {
    if a == [] then b != []
    else b != [] && (a[0] < b[0] || (a[0] == b[0] && LexLess(a[1..], b[1..])))
  }

  lemma {:induction false} LexAsymmetric(a: string, b: string)
    ensures !(LexLess(a, b) && LexLess(b, a))
  {
    if a != [] && b != [] && a[0] == b[0] {
      LexAsymmetric(a[1..], b[1..]);
    }
  }

  lemma {:induction false} LexTransitive(a: string, b: string, c: string)
    requires LexLess(a, b) && LexLess(b, c)
    ensures LexLess(a, c)
  {
    if a != [] && a[0] == b[0] && b[0] == c[0] {
      LexTransitive(a[1..], b[1..], c[1..]);
    }
  }

  lemma {:induction false} LexTotal(a: string, b: string)
    requires a != b
    ensures LexLess(a, b) || LexLess(b, a)
  {
    if a != [] && b != [] && a[0] == b[0] {
      assert a == [a[0]] + a[1..] && b == [b[0]] + b[1..];
      LexTotal(a[1..], b[1..]);
    }
  }

  predicate StrictlySorted(s: seq<string>) {
    forall i, j :: 0 <= i < j < |s| ==> LexLess(s[i], s[j])
  }

  /** Inserting a key into a strictly sorted sequence of keys. */
  function Insert(x: string, s: seq<string>): (r: seq<string>)
    requires StrictlySorted(s)
    ensures StrictlySorted(r)
    ensures forall y :: y in r <==> y == x || y in s
  {
    if s == [] then [x]
    else if x == s[0] then s
    else if LexLess(x, s[0]) then
      forall j | 0 <= j < |s|
        ensures LexLess(x, s[j])
      {
        if j > 0 { LexTransitive(x, s[0], s[j]); }
      }
      [x] + s
    else
      LexTotal(x, s[0]);
      var t := Insert(x, s[1..]);
      assert forall y :: y in t ==> LexLess(s[0], y);
      [s[0]] + t
  }

  /** `sorted(keys)`. */
  ghost function Sorted(keys: set<string>): (r: seq<string>)
    ensures StrictlySorted(r)
    ensures forall y :: y in r <==> y in keys
  {
    if keys == {} then []
    else
      var x :| x in keys;
      Insert(x, Sorted(keys - {x}))
  }

  /** The columns always written first, when present, in this order. */
  const Preferred: seq<string> := [
    "root_name", "Type", "Source_Type", "Name", "profile_url", "legal_name", "also_known_as",
    "website_link", "source_company_name", "source_profile_url"
  ]

  /** Every key of every row. */
  function AllKeys(rows: seq<Fields>): (keys: set<string>)
    ensures forall i, k :: 0 <= i < |rows| && k in rows[i] ==> k in keys
    ensures forall k :: k in keys ==> exists i :: 0 <= i < |rows| && k in rows[i]
  {
    if rows == [] then {}
    else
      var rest := AllKeys(rows[1..]);
      assert forall k :: k in rest ==> exists i :: 1 <= i < |rows| && k in rows[i] by {
        forall k | k in rest ensures exists i :: 1 <= i < |rows| && k in rows[i] {
          var j :| 0 <= j < |rows[1..]| && k in rows[1..][j];
          assert rows[1..][j] == rows[j + 1];
        }
      }
      rows[0].Keys + rest
  }

  /** The keys of `ks` that are in `present`, in order. */
  function Present(ks: seq<string>, present: set<string>): (r: seq<string>)
    ensures forall k :: k in r <==> k in ks && k in present
  {
    if ks == [] then [] else (if ks[0] in present then [ks[0]] else []) + Present(ks[1..], present)
  }

  /** The header: the preferred columns followed by the other keys sorted, keeping only the
      keys some row has. */
  ghost function Fieldnames(keys: set<string>): seq<string> {
    Present(Preferred + Sorted(keys - PreferredSet), keys)
  }

  const PreferredSet: set<string> := set k | k in Preferred

  predicate Distinct(s: seq<string>) {
    forall i, j :: 0 <= i < j < |s| ==> s[i] != s[j]
  }

  lemma {:induction false} PresentConcat(a: seq<string>, b: seq<string>, present: set<string>)
    ensures Present(a + b, present) == Present(a, present) + Present(b, present)
  {
    if a == [] {
      assert a + b == b;
    } else {
      assert (a + b)[1..] == a[1..] + b;
      PresentConcat(a[1..], b, present);
    }
  }

  lemma {:induction false} PresentAllOf(s: seq<string>, present: set<string>)
    requires forall k :: k in s ==> k in present
    ensures Present(s, present) == s
  {
    if s != [] {
      PresentAllOf(s[1..], present);
    }
  }

  lemma {:induction false} PresentKeepsDistinct(s: seq<string>, present: set<string>)
    requires Distinct(s)
    ensures Distinct(Present(s, present))
  {
    if s != [] {
      PresentKeepsDistinct(s[1..], present);
    }
  }

  lemma SortedIsDistinct(s: seq<string>)
    requires StrictlySorted(s)
    ensures Distinct(s)
  {
    forall i, j | 0 <= i < j < |s|
      ensures s[i] != s[j]
    {
      LexAsymmetric(s[i], s[j]);
    }
  }

  /** The header names every key of every row exactly once: first the present preferred
      columns in their fixed order, then the remaining keys in sorted order. */
  lemma FieldnamesOrder(keys: set<string>)
    ensures forall k :: k in Fieldnames(keys) <==> k in keys
    ensures Distinct(Fieldnames(keys))
    ensures Fieldnames(keys) == Present(Preferred, keys) + Sorted(keys - PreferredSet)
    ensures StrictlySorted(Sorted(keys - PreferredSet))
    ensures forall k :: k in Sorted(keys - PreferredSet) ==> k !in Preferred
  {
    var rest := Sorted(keys - PreferredSet);
    PresentConcat(Preferred, rest, keys);
    PresentAllOf(rest, keys);
    var pre := Present(Preferred, keys);
    PresentKeepsDistinct(Preferred, keys);
    SortedIsDistinct(rest);
    DistinctConcat(pre, rest);
  }

  lemma DistinctConcat(a: seq<string>, b: seq<string>)
    requires Distinct(a) && Distinct(b)
    requires forall k :: k in a ==> k !in b
    ensures Distinct(a + b)
  {
    var f := a + b;
    forall i, j | 0 <= i < j < |f|
      ensures f[i] != f[j]
    {
      if j >= |a| {
        var j' := j - |a|;
        assert f[j] == b[j'];
        if i < |a| {
          assert f[i] == a[i] && a[i] in a && b[j'] in b;
        } else {
          assert f[i] == b[i - |a|];
        }
      } else {
        assert f[i] == a[i] && f[j] == a[j];
      }
    }
  }

  /** The header of the file, or `None` when there are no rows and nothing is written. */
  ghost function Header(rows: seq<Fields>): Option<seq<string>> {
    if rows == [] then None else Some(Fieldnames(AllKeys(rows)))
  }
}
