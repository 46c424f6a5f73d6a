/** The loosely-typed dictionaries the crawler and the reconciliation engine pass around. */
module Records {
  import opened Text

  datatype Option<T> = None | Some(value: T)

  /** A dictionary value: `None`, a string, a boolean, an integer, a list of strings, or a
      list of strings written from a Python `set` (`list(set(...))`), whose order is unspecified. */
  datatype Value = Null | Str(s: string) | Bool(b: bool) | Num(n: int) | Strs(items: seq<string>) | Ids(ids: set<string>)

  /** One company dictionary, without its two lists of children. */
  type Fields = map<string, Value>

  /** A company dictionary. `related` is its "related_companies" list (present on profile
      dictionaries) and `nested` its "nested_related_companies" list (present on table rows);
      a missing list reads as `[]`, which is how every consumer reads it (`.get(key, [])`). */
  datatype Node = Node(fields: Fields, related: seq<Node>, nested: seq<Node>)

  /** `d.get(key)`. */
  function Get(f: Fields, key: string): Value {
    if key in f then f[key] else Null
  }

  /** Python truthiness of a value. */
  predicate Truthy(v: Value) {
    match v
    case Null => false
    case Str(s) => s != []
    case Bool(b) => b
    case Num(n) => n != 0
    case Strs(items) => items != []
    case Ids(ids) => ids != {}
  }

  /** The string held by a value; `""` stands for `None` and for anything that is not a string. */
  function AsText(v: Value): string {
    if v.Str? then v.s else ""
  }

  /** `d.get(a) or d.get(b)`, read as a string. */
  function FirstText(f: Fields, a: string, b: string): (r: string)
    ensures Truthy(Get(f, a)) && Get(f, a).Str? ==> r == Get(f, a).s
    ensures !Truthy(Get(f, a)) ==> r == AsText(Get(f, b))
  {
    if Truthy(Get(f, a)) then AsText(Get(f, a)) else AsText(Get(f, b))
  }

  /** `d.get("legal_name") or d.get("Name")`: the name a company goes by. */
  function NameOf(f: Fields): string {
    FirstText(f, "legal_name", "Name")
  }

  /** Appending in two steps or in one gives the same sequence. */
  lemma ConcatAssoc<T>(a: seq<T>, b: seq<T>, c: seq<T>)
    ensures a + b + c == a + (b + c)
  {
  }
}
