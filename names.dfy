/** Company-name canonicalisation and the similarity test used to validate search results
    (`normalize_name`, `COMMON_SUFFIXES` and `are_names_similar` in retool_bot.py). */
module Names {
  import opened Text

  /** The legal-form and generic-business words removed from names, as the source lists them. */
  const CommonSuffixes: seq<string> := [
    "inc", "llc", "corp", "ltd", "co", "gmbh", "as", "ag", "sarl", "nv", "sa",
    "bv", "oy", "ab", "kft", "plc", "pvt", "pte", "pty", "s.a.", "s.a.r.l.", "n.v.", "s.p.a.",
    "company", "group", "holding", "holdings", "system", "systems", "products", "solutions",
    "technologies", "technology", "inc.", "llc.", "corp.", "ltd.", "co.", "gmbh.", "as.", "ag.",
    "sarl.", "nv.", "sa.", "bv.", "oy.", "ab.", "kft.", "plc.", "pvt.", "pte.", "pty.",
    "limited", "unlimited", "and", "&"
  ]

  /** The words of a name other than the suffix words, in order. A word here is a maximal run
      of non-whitespace characters, and an entry is removed only when it is a whole word. Since
      punctuation is deleted before the suffix pattern runs, the dotted entries and "&" can
      never match. */
  function DropSuffixes(ws: seq<string>): (r: seq<string>)
    ensures forall w :: w in r <==> w in ws && w !in CommonSuffixes
    ensures (forall w :: w in ws ==> w !in CommonSuffixes) ==> r == ws
  {
    if ws == [] then []
    else if ws[0] in CommonSuffixes then DropSuffixes(ws[1..])
    else [ws[0]] + DropSuffixes(ws[1..])
  }

  /** A character that can survive normalisation. */
  predicate KeptChar(c: char) {
    !IsSpace(c) && !IsUpper(c) && !IsPunctuation(c)
  }

  /** A word that can survive normalisation. */
  predicate KeptWord(w: string) {
    w != [] && (forall c :: c in w ==> KeptChar(c)) && w !in CommonSuffixes
  }

  /** The shape of every normalised name: lower case, no punctuation, no suffix word,
      words separated by single spaces, no leading or trailing whitespace. */
  predicate IsNormalized(r: string) {
    && (forall i :: 0 <= i < |r| ==> r[i] == ' ' || KeptChar(r[i]))
    && (r != [] ==> r[0] != ' ' && r[|r| - 1] != ' ')
    && (forall i :: 0 <= i < |r| - 1 ==> !(r[i] == ' ' && r[i + 1] == ' '))
    && (forall w :: w in Words(r) ==> w !in CommonSuffixes)
  }

  /** `normalize_name`: falsy input gives ""; otherwise lower-case, delete punctuation, remove
      suffix words, collapse whitespace runs to one space and strip. */
  function Normalize(name: string): (r: string)
    ensures IsNormalized(r)
    ensures name == [] ==> r == []
    ensures name != [] ==> Words(r) == DropSuffixes(Words(DeletePunctuation(Lower(name))))
  {
    if name == [] then []
    else
      var ws := DropSuffixes(Words(DeletePunctuation(Lower(name))));
      KeptWords(name, ws);
      JoinKeptWords(ws);
      Join(ws, " ")
  }

  lemma KeptWords(name: string, ws: seq<string>)
    requires ws == DropSuffixes(Words(DeletePunctuation(Lower(name))))
    ensures forall w :: w in ws ==> KeptWord(w)
  {
    var lowered := Lower(name);
    assert forall c :: c in lowered ==> !IsUpper(c);
  }

  lemma {:induction false} TokenLengthOfWord(w: string, rest: string)
    requires forall c :: c in w ==> !IsSpace(c)
    requires rest == [] || IsSpace(rest[0])
    ensures TokenLength(w + rest) == |w|
  {
    if w != [] {
      assert (w + rest)[1..] == w[1..] + rest;
      TokenLengthOfWord(w[1..], rest);
    }
  }

  /** Joining kept words with single spaces gives a normalised string whose words are
      exactly the joined ones. */
  lemma JoinKeptWords(ws: seq<string>)
    requires forall w :: w in ws ==> KeptWord(w)
    ensures IsNormalized(Join(ws, " "))
    ensures Words(Join(ws, " ")) == ws
    ensures ws != [] ==> Join(ws, " ") != []
  {
    WordsOfJoin(ws);
    JoinShape(ws);
  }

  lemma {:induction false} WordsOfJoin(ws: seq<string>)
    requires forall w :: w in ws ==> KeptWord(w)
    ensures Words(Join(ws, " ")) == ws
  {
    if ws == [] {
    } else if |ws| == 1 {
      var w := ws[0];
      assert KeptWord(w);
      assert w + [] == w;
      TokenLengthOfWord(w, []);
      assert w[..|w|] == w && w[|w|..] == [];
      assert Words(w) == [w];
    } else {
      var w, rest := ws[0], Join(ws[1..], " ");
      assert KeptWord(w);
      WordsOfJoin(ws[1..]);
      var j := w + " " + rest;
      assert Join(ws, " ") == j;
      assert w + (" " + rest) == j;
      TokenLengthOfWord(w, " " + rest);
      assert j[..|w|] == w && j[|w|..] == " " + rest;
      assert (" " + rest)[1..] == rest;
      assert Words(j) == [w] + Words(rest);
      assert ws == [w] + ws[1..];
    }
  }

  lemma {:induction false} JoinShape(ws: seq<string>)
    requires forall w :: w in ws ==> KeptWord(w)
    ensures var j := Join(ws, " ");
      && (forall i :: 0 <= i < |j| ==> j[i] == ' ' || KeptChar(j[i]))
      && (j != [] ==> j[0] != ' ' && j[|j| - 1] != ' ')
      && (forall i :: 0 <= i < |j| - 1 ==> !(j[i] == ' ' && j[i + 1] == ' '))
      && (ws != [] ==> j != [])
  {
    if ws == [] {
    } else if |ws| == 1 {
      var w := ws[0];
      assert KeptWord(w);
      assert forall i :: 0 <= i < |w| ==> w[i] in w;
    } else {
      var w, rest := ws[0], Join(ws[1..], " ");
      assert KeptWord(w);
      JoinShape(ws[1..]);
      var j := w + " " + rest;
      assert Join(ws, " ") == j;
      forall i | 0 <= i < |j|
        ensures j[i] == ' ' || KeptChar(j[i])
      {
        if i < |w| {
          assert j[i] == w[i] && w[i] in w;
        } else if i > |w| {
          assert j[i] == rest[i - |w| - 1];
        }
      }
      forall i | 0 <= i < |j| - 1
        ensures !(j[i] == ' ' && j[i + 1] == ' ')
      {
        if i < |w| {
          assert j[i] == w[i] && w[i] in w;
        } else {
          assert j[i + 1] == rest[i - |w|];
        }
      }
      assert j[0] == w[0] && w[0] in w;
      assert j[|j| - 1] == rest[|rest| - 1];
    }
  }

  /** Normalising a normalised name changes nothing. */
  lemma NormalizeIdempotent(name: string)
    ensures Normalize(Normalize(name)) == Normalize(name)
  {
    var r := Normalize(name);
    if r != [] {
      var ws := DropSuffixes(Words(DeletePunctuation(Lower(name))));
      KeptWords(name, ws);
      JoinKeptWords(ws);
      assert Lower(r) == r;
      assert forall c :: c in r ==> !IsPunctuation(c);
      assert DeletePunctuation(Lower(r)) == r;
      assert Words(r) == ws;
    }
  }

  /** The words of a normalised name longer than two characters. */
  function SignificantWords(n: string): set<string> {
    set w | w in Words(n) && |w| > 2
  }

  function WordSet(n: string): set<string> {
    set w | w in Words(n)
  }

  /** `are_names_similar`: false when either name is empty or absent; true when both normalise
      to the same string; otherwise true exactly when the query's significant words form a
      non-empty subset of the result's words. */
  predicate Similar(query: string, result: string) {
    if query == [] || result == [] then false
    else
      var nq, nr := Normalize(query), Normalize(result);
      nq == nr || (SignificantWords(nq) != {} && SignificantWords(nq) <= WordSet(nr))
  }

  /** Equal normal forms make two present names similar in both directions. */
  lemma SimilarWhenEqualForms(a: string, b: string)
    requires a != [] && b != [] && Normalize(a) == Normalize(b)
    ensures Similar(a, b) && Similar(b, a)
  {
  }

  /** Similarity only ever looks at the normal forms: comparing the normal forms instead of
      the names gives the same answer whenever both normal forms are non-empty. */
  lemma SimilarOnNormalForms(q: string, r: string)
    requires Normalize(q) != [] && Normalize(r) != []
    ensures Similar(Normalize(q), Normalize(r)) == Similar(q, r)
  {
    NormalizeIdempotent(q);
    NormalizeIdempotent(r);
  }

  lemma {:induction false} AllSuffixesDropped(ws: seq<string>)
    requires forall w :: w in ws ==> w in CommonSuffixes
    ensures DropSuffixes(ws) == []
  {
    if ws != [] {
      AllSuffixesDropped(ws[1..]);
    }
  }

  /** A present name made only of suffix words normalises to "". */
  lemma SuffixOnlyNameVanishes(a: string)
    requires a != []
    requires forall w :: w in Words(DeletePunctuation(Lower(a))) ==> w in CommonSuffixes
    ensures Normalize(a) == []
  {
    var ws := Words(DeletePunctuation(Lower(a)));
    AllSuffixesDropped(ws);
    assert Join(DropSuffixes(ws), " ") == [];
  }

  /** Names made only of suffix words all normalise to "", so any two of them count as
      similar, although `are_names_similar` is meant to reject empty names. */
  lemma SuffixOnlyNamesMatch(a: string, b: string)
    requires a != [] && b != []
    requires forall w :: w in Words(DeletePunctuation(Lower(a))) ==> w in CommonSuffixes
    requires forall w :: w in Words(DeletePunctuation(Lower(b))) ==> w in CommonSuffixes
    ensures Normalize(a) == [] && Normalize(b) == []
    ensures Similar(a, b)
  {
    SuffixOnlyNameVanishes(a);
    SuffixOnlyNameVanishes(b);
  }
}
