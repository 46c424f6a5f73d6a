/** The review file of retool_bot.py (`write_companies_to_review_json`): near misses are
    appended to what the file already holds. The file is modelled by what reading it gives. */
module ReviewFile {
  import opened Records

  /** What reading the review file gives: no file, text that is not valid JSON, a JSON value
      that is not a list, or a list. */
  datatype Stored = Missing | NotJson | NotAList | Entries(items: seq<Node>)

  /** The file's content after writing `review`, or `None` when the file is left alone
      because there is nothing to write. A file that is not a JSON list counts as empty. */
  function WriteReview(file: Stored, review: seq<Node>): Option<seq<Node>> {
    if review == [] then None
    else Some((if file.Entries? then file.items else []) + review)
  }

  /** Writing appends: a list already in the file is kept in front, the new entries follow
      in order, nothing is removed and nothing is deduplicated. */
  lemma WriteAppends(file: Stored, review: seq<Node>)
    requires review != []
    ensures var before := if file.Entries? then file.items else [];
      var after := WriteReview(file, review).value;
      && |after| == |before| + |review|
      && after[..|before|] == before
      && after[|before|..] == review
  {
  }

  /** Writing the same entry twice keeps both copies. */
  lemma NoDeduplication(file: Stored, entry: Node)
    ensures var after := WriteReview(file, [entry, entry]).value;
      |after| >= 2 && after[|after| - 1] == after[|after| - 2] == entry
  {
  }

  /** Two writes in a row store the two batches one after the other. */
  lemma WritesAccumulate(file: Stored, first: seq<Node>, second: seq<Node>)
    requires first != [] && second != []
    ensures var once := WriteReview(file, first).value;
      WriteReview(Entries(once), second).value == (if file.Entries? then file.items else []) + first + second
  {
  }

  /** A malformed file is replaced by the new entries alone. */
  lemma MalformedFileReplaced(file: Stored, review: seq<Node>)
    requires !file.Entries? && review != []
    ensures WriteReview(file, review) == Some(review)
  {
    assert [] + review == review;
  }
}
