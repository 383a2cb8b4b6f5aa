/** Concrete cases of the naming rule: the pattern list "out/a.txt,out/b.txt"
    with the prefix "ci-42", a name made only of slashes, and the empty name. */
module WorkedCases {
  import opened Wrappers
  import opened JavaStrings
  import opened ObjectNames

  /** The comma-separated source is walked pattern by pattern. */
  lemma SplitExample()
    ensures Split("out/a.txt,out/b.txt", ',') == ["out/a.txt", "out/b.txt"]
  {
    assert Join(["out/a.txt", "out/b.txt"], ',') == "out/a.txt,out/b.txt";
    PiecesOfJoin(["out/a.txt", "out/b.txt"], ',');
  }

  /** With a prefix, only the last segment of the relative name is kept. */
  lemma KeyExample()
    ensures ObjectName("out/a.txt", Some("ci-42")) == Some("ci-42/a.txt")
  {
    assert "ci-42" + "/" + "a.txt" == "ci-42/a.txt";
    assert Split("out/a.txt", '/') == ["out", "a.txt"] by {
      assert Join(["out", "a.txt"], '/') == "out/a.txt";
      PiecesOfJoin(["out", "a.txt"], '/');
    }
  }

  /** A name of slashes only splits into nothing: Java throws. */
  lemma SlashesExample()
    ensures ObjectName("//", Some("ci-42")) == None
  {
    assert OnlyOf("//", '/');
  }

  /** The empty name splits into one empty piece, so the key ends in the slash. */
  lemma EmptyExample()
    ensures ObjectName("", Some("ci-42")) == Some("ci-42/")
  {
    assert "ci-42" + "/" + "" == "ci-42/";
    assert Split("", '/') == [""];
  }
}
