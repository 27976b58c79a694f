/**
 * The inventory path an archive request names: split on the path delimiter with empty
 * fields dropped, a final `*` taken to mean "the folder's contents but not the folder",
 * and the remaining fields written back joined by single delimiters.
 */
module InventoryPaths {
  import opened Strings

  /** The inventory path delimiter. */
  const Delimiter: char := '/'

  /** The last path field that asks for a folder's contents only. */
  const Wildcard: string := "*"

  /** The normalised path to look up, and whether only the target's contents are wanted. */
  datatype Target = Target(path: string, contentsOnly: bool)

  /** The non-empty fields of a path: leading, trailing and doubled delimiters vanish. */
  function Components(p: string): (cs: seq<string>)
    ensures forall i :: 0 <= i < |cs| ==> cs[i] != [] && Delimiter !in cs[i]
  {
    var cs := NonEmpty(Split(p, Delimiter));
    assert forall i :: 0 <= i < |cs| ==> Delimiter !in cs[i] by {
      forall i | 0 <= i < |cs| ensures Delimiter !in cs[i] {
        assert cs[i] in Split(p, Delimiter);
      }
    }
    cs
  }

  /**
   * The components of fields joined by the delimiter are exactly the non-empty fields,
   * in order: no non-empty field is lost, and nothing else appears.
   */
  lemma ComponentsOfJoin(fields: seq<string>)
    requires |fields| >= 1
    requires forall i :: 0 <= i < |fields| ==> Delimiter !in fields[i]
    ensures Components(Join(fields, Delimiter)) == NonEmpty(fields)
  {
    SplitJoin(fields, Delimiter);
  }

  /** A doubled delimiter between two names drops only the empty field between them. */
  lemma ComponentsExample()
    ensures Components("a//b") == ["a", "b"]
  {
    assert Join(["a", "", "b"], Delimiter) == "a//b" by {
      assert ["a", "", "b"][1..] == ["", "b"];
      assert ["", "b"][1..] == ["b"];
    }
    ComponentsOfJoin(["a", "", "b"]);
    assert NonEmpty(["b"]) == ["b"] by { assert ["b"][1..] == []; }
    assert NonEmpty(["", "b"]) == ["b"] by { assert ["", "b"][1..] == ["b"]; }
    assert NonEmpty(["a", "", "b"]) == ["a", "b"] by { assert ["a", "", "b"][1..] == ["", "b"]; }
  }

  /** Whether the path ends in the wildcard field. */
  predicate EndsInWildcard(p: string)
  {
    var cs := Components(p);
    |cs| > 0 && cs[|cs| - 1] == Wildcard
  }

  /** The fields that name the target: the components without a final wildcard. */
  function Kept(p: string): seq<string>
  {
    var cs := Components(p);
    if EndsInWildcard(p) then cs[..|cs| - 1] else cs
  }

  /** Every field followed by one delimiter, as the request builds its path. */
  function TerminatedJoin(fields: seq<string>): (s: string)
    ensures |fields| > 0 ==> |s| > 0 && s[|s| - 1] == Delimiter
  {
    if |fields| == 0 then "" else fields[0] + [Delimiter] + TerminatedJoin(fields[1..])
  }

  /** The position of the last `c` in `s`, or -1 when there is none. */
  function LastIndexOf(s: string, c: char): (i: int)
    ensures -1 <= i < |s|
    ensures i >= 0 ==> s[i] == c && c !in s[i + 1..]
    ensures i == -1 ==> c !in s
  {
    if |s| == 0 then -1
    else if s[|s| - 1] == c then |s| - 1
    else
      var i := LastIndexOf(s[..|s| - 1], c);
      assert s == s[..|s| - 1] + [s[|s| - 1]];
      i
  }

  /**
   * The request's reading of a path: drop a final wildcard (noting it), append each kept
   * field and a delimiter, then cut the text at its last delimiter when it is not empty.
   */
  function Normalise(p: string): (t: Target)
    ensures t.contentsOnly <==> EndsInWildcard(p)
  {
    var joined := TerminatedJoin(Kept(p));
    var path := if |joined| == 0 then joined else joined[..LastIndexOf(joined, Delimiter)];
    Target(path, EndsInWildcard(p))
  }

  /** Following every field by a delimiter is joining them and adding one delimiter. */
  lemma {:induction false} TerminatedJoinIsJoin(fields: seq<string>)
    requires |fields| > 0
    ensures TerminatedJoin(fields) == Join(fields, Delimiter) + [Delimiter]
  {
    if |fields| > 1 {
      TerminatedJoinIsJoin(fields[1..]);
      assert TerminatedJoin(fields) == fields[0] + [Delimiter] + (Join(fields[1..], Delimiter) + [Delimiter]);
    }
  }

  /** The normalised path is the kept fields joined by single delimiters. */
  lemma NormalisedIsJoin(p: string)
    ensures Normalise(p).path == Join(Kept(p), Delimiter)
  {
    var kept := Kept(p);
    if |kept| > 0 {
      TerminatedJoinIsJoin(kept);
      var joined := TerminatedJoin(kept);
      assert LastIndexOf(joined, Delimiter) == |joined| - 1;
      assert joined[..|joined| - 1] == Join(kept, Delimiter);
    }
  }

  /**
   * The normalised path is tidy: read back, its fields are exactly the kept fields, so it
   * has no leading, trailing or doubled delimiter, and the wildcard is gone unless it was an
   * inner field.
   */
  lemma PathRoundTrip(p: string)
    ensures Components(Normalise(p).path) == Kept(p)
    ensures Normalise(p).path != "" ==> Split(Normalise(p).path, Delimiter) == Kept(p)
  {
    var kept := Kept(p);
    NormalisedIsJoin(p);
    if |kept| > 0 {
      SplitJoin(kept, Delimiter);
      NonEmptyKeepsFilled(kept);
    } else {
      assert Split("", Delimiter) == [""];
      assert [""][1..] == [];
    }
  }

  /**
   * The path names the root folder exactly when nothing but delimiters and at most one
   * final wildcard was given.
   */
  lemma RootIff(p: string)
    ensures Normalise(p).path == "" <==> Components(p) == [] || Components(p) == [Wildcard]
  {
    NormalisedIsJoin(p);
    var kept := Kept(p);
    if |kept| > 0 {
      assert kept[0] != [] && kept[0] <= Join(kept, Delimiter);
    }
  }

  /** A leading delimiter makes no difference. */
  lemma LeadingDelimiterIgnored(p: string)
    ensures Normalise([Delimiter] + p) == Normalise(p)
  {
    var parts := Split(p, Delimiter);
    assert [Delimiter] + p == "" + [Delimiter] + p;
    SplitAfterField("", p, Delimiter);
    assert ([""] + parts)[1..] == parts;
    assert NonEmpty([""] + parts) == NonEmpty(parts);
    assert Components([Delimiter] + p) == Components(p);
  }

  /** Paths of delimiters and at most a final wildcard name the root folder. */
  lemma RootExamples()
    ensures Normalise("") == Target("", false)
    ensures Normalise("/") == Target("", false)
    ensures Normalise("*") == Target("", true)
    ensures Normalise("//*") == Target("", true)
  {
    assert Split("", Delimiter) == [""];
    assert NonEmpty([""]) == [] by { assert [""][1..] == []; }
    LeadingDelimiterIgnored("");
    assert "*" == "*" + "";
    SplitWithoutSeparator("*", Delimiter);
    assert NonEmpty(["*"]) == ["*"] by { assert ["*"][1..] == []; NonEmptyKeepsFilled([]); }
    assert Kept("*") == [];
    LeadingDelimiterIgnored("/*");
    LeadingDelimiterIgnored("*");
    assert "//*" == [Delimiter] + "/*" && "/*" == [Delimiter] + "*";
  }
}
