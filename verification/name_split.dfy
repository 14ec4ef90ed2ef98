/**
 How an upload's declared name becomes the `fileName` and `fileType` of the
 file document. The code finds the last `.` in the TRIMMED name but cuts the
 UNTRIMMED name at that index; `SplitAsWritten` keeps that, `SplitCorrected`
 cuts the trimmed name the index was computed on.
 */
module NameSplit {
  import opened JsString

  datatype NameParts = NameParts(fileName: string, fileType: string)

  predicate NoLeadingWhitespace(s: string) {
    s == [] || !IsWhitespace(s[0])
  }

  /** The split performed by the upload path. A name without a dot gets an
      empty `fileName` and is, untrimmed, its own `fileType`. */
  function SplitAsWritten(name: string): (r: NameParts)
    ensures '.' !in name ==> r == NameParts("", name)
  {
    var dot := LastIndexOf(Trim(name), '.');
    TrimKeepsNonWhitespace(name, '.');
    NoDotCut(name);
    NameParts(Trim(Substring(name, 0, dot)), Substring(name, dot + 1, |name|))
  }

  /** Where no dot is found, `substring` keeps nothing before the missing
      dot and everything after it. */
  lemma NoDotCut(s: string)
    ensures Substring(s, 0, -1) == [] && Trim([]) == []
    ensures Substring(s, 0, |s|) == s
  {
    TrimFixesEdgeFreeStrings("");
  }

  /** A name that does not start with whitespace is cut at its last dot: the
      type is everything after that dot and holds no dot, the name is the
      trimmed text before it. */
  lemma SplitAtLastDot(name: string)
    requires NoLeadingWhitespace(name) && '.' in name
    ensures var d := LastIndexOf(name, '.');
      && SplitAsWritten(name).fileName == Trim(name[..d])
      && SplitAsWritten(name).fileType == name[d + 1..]
      && '.' !in SplitAsWritten(name).fileType
  {
    AlignedDot(name);
    LastIndexOfIsLast(name, '.');
    var d := LastIndexOf(name, '.');
    assert Substring(name, 0, d) == name[..d];
    assert Substring(name, d + 1, |name|) == name[d + 1..];
  }

  /** Without leading whitespace, the last dot of the trimmed name sits at the
      same index in the name itself. */
  lemma AlignedDot(name: string)
    requires NoLeadingWhitespace(name)
    ensures LastIndexOf(Trim(name), '.') == LastIndexOf(name, '.')
  {
    var t := Trim(name);
    TrimWithoutLeadingWhitespace(name);
    var tail := name[|t|..];
    assert name == t + tail;
    forall i | 0 <= i < |tail|
      ensures tail[i] != '.'
    {
      assert IsWhitespace(tail[i]);
    }
    LastIndexOfIgnoresSuffix(t, tail, '.');
  }

  /** A leading space shifts the cut by one: `" a.b"` yields an empty
      `fileName` and a `fileType` of `".b"` that still holds the dot. */
  lemma LeadingSpaceMisplacesCut()
    ensures SplitAsWritten(" a.b") == NameParts("", ".b")
  {
    var name := " a.b";
    assert name[1..] == "a.b";
    assert TrimStart("a.b") == "a.b";
    assert TrimStart(name) == "a.b";
    assert TrimEnd("a.b") == "a.b";
    assert Trim(name) == "a.b";
    assert LastIndexBefore("a.b", '.', 2) == 1;
    assert LastIndexOf("a.b", '.') == 1;
    assert Substring(name, 0, 1) == " ";
    assert " "[1..] == "";
    assert TrimStart(" ") == "";
    assert Trim(" ") == "";
    assert Substring(name, 2, 4) == ".b";
  }

  /** The split with the cut applied to the trimmed name it was computed
      on. Its type never holds a dot; a name without a dot gets an empty
      `fileName` and its trimmed self as the type. */
  function SplitCorrected(name: string): (r: NameParts)
    ensures '.' !in r.fileType
    ensures '.' !in name ==> r == NameParts("", Trim(name))
  {
    var t := Trim(name);
    var dot := LastIndexOf(t, '.');
    TrimKeepsNonWhitespace(name, '.');
    NoDotCut(t);
    TypeAfterLastDot(t);
    NameParts(Trim(Substring(t, 0, dot)), Substring(t, dot + 1, |t|))
  }

  /** What follows the last dot of `t`, or all of `t` when it has none,
      holds no dot. */
  lemma TypeAfterLastDot(t: string)
    ensures '.' !in Substring(t, LastIndexOf(t, '.') + 1, |t|)
  {
    if '.' in t {
      CutAtLastDot(t);
    } else {
      NoDotCut(t);
    }
  }

  /** With a dot present, the trimmed name is its stem (the text before its
      last dot), the dot and the type, in that order, and the file name is
      the trimmed stem. */
  lemma CorrectedSplitRoundTrip(name: string)
    requires '.' in name
    ensures '.' in Trim(name)
    ensures var t := Trim(name); var stem := t[..LastIndexOf(t, '.')];
      && t == stem + "." + SplitCorrected(name).fileType
      && SplitCorrected(name).fileName == Trim(stem)
  {
    TrimKeepsNonWhitespace(name, '.');
    CutAtLastDot(Trim(name));
  }

  /** Cutting `t` around its last dot with `substring` leaves the stem and
      a dot-free extension, which put back around a dot give `t` again. */
  lemma CutAtLastDot(t: string)
    requires '.' in t
    ensures var dot := LastIndexOf(t, '.');
      && Substring(t, 0, dot) == t[..dot]
      && Substring(t, dot + 1, |t|) == t[dot + 1..]
      && t == t[..dot] + "." + t[dot + 1..]
      && '.' !in t[dot + 1..]
  {
    CutAtDot(t, LastIndexOf(t, '.'));
    LastIndexOfIsLast(t, '.');
  }

  lemma CutAtDot(t: string, dot: int)
    requires 0 <= dot < |t| && t[dot] == '.'
    ensures Substring(t, 0, dot) == t[..dot]
    ensures Substring(t, dot + 1, |t|) == t[dot + 1..]
    ensures t == t[..dot] + "." + t[dot + 1..]
  {
  }

  /** On a name with no whitespace at either end the two splits agree. */
  lemma SplitsAgreeOnTrimmedNames(name: string)
    requires HasNoEdgeWhitespace(name)
    ensures SplitCorrected(name) == SplitAsWritten(name)
  {
    TrimFixesEdgeFreeStrings(name);
  }
}
