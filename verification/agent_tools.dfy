/** The two tools the agent can call: a result formatter over document
    search and a keyword risk classifier, with the registry that maps the
    tool names the model emits to them. */
module AgentTools {
  import opened Text
  import opened Results
  import opened Retrieval

  // ---------------------------------------------------------------------
  // search_tool

  /** `search_tool` always asks for three hits. */
  const SearchToolTopK: nat := 3

  /** Each hit's chunk is cut to this many characters. */
  const SnippetLength: nat := 300

  /** The sentinel for an empty result list. */
  const NoDocuments: string := "No documents found"

  /** One result entry: the title, a colon, and the start of the chunk. */
  function Entry(d: Doc): string
  {
    d.title + ": " + Take(d.chunk, SnippetLength)
  }

  /** An entry is the title, then ": ", then a prefix of the chunk that is
      300 characters long, or the whole chunk when it is shorter. */
  lemma EntryShape(d: Doc)
    ensures var e := Entry(d); var n := |d.title| + 2;
      n <= |e| && e[..n] == d.title + ": " &&
      e[n..] <= d.chunk &&
      |e[n..]| == if |d.chunk| < SnippetLength then |d.chunk| else SnippetLength
  {
    var e := Entry(d);
    assert e == (d.title + ": ") + Take(d.chunk, SnippetLength);
  }

  /** One entry per hit, in hit order. */
  function Entries(docs: seq<Doc>): (r: seq<string>)
    ensures |r| == |docs|
    ensures forall i :: 0 <= i < |docs| ==> r[i] == Entry(docs[i])
  {
    seq(|docs|, i requires 0 <= i < |docs| => Entry(docs[i]))
  }

  /** `JoinPlaces` for the entries of a non-empty hit list. */
  lemma EntriesLayout(docs: seq<Doc>)
    requires |docs| > 0
    ensures var j := Join(Entries(docs), "\n\n");
      |j| == Offset(Entries(docs), "\n\n", |docs| - 1) + |Entry(docs[|docs| - 1])|
    ensures forall i :: 0 <= i < |docs| ==>
      PlacedAt(Join(Entries(docs), "\n\n"), Entry(docs[i]), Offset(Entries(docs), "\n\n", i))
    ensures forall i :: 0 <= i < |docs| - 1 ==>
      PlacedAt(Join(Entries(docs), "\n\n"), "\n\n", Offset(Entries(docs), "\n\n", i) + |Entry(docs[i])|)
  {
    var es := Entries(docs);
    JoinPlaces(es, "\n\n");
    forall i | 0 <= i < |docs|
      ensures PlacedAt(Join(es, "\n\n"), Entry(docs[i]), Offset(es, "\n\n", i))
    {
      assert es[i] == Entry(docs[i]);
    }
  }

  /** The text `search_tool` returns for a list of hits: the sentinel
      exactly when there are no hits (every entry holds a colon and the
      sentinel does not). Otherwise entry `i` sits at offset
      `Offset(Entries(docs), "\n\n", i)`, a blank-line separator follows
      every entry but the last, and the last entry ends the text, whatever
      line breaks the hits themselves hold. */
  function FormatResults(docs: seq<Doc>): (r: string)
    ensures r == NoDocuments <==> |docs| == 0
    ensures |docs| > 0 ==> Entry(docs[0]) <= r
    ensures |docs| > 0 ==>
      |r| == Offset(Entries(docs), "\n\n", |docs| - 1) + |Entry(docs[|docs| - 1])|
    ensures forall i :: 0 <= i < |docs| ==>
      PlacedAt(r, Entry(docs[i]), Offset(Entries(docs), "\n\n", i))
    ensures forall i :: 0 <= i < |docs| - 1 ==>
      PlacedAt(r, "\n\n", Offset(Entries(docs), "\n\n", i) + |Entry(docs[i])|)
  {
    if |docs| == 0 then NoDocuments
    else
      var es := Entries(docs);
      JoinStartsWithFirst(es, "\n\n");
      EntriesLayout(docs);
      var out := Join(es, "\n\n");
      assert out[|docs[0].title|] == ':' by {
        assert es[0][|docs[0].title|] == ':';
      }
      assert ':' !in NoDocuments;
      out
  }

  /** `search_tool(query)`: the formatted top three hits for the query; the
      sentinel exactly when the search finds nothing. */
  function SearchTool(search: Search, query: string): (r: string)
    ensures r == NoDocuments <==> |search(query, SearchToolTopK)| == 0
    ensures |search(query, SearchToolTopK)| > 0 ==> Entry(search(query, SearchToolTopK)[0]) <= r
  {
    FormatResults(search(query, SearchToolTopK))
  }

  /** No character of a hit's title or shown chunk is a line break. */
  ghost predicate SingleLineDoc(d: Doc)
  {
    '\n' !in d.title && '\n' !in Take(d.chunk, SnippetLength)
  }

  /** For hits whose shown text has no line breaks, the lines of the output
      are the entries in hit order with one blank line between neighbours:
      line 2i is the entry of hit i and the odd lines are empty. */
  lemma SearchLayout(docs: seq<Doc>)
    requires |docs| > 0
    requires forall i :: 0 <= i < |docs| ==> SingleLineDoc(docs[i])
    ensures var lines := Split(FormatResults(docs), '\n');
      |lines| == 2 * |docs| - 1 &&
      forall i :: 0 <= i < |lines| ==>
        lines[i] == if i % 2 == 0 then Entry(docs[i / 2]) else ""
  {
    var es := Entries(docs);
    JoinDoubled(es, '\n');
    assert "\n\n" == ['\n', '\n'];
    var spaced := Spaced(es);
    forall i | 0 <= i < |spaced|
      ensures '\n' !in spaced[i]
    {
      if i % 2 == 0 {
        var d := docs[i / 2];
        assert Entry(d) == d.title + ": " + Take(d.chunk, SnippetLength);
      }
    }
    SplitJoin(spaced, '\n');
  }

  /** `search_tool` asks the search for exactly three hits for its query:
      any two searches that agree there give the same tool output. */
  lemma SearchToolUsesTopThree(search: Search, other: Search, query: string)
    requires search(query, 3) == other(query, 3)
    ensures SearchTool(search, query) == SearchTool(other, query)
  {
  }

  // ---------------------------------------------------------------------
  // risk_check_tool

  const NoWarrantyFlag: string := "No warranty"
  const FullPaymentFlag: string := "Full payment after completion"
  const MissingIpFlag: string := "Missing IP clause"

  /** The answer when no check fires. */
  const NoMajorRisks: string := "No major risks"

  /** The three checks on the lowered text, in the order the code runs them. */
  predicate WarrantyRisk(lowered: string) { Contains(lowered, "no warranty") }

  predicate PaymentRisk(lowered: string)
  {
    Contains(lowered, "100%") && (Contains(lowered, "completion") || Contains(lowered, "after"))
  }

  predicate IpRisk(lowered: string) { !Contains(lowered, "intellectual property") }

  /** The flags raised for `content`, in the fixed order warranty, payment, IP. */
  function RiskFlags(content: string): (r: seq<string>)
    ensures |r| <= 3
    ensures NoMajorRisks !in r
    ensures forall f :: f in r ==> '\n' !in f
  {
    var lowered := Lower(content);
    assert '\n' !in NoWarrantyFlag && '\n' !in FullPaymentFlag && '\n' !in MissingIpFlag;
    assert |NoWarrantyFlag| == 11 && |FullPaymentFlag| == 29;
    assert |MissingIpFlag| == 17 && |NoMajorRisks| == 14;
    (if WarrantyRisk(lowered) then [NoWarrantyFlag] else []) +
    (if PaymentRisk(lowered) then [FullPaymentFlag] else []) +
    (if IpRisk(lowered) then [MissingIpFlag] else [])
  }

  /** The lines of a risk report, as `str.split("\n")` gives them. */
  function Lines(s: string): seq<string>
  {
    Split(s, '\n')
  }

  /** `risk_check_tool(content)`: the raised flags one per line, or the
      no-risk sentinel. Reading the report back line by line gives exactly
      the raised flags in check order, or the sentinel alone. */
  function RiskCheck(content: string): (r: string)
    ensures Lines(r) == if |RiskFlags(content)| > 0 then RiskFlags(content) else [NoMajorRisks]
  {
    var flags := RiskFlags(content);
    if |flags| > 0 then
      assert "\n" == ['\n'];
      SplitJoin(flags, '\n');
      Join(flags, "\n")
    else
      assert '\n' !in NoMajorRisks;
      SplitWithoutSeparator(NoMajorRisks, '\n');
      NoMajorRisks
  }

  /** Each flag is a line of the report exactly when its check fires on
      the lowered content. */
  lemma FlagLines(content: string)
    ensures NoWarrantyFlag in Lines(RiskCheck(content)) <==> WarrantyRisk(Lower(content))
    ensures FullPaymentFlag in Lines(RiskCheck(content)) <==> PaymentRisk(Lower(content))
    ensures MissingIpFlag in Lines(RiskCheck(content)) <==> IpRisk(Lower(content))
  {
    FlagMembership(content);
  }

  /** The five patterns are already in lower case. */
  lemma PatternsAreLowercase()
    ensures Lower("no warranty") == "no warranty"
    ensures Lower("100%") == "100%"
    ensures Lower("completion") == "completion"
    ensures Lower("after") == "after"
    ensures Lower("intellectual property") == "intellectual property"
  {
    assert Lower("no warranty") == "no warranty" by { LowerOfLowercase("no warranty"); }
    assert Lower("100%") == "100%" by { LowerOfLowercase("100%"); }
    assert Lower("completion") == "completion" by { LowerOfLowercase("completion"); }
    assert Lower("after") == "after" by { LowerOfLowercase("after"); }
    assert Lower("intellectual property") == "intellectual property" by { LowerOfLowercase("intellectual property"); }
  }

  /** A lower-case pattern is found in the lowered text exactly when it
      occurs in the original in any mix of cases. */
  lemma LoweredPattern(content: string, p: string)
    requires Lower(p) == p
    ensures Contains(Lower(content), p) <==> ContainsIgnoringCase(content, p)
  {
    ContainsLowerIff(content, p);
  }

  /** Each flag is in the list exactly when its check fires (the four
      report texts have different lengths, so none is mistaken for another). */
  lemma FlagMembership(content: string)
    ensures NoWarrantyFlag in RiskFlags(content) <==> WarrantyRisk(Lower(content))
    ensures FullPaymentFlag in RiskFlags(content) <==> PaymentRisk(Lower(content))
    ensures MissingIpFlag in RiskFlags(content) <==> IpRisk(Lower(content))
    ensures NoMajorRisks !in RiskFlags(content)
  {
    assert |NoWarrantyFlag| == 11 && |FullPaymentFlag| == 29;
    assert |MissingIpFlag| == 17 && |NoMajorRisks| == 14;
  }

  /** The report has a "No warranty" line exactly when the content says
      "no warranty" in any case. */
  lemma {:induction false} NoWarrantyIff(content: string)
    ensures NoWarrantyFlag in Lines(RiskCheck(content)) <==>
      ContainsIgnoringCase(content, "no warranty")
  {
    FlagLines(content);
    PatternsAreLowercase();
    LoweredPattern(content, "no warranty");
  }

  /** The report has a "Full payment after completion" line exactly when
      the content says "100%" and also "completion" or "after", in any case. */
  lemma {:induction false} FullPaymentIff(content: string)
    ensures FullPaymentFlag in Lines(RiskCheck(content)) <==>
      ContainsIgnoringCase(content, "100%") &&
      (ContainsIgnoringCase(content, "completion") || ContainsIgnoringCase(content, "after"))
  {
    FlagLines(content);
    PatternsAreLowercase();
    LoweredPattern(content, "100%");
    LoweredPattern(content, "completion");
    LoweredPattern(content, "after");
  }

  /** The report has a "Missing IP clause" line exactly when the content
      never says "intellectual property", in any case. */
  lemma {:induction false} MissingIpIff(content: string)
    ensures MissingIpFlag in Lines(RiskCheck(content)) <==>
      !ContainsIgnoringCase(content, "intellectual property")
  {
    FlagLines(content);
    PatternsAreLowercase();
    LoweredPattern(content, "intellectual property");
  }

  /** An exact occurrence is also a case-insensitive one. */
  lemma ContainsIgnoringCaseOfContains(s: string, p: string)
    requires Contains(s, p)
    ensures ContainsIgnoringCase(s, p)
  {
    var i :| 0 <= i <= |s| - |p| && OccursAt(s, p, i);
    forall k | 0 <= k < |p|
      ensures p[k] == s[i + k]
    {
      assert s[i..i + |p|][k] == s[i + k];
    }
    assert MatchesIgnoringCaseAt(s, p, i);
  }

  /** The check is a plain substring test, so a sentence that denies having
      an IP clause still counts as mentioning intellectual property. */
  lemma NegatedIpSentenceSuppressesFlag(content: string)
    requires Contains(content, "No intellectual property clause is present")
    ensures MissingIpFlag !in Lines(RiskCheck(content))
  {
    var sentence := "No intellectual property clause is present";
    assert sentence == "No " + "intellectual property" + " clause is present";
    assert OccursAt(sentence, "intellectual property", 3);
    ContainsTransitive(content, sentence, "intellectual property");
    ContainsIgnoringCaseOfContains(content, "intellectual property");
    MissingIpIff(content);
  }

  /** Position of a flag in the fixed reporting order. */
  function FlagRank(flag: string): nat
  {
    if flag == NoWarrantyFlag then 0 else if flag == FullPaymentFlag then 1 else 2
  }

  /** The report is never empty, has one to three lines, lists raised flags
      in the order warranty, payment, IP without repeats, is the sentinel
      exactly when no flag is raised, and is never "Document not found". */
  lemma {:induction false} RiskReportShape(content: string)
    ensures RiskCheck(content) != ""
    ensures 1 <= |Lines(RiskCheck(content))| <= 3
    ensures var lines := Lines(RiskCheck(content));
      forall i, j :: 0 <= i < j < |lines| ==> FlagRank(lines[i]) < FlagRank(lines[j])
    ensures RiskCheck(content) == NoMajorRisks <==> |RiskFlags(content)| == 0
    ensures "Document not found" !in Lines(RiskCheck(content))
    ensures RiskCheck(content) != "Document not found"
  {
    var flags := RiskFlags(content);
    if |flags| > 0 {
      JoinEmptyIff(flags, "\n");
      FlagMembership(content);
    }
    assert Lines(RiskCheck(content)) != [];
  }

  /** The classifier does not see case: lowering the content first changes
      nothing. */
  lemma RiskCheckIgnoresCase(content: string)
    ensures RiskCheck(Lower(content)) == RiskCheck(content)
  {
    LowerIdempotent(content);
  }

  // ---------------------------------------------------------------------
  // the tool registry

  const SearchToolName: string := "search_tool"
  const RiskCheckToolName: string := "risk_check_tool"

  /** Runs the registered tool with the given name on its one string
      argument; `None` when no tool has that name. */
  function InvokeTool(search: Search, name: string, arg: string): (r: Option<string>)
    ensures r.Some? <==> name == SearchToolName || name == RiskCheckToolName
    ensures name == SearchToolName ==> r == Some(SearchTool(search, arg))
    ensures name == RiskCheckToolName ==> r == Some(RiskCheck(arg))
  {
    if name == SearchToolName then Some(SearchTool(search, arg))
    else if name == RiskCheckToolName then Some(RiskCheck(arg))
    else None
  }

  // ---------------------------------------------------------------------
  // two worked examples

  /** A statement of work that waives the warranty, pays in full after
      completion and denies having an IP clause. */
  const WaiverText: string :=
    "This SOW includes " + "no warranty" + " and requires " + "100%" + " payment " + "after" +
    " completion. No " + "intellectual property" + " clause is present."

  /** Finds a lower-case pattern in the lowered waiver text, given the
      text before and after it. */
  lemma WaiverTextContains(before: string, p: string, after: string)
    requires WaiverText == before + p + after
    requires forall i :: 0 <= i < |p| ==> !('A' <= p[i] <= 'Z')
    ensures Contains(Lower(WaiverText), p)
  {
    LowerOfLowercase(p);
    ContainsPlaced(before, p, after);
  }

  /** The waiver text says "no warranty". */
  lemma WaiverTextSaysNoWarranty()
    ensures Contains(Lower(WaiverText), "no warranty")
  {
    WaiverTextContains("This SOW includes ", "no warranty",
      " and requires " + "100%" + " payment " + "after" + " completion. No " +
      "intellectual property" + " clause is present.");
  }

  /** The waiver text says "100%". */
  lemma WaiverTextSaysFullPayment()
    ensures Contains(Lower(WaiverText), "100%")
  {
    WaiverTextContains("This SOW includes " + "no warranty" + " and requires ", "100%",
      " payment " + "after" + " completion. No " + "intellectual property" + " clause is present.");
  }

  /** The waiver text says "after". */
  lemma WaiverTextSaysAfter()
    ensures Contains(Lower(WaiverText), "after")
  {
    WaiverTextContains("This SOW includes " + "no warranty" + " and requires " + "100%" + " payment ", "after",
      " completion. No " + "intellectual property" + " clause is present.");
  }

  /** The waiver text mentions intellectual property, if only to deny it. */
  lemma WaiverTextSaysIp()
    ensures Contains(Lower(WaiverText), "intellectual property")
  {
    WaiverTextContains("This SOW includes " + "no warranty" + " and requires " + "100%" + " payment " + "after" +
      " completion. No ", "intellectual property", " clause is present.");
  }

  /** The waiver text raises the warranty and payment flags but not the IP
      flag, because it does contain "intellectual property". */
  lemma WaiverTextReport()
    ensures RiskCheck(WaiverText) == NoWarrantyFlag + "\n" + FullPaymentFlag
  {
    WaiverTextSaysNoWarranty();
    WaiverTextSaysFullPayment();
    WaiverTextSaysAfter();
    WaiverTextSaysIp();
    assert RiskFlags(WaiverText) == [NoWarrantyFlag, FullPaymentFlag];
    JoinCons(NoWarrantyFlag, [FullPaymentFlag], "\n");
  }

  /** A statement of work with an IP assignment, milestone payments and a
      warranty. */
  const StandardText: string :=
    "Standard deliverable with " + "intellectual property" + " assigned to client, " +
    "payment in milestones, " + "with warranty provided."

  /** The standard text does mention intellectual property. */
  lemma StandardTextHasIp()
    ensures Contains(Lower(StandardText), "intellectual property")
  {
    var p := "intellectual property";
    var rest := " assigned to client, " + "payment in milestones, " + "with warranty provided.";
    assert StandardText == "Standard deliverable with " + p + rest;
    LowerOfLowercase(p);
    ContainsPlaced("Standard deliverable with ", p, rest);
  }

  /** The standard text has no percent sign, so no "100%". */
  lemma StandardTextLacksPercent()
    ensures !Contains(Lower(StandardText), "100%")
  {
    LowerKeepsNonLetter(StandardText, '%');
    AbsentCharNotContained(Lower(StandardText), "100%", '%');
  }

  /** No "n" precedes an "o" in the first two parts of the standard text. */
  lemma StandardTextPairFree2()
    ensures NoPairIgnoringCase("Standard deliverable with " + "intellectual property", 'n', 'o')
  {
    assert NoPairIgnoringCase("Standard deliverable with ", 'n', 'o');
    assert NoPairIgnoringCase("intellectual property", 'n', 'o');
    NoPairAppend("Standard deliverable with ", "intellectual property", 'n', 'o');
  }

  /** The first three parts have no such pair either. */
  lemma StandardTextPairFree3()
    ensures NoPairIgnoringCase("Standard deliverable with " + "intellectual property" + " assigned to client, ", 'n', 'o')
  {
    StandardTextPairFree2();
    assert NoPairIgnoringCase(" assigned to client, ", 'n', 'o');
    NoPairAppend("Standard deliverable with " + "intellectual property", " assigned to client, ", 'n', 'o');
  }

  /** Nor the first four. */
  lemma StandardTextPairFree4()
    ensures NoPairIgnoringCase("Standard deliverable with " + "intellectual property" + " assigned to client, " +
      "payment in milestones, ", 'n', 'o')
  {
    StandardTextPairFree3();
    assert NoPairIgnoringCase("payment in milestones, ", 'n', 'o');
    NoPairAppend("Standard deliverable with " + "intellectual property" + " assigned to client, ",
      "payment in milestones, ", 'n', 'o');
  }

  /** Nowhere in the standard text does an "n" precede an "o". */
  lemma StandardTextPairFree()
    ensures NoPairIgnoringCase(StandardText, 'n', 'o')
  {
    StandardTextPairFree4();
    assert NoPairIgnoringCase("with warranty provided.", 'n', 'o') by {
      var d := "with warranty provided.";
      assert forall i :: 0 <= i < |d| - 1 ==> !(LowerChar(d[i]) == 'n' && LowerChar(d[i + 1]) == 'o');
    }
    NoPairAppend("Standard deliverable with " + "intellectual property" + " assigned to client, " +
      "payment in milestones, ", "with warranty provided.", 'n', 'o');
  }

  /** So the standard text cannot hold "no warranty" in any case. */
  lemma StandardTextLacksNoWarranty()
    ensures !Contains(Lower(StandardText), "no warranty")
  {
    StandardTextPairFree();
    NoPairNotContained(StandardText, "no warranty");
  }

  /** The standard text raises no flag. */
  lemma StandardTextReport()
    ensures RiskCheck(StandardText) == NoMajorRisks
  {
    StandardTextHasIp();
    StandardTextLacksPercent();
    StandardTextLacksNoWarranty();
    assert RiskFlags(StandardText) == [];
  }
}
