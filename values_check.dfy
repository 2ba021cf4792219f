/**
  The screening step: a web-search-grounded question about the company behind
  a website, reduced to a verdict by a case-insensitive test for a leading
  "TRUE", and the test script that keeps only the rows judged true.
*/
module ValuesCheck {
  import opened Wrappers
  import opened Text
  import opened Gateway
  import opened Sheet

  /** The prompt text before the website. */
  const ClassifierPromptHead: string :=
    "\n"
    + "You are an AI assistant designed to identify if a company, based *entirely on comprehensive web search results*, has *any* confirmed business relationship with Israel or Israeli entities, OR engages in activities widely considered 'haram' (e.g., gambling, pork products, interest-based lending, explicit adult content).\n"
    + "\n"
    + "**Company to analyze (identified from website URL):** "

  /** The prompt text after the website. */
  const ClassifierPromptTail: string :=
    "\n"
    + "\n"
    + "**Instructions for Analysis:**\n"
    + "1.  **Perform a comprehensive web search** for the company identified from the provided URL. Your analysis must rely *solely* on information found through this web search. Do not access or analyze the company's own website content directly; its URL is provided only to identify the company name for the search.\n"
    + "2.  Based on the web search results, determine if *any* of the following conditions are met. If even one condition is met, the overall result for that category (Israeli ties or Haram) is considered TRUE.\n"
    + "    * **Condition A: Direct Israeli Business Relationship:** Is there *any confirmed business relationship* between the company and *any* company or entity based in Israel? This explicitly includes, but is not limited to, partnerships, joint ventures, investments (receiving or making), client relationships, supplier relationships, or providing/receiving services.\n"
    + "    * **Condition B: Indirect Israeli Business Connection (via Pro-Israel Companies):** Is there *any confirmed business relationship* (e.g., partnership, client, supplier, major solution provider) between the company and another company that is publicly known to explicitly support Israel (e.g., through official statements, significant investments in Israel, or strong alignment with Israeli national interests)?\n"
    + "    * **Condition C: Haram Activities:** Is the company involved in core business activities or offers products/services that are widely considered 'haram' (e.g., primary business is alcohol, gambling, interest-based financial services, pork products, adult entertainment)?\n"
    + "\n"
    + "**Ur response  Format should STRICTLY STRTS WITH :**\n"
    + "- Start with \"TRUE\" if **Condition A** OR **Condition B** OR **Condition C** is met.\n"
    + "- Start with \"FALSE\" if **none** of **Condition A**, **Condition B**, or **Condition C** are met.\n"
    + "- Follow the TRUE/FALSE with a brief, concise sentence explaining the **main reason** for your decision. This explanation MUST directly state which condition(s) were met and provide a specific, concise detail from the web search results (e.g., \"TRUE. The company has a partnership with [Israeli company name].\").\n"

  /** Only the website goes into the prompt; the social content is never used. */
  function ClassifierPrompt(website: string): string {
    ClassifierPromptHead + website + ClassifierPromptTail
  }

  datatype Classification = Classification(isTrue: bool, explanation: string)

  /** The reduction of the reply: stripped, upper-cased, does it start with "TRUE"? */
  predicate IsTrueVerdict(reply: string) {
    StartsWith(Upper(Strip(reply)), "TRUE")
  }

  /**
    `analyze_company_support`: the explanation is the raw, untrimmed reply of
    the search helper and the verdict is the prefix test on it.
  */
  function AnalyzeCompanySupport(model: Model, website: string, socialContent: string)
    : (c: Classification)
    ensures c.explanation == SearchWithGemini(model, ClassifierPrompt(website))
    ensures c.isTrue == IsTrueVerdict(c.explanation)
  {
    var reply := SearchWithGemini(model, ClassifierPrompt(website));
    Classification(IsTrueVerdict(reply), reply)
  }

  lemma UpperCharMatches(c: char, upper: char, lower: char)
    requires 'A' <= upper <= 'Z' && lower as int == upper as int + 32
    ensures UpperChar(c) == upper <==> c == upper || c == lower
  {
  }

  /**
    The verdict is a case-insensitive prefix test: the stripped reply starts
    with "true" in any mix of cases, whatever follows.
  */
  lemma VerdictIsCaseInsensitivePrefix(reply: string)
    ensures var t := Strip(reply);
            IsTrueVerdict(reply) <==>
              |t| >= 4 && t[0] in "tT" && t[1] in "rR" && t[2] in "uU" && t[3] in "eE"
  {
    var t := Strip(reply);
    var u := Upper(t);
    if |t| >= 4 {
      UpperCharMatches(t[0], 'T', 't');
      UpperCharMatches(t[1], 'R', 'r');
      UpperCharMatches(t[2], 'U', 'u');
      UpperCharMatches(t[3], 'E', 'e');
      assert u[..4] == "TRUE" <==> u[0] == 'T' && u[1] == 'R' && u[2] == 'U' && u[3] == 'E';
    }
  }

  /** "true" in any mix of cases, followed by anything at all ("true.", "TRUEST"), is a TRUE verdict. */
  lemma TrueWhateverFollows(word: string, rest: string)
    requires |word| == 4 && word[0] in "tT" && word[1] in "rR" && word[2] in "uU" && word[3] in "eE"
    ensures IsTrueVerdict(word + rest)
  {
    var reply := word + rest;
    assert reply[..4] == word;
    StripKeepsFront(reply, 4);
    VerdictIsCaseInsensitivePrefix(reply);
  }

  /** A reply whose first character is neither blank nor a t ("FALSE", "It is TRUE") is not TRUE. */
  lemma OtherFirstLetterIsNotTrue(reply: string)
    requires reply != [] && !IsSpace(reply[0]) && reply[0] !in "tT"
    ensures !IsTrueVerdict(reply)
  {
    StripKeepsFirst(reply);
    VerdictIsCaseInsensitivePrefix(reply);
  }

  /** An empty or all-whitespace reply is not TRUE. */
  lemma BlankReplyIsNotTrue(reply: string)
    requires AllSpace(reply)
    ensures !IsTrueVerdict(reply)
  {
    VerdictIsCaseInsensitivePrefix(reply);
  }

  /** The search helper's error text never reads as a TRUE verdict. */
  lemma ErrorReplyIsNotTrue(message: string)
    ensures !IsTrueVerdict(SearchErrorPrefix + message)
  {
    OtherFirstLetterIsNotTrue(SearchErrorPrefix + message);
  }

  /** A failed search classifies the company as not disqualified. */
  lemma FailedSearchIsNotTrue(model: Model, website: string, socialContent: string)
    requires model(SearchRequest(ClassifierPrompt(website))).Failure?
    ensures !AnalyzeCompanySupport(model, website, socialContent).isTrue
  {
    ErrorReplyIsNotTrue(model(SearchRequest(ClassifierPrompt(website))).message);
  }

  /** For a fixed model the classification does not depend on the social content. */
  lemma SocialContentIsIgnored(model: Model, website: string, content1: string, content2: string)
    ensures AnalyzeCompanySupport(model, website, content1) == AnalyzeCompanySupport(model, website, content2)
  {
  }

  /** How both scripts classify a row: on its stripped cells. */
  function Screen(model: Model, row: SourceRow): Classification {
    AnalyzeCompanySupport(model, Strip(row.companyWebsite), Strip(row.posts))
  }

  /** One row of the true-only output file. */
  datatype TrueRow = TrueRow(companyWebsite: string, posts: string, explanation: string)

  /** The test script looks at no more than this many rows. */
  const RowsConsidered: nat := 3

  /** A screening of rows; the scripts use `row => Screen(model, row)`. */
  type Screening = SourceRow -> Classification

  function Kept(screen: Screening, row: SourceRow): TrueRow {
    TrueRow(Strip(row.companyWebsite), Strip(row.posts), screen(row).explanation)
  }

  /** The output rows for `rows`, the last row judged last. */
  function TrueRows(screen: Screening, rows: seq<SourceRow>): seq<TrueRow>
    decreases |rows|
  {
    if rows == [] then []
    else
      var last := rows[|rows| - 1];
      TrueRows(screen, rows[..|rows| - 1]) + (if screen(last).isTrue then [Kept(screen, last)] else [])
  }

  /** The positions of the rows judged true. */
  function TrueIndices(screen: Screening, rows: seq<SourceRow>): seq<nat>
    decreases |rows|
  {
    if rows == [] then []
    else
      TrueIndices(screen, rows[..|rows| - 1])
        + (if screen(rows[|rows| - 1]).isTrue then [|rows| - 1] else [])
  }

  lemma TrueRowsStep(screen: Screening, rows: seq<SourceRow>, i: nat)
    requires i < |rows|
    ensures TrueRows(screen, rows[..i + 1]) == TrueRows(screen, rows[..i])
              + (if screen(rows[i]).isTrue then [Kept(screen, rows[i])] else [])
  {
    assert rows[..i + 1][..i] == rows[..i];
  }

  /** The k-th output row comes from the k-th row judged true. */
  lemma {:induction false} TrueRowsComeFromTrueRows(screen: Screening, rows: seq<SourceRow>)
    ensures var idx := TrueIndices(screen, rows);
            && |TrueRows(screen, rows)| == |idx|
            && (forall k :: 0 <= k < |idx| ==>
                  idx[k] < |rows| && screen(rows[idx[k]]).isTrue
                  && TrueRows(screen, rows)[k] == Kept(screen, rows[idx[k]]))
    decreases |rows|
  {
    if rows != [] {
      var n := |rows| - 1;
      var init := rows[..n];
      TrueRowsComeFromTrueRows(screen, init);
      var idx0, out0 := TrueIndices(screen, init), TrueRows(screen, init);
      var keep := screen(rows[n]).isTrue;
      var idx := idx0 + (if keep then [n] else []);
      var out := out0 + (if keep then [Kept(screen, rows[n])] else []);
      assert TrueIndices(screen, rows) == idx;
      assert TrueRows(screen, rows) == out;
      forall k | 0 <= k < |idx|
        ensures idx[k] < |rows| && screen(rows[idx[k]]).isTrue
        ensures out[k] == Kept(screen, rows[idx[k]])
      {
        if k < |idx0| {
          assert idx[k] == idx0[k] && out[k] == out0[k] && rows[idx0[k]] == init[idx0[k]];
        }
      }
    }
  }

  /** Positions of kept rows strictly increase: the output keeps input order. */
  lemma {:induction false} TrueIndicesIncrease(screen: Screening, rows: seq<SourceRow>)
    ensures var idx := TrueIndices(screen, rows);
            (forall k :: 0 <= k < |idx| ==> idx[k] < |rows|)
            && (forall k, l :: 0 <= k < l < |idx| ==> idx[k] < idx[l])
    decreases |rows|
  {
    if rows != [] {
      var n := |rows| - 1;
      TrueIndicesIncrease(screen, rows[..n]);
      var idx0 := TrueIndices(screen, rows[..n]);
      assert forall j :: 0 <= j < |TrueIndices(screen, rows[..n])| ==>
                           TrueIndices(screen, rows[..n])[j] < n;
      var idx := idx0 + (if screen(rows[n]).isTrue then [n] else []);
      assert TrueIndices(screen, rows) == idx;
      forall k, l | 0 <= k < l < |idx| ensures idx[k] < idx[l] {
        if l < |idx0| {
          assert idx[k] == idx0[k] && idx[l] == idx0[l];
        } else {
          assert idx[k] == idx0[k] && idx[l] == n;
        }
      }
    }
  }

  /** Every row judged true is kept. */
  lemma {:induction false} TrueRowsAreAllKept(screen: Screening, rows: seq<SourceRow>)
    ensures forall i :: 0 <= i < |rows| && screen(rows[i]).isTrue ==> i in TrueIndices(screen, rows)
    decreases |rows|
  {
    if rows != [] {
      var n := |rows| - 1;
      var init := rows[..n];
      TrueRowsAreAllKept(screen, init);
      var idx := TrueIndices(screen, rows);
      assert idx == TrueIndices(screen, init) + (if screen(rows[n]).isTrue then [n] else []);
      forall i | 0 <= i < |rows| && screen(rows[i]).isTrue ensures i in idx {
        if i < n {
          assert init[i] == rows[i];
        }
      }
    }
  }

  /**
    `process_excel_and_write_true_only`: screens the first three rows and
    writes, in input order, those judged true with their stripped cells and the
    explanation; when none is true no file is written.
  */
  method ProcessExcelAndWriteTrueOnly(model: Model, rows: seq<SourceRow>)
    returns (written: Option<seq<TrueRow>>)
    ensures var considered := Head(rows, RowsConsidered);
            var kept := TrueRows(row => Screen(model, row), considered);
            written == if kept == [] then None else Some(kept)
  {
    var screen: Screening := row => Screen(model, row);
    var df := Head(rows, RowsConsidered);
    var results: seq<TrueRow> := [];
    for i := 0 to |df|
      invariant results == TrueRows(screen, df[..i])
    {
      var website := Strip(df[i].companyWebsite);
      var posts := Strip(df[i].posts);
      var c := AnalyzeCompanySupport(model, website, posts);
      assert c == screen(df[i]);
      if c.isTrue {
        results := results + [TrueRow(website, posts, c.explanation)];
      }
      TrueRowsStep(screen, df, i);
    }
    assert df[..|df|] == df;
    if results != [] {
      written := Some(results);
    } else {
      written := None;
    }
  }
}
