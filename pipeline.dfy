/**
  The full pipeline over a spreadsheet: every processed row is screened, a
  cold email is drafted only for companies not disqualified, a LinkedIn note
  is drafted for every company, and the table is written with a fixed set of
  ten columns in a fixed order.
*/
module Pipeline {
  import opened Wrappers
  import opened Text
  import opened Gateway
  import opened Sheet
  import opened EmailCrafting
  import opened LinkedInNote
  import opened ValuesCheck

  /** The columns the script creates or reads. */
  datatype Column =
    | CompanyWebsite | Posts | SupportsIsraelOrHaram | Explanation | EmailSubject
    | EmailBody | GeneratedEmail | Email | LinkedInMessage | Drafted | DateOfDrafting

  /** The header each column has in the spreadsheet. */
  function Name(c: Column): string {
    match c
    case CompanyWebsite => "company website"
    case Posts => "posts"
    case SupportsIsraelOrHaram => "supports_israel_or_haram"
    case Explanation => "explanation"
    case EmailSubject => "email_subject"
    case EmailBody => "email_body"
    case GeneratedEmail => "generated_email"
    case Email => "email"
    case LinkedInMessage => "linkedin_message"
    case Drafted => "drafted"
    case DateOfDrafting => "date_of_drafting"
  }

  /** Different columns have different headers, so keying the table by column is keying it by header. */
  lemma ColumnNamesDistinct(a: Column, b: Column)
    ensures Name(a) == Name(b) ==> a == b
  {
  }

  /** The columns of the output file, in this order. */
  const DesiredColumnOrder: seq<Column> := [
    CompanyWebsite, Posts, SupportsIsraelOrHaram, Explanation, EmailSubject,
    GeneratedEmail, Email, LinkedInMessage, Drafted, DateOfDrafting
  ]

  /** A spreadsheet cell: text, or the boolean of the screening column. */
  datatype Cell = Str(text: string) | Flag(flag: bool)

  /** A data frame: its columns in order, and the cells of each column. */
  datatype Frame = Frame(columns: seq<Column>, data: map<Column, seq<Cell>>)

  predicate NoDuplicates(columns: seq<Column>) {
    forall i, j :: 0 <= i < j < |columns| ==> columns[i] != columns[j]
  }

  /** Every listed column, and only those, has cells, exactly `n` of them, and no column is listed twice. */
  predicate WellFormed(f: Frame, n: nat) {
    && NoDuplicates(f.columns)
    && (forall c :: c in f.columns ==> c in f.data)
    && (forall c :: c in f.data ==> c in f.columns)
    && (forall c :: c in f.data ==> |f.data[c]| == n)
  }

  /**
    `df[name] = values`: a new column is appended after the existing ones, an
    existing one keeps its place; either way the column now holds `values` and
    every other column is untouched.
  */
  function Assign(f: Frame, name: Column, values: seq<Cell>): (g: Frame)
    ensures g.columns == WithColumn(f.columns, name)
    ensures g.data == f.data[name := values]
  {
    Frame(WithColumn(f.columns, name), f.data[name := values])
  }

  /** The column order after assigning to `name`. */
  function WithColumn(columns: seq<Column>, name: Column): (r: seq<Column>)
    ensures name in r && columns <= r
    ensures name in columns ==> r == columns
    ensures name !in columns ==> r == columns + [name]
  {
    if name in columns then columns else columns + [name]
  }

  /**
    Assigning a column of the table's length keeps the table well formed. A
    stand-alone statement about `Assign`; the assembled table's well-formedness
    is proved from its final columns in `AssembledWellFormed`.
  */
  lemma AssignKeepsWellFormed(f: Frame, name: Column, values: seq<Cell>, n: nat)
    requires WellFormed(f, n) && |values| == n
    ensures WellFormed(Assign(f, name, values), n)
  {
    var g := Assign(f, name, values);
    if name !in f.columns {
      forall i, j | 0 <= i < j < |g.columns| ensures g.columns[i] != g.columns[j] {
        if j == |f.columns| {
          assert g.columns[i] == f.columns[i];
        }
      }
    }
  }

  /** `sub` is `s` with some entries left out and the others in their order. */
  predicate SubsequenceOf(sub: seq<Column>, s: seq<Column>)
    decreases |s|
  {
    if sub == [] then true
    else if s == [] then false
    else if sub[0] == s[0] then SubsequenceOf(sub[1..], s[1..])
    else SubsequenceOf(sub, s[1..])
  }

  /**
    `[col for col in desired if col in existing]`: the desired columns that
    exist, in the desired order, none repeated unless the desired list repeats it.
  */
  function KeepExisting(desired: seq<Column>, existing: seq<Column>): (r: seq<Column>)
    ensures forall c :: c in r <==> c in desired && c in existing
    ensures |r| <= |desired|
    ensures SubsequenceOf(r, desired)
    ensures NoDuplicates(desired) ==> NoDuplicates(r)
    decreases |desired|
  {
    if desired == [] then []
    else
      var rest := KeepExisting(desired[1..], existing);
      assert NoDuplicates(desired) ==> NoDuplicates(desired[1..]) by {
        if NoDuplicates(desired) {
          forall i, j | 0 <= i < j < |desired[1..]| ensures desired[1..][i] != desired[1..][j] {
            assert desired[1..][i] == desired[i + 1] && desired[1..][j] == desired[j + 1];
          }
        }
      }
      if desired[0] in existing then
        var r := [desired[0]] + rest;
        assert r[1..] == rest;
        assert NoDuplicates(desired) ==> NoDuplicates(r) by {
          if NoDuplicates(desired) {
            forall i, j | 0 <= i < j < |r| ensures r[i] != r[j] {
              if i == 0 {
                assert r[j] == rest[j - 1] && rest[j - 1] in rest;
                var k :| 0 <= k < |desired[1..]| && desired[1..][k] == rest[j - 1];
                assert desired[k + 1] == r[j];
              } else {
                assert r[i] == rest[i - 1] && r[j] == rest[j - 1];
              }
            }
          }
        }
        r
      else
        assert rest != [] ==> rest[0] != desired[0] by {
          if rest != [] {
            assert rest[0] in rest;
          }
        }
        rest
  }

  /** When every desired column exists, the filter keeps the desired list as it is. */
  lemma {:induction false} KeepExistingKeepsAll(desired: seq<Column>, existing: seq<Column>)
    requires forall c :: c in desired ==> c in existing
    ensures KeepExisting(desired, existing) == desired
  {
    if desired != [] {
      assert desired[0] in desired;
      forall c | c in desired[1..] ensures c in existing {
        assert c in desired;
      }
      KeepExistingKeepsAll(desired[1..], existing);
      assert [desired[0]] + desired[1..] == desired;
    }
  }

  /** `df[names]`: the named columns, in the order named, and no others. */
  function Select(f: Frame, names: seq<Column>): (g: Frame)
    requires forall c :: c in names ==> c in f.data
    ensures g.columns == names
    ensures forall c :: c in g.data <==> c in names
    ensures forall c :: c in names ==> g.data[c] == f.data[c]
  {
    Frame(names, map c | c in names :: f.data[c])
  }

  /**
    Selecting distinct existing columns of a well-formed table gives a
    well-formed table. A stand-alone statement about `Select`.
  */
  lemma SelectKeepsWellFormed(f: Frame, names: seq<Column>, n: nat)
    requires WellFormed(f, n) && NoDuplicates(names)
    requires forall c :: c in names ==> c in f.data
    ensures WellFormed(Select(f, names), n)
  {
  }

  /** One row of the output file. */
  datatype OutputRow = OutputRow(
    companyWebsite: string,
    posts: string,
    supportsIsraelOrHaram: bool,
    explanation: string,
    emailSubject: string,
    generatedEmail: string,
    email: string,
    linkedinMessage: string,
    drafted: string,
    dateOfDrafting: string)

  /** The cell of `r` in the named column; the dropped `email_body` column holds "". */
  function CellOf(r: OutputRow, column: Column): Cell {
    match column
    case CompanyWebsite => Str(r.companyWebsite)
    case Posts => Str(r.posts)
    case SupportsIsraelOrHaram => Flag(r.supportsIsraelOrHaram)
    case Explanation => Str(r.explanation)
    case EmailSubject => Str(r.emailSubject)
    case EmailBody => Str("")
    case GeneratedEmail => Str(r.generatedEmail)
    case Email => Str(r.email)
    case LinkedInMessage => Str(r.linkedinMessage)
    case Drafted => Str(r.drafted)
    case DateOfDrafting => Str(r.dateOfDrafting)
  }

  /**
    What one input row becomes. The original cells are kept as read; the
    screening and both drafters see the stripped cells. An email is drafted only
    when the company is not disqualified, the note always.
  */
  function ProcessRow(model: Model, row: SourceRow, emailInstructions: string,
                      noteInstructions: string): (out: OutputRow)
    ensures out.companyWebsite == row.companyWebsite && out.posts == row.posts
    ensures var c := Screen(model, row);
            out.supportsIsraelOrHaram == c.isTrue && out.explanation == c.explanation
    ensures out.supportsIsraelOrHaram ==> out.emailSubject == "" && out.generatedEmail == ""
    ensures !out.supportsIsraelOrHaram ==>
              EmailDraft(out.emailSubject, out.generatedEmail)
                == GenerateColdEmail(model, Strip(row.companyWebsite), Strip(row.posts), emailInstructions)
    ensures Some(out.linkedinMessage)
              == GenerateLinkedInConnectionNote(model, Strip(row.companyWebsite), Strip(row.posts),
                                                noteInstructions, true)
    ensures out.email == "" && out.drafted == "" && out.dateOfDrafting == ""
  {
    var website := Strip(row.companyWebsite);
    var posts := Strip(row.posts);
    var c := AnalyzeCompanySupport(model, website, posts);
    var draft := if c.isTrue then EmailDraft("", "") else GenerateColdEmail(model, website, posts, emailInstructions);
    var note := GenerateLinkedInConnectionNote(model, website, posts, noteInstructions, true);
    OutputRow(row.companyWebsite, row.posts, c.isTrue, c.explanation,
              draft.subject, draft.body, "", note.value, "", "")
  }

  /** Blank email columns mark exactly the disqualified companies: a drafted email is never blank. */
  lemma BlankEmailIffDisqualified(model: Model, row: SourceRow, emailInstructions: string,
                                  noteInstructions: string)
    ensures var out := ProcessRow(model, row, emailInstructions, noteInstructions);
            out.emailSubject == "" && out.generatedEmail == "" <==> out.supportsIsraelOrHaram
  {
    GeneratedEmailNeverBlank(model, Strip(row.companyWebsite), Strip(row.posts), emailInstructions);
  }

  /** A failed screening search never costs a company its email. */
  lemma FailedSearchStillDraftsEmail(model: Model, row: SourceRow, emailInstructions: string,
                                     noteInstructions: string)
    requires model(SearchRequest(ClassifierPrompt(Strip(row.companyWebsite)))).Failure?
    ensures var out := ProcessRow(model, row, emailInstructions, noteInstructions);
            !out.supportsIsraelOrHaram
            && EmailDraft(out.emailSubject, out.generatedEmail)
                 == GenerateColdEmail(model, Strip(row.companyWebsite), Strip(row.posts), emailInstructions)
  {
    FailedSearchIsNotTrue(model, Strip(row.companyWebsite), Strip(row.posts));
  }

  /** How many rows are processed: all of them for -1, otherwise at most `limitRows`. */
  function ProcessedCount(total: nat, limitRows: int): (n: nat)
    requires limitRows == -1 || limitRows >= 0
    ensures n <= total
    ensures limitRows == -1 ==> n == total
    ensures limitRows >= 0 ==> n == Min(limitRows, total)
  {
    if limitRows == -1 then total else Min(limitRows, total)
  }

  /** The `n` cells of a column assigned a single empty string. */
  function Blanks(n: nat): (r: seq<Cell>)
    ensures |r| == n && forall i :: 0 <= i < n ==> r[i] == Str("")
  {
    seq(n, i => Str(""))
  }

  /** How each input row becomes an output row, for a fixed model and fixed instructions. */
  type RowProcessing = SourceRow -> OutputRow

  function Processing(model: Model, emailInstructions: string, noteInstructions: string): RowProcessing {
    row => ProcessRow(model, row, emailInstructions, noteInstructions)
  }

  /** The five result lists hold, at every position, the cells of that row's output. */
  predicate ResultsMatch(process: RowProcessing, df: seq<SourceRow>,
                         analysisResults: seq<Cell>, explanations: seq<Cell>, subjects: seq<Cell>,
                         bodies: seq<Cell>, notes: seq<Cell>)
  {
    && |analysisResults| == |explanations| == |subjects| == |bodies| == |notes| == |df|
    && forall j :: 0 <= j < |df| ==>
         && analysisResults[j] == Flag(process(df[j]).supportsIsraelOrHaram)
         && explanations[j] == Str(process(df[j]).explanation)
         && subjects[j] == Str(process(df[j]).emailSubject)
         && bodies[j] == Str(process(df[j]).generatedEmail)
         && notes[j] == Str(process(df[j]).linkedinMessage)
  }

  lemma ResultsMatchStep(process: RowProcessing, df: seq<SourceRow>, i: nat,
                         analysisResults: seq<Cell>, explanations: seq<Cell>, subjects: seq<Cell>,
                         bodies: seq<Cell>, notes: seq<Cell>, r: OutputRow)
    requires i < |df| && r == process(df[i])
    requires ResultsMatch(process, df[..i], analysisResults, explanations, subjects, bodies, notes)
    ensures ResultsMatch(process, df[..i + 1],
                         analysisResults + [Flag(r.supportsIsraelOrHaram)], explanations + [Str(r.explanation)],
                         subjects + [Str(r.emailSubject)], bodies + [Str(r.generatedEmail)],
                         notes + [Str(r.linkedinMessage)])
  {
    assert df[..i + 1][..i] == df[..i] && df[..i + 1][i] == df[i];
  }

  /**
    The body of the row loop: screen the stripped cells, draft an email unless
    the company is disqualified, draft the note. The cells it yields are those of
    the row's output.
  */
  method DraftRow(model: Model, row: SourceRow, emailInstructions: string, noteInstructions: string)
    returns (isTrue: Cell, explanation: Cell, emailSubject: Cell, emailBody: Cell, note: Cell)
    ensures var r := ProcessRow(model, row, emailInstructions, noteInstructions);
            && isTrue == Flag(r.supportsIsraelOrHaram)
            && explanation == Str(r.explanation)
            && emailSubject == Str(r.emailSubject)
            && emailBody == Str(r.generatedEmail)
            && note == Str(r.linkedinMessage)
  {
    var companyWebsite := Strip(row.companyWebsite);
    var posts := Strip(row.posts);
    var c := AnalyzeCompanySupport(model, companyWebsite, posts);
    isTrue, explanation := Flag(c.isTrue), Str(c.explanation);
    var subject, body := "", "";
    if !c.isTrue {
      var draft := GenerateColdEmail(model, companyWebsite, posts, emailInstructions);
      subject, body := draft.subject, draft.body;
    }
    emailSubject, emailBody := Str(subject), Str(body);
    var linkedinMessage := GenerateLinkedInConnectionNote(model, companyWebsite, posts, noteInstructions, true);
    note := Str(linkedinMessage.value);
  }

  /**
    The row loop of `process_excel_filter_and_generate_emails`: one entry per
    row in each of the five result lists, in row order.
  */
  method DraftRows(model: Model, df: seq<SourceRow>, emailInstructions: string, noteInstructions: string)
    returns (analysisResults: seq<Cell>, explanations: seq<Cell>, subjects: seq<Cell>,
             bodies: seq<Cell>, notes: seq<Cell>)
    ensures ResultsMatch(Processing(model, emailInstructions, noteInstructions), df,
                         analysisResults, explanations, subjects, bodies, notes)
  {
    var process := Processing(model, emailInstructions, noteInstructions);
    analysisResults, explanations, subjects, bodies, notes := [], [], [], [], [];
    for i := 0 to |df|
      invariant ResultsMatch(process, df[..i], analysisResults, explanations, subjects, bodies, notes)
    {
      var isTrue, explanation, emailSubject, emailBody, note :=
        DraftRow(model, df[i], emailInstructions, noteInstructions);
      ResultsMatchStep(process, df, i, analysisResults, explanations, subjects, bodies, notes, process(df[i]));
      analysisResults := analysisResults + [isTrue];
      explanations := explanations + [explanation];
      subjects := subjects + [emailSubject];
      bodies := bodies + [emailBody];
      notes := notes + [note];
    }
    assert df[..|df|] == df;
  }

  /** The row processing keeps each row's two input cells and leaves the three manual columns blank. */
  predicate KeepsInputCells(process: RowProcessing, df: seq<SourceRow>) {
    forall j :: 0 <= j < |df| ==>
      && process(df[j]).companyWebsite == df[j].companyWebsite
      && process(df[j]).posts == df[j].posts
      && process(df[j]).email == "" && process(df[j]).drafted == "" && process(df[j]).dateOfDrafting == ""
  }

  /** The cells of the `company website` column as read from the file. */
  function WebsiteCells(df: seq<SourceRow>): (r: seq<Cell>)
    ensures |r| == |df| && forall i :: 0 <= i < |df| ==> r[i] == Str(df[i].companyWebsite)
  {
    seq(|df|, i requires 0 <= i < |df| => Str(df[i].companyWebsite))
  }

  /** The cells of the `posts` column as read from the file. */
  function PostsCells(df: seq<SourceRow>): (r: seq<Cell>)
    ensures |r| == |df| && forall i :: 0 <= i < |df| ==> r[i] == Str(df[i].posts)
  {
    seq(|df|, i requires 0 <= i < |df| => Str(df[i].posts))
  }

  /** The assembled table, with the desired columns in the desired order, is well formed. */
  lemma AssembledWellFormed(process: RowProcessing, df: seq<SourceRow>, out: Frame,
                      analysisResults: seq<Cell>, explanations: seq<Cell>, subjects: seq<Cell>,
                      bodies: seq<Cell>, notes: seq<Cell>)
    requires ResultsMatch(process, df, analysisResults, explanations, subjects, bodies, notes)
    requires out.columns == DesiredColumnOrder
    requires forall c :: c in out.data <==> c != EmailBody
    requires out.data[CompanyWebsite] == WebsiteCells(df) && out.data[Posts] == PostsCells(df)
    requires out.data[SupportsIsraelOrHaram] == analysisResults && out.data[Explanation] == explanations
    requires out.data[EmailSubject] == subjects && out.data[GeneratedEmail] == bodies
    requires out.data[LinkedInMessage] == notes && out.data[Email] == Blanks(|df|)
    requires out.data[Drafted] == Blanks(|df|) && out.data[DateOfDrafting] == Blanks(|df|)
    ensures WellFormed(out, |df|)
  {
    DesiredColumnsDistinct();
    DesiredColumnsAreAllButBody();
    forall c | c in out.data ensures |out.data[c]| == |df| {
      match c
      case CompanyWebsite =>
      case Posts =>
      case SupportsIsraelOrHaram =>
      case Explanation =>
      case EmailSubject =>
      case GeneratedEmail =>
      case LinkedInMessage =>
      case Email =>
      case Drafted =>
      case DateOfDrafting =>
    }
  }

  /** In the assembled table every cell is the cell of its row's output in its column. */
  lemma AssembledCells(process: RowProcessing, df: seq<SourceRow>, out: Frame,
                      analysisResults: seq<Cell>, explanations: seq<Cell>, subjects: seq<Cell>,
                      bodies: seq<Cell>, notes: seq<Cell>)
    requires ResultsMatch(process, df, analysisResults, explanations, subjects, bodies, notes)
    requires KeepsInputCells(process, df)
    requires forall c :: c in out.data <==> c != EmailBody
    requires out.data[CompanyWebsite] == WebsiteCells(df) && out.data[Posts] == PostsCells(df)
    requires out.data[SupportsIsraelOrHaram] == analysisResults && out.data[Explanation] == explanations
    requires out.data[EmailSubject] == subjects && out.data[GeneratedEmail] == bodies
    requires out.data[LinkedInMessage] == notes && out.data[Email] == Blanks(|df|)
    requires out.data[Drafted] == Blanks(|df|) && out.data[DateOfDrafting] == Blanks(|df|)
    requires forall c :: c in out.data ==> |out.data[c]| == |df|
    ensures forall c, i :: c in out.data && 0 <= i < |df| ==> out.data[c][i] == CellOf(process(df[i]), c)
  {
    forall c, i | c in out.data && 0 <= i < |df| ensures out.data[c][i] == CellOf(process(df[i]), c) {
      match c
      case CompanyWebsite =>
      case Posts =>
      case SupportsIsraelOrHaram =>
      case Explanation =>
      case EmailSubject =>
      case GeneratedEmail =>
      case LinkedInMessage =>
      case Email =>
      case Drafted =>
      case DateOfDrafting =>
    }
  }

  /**
    The five columns created before the row loop, each holding "" in every
    row; `email_body` stays blank and is later dropped.
  */
  method AddBlankColumns(f: Frame, n: nat) returns (g: Frame)
    requires EmailSubject !in f.columns && EmailBody !in f.columns && Email !in f.columns
    requires Drafted !in f.columns && DateOfDrafting !in f.columns
    ensures g.columns == f.columns + [EmailSubject, EmailBody, Email, Drafted, DateOfDrafting]
    ensures g.data == f.data[EmailSubject := Blanks(n)][EmailBody := Blanks(n)][Email := Blanks(n)]
                            [Drafted := Blanks(n)][DateOfDrafting := Blanks(n)]
  {
    var blanks := Blanks(n);
    g := Assign(f, EmailSubject, blanks);
    g := Assign(g, EmailBody, blanks);
    assert g.columns == f.columns + [EmailSubject, EmailBody];
    g := Assign(g, Email, blanks);
    assert g.columns == f.columns + [EmailSubject, EmailBody, Email];
    g := Assign(g, Drafted, blanks);
    assert g.columns == f.columns + [EmailSubject, EmailBody, Email, Drafted];
    g := Assign(g, DateOfDrafting, blanks);
  }

  /**
    The five result columns assigned after the row loop; `email_subject`
    already exists and keeps its place, the other four are appended.
  */
  method AddResultColumns(f: Frame, analysisResults: seq<Cell>, explanations: seq<Cell>,
                          subjects: seq<Cell>, bodies: seq<Cell>, notes: seq<Cell>)
    returns (g: Frame)
    requires EmailSubject in f.columns
    requires SupportsIsraelOrHaram !in f.columns && Explanation !in f.columns
    requires GeneratedEmail !in f.columns && LinkedInMessage !in f.columns
    ensures g.columns == f.columns + [SupportsIsraelOrHaram, Explanation, GeneratedEmail, LinkedInMessage]
    ensures g.data == f.data[SupportsIsraelOrHaram := analysisResults][Explanation := explanations]
                            [EmailSubject := subjects][GeneratedEmail := bodies][LinkedInMessage := notes]
  {
    g := Assign(f, SupportsIsraelOrHaram, analysisResults);
    g := Assign(g, Explanation, explanations);
    assert g.columns == f.columns + [SupportsIsraelOrHaram, Explanation];
    g := Assign(g, EmailSubject, subjects);
    g := Assign(g, GeneratedEmail, bodies);
    assert g.columns == f.columns + [SupportsIsraelOrHaram, Explanation, GeneratedEmail];
    g := Assign(g, LinkedInMessage, notes);
  }

  /** The final reordering: every desired column exists, so the output has exactly the desired ones. */
  method SelectDesiredColumns(f: Frame) returns (g: Frame)
    requires forall c :: c != EmailBody ==> c in f.columns
    requires forall c :: c in f.columns ==> c in f.data
    ensures g.columns == DesiredColumnOrder
    ensures forall c :: c in g.data <==> c != EmailBody
    ensures forall c :: c != EmailBody ==> g.data[c] == f.data[c]
  {
    DesiredColumnsAreAllButBody();
    var existingColumns := f.columns;
    KeepExistingKeepsAll(DesiredColumnOrder, existingColumns);
    var finalColumnOrder := KeepExisting(DesiredColumnOrder, existingColumns);
    g := Select(f, finalColumnOrder);
  }

  /**
    The column work of `process_excel_filter_and_generate_emails` up to the
    reordering: the frame read from the file, then the five blank columns, then
    the five result columns.
  */
  method FillColumns(df: seq<SourceRow>,
                     analysisResults: seq<Cell>, explanations: seq<Cell>, subjects: seq<Cell>,
                     bodies: seq<Cell>, notes: seq<Cell>)
    returns (filled: Frame)
    ensures filled.columns == [CompanyWebsite, Posts] + [EmailSubject, EmailBody, Email, Drafted, DateOfDrafting]
                              + [SupportsIsraelOrHaram, Explanation, GeneratedEmail, LinkedInMessage]
    ensures forall c :: c in filled.data
    ensures filled.data[CompanyWebsite] == WebsiteCells(df) && filled.data[Posts] == PostsCells(df)
    ensures filled.data[SupportsIsraelOrHaram] == analysisResults && filled.data[Explanation] == explanations
    ensures filled.data[EmailSubject] == subjects && filled.data[GeneratedEmail] == bodies
    ensures filled.data[LinkedInMessage] == notes && filled.data[Email] == Blanks(|df|)
    ensures filled.data[Drafted] == Blanks(|df|) && filled.data[DateOfDrafting] == Blanks(|df|)
    ensures filled.data[EmailBody] == Blanks(|df|)
  {
    var read := Frame([CompanyWebsite, Posts], map[CompanyWebsite := WebsiteCells(df), Posts := PostsCells(df)]);
    var prepared := AddBlankColumns(read, |df|);
    BlankColumnsLeaveResultsOut(prepared.columns);
    filled := AddResultColumns(prepared, analysisResults, explanations, subjects, bodies, notes);
    forall c ensures c in filled.data {
      match c
      case CompanyWebsite =>
      case Posts =>
      case _ =>
    }
  }

  /**
    The column work of `process_excel_filter_and_generate_emails`: the filled
    frame, then the final selection of the desired columns that exist.
  */
  method AssembleFrame(df: seq<SourceRow>,
                       analysisResults: seq<Cell>, explanations: seq<Cell>, subjects: seq<Cell>,
                       bodies: seq<Cell>, notes: seq<Cell>)
    returns (out: Frame)
    ensures out.columns == DesiredColumnOrder
    ensures forall c :: c in out.data <==> c != EmailBody
    ensures out.data[CompanyWebsite] == WebsiteCells(df) && out.data[Posts] == PostsCells(df)
    ensures out.data[SupportsIsraelOrHaram] == analysisResults && out.data[Explanation] == explanations
    ensures out.data[EmailSubject] == subjects && out.data[GeneratedEmail] == bodies
    ensures out.data[LinkedInMessage] == notes && out.data[Email] == Blanks(|df|)
    ensures out.data[Drafted] == Blanks(|df|) && out.data[DateOfDrafting] == Blanks(|df|)
  {
    var filled := FillColumns(df, analysisResults, explanations, subjects, bodies, notes);
    AllButBodyPresent(filled.columns);
    out := SelectDesiredColumns(filled);
  }

  /** After the blank columns are added, `email_subject` is present and the four other result columns are not. */
  lemma BlankColumnsLeaveResultsOut(columns: seq<Column>)
    requires columns == [CompanyWebsite, Posts] + [EmailSubject, EmailBody, Email, Drafted, DateOfDrafting]
    ensures EmailSubject in columns
    ensures SupportsIsraelOrHaram !in columns && Explanation !in columns
    ensures GeneratedEmail !in columns && LinkedInMessage !in columns
  {
    assert columns[2] == EmailSubject;
  }

  /** After the blank and the result columns are added, every column but `email_body` is present. */
  lemma AllButBodyPresent(columns: seq<Column>)
    requires columns == [CompanyWebsite, Posts] + [EmailSubject, EmailBody, Email, Drafted, DateOfDrafting]
                        + [SupportsIsraelOrHaram, Explanation, GeneratedEmail, LinkedInMessage]
    ensures forall c :: c != EmailBody ==> c in columns
  {
    forall c | c != EmailBody ensures c in columns {
      match c
      case CompanyWebsite => assert columns[0] == c;
      case Posts => assert columns[1] == c;
      case EmailSubject => assert columns[2] == c;
      case Email => assert columns[4] == c;
      case Drafted => assert columns[5] == c;
      case DateOfDrafting => assert columns[6] == c;
      case SupportsIsraelOrHaram => assert columns[7] == c;
      case Explanation => assert columns[8] == c;
      case GeneratedEmail => assert columns[9] == c;
      case LinkedInMessage => assert columns[10] == c;
    }
  }

  /**
    `process_excel_filter_and_generate_emails`: the frame written to the output
    file. It has exactly the ten desired columns in the desired order, one row
    per processed input row in input order, and each row is what
    `ProcessRow` makes of its input row.
  */
  method ProcessExcelFilterAndGenerateEmails(model: Model, rows: seq<SourceRow>,
                                             emailInstructions: string, noteInstructions: string,
                                             limitRows: int)
    returns (out: Frame)
    requires limitRows == -1 || limitRows >= 0
    ensures out.columns == DesiredColumnOrder
    ensures WellFormed(out, ProcessedCount(|rows|, limitRows))
    ensures forall c, i :: c in out.data && 0 <= i < ProcessedCount(|rows|, limitRows) ==>
              out.data[c][i] == CellOf(ProcessRow(model, rows[i], emailInstructions, noteInstructions), c)
  {
    var df := rows;
    if limitRows != -1 {
      df := Head(rows, limitRows);
    }
    assert |df| == ProcessedCount(|rows|, limitRows);
    ghost var process := Processing(model, emailInstructions, noteInstructions);
    var analysisResults, explanations, subjects, bodies, notes :=
      DraftRows(model, df, emailInstructions, noteInstructions);
    forall j | 0 <= j < |df|
      ensures process(df[j]).companyWebsite == df[j].companyWebsite && process(df[j]).posts == df[j].posts
      ensures process(df[j]).email == "" && process(df[j]).drafted == "" && process(df[j]).dateOfDrafting == ""
    {
      var r := ProcessRow(model, df[j], emailInstructions, noteInstructions);
      assert process(df[j]) == r;
    }
    out := AssembleFrame(df, analysisResults, explanations, subjects, bodies, notes);
    AssembledWellFormed(process, df, out, analysisResults, explanations, subjects, bodies, notes);
    AssembledCells(process, df, out, analysisResults, explanations, subjects, bodies, notes);
    forall c, i | c in out.data && 0 <= i < |df|
      ensures out.data[c][i] == CellOf(ProcessRow(model, rows[i], emailInstructions, noteInstructions), c)
    {
      assert df[i] == rows[i] && process(df[i]) == ProcessRow(model, rows[i], emailInstructions, noteInstructions);
    }
  }

  lemma DesiredColumnsDistinct()
    ensures NoDuplicates(DesiredColumnOrder)
  {
  }

  /** The output keeps every column the script creates or reads except `email_body`. */
  lemma DesiredColumnsAreAllButBody()
    ensures forall c :: c in DesiredColumnOrder <==> c != EmailBody
  {
    forall c | c != EmailBody ensures c in DesiredColumnOrder {
      match c
      case CompanyWebsite => assert DesiredColumnOrder[0] == c;
      case Posts => assert DesiredColumnOrder[1] == c;
      case SupportsIsraelOrHaram => assert DesiredColumnOrder[2] == c;
      case Explanation => assert DesiredColumnOrder[3] == c;
      case EmailSubject => assert DesiredColumnOrder[4] == c;
      case GeneratedEmail => assert DesiredColumnOrder[5] == c;
      case Email => assert DesiredColumnOrder[6] == c;
      case LinkedInMessage => assert DesiredColumnOrder[7] == c;
      case Drafted => assert DesiredColumnOrder[8] == c;
      case DateOfDrafting => assert DesiredColumnOrder[9] == c;
    }
  }
}
