# Cold-outreach drafting pipeline, modelled in Dafny

The system reads prospects from a spreadsheet. Each row holds a company
website and the prospect's LinkedIn posts, and the system uses a hosted
generative model (Gemini) for each row:

- It screens the company with a web-search-grounded question. The verdict is
  true when the reply, stripped and upper-cased, starts with `TRUE`.
- It drafts a cold email, but only for a company not disqualified by the
  screening. The prompt asks the model for a reply laid out between four
  sentinel tags. The reply is parsed back into a subject and a body, with a
  fallback when neither field is found and an error pair when the call fails.
- It drafts a LinkedIn connection note for every company.
- It writes the results as a table with ten fixed columns in a fixed order.

A second, smaller script screens the first three rows and writes only the
rows judged true.

The model is a parameter everywhere (`Gateway.Model`, a total function from
a request to a reply). A reply is either the reply text or the message of
the exception the client library raised. So every statement holds for
every possible model behaviour, including calls that fail.

Modules, one per source file plus shared pieces:

- `Wrappers`: `Option`.
- `Text`: Python's `str.strip` (the full `str.isspace` set), `upper`,
  `find`, `startswith`, `in` and slicing, with the lemmas about them.
- `Gateway`: the request/reply oracle and the search helper's
  `"Error: "` convention.
- `Sheet`: input rows and `head`.
- `Prompting`: the prompt preamble shared by both drafters.
- `EmailCrafting`: the email drafter.
- `LinkedInNote`: the note drafter.
- `ValuesCheck`: the screening and the true-only script.
- `Pipeline`: the main script, modelled as a `method` with a row loop over
  the five result lists, plus the column bookkeeping of the data frame.

## Model

| member | source | states |
|---|---|---|
| Text.Strip | values_check.py:27 | The stripped text has no whitespace at either end and is no longer than the input. It is empty exactly when the input is all whitespace. |
| Text.StripAround | final.py:38-39 | Stripping a text that is already stripped and surrounded only by whitespace gives back exactly that text. |
| Text.StripLine | email_crafting.py:73 | A stripped field with a line break on each side strips back to the field. |
| Text.StripFixesStripped | email_crafting.py:59 | Stripping leaves an already stripped text unchanged. |
| Text.StripIdempotent | email_crafting.py:59 | Stripping twice gives the same text as stripping once. |
| Text.StripKeepsFront | values_check.py:27 | When the first n characters are not whitespace, the stripped text starts with those same n characters. |
| Text.StripKeepsFirst | values_check.py:27 | A text whose first character is not whitespace keeps that character first after stripping. |
| Text.FindFrom | email_crafting.py:71-72 | A found index is at or after the start, is an occurrence, and no occurrence lies between the start and it. When nothing is found, there is no occurrence at or after the start. |
| Text.Find | email_crafting.py:71-72 | `str.find`: a found index is the first occurrence. None means the pattern occurs nowhere. |
| Text.IsBlank | email_crafting.py:31 | Defines `not s.strip()`: stripping leaves nothing, so the text is empty or all whitespace. |
| Text.StartsWith | values_check.py:27 | Defines `str.startswith`: the prefix fits and the text begins with it. |
| Text.Contains | email_crafting.py:70-75 | Defines the `in` test on text: `find` locates the pattern somewhere. |
| Text.Upper | values_check.py:27 | `str.upper` keeps the length; each character is mapped on its own by `UpperChar`. |
| Text.UpperCases | values_check.py:27 | After upper-casing no lower-case ASCII letter is left. Each such letter becomes its capital, and every other character stays. |
| Text.Slice | email_crafting.py:73 | Python slicing with bounds inside the text: the characters from a to b, or empty when b < a. |
| Text.FindFirst | email_crafting.py:71-72 | Any first occurrence is what `find` returns. |
| Text.FindAtStart | email_crafting.py:71-72 | A pattern that starts the text is found at index 0. |
| Text.FindSelf | email_crafting.py:71-72 | A pattern is found at index 0 of itself. |
| Text.OccurrenceBeforeNewline | email_crafting.py:71-72 | An occurrence that starts on the first line and has no line break in it lies inside the first line. |
| Text.OccurrenceAfterNewline | email_crafting.py:71-72 | An occurrence after the first line break is, shifted back, an occurrence in the remaining text, and the converse. |
| Text.FindAfterLine | email_crafting.py:71-72 | A newline-free pattern that is absent from the first line is found one position past that line plus wherever it is found in the rest. Absent from the rest means absent everywhere. |
| Text.FindPastLine | email_crafting.py:71-72 | The same, for a pattern that the rest contains at a known position. |
| Text.FindAtStartOfLonger | email_crafting.py:71-72 | A pattern found at index 0 stays at index 0 when text is appended. |
| Text.FindInLines | email_crafting.py:37-43 | In lines joined by line breaks, a newline-free pattern that starts line i and occurs in no earlier line is first found where line i starts. |
| Text.MarkerNotInMarker | email_crafting.py:62-65 | Two tags of the `---NAME---` shape that differ at one position inside the shorter one do not contain each other. |
| Gateway.SearchRequest | gemini_web_search_query.py:16-24 | Defines the request the search helper sends: the query as the prompt, web search on, no output cap. |
| Gateway.SearchWithGemini | gemini_web_search_query.py:13-35 | With `return_response=True`, the search helper returns the reply text on success and `"Error: "` plus the exception message on failure. |
| Sheet.Head | final.py:20-21 | `df.head(n)`: the first min(n, rows) rows, each one unchanged and in order. |
| Prompting.PostsSection | email_crafting.py:31 | The posts section is never blank. It is the placeholder sentence exactly when the posts are blank, and otherwise the posts verbatim. |
| Prompting.PromptPreamble | email_crafting.py:26-35 | Defines the shared part of both prompts: the website, the posts section and the instructions, each under its heading. |
| Prompting.PreambleCarriesPosts | email_crafting.py:26-35 | Right after the website part of the prompt come the untrimmed posts, or the placeholder. |
| Prompting.BlankPostsGiveOnePrompt | linkeding_message_crafting.py:27-35 | Any two blank posts values give the same prompt. |
| EmailCrafting.EmailPrompt | email_crafting.py:26-45 | Defines the email prompt: the shared preamble followed by the request for a subject and a body between the four tags. |
| EmailCrafting.EmailRequest | email_crafting.py:47-58 | Defines the request the email drafter sends: the email prompt, no web search, at most 1000 output tokens. |
| EmailCrafting.ExtractBetween | email_crafting.py:70-78 | The extracted field is stripped. It is empty when either tag is missing, or when the end tag starts before the start tag ends. When both are found in order, it is the stripped text between the end of the first start tag and the first end tag. |
| EmailCrafting.Between | email_crafting.py:71-73 | The raw slice from the end of the start tag to the end tag. It is empty when the end comes first (as Python slices) or when a tag was not found. |
| EmailCrafting.ParseEmailReply | email_crafting.py:59-87 | The subject and the body are each stripped, and they are never both empty. Unless both extracted fields are empty, the result is exactly the two extracted fields, so one of them may be empty. When both are empty, the result is the fallback subject with the whole stripped reply as the body. |
| EmailCrafting.ChooseDraft | email_crafting.py:80-87 | Given stripped fields: both fields as given unless both are empty, otherwise the fallback subject with the whole reply. The result never has two empty fields. |
| EmailCrafting.GenerateColdEmail | email_crafting.py:47-92 | A failed call returns `"Error generating email: "` plus the message as both subject and body. A successful call returns the parse of the reply text. |
| EmailCrafting.GeneratedEmailNeverBlank | email_crafting.py:80-92 | The drafter never returns two empty fields, on either path. |
| EmailCrafting.MarkersAreMarkers | email_crafting.py:62-65 | All four tags have the `---NAME---` shape. |
| EmailCrafting.MarkersAreDistinct | email_crafting.py:62-65 | No tag occurs inside another, and no tag contains a line break. |
| EmailCrafting.LayoutSpelledOut | email_crafting.py:37-43 | The requested layout is the four tags and the two fields, one per line, in that order. |
| EmailCrafting.LayoutPositions | email_crafting.py:71-77 | In the requested layout, each tag is first found at its own line, provided no field contains a later tag. A stand-alone summary of the three per-tag lemmas. |
| EmailCrafting.LayoutFindsSubjectEnd | email_crafting.py:72 | The subject end tag is first found at the start of the third line. |
| EmailCrafting.LayoutFindsBodyStart | email_crafting.py:76 | The body start tag is first found at the start of the fourth line. |
| EmailCrafting.LayoutFindsBodyEnd | email_crafting.py:77 | The body end tag is first found at the start of the sixth line. |
| EmailCrafting.LayoutFields | email_crafting.py:73 | Between the subject tags lies the subject with a line break on each side; the same holds for the body. |
| EmailCrafting.ExtractSubjectFromLayout | email_crafting.py:70-73 | The subject parsed from the layout is the stripped subject that was laid out. |
| EmailCrafting.ExtractBodyFromLayout | email_crafting.py:75-78 | The body parsed from the layout is the stripped body that was laid out. |
| EmailCrafting.ExtractField | email_crafting.py:70-78 | Once both tags' first positions are known, extraction gives the stripped text between them. |
| EmailCrafting.FormatDraft | email_crafting.py:37-43 | Defines the reply layout the prompt asks for: each tag and each field on a line of its own, subject pair before body pair. `LayoutSpelledOut` spells it out and `ParseFormattedReply` inverts it. |
| EmailCrafting.ParseFormattedReply | email_crafting.py:36-87 | Round trip: a reply in the requested layout, with stripped fields free of tags, parses back to exactly its subject and body. Two empty fields give the fallback. |
| EmailCrafting.SubjectMayBeEmptyBesideBody | email_crafting.py:67-87 | A reply with an empty subject and a body "Hi" parses to ("", "Hi"): one field can be empty beside the other. |
| EmailCrafting.BlankFieldsFallBack | email_crafting.py:70-85 | For any reply: when both tag pairs are found in order in the stripped reply and each encloses only whitespace, the result is the fallback subject with the whole stripped reply as the body. |
| EmailCrafting.ParseIgnoresSurroundingWhitespace | email_crafting.py:59 | Whitespace around the reply does not change what is parsed. |
| LinkedInNote.NotePrompt | linkeding_message_crafting.py:27-38 | Defines the note prompt: the shared preamble followed by the request for a connection note. |
| LinkedInNote.NoteRequest | linkeding_message_crafting.py:40-51 | Defines the request the note drafter sends: the note prompt, no web search, at most 500 output tokens. |
| LinkedInNote.GenerateLinkedInConnectionNote | linkeding_message_crafting.py:13-61 | A value is returned exactly when `return_response` is set. That value is the stripped reply text on success, or `"Error generating LinkedIn connection note: "` plus the message on failure. |
| LinkedInNote.FailedNoteStartsWithPrefix | linkeding_message_crafting.py:56-59 | A failed call yields a text that starts with the error prefix. |
| ValuesCheck.ClassifierPrompt | values_check.py:5-21 | Defines the screening prompt: the fixed question text with the website in its one slot. The social content has no slot. |
| ValuesCheck.IsTrueVerdict | values_check.py:27 | Defines the verdict: the stripped, upper-cased reply starts with "TRUE". `VerdictIsCaseInsensitivePrefix` characterises it. |
| ValuesCheck.AnalyzeCompanySupport | values_check.py:4-29 | The explanation is the search helper's raw answer to the prompt built from the website. The verdict is the TRUE-prefix test on that answer. |
| ValuesCheck.UpperCharMatches | values_check.py:27 | A character upper-cases to a given capital exactly when it is that capital or its lower-case letter. |
| ValuesCheck.VerdictIsCaseInsensitivePrefix | values_check.py:26-27 | The verdict is true exactly when the stripped reply starts with t, r, u, e in any mix of cases. |
| ValuesCheck.TrueWhateverFollows | values_check.py:27 | "TRUE" in any case, followed by anything, is a true verdict (for example "trueish" or "TRUE, not FALSE"). |
| ValuesCheck.OtherFirstLetterIsNotTrue | values_check.py:27 | A reply whose first character is neither whitespace nor t/T is not a true verdict. |
| ValuesCheck.BlankReplyIsNotTrue | values_check.py:27 | A blank reply is not a true verdict. |
| ValuesCheck.ErrorReplyIsNotTrue | values_check.py:24-27 | The search helper's error text is never a true verdict. |
| ValuesCheck.FailedSearchIsNotTrue | values_check.py:24-27 | When the search call fails, the company is judged not true. |
| ValuesCheck.SocialContentIsIgnored | values_check.py:4-29 | The social content never changes the classification. |
| ValuesCheck.Screen | values_check.py:40-45 | Defines how one row is screened: the classification of its stripped website and posts cells. |
| ValuesCheck.Kept | values_check.py:49-53 | Defines the written row: the stripped website, the stripped posts and the explanation. |
| ValuesCheck.TrueRows | values_check.py:39-55 | Defines the written rows: the kept form of each row judged true, in input order. `TrueRowsComeFromTrueRows`, `TrueIndicesIncrease` and `TrueRowsAreAllKept` characterise it. |
| ValuesCheck.TrueIndices | values_check.py:40-53 | Defines the input positions of the rows judged true, in increasing order. |
| ValuesCheck.TrueRowsStep | values_check.py:40-53 | One more row adds its kept row exactly when it is judged true. |
| ValuesCheck.TrueRowsComeFromTrueRows | values_check.py:40-53 | Every written row is the kept form of an input row judged true, at a known input position. |
| ValuesCheck.TrueIndicesIncrease | values_check.py:40-53 | The written rows keep input order: their input positions strictly increase. |
| ValuesCheck.TrueRowsAreAllKept | values_check.py:40-53 | Every input row judged true is written. |
| ValuesCheck.ProcessExcelAndWriteTrueOnly | values_check.py:32-62 | The rows written are the true rows among the first three, in order. When there are none, no file is written. |
| Pipeline.Name | final.py:30-86 | Defines the spreadsheet header of each column, as the script spells it. `ColumnNamesDistinct` shows no two columns share one. |
| Pipeline.ColumnNamesDistinct | final.py:29-34 | Different columns have different headers. |
| Pipeline.WithColumn | final.py:29-34 | Assigning a column keeps the old order as a prefix. A new column is appended at the end, and an existing one keeps its place. |
| Pipeline.Assign | final.py:29-34 | `df[name] = values`: the column order is updated as above and only that column's cells change. |
| Pipeline.AssignKeepsWellFormed | final.py:29-34 | Assigning a column of the table's length keeps the table well formed: no duplicate columns, and every column has n cells. |
| Pipeline.KeepExisting | final.py:89 | A column is kept exactly when it is desired and exists. The result is a subsequence of the desired list, so it keeps the desired order, and it repeats no column when the desired list repeats none. |
| Pipeline.KeepExistingKeepsAll | final.py:88-89 | When every desired column exists, the filter returns the desired list unchanged. |
| Pipeline.Select | final.py:91 | `df[names]`: exactly the named columns, in the named order, with their cells unchanged. |
| Pipeline.SelectKeepsWellFormed | final.py:91 | Selecting distinct existing columns keeps the table well formed. |
| Pipeline.ProcessRow | final.py:37-65 | The input cells are kept as read, and the screening sees the stripped cells. A disqualified company gets empty email fields; any other company gets the drafter's result. The note is always drafted. The manual columns are empty. |
| Pipeline.BlankEmailIffDisqualified | final.py:49-61 | The email fields are both empty exactly when the company is disqualified. |
| Pipeline.FailedSearchStillDraftsEmail | final.py:44-55 | A failed screening search still yields a drafted email. |
| Pipeline.ProcessedCount | final.py:20-21 | -1 processes every row; a limit n processes min(n, rows) rows. |
| Pipeline.Blanks | final.py:30-34 | A column assigned '' holds an empty text in each of its n cells. |
| Pipeline.ResultsMatchStep | final.py:46-65 | Appending one row's five cells keeps the result lists in step with the rows processed so far. |
| Pipeline.DraftRow | final.py:38-65 | The loop body yields exactly the five cells of the row's output. |
| Pipeline.DraftRows | final.py:23-65 | After the loop, each of the five lists has one entry per row, in row order, each the cell of that row's output. |
| Pipeline.AddBlankColumns | final.py:29-34 | The five blank columns are appended in order. The new cells map is the old one with exactly those five columns set to blanks, so every other column is unchanged. |
| Pipeline.AddResultColumns | final.py:67-72 | The four new result columns are appended in order, and `email_subject` keeps its place. The new cells map is the old one with exactly the five result columns set to their lists, so every other column, `email_body` included, is unchanged. |
| Pipeline.SelectDesiredColumns | final.py:74-91 | When every desired column exists, the output has exactly the desired columns in the desired order, with their cells unchanged. |
| Pipeline.FillColumns | final.py:18-72 | After the read, the blank columns and the result columns, the table lists its eleven columns in assignment order and every column has cells. Each column holds the cells that were read, its result list, or blanks. |
| Pipeline.AssembleFrame | final.py:18-91 | The written table has the ten desired columns in order, and `email_body` is dropped. Each column holds the cells that were read, the result lists, or blanks. |
| Pipeline.BlankColumnsLeaveResultsOut | final.py:29-34 | After the blank columns, `email_subject` exists and the four other result columns do not. |
| Pipeline.AllButBodyPresent | final.py:29-72 | After both rounds of assignment, every column except `email_body` exists. |
| Pipeline.AssembledWellFormed | final.py:74-91 | The written table is well formed with one cell per processed row in every column. |
| Pipeline.AssembledCells | final.py:67-91 | Every cell of the written table is that row's output in that column. |
| Pipeline.DesiredColumnsDistinct | final.py:75-86 | The desired column order lists no column twice. |
| Pipeline.DesiredColumnsAreAllButBody | final.py:75-86 | The desired columns are every column the script creates or reads except `email_body`. |
| Pipeline.ProcessExcelFilterAndGenerateEmails | final.py:9-94 | The written table has exactly the ten desired columns in order and one row per processed input row. Every cell is what `ProcessRow` makes of that input row. |

## Left out

- Reading and writing spreadsheet files (pandas, openpyxl), console output, and the `__main__` blocks. Rows are given as values and the written table is returned.
- A cell pandas reads as empty becomes the text "nan" through `str(...)`. The model takes every cell as text already.
- The API key check at import time and the client construction. Model name, temperature and tool configuration are not modelled; only the web-search flag and the output-token cap are kept in the request.
- The model is deterministic and total: one reply per request. The quality or wording of what it writes is not modelled.
- A reply whose `response.text` is `None`. In the drafters this raises inside the `try` and takes the error path, which is what `Failure` stands for. In the search helper it would be returned as `None` and crash the caller's `.strip()`.
- The search helper called with `return_response=False`: the scripts never call it that way.
- The note drafter's printing path is modelled only as returning no value (`None`).
- Text.Upper: upper-cases ASCII letters only, because the verdict test only compares against the ASCII word "TRUE". Non-ASCII case mappings are not modelled.
- Pipeline.ProcessExcelFilterAndGenerateEmails: requires `limit_rows` to be -1 or non-negative. A negative limit other than -1 makes pandas `head` drop rows from the end, which is not modelled.
- Pipeline.ProcessedCount: the same restriction on `limit_rows`.
- The data frame is a value (`Frame`). Pandas' index, dtypes and in-place aliasing are not modelled.
- Pipeline.FillColumns: the two columns that are read come in the order `company website`, `posts`. pandas `read_excel(usecols=...)` keeps the file's order instead, which may be the reverse. Only the columns before the final selection are affected: the selection at final.py:91 fixes the order of the written table either way.
- The `email_body` column is created blank and dropped by the final selection. It is never filled, so the model keeps it blank.
- Nothing else is omitted from the email parser. A parsed email can have one empty field beside a non-empty one (email_crafting.py:67-68, 81), and the model keeps that behaviour: see `EmailCrafting.ParseEmailReply` and `EmailCrafting.SubjectMayBeEmptyBesideBody`.
