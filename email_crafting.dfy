/**
  The cold-email drafter: the prompt it sends, the sentinel-tag parser that
  splits the model's reply into a subject and a body, the fallback when that
  fails, and the error pair returned when the model call fails.
*/
module EmailCrafting {
  import opened Wrappers
  import opened Text
  import opened Gateway
  import opened Prompting

  const SubjectStartTag := "---SUBJECT_START---"
  const SubjectEndTag := "---SUBJECT_END---"
  const BodyStartTag := "---BODY_START---"
  const BodyEndTag := "---BODY_END---"

  const FallbackSubject := "Subject Parsing Failed"
  const EmailErrorPrefix := "Error generating email: "
  const EmailMaxOutputTokens: nat := 1000

  const EmailClosing :=
    "Please write a full cold email including subject line and body based on the above.\n"
    + "Crucially, format your response strictly as follows:\n"
    + "---SUBJECT_START---\n[Your Generated Subject Line Here]\n---SUBJECT_END---\n"
    + "---BODY_START---\n[Your Generated Email Body Here]\n---BODY_END---\n"
    + "Do not include any other text or formatting outside these delimiters.\n"

  datatype EmailDraft = EmailDraft(subject: string, body: string)

  function EmailPrompt(website: string, posts: string, instructions: string): string {
    PromptPreamble(website, posts, instructions) + EmailClosing
  }

  /** Sent without web search, capped at 1000 output tokens. */
  function EmailRequest(website: string, posts: string, instructions: string): Request {
    Request(EmailPrompt(website, posts, instructions), false, Some(EmailMaxOutputTokens))
  }

  /**
    The stripped text between the end of the first `startTag` and the start of
    the first `endTag`; empty when either tag is missing or the end tag starts
    before the start tag has ended.
  */
  function ExtractBetween(text: string, startTag: string, endTag: string): (r: string)
    ensures IsStripped(r)
    ensures !Contains(text, startTag) || !Contains(text, endTag) ==> r == []
    ensures (Contains(text, startTag) && Contains(text, endTag)
             && Find(text, endTag).value < Find(text, startTag).value + |startTag|) ==> r == []
    ensures (Contains(text, startTag) && Contains(text, endTag)
             && Find(text, startTag).value + |startTag| <= Find(text, endTag).value)
            ==> r == Strip(text[Find(text, startTag).value + |startTag|..Find(text, endTag).value])
  {
    Strip(Between(text, Find(text, startTag), |startTag|, Find(text, endTag)))
  }

  /**
    The slice from `tagLength` past where the start tag was found up to where
    the end tag was found, as Python slices it; empty when either was not found.
  */
  function Between(text: string, start: Option<nat>, tagLength: nat, end: Option<nat>): (r: string)
    requires start.Some? ==> start.value + tagLength <= |text|
    requires end.Some? ==> end.value <= |text|
    ensures start.None? || end.None? ==> r == []
    ensures start.Some? && end.Some? && end.value < start.value + tagLength ==> r == []
    ensures start.Some? && end.Some? && start.value + tagLength <= end.value
            ==> r == text[start.value + tagLength..end.value]
  {
    if start.Some? && end.Some? then Slice(text, start.value + tagLength, end.value) else []
  }

  /**
    Splits a successful reply into subject and body. Each field is extracted on
    its own from the stripped reply and returned as extracted, even when one of
    them is empty; only when both come out empty does the fixed subject take
    over, with the whole stripped reply as the body.
  */
  function ParseEmailReply(reply: string): (d: EmailDraft)
    ensures IsStripped(d.subject) && IsStripped(d.body)
    ensures d.subject != [] || d.body != []
    ensures var subject := ExtractBetween(Strip(reply), SubjectStartTag, SubjectEndTag);
            var body := ExtractBetween(Strip(reply), BodyStartTag, BodyEndTag);
            !(subject == [] && body == []) ==> d == EmailDraft(subject, body)
    ensures ExtractBetween(Strip(reply), SubjectStartTag, SubjectEndTag) == []
            && ExtractBetween(Strip(reply), BodyStartTag, BodyEndTag) == []
            ==> d == EmailDraft(FallbackSubject, Strip(reply))
  {
    var full := Strip(reply);
    ChooseDraft(full, ExtractBetween(full, SubjectStartTag, SubjectEndTag),
                ExtractBetween(full, BodyStartTag, BodyEndTag))
  }

  /** The two extracted fields, unless both are empty, when the fallback pair takes over. */
  function ChooseDraft(full: string, subject: string, body: string): (d: EmailDraft)
    requires IsStripped(full) && IsStripped(subject) && IsStripped(body)
    ensures IsStripped(d.subject) && IsStripped(d.body)
    ensures d.subject != [] || d.body != []
    ensures !(subject == [] && body == []) ==> d == EmailDraft(subject, body)
    ensures subject == [] && body == [] ==> d == EmailDraft(FallbackSubject, full)
  {
    if subject == [] && body == [] then
      assert FallbackSubject[0] == 'S' && FallbackSubject[|FallbackSubject| - 1] == 'd';
      EmailDraft(FallbackSubject, full)
    else EmailDraft(subject, body)
  }

  /**
    `generate_cold_email`: the parsed reply, or, when the model call fails, the
    same error message as both subject and body.
  */
  function GenerateColdEmail(model: Model, website: string, posts: string, instructions: string)
    : (d: EmailDraft)
    ensures var reply := model(EmailRequest(website, posts, instructions));
            reply.Failure? ==> d.subject == d.body == EmailErrorPrefix + reply.message
    ensures var reply := model(EmailRequest(website, posts, instructions));
            reply.Success? ==> d == ParseEmailReply(reply.text)
  {
    match model(EmailRequest(website, posts, instructions))
    case Success(text) => ParseEmailReply(text)
    case Failure(message) =>
      var error := EmailErrorPrefix + message;
      EmailDraft(error, error)
  }

  /** The drafter never returns two empty fields: a parsed reply has one, an error fills both. */
  lemma GeneratedEmailNeverBlank(model: Model, website: string, posts: string, instructions: string)
    ensures var d := GenerateColdEmail(model, website, posts, instructions);
            d.subject != [] || d.body != []
  {
    var d := GenerateColdEmail(model, website, posts, instructions);
    var reply := model(EmailRequest(website, posts, instructions));
    if reply.Failure? {
      assert |d.subject| == |EmailErrorPrefix| + |reply.message|;
    }
  }

  /** The reply layout the prompt asks for: each marker and each field on a line of its own. */
  function FormatDraft(subject: string, body: string): string {
    Layout(SubjectStartTag, SubjectEndTag, BodyStartTag, BodyEndTag, subject, body)
  }

  predicate HasNoMarker(s: string) {
    !Contains(s, SubjectStartTag) && !Contains(s, SubjectEndTag)
    && !Contains(s, BodyStartTag) && !Contains(s, BodyEndTag)
  }

  lemma MarkersAreMarkers()
    ensures IsMarker(SubjectStartTag) && IsMarker(SubjectEndTag)
    ensures IsMarker(BodyStartTag) && IsMarker(BodyEndTag)
  {
  }

  /** No marker occurs inside another, so the first occurrence of each is the intended one. */
  lemma MarkersAreDistinct()
    ensures !Contains(SubjectStartTag, SubjectEndTag) && !Contains(SubjectStartTag, BodyStartTag)
    ensures !Contains(SubjectStartTag, BodyEndTag) && !Contains(SubjectEndTag, BodyStartTag)
    ensures !Contains(SubjectEndTag, BodyEndTag) && !Contains(BodyStartTag, BodyEndTag)
    ensures '\n' !in SubjectStartTag && '\n' !in SubjectEndTag
    ensures '\n' !in BodyStartTag && '\n' !in BodyEndTag
  {
    MarkersAreMarkers();
    assert SubjectStartTag[11] != SubjectEndTag[11];
    assert BodyStartTag[8] != BodyEndTag[8];
    MarkerNotInMarker(SubjectStartTag, SubjectEndTag, 11);
    MarkerNotInMarker(SubjectStartTag, BodyStartTag, 3);
    MarkerNotInMarker(SubjectStartTag, BodyEndTag, 3);
    MarkerNotInMarker(SubjectEndTag, BodyStartTag, 3);
    MarkerNotInMarker(SubjectEndTag, BodyEndTag, 3);
    MarkerNotInMarker(BodyStartTag, BodyEndTag, 8);
  }

  /** Four markers and two fields, one per line, in the order the prompt asks for. */
  function Layout(st: string, se: string, bs: string, be: string, subject: string, body: string): string {
    JoinLines([st, subject, se, bs, body, be])
  }

  /** The layout written out as one concatenation. */
  lemma LayoutSpelledOut(st: string, se: string, bs: string, be: string, subject: string, body: string)
    ensures Layout(st, se, bs, be, subject, body)
            == st + "\n" + (subject + "\n" + (se + "\n" + (bs + "\n" + (body + "\n" + be))))
  {
    var l5 := [be];
    var l4 := [body, be];
    var l3 := [bs, body, be];
    var l2 := [se, bs, body, be];
    var l1 := [subject, se, bs, body, be];
    var l0 := [st, subject, se, bs, body, be];
    assert JoinLines(l5) == be;
    assert l4[1..] == l5;
    assert JoinLines(l4) == body + "\n" + be;
    assert l3[1..] == l4;
    assert JoinLines(l3) == bs + "\n" + (body + "\n" + be);
    assert l2[1..] == l3;
    assert JoinLines(l2) == se + "\n" + JoinLines(l3);
    assert l1[1..] == l2;
    assert JoinLines(l1) == subject + "\n" + JoinLines(l2);
    assert l0[1..] == l1;
  }

  /**
    Locating each marker in a reply laid out line by line: when no marker
    occurs in an earlier line, the first occurrence of every marker is the one
    on its own line. A stand-alone summary of the per-marker lemmas below, which
    the extraction proofs use directly.
  */
  lemma LayoutPositions(st: string, se: string, bs: string, be: string,
                        subject: string, body: string)
    requires '\n' !in st && '\n' !in se && '\n' !in bs && '\n' !in be
    requires !Contains(st, se) && !Contains(st, bs) && !Contains(st, be)
    requires !Contains(se, bs) && !Contains(se, be) && !Contains(bs, be)
    requires !Contains(subject, se) && !Contains(subject, bs) && !Contains(subject, be)
    requires !Contains(body, be)
    ensures var f := Layout(st, se, bs, be, subject, body);
            var p := |st| + 1 + |subject| + 1;
            var q := p + |se| + 1;
            && Find(f, st) == Some(0)
            && Find(f, se) == Some(p)
            && Find(f, bs) == Some(q)
            && Find(f, be) == Some(q + |bs| + 1 + |body| + 1)
  {
    var lines := [st, subject, se, bs, body, be];
    FindSelf(st);
    FindInLines(lines, st, 0);
    LayoutFindsSubjectEnd(st, se, bs, be, subject, body);
    LayoutFindsBodyStart(st, se, bs, be, subject, body);
    LayoutFindsBodyEnd(st, se, bs, be, subject, body);
  }

  lemma LayoutFindsSubjectEnd(st: string, se: string, bs: string, be: string, subject: string, body: string)
    requires '\n' !in se && !Contains(st, se) && !Contains(subject, se)
    ensures Find(Layout(st, se, bs, be, subject, body), se) == Some(|st| + 1 + |subject| + 1)
  {
    var lines := [st, subject, se, bs, body, be];
    var l1 := [subject, se, bs, body, be];
    var l2 := [se, bs, body, be];
    assert lines[1..] == l1 && l1[1..] == l2;
    assert LineStart(l2, 0) == 0;
    assert LineStart(l1, 1) == |subject| + 1 + LineStart(l2, 0);
    forall k | 0 <= k < 2 ensures !Contains(lines[k], se) {
      if k == 0 { assert lines[k] == st; } else { assert lines[k] == subject; }
    }
    FindSelf(se);
    FindInLines(lines, se, 2);
  }

  lemma LayoutFindsBodyStart(st: string, se: string, bs: string, be: string, subject: string, body: string)
    requires '\n' !in bs && !Contains(st, bs) && !Contains(subject, bs) && !Contains(se, bs)
    ensures Find(Layout(st, se, bs, be, subject, body), bs) == Some(|st| + 1 + |subject| + 1 + |se| + 1)
  {
    var lines := [st, subject, se, bs, body, be];
    var l1 := [subject, se, bs, body, be];
    var l2 := [se, bs, body, be];
    var l3 := [bs, body, be];
    assert lines[1..] == l1 && l1[1..] == l2 && l2[1..] == l3;
    assert LineStart(l3, 0) == 0;
    assert LineStart(l2, 1) == |se| + 1 + LineStart(l3, 0);
    assert LineStart(l1, 2) == |subject| + 1 + LineStart(l2, 1);
    forall k | 0 <= k < 3 ensures !Contains(lines[k], bs) {
      if k == 0 { assert lines[k] == st; } else if k == 1 { assert lines[k] == subject; }
      else { assert lines[k] == se; }
    }
    FindSelf(bs);
    FindInLines(lines, bs, 3);
  }

  lemma LayoutFindsBodyEnd(st: string, se: string, bs: string, be: string, subject: string, body: string)
    requires '\n' !in be && !Contains(st, be) && !Contains(subject, be) && !Contains(se, be)
    requires !Contains(bs, be) && !Contains(body, be)
    ensures Find(Layout(st, se, bs, be, subject, body), be)
            == Some(|st| + 1 + |subject| + 1 + |se| + 1 + |bs| + 1 + |body| + 1)
  {
    var lines := [st, subject, se, bs, body, be];
    var l1 := [subject, se, bs, body, be];
    var l2 := [se, bs, body, be];
    var l3 := [bs, body, be];
    var l4 := [body, be];
    assert lines[1..] == l1 && l1[1..] == l2 && l2[1..] == l3 && l3[1..] == l4 && l4[1..] == [be];
    assert LineStart([be], 0) == 0;
    assert LineStart(l4, 1) == |body| + 1 + LineStart([be], 0);
    assert LineStart(l3, 2) == |bs| + 1 + LineStart(l4, 1);
    assert LineStart(l2, 3) == |se| + 1 + LineStart(l3, 2);
    assert LineStart(l1, 4) == |subject| + 1 + LineStart(l2, 3);
    forall k | 0 <= k < 5 ensures !Contains(lines[k], be) {
      if k == 0 { assert lines[k] == st; } else if k == 1 { assert lines[k] == subject; }
      else if k == 2 { assert lines[k] == se; } else if k == 3 { assert lines[k] == bs; }
      else { assert lines[k] == body; }
    }
    FindSelf(be);
    FindInLines(lines, be, 5);
  }

  /** The text strictly between two lines of a layout is the enclosed field with its line breaks. */
  lemma LayoutFields(st: string, se: string, bs: string, be: string, subject: string, body: string)
    ensures var f := Layout(st, se, bs, be, subject, body);
            var p := |st| + 1 + |subject| + 1;
            var q := p + |se| + 1;
            var e := q + |bs| + 1 + |body| + 1;
            && e + |be| == |f|
            && f[|st|..p] == "\n" + subject + "\n"
            && f[q + |bs|..e] == "\n" + body + "\n"
  {
    LayoutSpelledOut(st, se, bs, be, subject, body);
  }

  lemma ExtractSubjectFromLayout(st: string, se: string, bs: string, be: string,
                                 subject: string, body: string)
    requires '\n' !in st && '\n' !in se && !Contains(st, se) && !Contains(subject, se)
    requires IsStripped(subject)
    ensures ExtractBetween(Layout(st, se, bs, be, subject, body), st, se) == subject
  {
    var f := Layout(st, se, bs, be, subject, body);
    var p := |st| + 1 + |subject| + 1;
    FindSelf(st);
    FindInLines([st, subject, se, bs, body, be], st, 0);
    LayoutFindsSubjectEnd(st, se, bs, be, subject, body);
    LayoutFields(st, se, bs, be, subject, body);
    StripLine(subject);
    ExtractField(f, st, se, subject, 0, p);
  }

  lemma ExtractBodyFromLayout(st: string, se: string, bs: string, be: string,
                              subject: string, body: string)
    requires '\n' !in bs && '\n' !in be
    requires !Contains(st, bs) && !Contains(st, be)
    requires !Contains(se, bs) && !Contains(se, be) && !Contains(bs, be)
    requires !Contains(subject, bs) && !Contains(subject, be)
    requires !Contains(body, be)
    requires IsStripped(body)
    ensures ExtractBetween(Layout(st, se, bs, be, subject, body), bs, be) == body
  {
    var f := Layout(st, se, bs, be, subject, body);
    var q := |st| + 1 + |subject| + 1 + |se| + 1;
    LayoutFindsBodyStart(st, se, bs, be, subject, body);
    LayoutFindsBodyEnd(st, se, bs, be, subject, body);
    LayoutFields(st, se, bs, be, subject, body);
    StripLine(body);
    ExtractField(f, bs, be, body, q, q + |bs| + 1 + |body| + 1);
  }

  /** A field whose stripped text lies between the two markers' first occurrences is what is extracted. */
  lemma ExtractField(f: string, startTag: string, endTag: string, field: string, i: nat, j: nat)
    requires Find(f, startTag) == Some(i) && Find(f, endTag) == Some(j)
    requires i + |startTag| <= j <= |f| && Strip(f[i + |startTag|..j]) == field
    ensures ExtractBetween(f, startTag, endTag) == field
  {
    assert Between(f, Some(i), |startTag|, Some(j)) == f[i + |startTag|..j];
  }

  /**
    Parsing inverts the layout the prompt asks for: a subject and a body that
    carry no surrounding whitespace and no marker come back unchanged, unless
    both are empty, in which case the fallback subject and the whole reply are
    returned.
  */
  lemma ParseFormattedReply(subject: string, body: string)
    requires IsStripped(subject) && IsStripped(body)
    requires HasNoMarker(subject) && HasNoMarker(body)
    ensures ParseEmailReply(FormatDraft(subject, body)) ==
              if subject == [] && body == [] then EmailDraft(FallbackSubject, FormatDraft(subject, body))
              else EmailDraft(subject, body)
  {
    var st, se, bs, be := SubjectStartTag, SubjectEndTag, BodyStartTag, BodyEndTag;
    var f := FormatDraft(subject, body);
    LayoutSpelledOut(st, se, bs, be, subject, body);
    assert f[0] == st[0] == '-' && f[|f| - 1] == be[|be| - 1] == '-';
    StripFixesStripped(f);
    MarkersAreDistinct();
    ExtractSubjectFromLayout(st, se, bs, be, subject, body);
    ExtractBodyFromLayout(st, se, bs, be, subject, body);
  }

  /**
    A subject may come back empty beside a non-empty body: when the subject
    markers enclose nothing, the body alone is kept and no fallback happens.
  */
  lemma SubjectMayBeEmptyBesideBody()
    ensures ParseEmailReply(FormatDraft("", "Hi")) == EmailDraft("", "Hi")
  {
    ParseFormattedReply("", "Hi");
  }

  /**
    Markers that enclose only whitespace trigger the fallback, as missing
    markers do: when both marker pairs are found in order in the stripped
    reply and each encloses nothing but whitespace, the fallback subject comes
    back with the whole stripped reply as the body.
  */
  lemma BlankFieldsFallBack(reply: string)
    requires var t := Strip(reply);
             && Contains(t, SubjectStartTag) && Contains(t, SubjectEndTag)
             && Find(t, SubjectStartTag).value + |SubjectStartTag| <= Find(t, SubjectEndTag).value
             && AllSpace(t[Find(t, SubjectStartTag).value + |SubjectStartTag|..Find(t, SubjectEndTag).value])
    requires var t := Strip(reply);
             && Contains(t, BodyStartTag) && Contains(t, BodyEndTag)
             && Find(t, BodyStartTag).value + |BodyStartTag| <= Find(t, BodyEndTag).value
             && AllSpace(t[Find(t, BodyStartTag).value + |BodyStartTag|..Find(t, BodyEndTag).value])
    ensures ParseEmailReply(reply) == EmailDraft(FallbackSubject, Strip(reply))
  {
  }

  /** Whitespace around the reply does not change what is parsed from it. */
  lemma ParseIgnoresSurroundingWhitespace(reply: string)
    ensures ParseEmailReply(Strip(reply)) == ParseEmailReply(reply)
  {
    StripIdempotent(reply);
  }
}
