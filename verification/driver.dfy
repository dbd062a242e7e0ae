/** The decision and formatting logic of the Streamlit driver, `main.py`:
    the checks made before a run starts, the wait-time estimate shown while
    it runs, the split of a generated draft into subject and body, the
    preview table, and the session reset of the "Do it Again" button. */
module Driver {
  import opened Base
  import opened PyStr
  import Workflow

  // ---------------------------------------------------------------------
  // Starting a run

  /** The batch size the estimate assumes. The page hard-codes its own
      `batch_size = 10` rather than asking the workflow; the value happens
      to equal the workflow's `Workflow.BatchSize`. */
  const BatchSize: nat := 10
  /** Seconds the estimate allows for each batch of ten URLs. */
  const SecondsPerBatch: nat := 25

  const RunErrorPrefix: string := "Error processing rows: "

  /** `math.ceil(num_urls / batch_size)`: the least number of batches of ten
      that hold `n` items. */
  function TotalBatches(n: nat): (b: nat)
    ensures n <= BatchSize * b
    ensures b == 0 || BatchSize * (b - 1) < n
  {
    (n + BatchSize - 1) / BatchSize
  }

  /** `est_total_time`: the estimate counts every row of the sheet. */
  function EstimateSeconds(rows: nat): (s: nat)
    ensures s == 0 <==> rows == 0
    ensures s % SecondsPerBatch == 0
  {
    SecondsPerBatch * TotalBatches(rows)
  }

  /** The spinner text shown while the workflow runs. */
  function SpinnerText(estimate: nat, rows: nat): string {
    SpinnerIntro + Decimal(estimate) + SpinnerMiddle + Decimal(rows) + SpinnerEnd
  }

  const SpinnerIntro: string := "Fetching LinkedIn profiles and generating emails... Estimated time: "
  const SpinnerMiddle: string := " seconds for "
  const SpinnerEnd: string := " profiles."

  /** The spinner states the estimate and the number of profiles
      unambiguously: the text determines both numbers. */
  lemma SpinnerTextInjective(e1: nat, r1: nat, e2: nat, r2: nat)
    requires SpinnerText(e1, r1) == SpinnerText(e2, r2)
    ensures e1 == e2 && r1 == r2
  {
    assert SpinnerMiddle[0] == ' ' && SpinnerEnd[0] == ' ';
    TwoNumbersInjective(SpinnerIntro, SpinnerMiddle, SpinnerEnd, e1, r1, e2, r2);
  }

  /** Why "Start Workflow" refuses to run. */
  datatype Refusal = MissingInputs | NoRows

  /** What pressing "Start Workflow" leads to. A started run shows
      `SpinnerText(estimateSec, profiles)` while it runs, and reports the
      `results` the session holds afterwards and the error message the page
      writes when the workflow raised; the page clears that message again
      as soon as the run ends. */
  datatype StartOutcome =
    | Refused(reason: Refusal)
    | Started(estimateSec: nat, profiles: nat,
              results: Option<seq<Workflow.OutreachResult>>, error: Option<string>)

  /** The inputs a run needs: both text fields filled in, a sheet uploaded,
      and at least one row in it. */
  predicate ReadyToStart(courseDetails: string, persona: string, table: Option<Workflow.Table>) {
    courseDetails != [] && persona != [] && table.Some? && |table.value.rows| != 0
  }

  /** The "Start Workflow" handler. The previous `results` survive a run
      that raised. */
  function StartWorkflow(courseDetails: string, persona: string, table: Option<Workflow.Table>,
                         previous: Option<seq<Workflow.OutreachResult>>, env: Workflow.Env): (o: StartOutcome)
    ensures o.Started? <==> ReadyToStart(courseDetails, persona, table)
    ensures o == Refused(MissingInputs) <==> (courseDetails == [] || persona == [] || table.None?)
    ensures o == Refused(NoRows) <==> courseDetails != [] && persona != [] && table.Some? && table.value.rows == []
    ensures o.Started? ==>
              && o.estimateSec == SecondsPerBatch * TotalBatches(|table.value.rows|)
              && o.profiles == |table.value.rows|
              && var run := Workflow.Run(courseDetails, persona, table.value, env);
                 && (run.Success? ==> o.results == Some(run.value.results) && o.error == None)
                 && (run.Failure? ==> o.results == previous && o.error == Some(RunErrorPrefix + run.error))
  {
    if courseDetails == [] || persona == [] || table.None? then Refused(MissingInputs)
    else if |table.value.rows| == 0 then Refused(NoRows)
    else
      var rows := |table.value.rows|;
      match Workflow.Run(courseDetails, persona, table.value, env)
      case Success(out) => Started(EstimateSeconds(rows), rows, Some(out.results), None)
      case Failure(e) => Started(EstimateSeconds(rows), rows, previous, Some(RunErrorPrefix + e))
  }

  /** The estimate never undercounts the scraper calls: a run makes at most
      as many batch calls as the estimate assumes, because it sends only the
      rows with a usable URL. */
  lemma EstimateCoversScrapeCalls(courseDetails: string, persona: string, table: Workflow.Table, env: Workflow.Env)
    requires Workflow.Run(courseDetails, persona, table, env).Success?
    ensures |Workflow.Run(courseDetails, persona, table, env).value.batches| <= TotalBatches(|table.rows|)
  {
    var r := Workflow.Run(courseDetails, persona, table, env);
    var cols := table.columns;
    if Workflow.FindUrlColumn(cols).Some? {
      var urls := Workflow.UrlList(table.rows, cols[Workflow.FindUrlColumn(cols).value]);
      assert r.value.batches == Workflow.Batches(urls);
      BatchCountMonotone(|urls|, |table.rows|);
    }
  }

  lemma BatchCountMonotone(n: nat, m: nat)
    requires n <= m
    ensures (n + BatchSize - 1) / BatchSize <= TotalBatches(m)
  {
  }

  /** A sheet whose rows all lack a usable URL still gets a non-zero
      estimate, although the run scrapes nothing and drafts nothing. */
  lemma EstimateCountsSkippedRows(courseDetails: string, persona: string, table: Workflow.Table,
                                  previous: Option<seq<Workflow.OutreachResult>>, env: Workflow.Env)
    requires ReadyToStart(courseDetails, persona, Some(table))
    requires Workflow.FindUrlColumn(table.columns).Some?
    requires var col := table.columns[Workflow.FindUrlColumn(table.columns).value];
             forall k :: 0 <= k < |table.rows| ==> !Workflow.IsUsableUrl(Workflow.Get(table.rows[k], col))
    ensures var o := StartWorkflow(courseDetails, persona, Some(table), previous, env);
            && o.Started? && o.estimateSec >= SecondsPerBatch
            && o.results == Some([])
  {
    var col := table.columns[Workflow.FindUrlColumn(table.columns).value];
    NoUsableUrls(table.rows, col);
    Workflow.RunWithoutUrls(courseDetails, persona, table, env);
    var o := StartWorkflow(courseDetails, persona, Some(table), previous, env);
    var b := TotalBatches(|table.rows|);
    assert b >= 1;
    assert o.estimateSec == SecondsPerBatch * b;
  }

  /** A column without a usable cell yields no URLs. */
  lemma {:induction false} NoUsableUrls(rows: seq<Workflow.Row>, col: string)
    requires forall k :: 0 <= k < |rows| ==> !Workflow.IsUsableUrl(Workflow.Get(rows[k], col))
    ensures Workflow.UrlList(rows, col) == []
    decreases |rows|
  {
    if rows != [] {
      assert !Workflow.IsUsableUrl(Workflow.Get(rows[0], col));
      NoUsableUrls(rows[1..], col);
    }
  }

  // ---------------------------------------------------------------------
  // split_subject_body

  const SubjectPrefix: string := "subject:"

  /** A draft cut into an e-mail subject and body. */
  datatype SubjectBody = SubjectBody(subject: string, body: string)

  /** Removes one leading `subject:`, matched without regard to case, and
      strips what follows it. */
  function DropSubjectPrefix(s: string): (r: string)
    ensures IsStripped(s) ==> IsStripped(r)
    ensures |r| <= |s|
  {
    if StartsWith(Lower(s), SubjectPrefix) then Strip(s[|SubjectPrefix|..]) else s
  }

  /** The draft takes the multi-line path when it holds `\n` or `\r`. */
  predicate MultiLine(draft: string) {
    '\n' in draft || '\r' in draft
  }

  /** `split_subject_body`: the first line becomes the subject and the other
      lines, joined by `\n`, the body; a draft on one line is all subject. */
  function SplitSubjectBody(draft: string): (r: SubjectBody)
    ensures IsStripped(r.subject) && IsStripped(r.body)
    ensures !MultiLine(draft) ==> r.body == []
    ensures draft == [] ==> r == SubjectBody([], [])
  {
    if draft != [] && MultiLine(draft) then
      var lines := SplitLines(draft);
      SubjectBody(DropSubjectPrefix(Strip(lines[0])), Strip(Join("\n", lines[1..])))
    else
      SubjectBody(DropSubjectPrefix(Strip(draft)), [])
  }

  /** A subject that does not start with `subject:`, in any letter case,
      keeps its text. */
  lemma KeepsOtherSubject(s: string)
    requires !StartsWith(Lower(s), SubjectPrefix)
    ensures DropSubjectPrefix(s) == s
  {
  }

  /** A subject whose first letter is not `s` or `S` has no prefix to drop. */
  lemma NoPrefixWithoutS(s: string)
    requires s != [] && LowerChar(s[0]) != 's'
    ensures !StartsWith(Lower(s), SubjectPrefix)
  {
    assert Lower(s)[0] != SubjectPrefix[0];
    assert |s| < |SubjectPrefix| || Lower(s)[..|SubjectPrefix|][0] != SubjectPrefix[0];
  }

  /** The first line of a draft gives the subject and the rest, after a
      single `\n`, gives the body. */
  lemma SplitOfLineAndRest(t: string, b: string)
    requires NoBreaks(t)
    requires OnlyNewlines(b) && (b == [] || b[|b| - 1] != '\n')
    ensures SplitSubjectBody(t + "\n" + b) == SubjectBody(DropSubjectPrefix(Strip(t)), Strip(b))
  {
    var s := t + "\n" + b;
    assert s[|t|] == '\n';
    assert MultiLine(s);
    SplitLinesAtNewline(t, b);
    assert SplitLines(s)[1..] == SplitLines(b);
    JoinSplit(b);
  }

  /** Any first boundary ends the subject line once the draft takes the
      multi-line path: a `\n` or a lone `\r` always does, any other boundary
      only when a `\n` or `\r` comes later. The body is the rest with each
      boundary written as `\n`, a final one dropped, and then stripped. */
  lemma SplitOfLineAndBreak(t: string, c: char, b: string)
    requires NoBreaks(t) && IsLineBreak(c)
    requires !(c == '\r' && b != [] && b[0] == '\n')
    requires c == '\n' || c == '\r' || MultiLine(b)
    ensures SplitSubjectBody(t + [c] + b)
         == SubjectBody(DropSubjectPrefix(Strip(t)), Strip(DropFinalNewline(Newlines(b))))
  {
    var s := t + [c] + b;
    assert s[|t|] == c;
    assert MultiLine(s);
    SplitLinesAtBreak(t, c, b);
    assert SplitLines(s)[1..] == SplitLines(b);
    JoinSplitAll(b);
  }

  /** `\r\n` after the first line is one boundary: the line before it gives
      the subject and everything after the `\n` the body. */
  lemma SplitOfLineAndCrLf(t: string, b: string)
    requires NoBreaks(t)
    ensures SplitSubjectBody(t + "\r\n" + b)
         == SubjectBody(DropSubjectPrefix(Strip(t)), Strip(DropFinalNewline(Newlines(b))))
  {
    var s := t + "\r\n" + b;
    assert s[|t|] == '\r';
    assert MultiLine(s);
    SplitLinesAtCrLf(t, b);
    assert SplitLines(s)[1..] == SplitLines(b);
    JoinSplitAll(b);
  }

  /** Lower-casing works character by character, so it commutes with
      taking a prefix. */
  lemma LowerOfPrefix(p: string, x: string)
    ensures Lower(p + x)[..|p|] == Lower(p)
  {
    forall k | 0 <= k < |p| ensures Lower(p + x)[k] == Lower(p)[k] {
      assert (p + x)[k] == p[k];
    }
  }

  /** A spelling of `subject:` starts with a letter and ends with the colon. */
  lemma SubjectSpelling(p: string)
    requires Lower(p) == SubjectPrefix
    ensures |p| == |SubjectPrefix| && IsStripped(p) && !IsSpace(p[0])
  {
    assert LowerChar(p[0]) == 's';
    assert p[0] == 's' || p[0] == 'S';
    assert LowerChar(p[7]) == ':';
    assert p[7] == ':';
  }

  /** On a line that starts with a spelling of `subject:`, the prefix is
      dropped and the rest stripped. */
  lemma DropSpelledPrefix(p: string, rest: string)
    requires Lower(p) == SubjectPrefix
    ensures DropSubjectPrefix(p + rest) == Strip(rest)
  {
    SubjectSpelling(p);
    LowerOfPrefix(p, rest);
    assert (p + rest)[|SubjectPrefix|..] == rest;
  }

  /** Leading whitespace before a stripped text is all that `strip` removes. */
  lemma StripAfterSpace(sp: string, s: string)
    requires AllSpace(sp) && IsStripped(s)
    ensures Strip(sp + s) == s
  {
    assert sp + s + [] == sp + s;
    StripUnique(sp, s, []);
  }

  /** One leading `subject:` in any letter case, with the spaces after it,
      is removed, and nothing more: a subject that itself starts with
      `subject:` keeps it. */
  lemma DropSubjectPrefixOnce(p: string, sp: string, s: string)
    requires Lower(p) == SubjectPrefix
    requires AllSpace(sp) && IsStripped(s)
    ensures DropSubjectPrefix(Strip(p + sp + s)) == s
  {
    SubjectSpelling(p);
    var line := p + sp + s;
    if s == [] {
      assert line == [] + p + sp;
      StripUnique([], p, sp);
      assert p == p + [];
      DropSpelledPrefix(p, []);
    } else {
      assert line[0] == p[0];
      assert line[|line| - 1] == s[|s| - 1];
      StripStripped(line);
      assert line == p + (sp + s);
      DropSpelledPrefix(p, sp + s);
      StripAfterSpace(sp, s);
    }
  }

  /** The spelling of the prefix used in the prompt. */
  const SubjectLabel: string := "Subject:"

  lemma SubjectLabelSpelling()
    ensures Lower(SubjectLabel) == SubjectPrefix
  {
  }

  /** The draft layout the prompt asks for, `Subject: <s>` then a line
      break then the body, splits back into its subject and body. */
  lemma SubjectLineRoundTrip(s: string, b: string)
    requires IsStripped(s) && NoBreaks(s)
    requires IsStripped(b) && OnlyNewlines(b)
    ensures SplitSubjectBody(SubjectLabel + " " + s + "\n" + b) == SubjectBody(s, b)
  {
    assert b == [] || b[|b| - 1] != '\n' by {
      if b != [] { assert !IsSpace(b[|b| - 1]); }
    }
    SubjectLineSplit(s, b);
    StripStripped(b);
  }

  /** The same layout with a body that still carries surrounding blank
      lines or spaces: the body comes back stripped. */
  lemma SubjectLineSplit(s: string, b: string)
    requires IsStripped(s) && NoBreaks(s)
    requires OnlyNewlines(b) && (b == [] || b[|b| - 1] != '\n')
    ensures SplitSubjectBody(SubjectLabel + " " + s + "\n" + b) == SubjectBody(s, Strip(b))
  {
    var t := SubjectLabel + " " + s;
    LabelLineNoBreaks(s);
    LabelLineSubject(s);
    SplitOfLineAndRest(t, b);
  }

  /** A `Subject: ` line is one line when its text is. */
  lemma LabelLineNoBreaks(s: string)
    requires NoBreaks(s)
    ensures NoBreaks(SubjectLabel + " " + s)
  {
    var t := SubjectLabel + " " + s;
    forall k | 0 <= k < |t| ensures !IsLineBreak(t[k]) {
      if k >= 9 { assert t[k] == s[k - 9]; }
    }
  }

  /** The subject of a `Subject: ` line is its stripped text. */
  lemma LabelLineSubject(s: string)
    requires IsStripped(s)
    ensures DropSubjectPrefix(Strip(SubjectLabel + " " + s)) == s
  {
    SubjectLabelSpelling();
    DropSubjectPrefixOnce(SubjectLabel, " ", s);
  }

  /** A one-line draft that starts with `subject:`, in any letter case, is
      all subject: the prefix and the spaces after it are dropped, and the
      body is empty. */
  lemma OneLineWithPrefix(p: string, sp: string, s: string)
    requires Lower(p) == SubjectPrefix
    requires AllSpace(sp) && IsStripped(s)
    requires !MultiLine(p + sp + s)
    ensures SplitSubjectBody(p + sp + s) == SubjectBody(s, [])
  {
    DropSubjectPrefixOnce(p, sp, s);
  }

  /** A one-line draft without the prefix is all subject, stripped, and the
      body is empty. */
  lemma OneLineWithoutPrefix(draft: string)
    requires !MultiLine(draft)
    requires !StartsWith(Lower(Strip(draft)), SubjectPrefix)
    ensures SplitSubjectBody(draft) == SubjectBody(Strip(draft), [])
  {
    KeepsOtherSubject(Strip(draft));
  }

  /** `split_subject_body("Just one line")` is `("Just one line", "")`. */
  lemma SplitExampleOneLine(draft: string)
    requires draft == "Just one line"
    ensures SplitSubjectBody(draft) == SubjectBody("Just one line", "")
  {
    assert !MultiLine(draft);
    StripStripped(draft);
    NoPrefixWithoutS(draft);
    KeepsOtherSubject(draft);
  }

  // ---------------------------------------------------------------------
  // Preview table

  /** One row of the preview table. */
  datatype PreviewRow = PreviewRow(name: Option<Workflow.Cell>, email: Option<Workflow.Cell>,
                                   subject: string, body: string)

  /** The preview: one row per result, in order, with the draft split into
      subject and body. */
  function PreviewRows(results: seq<Workflow.OutreachResult>): (rows: seq<PreviewRow>)
    ensures |rows| == |results|
    ensures forall k :: 0 <= k < |rows| ==>
              && rows[k].name == results[k].name && rows[k].email == results[k].email
              && SubjectBody(rows[k].subject, rows[k].body) == SplitSubjectBody(results[k].emailDraft)
  {
    seq(|results|, k requires 0 <= k < |results| =>
      var split := SplitSubjectBody(results[k].emailDraft);
      PreviewRow(results[k].name, results[k].email, split.subject, split.body))
  }

  /** A result without a draft (no profile, or generation failed) shows an
      empty subject and body in the preview; the subject and body cells are
      free of surrounding whitespace. */
  lemma PreviewOfUndrafted(results: seq<Workflow.OutreachResult>, k: nat)
    requires k < |results|
    ensures results[k].emailDraft == [] ==> PreviewRows(results)[k].subject == [] && PreviewRows(results)[k].body == []
    ensures IsStripped(PreviewRows(results)[k].subject) && IsStripped(PreviewRows(results)[k].body)
  {
    var split := SplitSubjectBody(results[k].emailDraft);
    assert PreviewRows(results)[k].subject == split.subject;
  }

  // ---------------------------------------------------------------------
  // "Do it Again"

  /** The session keys that survive a reset. */
  const KeptKeys: set<string> := {"course_details", "persona", "sender_email", "app_password", "user_df"}
  const ResultsKey: string := "results"

  /** Deletes every session key outside `KeptKeys`, then sets `results` to
      `none` (Python's `None`). */
  function ResetSession<V>(session: map<string, V>, none: V): (r: map<string, V>)
    ensures r.Keys == (session.Keys * KeptKeys) + {ResultsKey}
    ensures forall key :: key in KeptKeys && key in session ==> r[key] == session[key]
    ensures r[ResultsKey] == none
  {
    (map key | key in session && key in KeptKeys :: session[key])[ResultsKey := none]
  }

  /** Pressing the button twice is the same as pressing it once. */
  lemma ResetIdempotent<V>(session: map<string, V>, none: V)
    ensures ResetSession(ResetSession(session, none), none) == ResetSession(session, none)
  {
  }

  /** After a reset nothing of the session is left but the kept keys: two
      sessions that agree on them reset to the same session. */
  lemma ResetKeepsOnlyKeptKeys<V>(s1: map<string, V>, s2: map<string, V>, none: V)
    requires forall key :: key in KeptKeys ==> (key in s1 <==> key in s2)
    requires forall key :: key in KeptKeys && key in s1 ==> s1[key] == s2[key]
    ensures ResetSession(s1, none) == ResetSession(s2, none)
  {
  }
}
