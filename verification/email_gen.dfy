/** The draft generator, `app/email_gen/email_generation_agent.py`: the
    profile-text cleaner, the prompt template, the request sent to the
    generative-text endpoint, and how its reply becomes a draft.

    The HTTP call is a parameter (`send`, failing when `requests` raises),
    as are `response.json()` (`parse`) and `json.dumps` (`dumps`). */
module EmailGen {
  import opened Base
  import opened PyStr
  import opened PyJson
  import opened CoursePersona

  const ModelName: string := "claude-3-5-haiku-20241022"
  const MaxTokens: nat := 512

  /** The cleaner keeps at most this many words. */
  const MaxSummaryWords: nat := 1200
  const TruncationMarker: string := "...[truncated]"

  // ---------------------------------------------------------------------
  // _clean_and_summarize_profile_text

  /** The non-empty entries, in order. */
  function NonEmpty<T>(xs: seq<seq<T>>): (r: seq<seq<T>>)
    ensures |r| <= |xs|
  {
    if xs == [] then []
    else if xs[0] != [] then [xs[0]] + NonEmpty(xs[1..])
    else NonEmpty(xs[1..])
  }

  lemma {:induction false} NonEmptyMembers<T>(xs: seq<seq<T>>)
    ensures forall x :: x in NonEmpty(xs) <==> x != [] && x in xs
  {
    if xs != [] {
      NonEmptyMembers(xs[1..]);
      assert xs == [xs[0]] + xs[1..];
    }
  }

  /** Every line, stripped. */
  function StripAll(lines: seq<string>): (r: seq<string>)
    ensures |r| == |lines| && forall k :: 0 <= k < |lines| ==> r[k] == Strip(lines[k])
  {
    seq(|lines|, k requires 0 <= k < |lines| => Strip(lines[k]))
  }

  /** The stripped, non-blank lines, in order. */
  function NonBlankLines(lines: seq<string>): (r: seq<string>)
    ensures |r| <= |lines|
    ensures forall k :: 0 <= k < |r| ==> IsStripped(r[k]) && r[k] != []
  {
    var stripped := StripAll(lines);
    var r := NonEmpty(stripped);
    assert forall k :: 0 <= k < |r| ==> IsStripped(r[k]) && r[k] != [] by {
      NonEmptyMembers(stripped);
      forall k | 0 <= k < |r| ensures IsStripped(r[k]) && r[k] != [] {
        assert r[k] in r;
        var i :| 0 <= i < |stripped| && stripped[i] == r[k];
      }
    }
    r
  }

  /** A line survives cleaning exactly when it is the non-blank stripped
      form of some input line. */
  lemma NonBlankLinesMembers(lines: seq<string>)
    ensures forall x :: x in NonBlankLines(lines) <==> x != [] && x in StripAll(lines)
  {
    NonEmptyMembers(StripAll(lines));
  }

  /** Stripping never introduces a line boundary. */
  lemma NonBlankLinesNoBreaks(lines: seq<string>)
    requires forall k :: 0 <= k < |lines| ==> NoBreaks(lines[k])
    ensures forall k :: 0 <= k < |NonBlankLines(lines)| ==> NoBreaks(NonBlankLines(lines)[k])
  {
    var all, stripped := NonBlankLines(lines), StripAll(lines);
    NonBlankLinesMembers(lines);
    forall k | 0 <= k < |all| ensures NoBreaks(all[k]) {
      assert all[k] in all;
      var i :| 0 <= i < |stripped| && stripped[i] == all[k];
      StripKeepsNoBreaks(lines[i]);
    }
  }

  /** Position of the first occurrence of `x` in `xs`. */
  function FirstIndex<T(==)>(xs: seq<T>, x: T): (i: nat)
    requires x in xs
    ensures i < |xs| && xs[i] == x
    ensures forall k :: 0 <= k < i ==> xs[k] != x
  {
    if xs[0] == x then 0 else 1 + FirstIndex(xs[1..], x)
  }

  /** Order-preserving removal of repeats, scanning left to right. */
  function Dedupe<T(==)>(xs: seq<T>): (r: seq<T>)
    ensures |r| <= |xs|
    ensures xs != [] ==> r != [] && r[0] == xs[0]
  {
    if xs == [] then []
    else
      var d := Dedupe(xs[..|xs| - 1]);
      if xs[|xs| - 1] in d then d else d + [xs[|xs| - 1]]
  }

  /** No value occurs twice. */
  predicate Distinct<T(==)>(s: seq<T>) {
    forall i, j :: 0 <= i < j < |s| ==> s[i] != s[j]
  }

  /** Every value of `r` occurs in `xs`, and `r` lists them in the order of
      their first occurrences in `xs`. */
  predicate InFirstOccurrenceOrder<T(==)>(r: seq<T>, xs: seq<T>) {
    && (forall i :: 0 <= i < |r| ==> r[i] in xs)
    && (forall i, j :: 0 <= i < j < |r| ==> FirstIndex(xs, r[i]) < FirstIndex(xs, r[j]))
  }

  /** Dedupe keeps exactly the values that occur in its input. */
  lemma {:induction false} DedupeMembers<T>(xs: seq<T>)
    ensures forall x :: x in Dedupe(xs) <==> x in xs
  {
    if xs != [] {
      var init := xs[..|xs| - 1];
      DedupeMembers(init);
      assert xs == init + [xs[|xs| - 1]];
    }
  }

  /** No value occurs twice in the output. */
  lemma {:induction false} DedupeDistinct<T>(xs: seq<T>)
    ensures Distinct(Dedupe(xs))
  {
    if xs != [] {
      var d := Dedupe(xs[..|xs| - 1]);
      var z := xs[|xs| - 1];
      DedupeDistinct(xs[..|xs| - 1]);
      if z !in d {
        var r := d + [z];
        forall i, j | 0 <= i < j < |r| ensures r[i] != r[j] {
          assert r[i] == d[i];
          if j == |d| {
            assert d[i] in d;
          } else {
            assert r[j] == d[j];
          }
        }
      }
    }
  }

  lemma FirstIndexOfNew<T>(xs: seq<T>, z: T)
    requires z !in xs
    ensures z in xs + [z] && FirstIndex(xs + [z], z) == |xs|
    decreases |xs|
  {
    if xs != [] {
      assert (xs + [z])[1..] == xs[1..] + [z];
      FirstIndexOfNew(xs[1..], z);
    }
  }

  lemma FirstIndexOfExtension<T>(xs: seq<T>, z: T, y: T)
    requires y in xs
    ensures y in xs + [z] && FirstIndex(xs + [z], y) == FirstIndex(xs, y)
    decreases |xs|
  {
    if xs[0] != y {
      assert (xs + [z])[1..] == xs[1..] + [z];
      FirstIndexOfExtension(xs[1..], z, y);
    }
  }

  /** Appending to the scanned sequence keeps the order of what was kept. */
  lemma OrderSurvivesExtension<T>(r: seq<T>, xs: seq<T>, z: T)
    requires InFirstOccurrenceOrder(r, xs)
    ensures InFirstOccurrenceOrder(r, xs + [z])
  {
    forall i | 0 <= i < |r| ensures r[i] in xs + [z] && FirstIndex(xs + [z], r[i]) == FirstIndex(xs, r[i]) {
      FirstIndexOfExtension(xs, z, r[i]);
    }
  }

  /** Keeping a value never seen before puts it last in first-occurrence
      order. */
  lemma OrderOfNewValue<T>(r: seq<T>, xs: seq<T>, z: T)
    requires InFirstOccurrenceOrder(r, xs)
    requires z !in xs
    ensures InFirstOccurrenceOrder(r + [z], xs + [z])
  {
    OrderSurvivesExtension(r, xs, z);
    FirstIndexOfNew(xs, z);
    var r' := r + [z];
    forall i | 0 <= i < |r'| ensures r'[i] in xs + [z] {
      if i < |r| {
        assert r'[i] == r[i];
      }
    }
    forall i, j | 0 <= i < j < |r'|
      ensures FirstIndex(xs + [z], r'[i]) < FirstIndex(xs + [z], r'[j])
    {
      assert r'[i] == r[i] && r[i] in xs;
      FirstIndexOfExtension(xs, z, r[i]);
      if j < |r| {
        assert r'[j] == r[j];
      } else {
        assert r'[j] == z;
      }
    }
  }

  /** Each kept value is a first occurrence, and kept values appear in the
      order of their first occurrences. */
  lemma {:induction false} DedupeKeepsFirstOccurrenceOrder<T>(xs: seq<T>)
    ensures InFirstOccurrenceOrder(Dedupe(xs), xs)
  {
    if xs != [] {
      var init := xs[..|xs| - 1];
      var z := xs[|xs| - 1];
      assert xs == init + [z];
      DedupeKeepsFirstOccurrenceOrder(init);
      DedupeMembers(init);
      if z in Dedupe(init) {
        OrderSurvivesExtension(Dedupe(init), init, z);
      } else {
        OrderOfNewValue(Dedupe(init), init, z);
      }
    }
  }

  /** The de-duplicating loop of the cleaner, with its `seen` set. */
  method DedupeLines(lines: seq<string>) returns (unique: seq<string>)
    ensures unique == Dedupe(lines)
    ensures Distinct(unique) && InFirstOccurrenceOrder(unique, lines)
    ensures forall x :: x in unique <==> x in lines
  {
    var seen: set<string> := {};
    unique := [];
    var i := 0;
    while i < |lines|
      invariant 0 <= i <= |lines|
      invariant unique == Dedupe(lines[..i])
      invariant seen == set x | x in unique
    {
      var line := lines[i];
      assert lines[..i + 1][..i] == lines[..i];
      if line !in seen {
        unique := unique + [line];
        seen := seen + {line};
      }
      i := i + 1;
    }
    assert lines[..|lines|] == lines;
    DedupeDistinct(lines);
    DedupeMembers(lines);
    DedupeKeepsFirstOccurrenceOrder(lines);
  }

  /** The words the cleaner counts: those of the de-duplicated lines. */
  function CleanedWords(profileText: string): seq<string> {
    Words(Join("\n", Dedupe(NonBlankLines(SplitLines(profileText)))))
  }

  /** Words joined by spaces, then a line holding one more word, split
      back into those words. */
  lemma WordsThenLine(kept: seq<string>, m: string)
    requires forall k :: 0 <= k < |kept| ==> IsWord(kept[k])
    requires IsWord(m)
    ensures Words(Join(" ", kept) + "\n" + m) == kept + [m]
  {
    WordsOfWord(m);
    if kept == [] {
      assert Join(" ", kept) + "\n" + m == ['\n'] + m;
      WordsSkipsSpace('\n', m);
    } else {
      WordsOfJoinThen(kept, '\n', m);
    }
  }

  /** Below the limit, the lines joined by the cleaner split back into
      themselves. */
  lemma CleanLinesRoundTrip(lines: seq<string>, unique: seq<string>)
    requires forall k :: 0 <= k < |lines| ==> NoBreaks(lines[k]) && IsStripped(lines[k]) && lines[k] != []
    requires forall x :: x in unique <==> x in lines
    ensures SplitLines(Join("\n", unique)) == unique
    ensures forall k :: 0 <= k < |unique| ==> IsStripped(unique[k]) && unique[k] != []
  {
    forall k | 0 <= k < |unique| ensures NoBreaks(unique[k]) && IsStripped(unique[k]) && unique[k] != [] {
      assert unique[k] in lines;
    }
    SplitJoin(unique);
  }

  lemma MarkerIsWord()
    ensures IsWord(TruncationMarker)
  {
  }

  /** `_clean_and_summarize_profile_text`. Up to 1200 words, the result is
      the distinct stripped non-blank lines, one per line, in order of first
      occurrence. Beyond that it is the first 1200 words separated by single
      spaces, then a line holding the truncation marker. */
  method CleanAndSummarize(profileText: string) returns (cleaned: string)
    ensures var u := Dedupe(NonBlankLines(SplitLines(profileText)));
            var w := CleanedWords(profileText);
            && (|w| <= MaxSummaryWords ==>
                  && cleaned == Join("\n", u)
                  && SplitLines(cleaned) == u
                  && (forall k :: 0 <= k < |u| ==> IsStripped(u[k]) && u[k] != [])
                  && Distinct(u))
            && (|w| > MaxSummaryWords ==>
                  && Words(cleaned) == w[..MaxSummaryWords] + [TruncationMarker]
                  && cleaned == Join(" ", w[..MaxSummaryWords]) + "\n" + TruncationMarker)
  {
    var lines := NonBlankLines(SplitLines(profileText));
    var unique := DedupeLines(lines);
    cleaned := Join("\n", unique);
    var words := Words(cleaned);
    if |words| > MaxSummaryWords {
      var kept := words[..MaxSummaryWords];
      cleaned := Join(" ", kept) + "\n" + TruncationMarker;
      WordsAreWords(Join("\n", unique));
      MarkerIsWord();
      WordsThenLine(kept, TruncationMarker);
    } else {
      NonBlankLinesNoBreaks(SplitLines(profileText));
      CleanLinesRoundTrip(lines, unique);
    }
  }

  // ---------------------------------------------------------------------
  // _build_prompt and the request

  const PromptIntro: string :=
    "\nYou are an expert outreach copywriter. Write a hyper-personalized cold outreach email draft for a prospective learner using:\n"
    + "- The course or offering details\n"
    + "- The target persona\n"
    + "- The full LinkedIn profile JSON below\n"
    + "\n"
    + "Return ONLY the outreach email draft. Do NOT include any comments, explanations, or extra text.\n"
    + "\n"
  const CourseHeading: string := "Course Details:\n"
  const PersonaHeading: string := "\n\nPersona:\n"
  const ProfileHeading: string := "\n\nLinkedIn Profile JSON:\n"

  /** How an f-string renders a context field: a missing one prints `None`. */
  function Show(v: Option<string>): string {
    match v
    case Some(s) => s
    case None => "None"
  }

  /** `_build_prompt`: the fixed instructions, then the sections that
      carry the run's inputs. */
  function BuildPrompt(ctx: Context, profileJson: string): (p: string)
    ensures |p| > |PromptIntro| + |profileJson|
    ensures p[..|PromptIntro|] == PromptIntro
    ensures p[|p| - 1 - |profileJson|..|p| - 1] == profileJson && p[|p| - 1] == '\n'
  {
    PromptIntro + PromptSections(ctx, profileJson)
  }

  /** The part of the prompt after the fixed instructions: the course
      details, the persona and the serialised profile, each under its
      heading, in that order, and a final line break. */
  function PromptSections(ctx: Context, profileJson: string): (p: string)
    ensures var c := Show(ctx.courseDetails);
            var q := Show(ctx.persona);
            var courseAt := |CourseHeading|;
            var personaAt := courseAt + |c| + |PersonaHeading|;
            var profileAt := personaAt + |q| + |ProfileHeading|;
            && |p| == profileAt + |profileJson| + 1
            && p[..courseAt] == CourseHeading
            && p[courseAt..courseAt + |c|] == c
            && p[courseAt + |c|..personaAt] == PersonaHeading
            && p[personaAt..personaAt + |q|] == q
            && p[personaAt + |q|..profileAt] == ProfileHeading
            && p[profileAt..|p| - 1] == profileJson
            && p[|p| - 1] == '\n'
  {
    var p := CourseHeading + Show(ctx.courseDetails) + PersonaHeading + Show(ctx.persona)
             + ProfileHeading + profileJson + "\n";
    SixPieces(CourseHeading, Show(ctx.courseDetails), PersonaHeading, Show(ctx.persona),
              ProfileHeading, profileJson, "\n");
    p
  }

  /** Where each piece of a concatenation sits. */
  lemma SixPieces(b: string, c: string, d: string, e: string, f: string, g: string, nl: string)
    requires |nl| == 1
    ensures var p := b + c + d + e + f + g + nl;
            var i := |b|;
            var j := i + |c| + |d|;
            var k := j + |e| + |f|;
            && |p| == k + |g| + 1
            && p[..i] == b
            && p[i..i + |c|] == c
            && p[i + |c|..j] == d
            && p[j..j + |e|] == e
            && p[j + |e|..k] == f
            && p[k..|p| - 1] == g
            && p[|p| - 1] == nl[0]
  {
  }

  /** A common prefix can be cancelled. */
  lemma AppendCancel(a: string, x: string, y: string)
    requires a + x == a + y
    ensures x == y
  {
    assert x == (a + x)[|a|..];
    assert y == (a + y)[|a|..];
  }

  /** For a fixed context, different profiles give different prompts. */
  lemma PromptDeterminesProfile(ctx: Context, j1: string, j2: string)
    requires BuildPrompt(ctx, j1) == BuildPrompt(ctx, j2)
    ensures j1 == j2
  {
    var s1, s2 := PromptSections(ctx, j1), PromptSections(ctx, j2);
    AppendCancel(PromptIntro, s1, s2);
    var profileAt := |CourseHeading| + |Show(ctx.courseDetails)| + |PersonaHeading|
                     + |Show(ctx.persona)| + |ProfileHeading|;
    assert j1 == s1[profileAt..|s1| - 1] == j2;
  }

  datatype Message = Message(role: string, content: string)
  datatype Request = Request(model: string, maxTokens: nat, messages: seq<Message>)

  /** The request body: the fixed model and token budget, and the prompt as
      the single user message. */
  function MakeRequest(prompt: string): (r: Request)
    ensures r.model == ModelName && r.maxTokens == MaxTokens
    ensures |r.messages| == 1 && r.messages[0] == Message("user", prompt)
  {
    Request(ModelName, MaxTokens, [Message("user", prompt)])
  }

  // ---------------------------------------------------------------------
  // reading the reply

  const ErrorPrefix: string := "[Error from Claude API: "

  /** The string returned in place of a draft on a non-200 reply. */
  function ErrorText(status: nat, body: string): string {
    ErrorPrefix + Decimal(status) + "] " + body
  }

  /** Python's `content[0]`, with the exception each kind of value raises. */
  function FirstItem(content: Json): (r: Result<Json, string>)
    ensures content.JArr? ==> (r.Success? <==> content.items != [])
    ensures content.JArr? && r.Success? ==> r.value == content.items[0]
    ensures content.JStr? ==> (r.Success? <==> content.s != [])
    ensures content.JStr? && r.Success? ==> r.value == JStr([content.s[0]])
    ensures !content.JArr? && !content.JStr? ==> r.Failure?
  {
    match content
    case JArr(items) => if items == [] then Failure("list index out of range") else Success(items[0])
    case JStr(s) => if s == [] then Failure("string index out of range") else Success(JStr([s[0]]))
    case JObj(_) => Failure("0")
    case _ => Failure("'" + TypeName(content) + "' object is not subscriptable")
  }

  /** `resp.json().get('content', [{}])[0].get('text', '').strip()`. */
  function DraftFromBody(body: Json): (r: Result<string, string>)
    ensures !body.JObj? ==> r == Failure(NoAttribute(body, "get"))
    ensures body.JObj? && "content" !in body.fields ==> r == Success("")
    ensures r.Success? ==> IsStripped(r.value)
  {
    if !body.JObj? then Failure(NoAttribute(body, "get"))
    else
      match FirstItem(GetOr(body.fields, "content", JArr([JObj(map[])])))
      case Failure(m) => Failure(m)
      case Success(first) =>
        if !first.JObj? then Failure(NoAttribute(first, "get"))
        else
          var text := GetOr(first.fields, "text", JStr(""));
          if text.JStr? then Success(Strip(text.s)) else Failure(NoAttribute(text, "strip"))
  }

  /** How `generate_email` turns the reply into its return value. A 200
      reply yields the stripped text of the first content block, or `''`
      when `content` or `text` is missing; any other status yields the error
      text and never raises. Only a 200 reply of an unexpected shape raises
      (a `Failure` carrying the exception's message). */
  function ReadResponse(resp: HttpResponse, parse: string -> Result<Json, string>): (r: Result<string, string>)
    ensures resp.status != 200 ==> r == Success(ErrorText(resp.status, resp.text))
    ensures resp.status == 200 && r.Success? ==> IsStripped(r.value)
    ensures resp.status == 200 && parse(resp.text).Failure? ==> r == Failure(parse(resp.text).error)
    ensures resp.status == 200 && parse(resp.text).Success? && parse(resp.text).value.JObj? ==>
              var f := parse(resp.text).value.fields;
              && ("content" !in f ==> r == Success(""))
              && ("content" in f && f["content"].JArr? && f["content"].items != [] && f["content"].items[0].JObj? ==>
                    var g := f["content"].items[0].fields;
                    && ("text" !in g ==> r == Success(""))
                    && ("text" in g && g["text"].JStr? ==> r == Success(Strip(g["text"].s))))
  {
    if resp.status == 200 then
      match parse(resp.text)
      case Failure(m) => Failure(m)
      case Success(body) => DraftFromBody(body)
    else
      Success(ErrorText(resp.status, resp.text))
  }

  /** An error text determines the status and the body it was built from. */
  lemma ErrorTextInjective(s1: nat, b1: string, s2: nat, b2: string)
    requires ErrorText(s1, b1) == ErrorText(s2, b2)
    ensures s1 == s2 && b1 == b2
  {
    var d1, d2 := Decimal(s1), Decimal(s2);
    var x1, x2 := "] " + b1, "] " + b2;
    var e1, e2 := ErrorText(s1, b1), ErrorText(s2, b2);
    assert e1 == ErrorPrefix + (d1 + x1);
    assert e2 == ErrorPrefix + (d2 + x2);
    assert d1 + x1 == e1[|ErrorPrefix|..] == e2[|ErrorPrefix|..] == d2 + x2;
    assert x1[0] == ']' && x2[0] == ']';
    DigitsSplit(d1, x1, d2, x2);
    DecimalInjective(s1, s2);
    assert b1 == x1[2..] && b2 == x2[2..];
  }

  /** A successful reply whose text is itself an error text yields the very
      string a failed call yields, so the caller cannot tell them apart. */
  lemma ErrorTextIndistinguishable(text: string, status: nat, body: string,
                                   parse: string -> Result<Json, string>)
    requires status != 200 && body != [] && IsStripped(body)
    requires parse(text) == Success(JObj(map["content" := JArr([JObj(map["text" := JStr(ErrorText(status, body))])])]))
    ensures ReadResponse(HttpResponse(200, text), parse) == ReadResponse(HttpResponse(status, body), parse)
  {
    var e := ErrorText(status, body);
    assert e[0] == '[';
    assert e[|e| - 1] == body[|body| - 1];
    StripStripped(e);
  }

  // ---------------------------------------------------------------------
  // generate_email

  /** The profile document `generate_email` serialises: the value under
      `profile_json`, or an empty dict. */
  function ProfileDocument(profile: map<string, Json>): Json {
    GetOr(profile, "profile_json", JObj(map[]))
  }

  /** `generate_email`: serialise the profile, build the prompt, send one
      request and read the reply. A failing request raises. */
  function GenerateEmail(ctx: Context, profile: map<string, Json>, dumps: Json -> string,
                         send: Request -> Result<HttpResponse, string>,
                         parse: string -> Result<Json, string>): (r: Result<string, string>)
    ensures var reply := send(MakeRequest(BuildPrompt(ctx, dumps(ProfileDocument(profile)))));
            && (reply.Failure? ==> r == Failure(reply.error))
            && (reply.Success? ==> r == ReadResponse(reply.value, parse))
            && (reply.Success? && reply.value.status != 200 ==>
                  r == Success(ErrorText(reply.value.status, reply.value.text)))
  {
    match send(MakeRequest(BuildPrompt(ctx, dumps(ProfileDocument(profile)))))
    case Failure(m) => Failure(m)
    case Success(resp) => ReadResponse(resp, parse)
  }

  /** Rows whose serialised profiles differ send different requests. */
  lemma RequestsDistinguishProfiles(ctx: Context, j1: string, j2: string)
    requires j1 != j2
    ensures MakeRequest(BuildPrompt(ctx, j1)) != MakeRequest(BuildPrompt(ctx, j2))
  {
    if MakeRequest(BuildPrompt(ctx, j1)) == MakeRequest(BuildPrompt(ctx, j2)) {
      assert MakeRequest(BuildPrompt(ctx, j1)).messages[0].content == BuildPrompt(ctx, j1);
      PromptDeterminesProfile(ctx, j1, j2);
    }
  }
}
