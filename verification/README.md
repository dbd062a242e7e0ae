# Personalized outreach e-mail agent, modelled in Dafny

This project models the core of PersonalizedEmailAgent. The operator uploads a
sheet of contacts, describes a course and a target persona, and presses "Start
Workflow". The workflow then:

- finds the sheet's LinkedIn column and collects the usable profile URLs;
- sends them to the Bright Data dataset API in batches of at most ten;
- polls each batch's snapshot until the profiles arrive or the wait runs out;
- keys the returned profiles by URL;
- for every row with a usable URL, records the row in the database and, only
  when a profile was found for its URL, asks the generative-text endpoint for
  an outreach draft;
- returns one result per such row.

The driver estimates the wait, shows a preview table in which each draft is
split into subject and body, and can reset the session for another run.

Modules, one per source concern:

| file | module | models |
|---|---|---|
| `base.dfy` | `Base` | `Option` and `Result` |
| `pystr.dfy` | `PyStr` | the Python `str` operations the code relies on: `isspace`, `strip`, `lower`, `startswith`, `splitlines`, `split()`, `join`, `str(int)` |
| `pyjson.dfy` | `PyJson` | decoded JSON values, Python truthiness, `dict.get`, hashability, exception messages |
| `course_persona.dfy` | `CoursePersona` | `app/agents/course_persona_agent.py` |
| `brightdata.dfy` | `BrightData` | `app/scraping/brightdata_linkedin_agent.py`: trigger, snapshot polling, scrape |
| `email_gen.dfy` | `EmailGen` | `app/email_gen/email_generation_agent.py`: profile-text cleaner, prompt, request, reply handling |
| `workflow.dfy` | `Workflow` | `app/agents/workflow.py`: `OutreachWorkflow.run` |
| `driver.dfy` | `Driver` | the decision logic of `main.py`: start checks, estimate, subject/body split, preview, "Do it Again" |

Everything outside the process is a parameter:

- Bright Data: the trigger POST and the stream of snapshot polls.
- The generative-text endpoint: called per row position.
- `response.json()` and `json.dumps`.
- The scraper as the workflow calls it: a function of the batch number and the batch.

A run is a pure function of its inputs and these parameters. The database
inserts are returned as the records each row attempts to insert.

## Behaviour worth knowing

- The URL list is not de-duplicated before batching. A URL that appears on two
  rows is scraped twice and yields two results.
- Ten URLs make one batch, because `range(0, 10, 10)` has one element.
- The wait estimate counts every row of the sheet, not only the rows with a
  usable URL (`EstimateCountsSkippedRows`).
- The profile-text cleaner is never called by `generate_email`. The full
  profile JSON is sent instead. The cleaner is still modelled.
- A run that raises ends looking finished. The page writes the prefixed error
  (`main.py:89`), then shows "Done! Actual time…" on both paths (`main.py:92`)
  and clears the error again unconditionally (`main.py:94`). The previous
  results stay in the session, and no error remains visible.
- Only `\n` and `\r` send a draft down the multi-line path (`main.py:219`),
  although `splitlines()` also breaks at `\x0b`, `\x0c`, `\x1c`-`\x1e`, `\x85`,
  `\u2028` and `\u2029`. A draft whose only boundaries are of those kinds is
  all subject, boundaries included (`OneLineWithoutPrefix`). Once a `\n` or
  `\r` appears anywhere, the same characters do split lines
  (`SplitOfLineAndBreak`).

## Model

| member | source | states |
|---|---|---|
| CoursePersona.New | app/agents/course_persona_agent.py:8-10 | a new agent holds neither course details nor persona |
| CoursePersona.Load | app/agents/course_persona_agent.py:12-14 | after `load` the context is exactly the pair just loaded |
| CoursePersona.GetContext | app/agents/course_persona_agent.py:16-20 | the context reports the two stored fields |
| CoursePersona.LoadForgetsHistory | app/agents/course_persona_agent.py:12-14 | what the agent held before a `load` has no influence after it |
| CoursePersona.LastLoadWins | app/agents/course_persona_agent.py:12-20 | of two successive loads the second decides the context |
| PyStr.LStrip | app/agents/workflow.py:26 | left-stripping removes a whitespace-only prefix and nothing else: the result is a suffix that starts with a non-space |
| PyStr.RStrip | app/agents/workflow.py:26 | right-stripping removes a whitespace-only suffix and nothing else |
| PyStr.Strip | app/agents/workflow.py:35 | `strip()` yields a string with no surrounding whitespace, no longer than its input, and empty exactly when the input is all whitespace |
| PyStr.StripUnique | main.py:224 | whitespace, then a stripped core, then whitespace, strips to that core |
| PyStr.StripStripped | main.py:222 | a string without surrounding whitespace is left unchanged by `strip()` |
| PyStr.StripIdempotent | main.py:222-224 | stripping twice is stripping once |
| PyStr.StripKeepsNoBreaks | app/email_gen/email_generation_agent.py:21 | stripping a line never creates a line boundary |
| PyStr.Lower | app/agents/workflow.py:26 | `lower()` keeps the length and lower-cases character by character |
| PyStr.SplitLines | app/email_gen/email_generation_agent.py:21 | `splitlines()` yields lines free of line boundaries, and none at all exactly for the empty text |
| PyStr.SplitLinesAtNewline | main.py:220 | a boundary-free line followed by `\n` is the first line, and the rest splits on its own |
| PyStr.SplitLinesAtBreak | main.py:220 | a boundary-free line followed by any single boundary character (`\n`, `\r` not followed by `\n`, `\x0b`, `\x0c`, `\x1c`-`\x1e`, `\x85`, `\u2028`, `\u2029`) is the first line, and the rest splits on its own |
| PyStr.SplitLinesAtCrLf | main.py:220 | `\r\n` after a boundary-free line is one boundary: that line is the first line and the text after the `\n` splits on its own |
| PyStr.SplitLinesFinalBreak | main.py:220 | a boundary at the very end, single character or `\r\n`, closes the last line without opening an empty one |
| PyStr.SplitJoin | app/email_gen/email_generation_agent.py:29 | boundary-free lines joined by `\n` split back into the same lines |
| PyStr.JoinSplit | main.py:225 | a text broken only by `\n`, not ending in one, is re-joined exactly by `"\n".join(text.splitlines())` |
| PyStr.JoinSplitAll | main.py:225 | for any text, `"\n".join(text.splitlines())` is the text with every boundary (`\r\n` counted once) written as `\n` and a final boundary dropped |
| PyStr.WordsAreWords | app/email_gen/email_generation_agent.py:31 | every piece of `split()` is a non-empty run of non-whitespace |
| PyStr.WordsOfJoin | app/email_gen/email_generation_agent.py:33 | words joined by single spaces split back into the same words |
| PyStr.WordsOfJoinThen | app/email_gen/email_generation_agent.py:33 | words joined by spaces, then whitespace and more text, split into those words followed by the words of the text |
| PyStr.Decimal | main.py:77 | `str(n)` is a non-empty string of decimal digits |
| PyStr.DecimalRoundTrip | main.py:77 | reading back the printed digits gives the number |
| PyStr.DecimalInjective | main.py:77 | different numbers print differently |
| PyStr.DecimalAfterPrefix | main.py:77 | a number printed after a common prefix and before text that starts with a non-digit is read back unambiguously, together with that text |
| PyStr.TwoNumbersInjective | main.py:77 | two numbers printed into one template, each followed by non-digit text, are both determined by the result |
| BrightData.TriggerBody | app/scraping/brightdata_linkedin_agent.py:23 | the POST body has one `{"url": …}` object per URL |
| BrightData.TriggerBodyRoundTrip | app/scraping/brightdata_linkedin_agent.py:23 | the body asks for exactly the given URLs, in order |
| BrightData.ExtractSnapshotId | app/scraping/brightdata_linkedin_agent.py:26-35 | a returned id is always truthy; a truthy top-level `snapshot_id` wins, else the first `snapshots` entry's `id`, else the run raises; a reply that is not an object raises `AttributeError` |
| BrightData.Trigger | app/scraping/brightdata_linkedin_agent.py:20-36 | more than ten URLs fail with the size error, and only then, before any request; otherwise the request, HTTP-status, JSON and id failures propagate in that order |
| BrightData.PollFrom | app/scraping/brightdata_linkedin_agent.py:44-60 | the loop stops at a ready, timed-out or failed poll, every earlier poll kept it going, and the number of polls is bounded by the wait limit |
| BrightData.FetchSnapshot | app/scraping/brightdata_linkedin_agent.py:38-61 | it returns the non-empty list of the first ready poll, gives up after the first unready poll past the limit, lets a failed request propagate, and every earlier poll was unready and within the limit |
| BrightData.ReadyBeatsTimeout | app/scraping/brightdata_linkedin_agent.py:47-56 | a ready first poll returns its data after one attempt, whatever the clock says |
| BrightData.Scrape | app/scraping/brightdata_linkedin_agent.py:63-65 | trigger failures propagate; otherwise the scrape succeeds exactly when the snapshot became ready, with its non-empty data, and a timeout raises the timeout error |
| EmailGen.NonBlankLines | app/email_gen/email_generation_agent.py:21 | the kept lines are stripped and non-empty, and no more numerous than the input lines |
| EmailGen.NonBlankLinesNoBreaks | app/email_gen/email_generation_agent.py:21 | cleaning lines never introduces a line boundary |
| EmailGen.NonBlankLinesMembers | app/email_gen/email_generation_agent.py:21 | a line is kept exactly when it is the non-empty stripped form of an input line |
| EmailGen.Dedupe | app/email_gen/email_generation_agent.py:22-28 | de-duplication never lengthens the lines and keeps the first line first |
| EmailGen.DedupeMembers | app/email_gen/email_generation_agent.py:22-28 | de-duplication keeps exactly the values of its input |
| EmailGen.DedupeDistinct | app/email_gen/email_generation_agent.py:22-28 | no value occurs twice after de-duplication |
| EmailGen.DedupeKeepsFirstOccurrenceOrder | app/email_gen/email_generation_agent.py:22-28 | kept values appear in the order of their first occurrences |
| EmailGen.DedupeLines | app/email_gen/email_generation_agent.py:22-28 | the `seen`-set loop computes the order-preserving de-duplication: distinct, same members, first-occurrence order |
| EmailGen.WordsThenLine | app/email_gen/email_generation_agent.py:33 | the truncated text splits into the kept words followed by the marker |
| EmailGen.CleanLinesRoundTrip | app/email_gen/email_generation_agent.py:29 | the de-duplicated clean lines joined by `\n` split back into themselves |
| EmailGen.CleanAndSummarize | app/email_gen/email_generation_agent.py:15-34 | up to 1200 words the result's lines are the distinct stripped non-blank input lines in first-occurrence order; beyond that it is the first 1200 words, space-separated, then a line with the truncation marker |
| EmailGen.BuildPrompt | app/email_gen/email_generation_agent.py:63-81 | the prompt starts with the fixed instructions and ends with the profile JSON followed by a line break |
| EmailGen.PromptSections | app/email_gen/email_generation_agent.py:73-81 | the course details, persona and profile JSON each sit right after their heading, in that order, and the prompt ends with a line break |
| EmailGen.PromptDeterminesProfile | app/email_gen/email_generation_agent.py:63-81 | for a fixed context, the prompt determines the profile JSON |
| EmailGen.MakeRequest | app/email_gen/email_generation_agent.py:49-55 | the request uses the fixed model and token budget and carries the prompt as its single user message |
| EmailGen.FirstItem | app/email_gen/email_generation_agent.py:59 | `content[0]` of a list is its first element and of a string its first character; an empty list or string, and any other kind of value, raises |
| EmailGen.DraftFromBody | app/email_gen/email_generation_agent.py:59 | a reply that is not an object raises `AttributeError`, one without `content` gives `''`, and any draft returned is stripped |
| EmailGen.ReadResponse | app/email_gen/email_generation_agent.py:58-61 | a non-200 reply yields the error text and never raises; a 200 reply yields the stripped text of the first content block, `''` when `content` or `text` is missing, and raises on undecodable JSON |
| EmailGen.ErrorTextInjective | app/email_gen/email_generation_agent.py:61 | the error text determines the status and the body it was built from |
| EmailGen.ErrorTextIndistinguishable | app/email_gen/email_generation_agent.py:58-61 | a 200 reply whose text is an error text returns the same string as the failed call it imitates |
| EmailGen.GenerateEmail | app/email_gen/email_generation_agent.py:36-61 | one request built from the serialised profile; a failed request raises, a non-200 status returns the error text, a 200 reply is read as above |
| EmailGen.RequestsDistinguishProfiles | app/email_gen/email_generation_agent.py:40-56 | rows whose serialised profiles differ send different requests |
| Workflow.FirstWhere | app/agents/workflow.py:25-28 | the position found is the first whose element matches; `None` exactly when none matches |
| Workflow.FindUrlColumn | app/agents/workflow.py:24-31 | the chosen column is the first whose stripped, lower-cased header is a LinkedIn header; none exactly when no header is |
| Workflow.UrlList | app/agents/workflow.py:35 | there are never more URLs than rows |
| Workflow.UsableRowsAreTheUsableRows | app/agents/workflow.py:35 | the reference row filter lists, in strictly increasing order, exactly the positions of the rows whose cell is a truthy string that is non-blank once stripped |
| Workflow.UrlListPicks | app/agents/workflow.py:35 | the URL list is the cell texts of exactly the rows the filter keeps, in row order |
| Workflow.UrlListFollowsRows | app/agents/workflow.py:35 | URL number `j` is, unstripped, the string in the cell of the `j`-th usable row, one URL per usable row, repeats included |
| Workflow.UrlListUsable | app/agents/workflow.py:35 | every URL sent to the scraper is non-blank once stripped |
| Workflow.Batches | app/agents/workflow.py:37-38 | the batches concatenate back to the URL list; there are ceil(n/10) of them, each of one to ten URLs, all but the last exactly ten |
| Workflow.BatchesFitTrigger | app/agents/workflow.py:37-40 | no batch the workflow sends can trip the scraper's ten-URL guard |
| Workflow.Collect | app/agents/workflow.py:36-43 | when every batch's scrape raises, no profile is collected |
| Workflow.CollectFromBatches | app/agents/workflow.py:36-43 | every collected profile was returned by the successful scrape of some batch, batch `k` being call number `k` |
| Workflow.CollectAppend | app/agents/workflow.py:36-43 | collecting two runs of batches is collecting each, with batch numbers carried on |
| Workflow.CollectSnoc | app/agents/workflow.py:39-43 | one more batch appends exactly what that batch contributes: its profiles, or nothing when it raised |
| Workflow.ProfileKey | app/agents/workflow.py:45 | a key is always hashable, and a string key comes from a non-empty dict item |
| Workflow.ProfileKeyRule | app/agents/workflow.py:45 | an item's key is its truthy `url` field; when that field is missing or falsy, the `url` of its `input` object (missing means `None`); a non-dict item or non-dict `input` raises `AttributeError`, and an unhashable key raises `TypeError` |
| Workflow.BuildLookup | app/agents/workflow.py:45 | every profile in the lookup is one of the scraped items |
| Workflow.BuildLookupMergesKeyForms | app/agents/workflow.py:45 | an item keyed by its own `url` and one keyed by `input.url` both land in the lookup, each under its own URL |
| Workflow.BuildLookupSucceedsIff | app/agents/workflow.py:45 | the lookup is built exactly when every scraped item yields a key |
| Workflow.BuildLookupReportsFirstFailure | app/agents/workflow.py:45 | a failing build reports the error of the first item whose key raises |
| Workflow.BuildLookupIsLastWithKey | app/agents/workflow.py:45 | the lookup maps each URL to the last item keyed by it and holds no other URL |
| Workflow.LookupValuesAreTruthy | app/agents/workflow.py:45-55 | every profile in the lookup is truthy, so a found profile is never reported missing |
| Workflow.NameOf | app/agents/workflow.py:66 | the name is the first truthy of `First Name`, `Name`, or else the value of `name` |
| Workflow.EmailOf | app/agents/workflow.py:60-64 | there is an email exactly when one of `email`, `Email`, `EMAIL` is present and not NaN, and it is never NaN |
| Workflow.EmailOfIsFirstListed | app/agents/workflow.py:60-64 | the email is the value of the first listed column that qualifies |
| Workflow.Draft | app/agents/workflow.py:86-96 | nothing is generated without profile data; otherwise the draft, or the exception message after the error prefix |
| Workflow.LookupProfile | app/agents/workflow.py:52-55 | a found profile is stored with no error; a missing or empty one becomes `{}` with the missing-profile error |
| Workflow.Produce | app/agents/workflow.py:52-113 | the result carries the row's URL, name and email, and its two inserts agree with it |
| Workflow.ProcessRow | app/agents/workflow.py:46-50 | a row is skipped exactly when its URL cell is not usable, and otherwise produces the result of its URL, name and email |
| Workflow.ProduceNotFound | app/agents/workflow.py:52-96 | a row whose profile was not scraped reports it, stores `{}`, and gets neither draft nor generation error |
| Workflow.ProduceFound | app/agents/workflow.py:52-96 | a row whose profile was scraped stores it, reports no profile error, and gets the draft or the prefixed generation error |
| Workflow.ProduceReportsMissing | app/agents/workflow.py:52-55 | a result reports missing profile data exactly when its stripped URL was not found |
| Workflow.ProcessRows | app/agents/workflow.py:46-105 | each processed row yields one result and one pair of inserts, never more than there are rows |
| Workflow.ProcessRowsFollowUrls | app/agents/workflow.py:46-105 | the row loop yields one result and one pair of inserts per usable URL, in row order, each carrying its URL as written |
| Workflow.ProcessRowsResultsAgree | app/agents/workflow.py:46-113 | every result agrees with its inserts and reports missing data exactly when its URL was not found |
| Workflow.Run | app/agents/workflow.py:17-124 | without a LinkedIn column the run returns nothing; otherwise it sends ceil-of-ten batches of the usable URLs, succeeds exactly when every scraped item has a key, and yields one result per usable URL in row order |
| Workflow.RunWithoutUrls | app/agents/workflow.py:35-45 | a column without usable URLs scrapes nothing, raises nothing and yields no results |
| Workflow.FoundIffScraped | app/agents/workflow.py:45-52 | a URL is found in the lookup exactly when some scraped item is keyed by its stripped form |
| Workflow.RunIsRowLoop | app/agents/workflow.py:44-50 | a successful run's results are the row loop over the lookup built from the scraped items |
| Workflow.RunProfileErrorMeansNotScraped | app/agents/workflow.py:45-55 | in a successful run a result reports missing profile data exactly when no scraped item is keyed by its stripped URL |
| Workflow.PaddedUrlIsNotFound | app/agents/workflow.py:45-52 | a URL with surrounding spaces whose profile comes back keyed by the unstripped URL is reported missing |
| Driver.TotalBatches | main.py:72-75 | the batch count is the least number of batches of ten holding all rows |
| Driver.EstimateSeconds | main.py:72-76 | the estimate is zero exactly for no rows and is a whole number of 25-second batches |
| Driver.StartWorkflow | main.py:61-94 | a run starts exactly when both text fields are filled, a sheet is loaded and it has rows; each refusal has its reason; a started run shows the estimate and keeps the results, or keeps the previous results and reports the prefixed error, which the page writes and then clears |
| Driver.SpinnerTextInjective | main.py:77 | the spinner message determines both the estimated seconds and the number of profiles it states |
| Driver.EstimateCoversScrapeCalls | main.py:71-76 | a run never makes more batch calls than the estimate assumes |
| Driver.EstimateCountsSkippedRows | main.py:72-76 | a sheet with no usable URL still gets a non-zero estimate while the run drafts nothing |
| Driver.NoUsableUrls | app/agents/workflow.py:35 | a column without a usable cell yields no URLs |
| Driver.DropSubjectPrefix | main.py:223-224 | dropping the prefix keeps a stripped subject stripped and never lengthens it |
| Driver.SplitSubjectBody | main.py:218-229 | subject and body are both stripped; a one-line draft has an empty body; an empty draft gives two empty strings |
| Driver.KeepsOtherSubject | main.py:223 | a subject that does not start with `subject:` in any letter case is kept as it is |
| Driver.NoPrefixWithoutS | main.py:223 | a subject whose first letter is not `s` or `S` does not start with `subject:` in any letter case |
| Driver.SplitOfLineAndRest | main.py:219-225 | the first line gives the subject and the rest, after a single `\n`, gives the stripped body |
| Driver.SplitOfLineAndBreak | main.py:219-225 | on the multi-line path the first boundary of any kind ends the subject line; the body is the rest with its boundaries written as `\n`, a final one dropped, stripped |
| Driver.SplitOfLineAndCrLf | main.py:219-225 | a `\r\n` after the first line is one boundary; subject and body are as for any other first boundary |
| Driver.DropSubjectPrefixOnce | main.py:222-224 | one `subject:` in any letter case and the spaces after it are removed, and nothing more |
| Driver.SubjectLineRoundTrip | main.py:218-229 | a draft laid out as `Subject: <s>`, line break, body splits back into that subject and body |
| Driver.SubjectLineSplit | main.py:218-229 | the same layout with an unstripped body gives the subject and the stripped body |
| Driver.OneLineWithPrefix | main.py:226-229 | a one-line draft starting with `subject:` in any letter case gives the text after the prefix and its spaces as subject, and an empty body |
| Driver.OneLineWithoutPrefix | main.py:226-229 | a one-line draft without the prefix gives the stripped draft as subject, and an empty body |
| Driver.SplitExampleOneLine | main.py:226-229 | `"Just one line"` is all subject, with an empty body |
| Driver.PreviewRows | main.py:231-238 | one preview row per result, in order, with its name, email and split draft |
| Driver.PreviewOfUndrafted | main.py:231-238 | a result without a draft previews with empty subject and body, and the subject and body cells are stripped |
| Driver.ResetSession | main.py:383-388 | only the kept keys survive, unchanged, and `results` is set to `None` |
| Driver.ResetIdempotent | main.py:383-388 | pressing "Do it Again" twice equals pressing it once |
| Driver.ResetKeepsOnlyKeptKeys | main.py:383-388 | two sessions that agree on the kept keys reset to the same session |

## Left out

- The Streamlit user interface is not part of this model: widgets, the progress bar, the CSV download and the elapsed-time message.
- The Gmail sending section of `main.py` (SMTP) is not part of this model.
- `app/db/db_connector.py` is not part of this model. Inserts are returned as the records each row attempts to insert. Insert failures are logged and swallowed, so they do not change the run.
- `app/utils/pdf_utils.py` is not part of this model.
- The two Selenium and PDF scrapers under `app/scraping/` are not part of this model. The workflow does not use them.
- HTTP transport, `response.json()` and `json.dumps` are parameters. Their behaviour is outside Python code that can be seen.
- The random one-to-two-second delay between rows, and all logging and printing, are not modelled. They do not affect any returned value.
- The request headers of both HTTP calls (API keys and the `anthropic-version` header) are not modelled. They are fixed configuration and do not affect the reply handling.
- The Bright Data API-key check in the agent's constructor is not modelled. It concerns configuration, not the core.
- JSON numbers are integers only. Floats in a scraped profile or an API reply are not modelled; the code only passes such values through or tests their truthiness.
- Cell values are text, integers or NaN. Floats and booleans in the sheet are not modelled.
- Header names are strings. Non-string headers, and duplicate column names, are not modelled.
- PyStr.Lower: lower-cases `A`-`Z` and the Kelvin sign only. Every lowered string is compared with an ASCII literal, and no other character can lower into one. Full Unicode case mapping can also change the string's length.
- Driver.TotalBatches: integer ceiling instead of `math.ceil` of a float quotient. The two agree for any sheet that fits in memory.
- BrightData.FetchSnapshot: requires a positive `wait_sec` and a clock that advances by at least `wait_sec` between polls, because the loop's termination depends on the real clock.
- BrightData.Scrape: requires that clock property for every snapshot id, for the same reason.
