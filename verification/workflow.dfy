/** `OutreachWorkflow.run`, `app/agents/workflow.py`: find the LinkedIn
    column of the uploaded sheet, scrape the usable URLs in batches of ten,
    index the scraped profiles by URL, and produce one result (and two
    database inserts) per row with a usable URL.

    The scraper, the generative-text endpoint, `response.json()` and
    `json.dumps` are parameters gathered in `Env`. Database inserts are
    wrapped in `try`/`except` that only logs, so the model records the
    inserts the run attempts. */
module Workflow {
  import opened Base
  import opened PyStr
  import opened PyJson
  import opened CoursePersona
  import opened EmailGen
  import BrightData

  // ---------------------------------------------------------------------
  // the uploaded sheet

  /** A cell as pandas reads it from the sheet: text, a number, or the NaN
      of an empty cell. */
  datatype Cell = Str(s: string) | Num(n: int) | NaN

  /** One row, keyed by column name. */
  type Row = map<string, Cell>

  datatype Table = Table(columns: seq<string>, rows: seq<Row>)

  /** `row.get(col)`: `None` when the row has no such column. */
  function Get(row: Row, col: string): Option<Cell> {
    if col in row then Some(row[col]) else None
  }

  /** Python truthiness of `row.get(...)`. NaN is truthy. */
  predicate CellTruthy(v: Option<Cell>) {
    match v
    case None => false
    case Some(Str(s)) => s != []
    case Some(Num(n)) => n != 0
    case Some(NaN) => true
  }

  // ---------------------------------------------------------------------
  // column detection

  /** The header names accepted for the LinkedIn column, after stripping
      and lower-casing. */
  const UrlHeaders: seq<string> :=
    ["linkedin", "linkedin_url", "linkedin profile", "profile_link", "linkedinprofile"]

  predicate IsUrlHeader(col: string) {
    Lower(Strip(col)) in UrlHeaders
  }

  /** Position of the first element satisfying `p`, if any. */
  function FirstWhere<T>(xs: seq<T>, p: T -> bool): (r: Option<nat>)
    ensures r.Some? ==> r.value < |xs| && p(xs[r.value])
    ensures r.Some? ==> forall j :: 0 <= j < r.value ==> !p(xs[j])
    ensures r.None? <==> forall j :: 0 <= j < |xs| ==> !p(xs[j])
  {
    if xs == [] then None
    else if p(xs[0]) then Some(0)
    else match FirstWhere(xs[1..], p)
      case None =>
        assert forall j :: 1 <= j < |xs| ==> xs[j] == xs[1..][j - 1];
        None
      case Some(i) => Some(i + 1)
  }

  /** Position of the first LinkedIn column, if any. */
  function FindUrlColumn(cols: seq<string>): (r: Option<nat>)
    ensures r.Some? ==> r.value < |cols| && IsUrlHeader(cols[r.value])
    ensures r.Some? ==> forall j :: 0 <= j < r.value ==> !IsUrlHeader(cols[j])
    ensures r.None? <==> forall j :: 0 <= j < |cols| ==> !IsUrlHeader(cols[j])
  {
    FirstWhere(cols, IsUrlHeader)
  }

  // ---------------------------------------------------------------------
  // URLs and batches

  /** A cell the workflow treats as a LinkedIn URL: truthy, a string, and
      not blank once stripped. */
  predicate IsUsableUrl(v: Option<Cell>) {
    CellTruthy(v) && v.value.Str? && Strip(v.value.s) != []
  }

  /** The usable URLs of the column, unstripped, in row order. */
  function UrlList(rows: seq<Row>, col: string): (urls: seq<string>)
    ensures |urls| <= |rows|
  {
    if rows == [] then []
    else if IsUsableUrl(Get(rows[0], col)) then [Get(rows[0], col).value.s] + UrlList(rows[1..], col)
    else UrlList(rows[1..], col)
  }

  /** Each position moved one row down. */
  function Shift(idx: seq<nat>): (r: seq<nat>)
    ensures |r| == |idx| && forall j :: 0 <= j < |r| ==> r[j] == idx[j] + 1
  {
    seq(|idx|, j requires 0 <= j < |idx| => idx[j] + 1)
  }

  /** The positions whose flag is set, in increasing order. */
  function Positions(flags: seq<bool>): seq<nat>
    decreases |flags|
  {
    if flags == [] then []
    else if flags[0] then [0] + Shift(Positions(flags[1..]))
    else Shift(Positions(flags[1..]))
  }

  lemma {:induction false} PositionsAreSet(flags: seq<bool>)
    ensures forall j :: 0 <= j < |Positions(flags)| ==> Positions(flags)[j] < |flags| && flags[Positions(flags)[j]]
    decreases |flags|
  {
    if flags != [] {
      PositionsAreSet(flags[1..]);
      var rest, idx := Positions(flags[1..]), Positions(flags);
      if flags[0] {
        forall j | 1 <= j < |idx| ensures idx[j] < |flags| && flags[idx[j]] {
          assert idx[j] == rest[j - 1] + 1;
          assert flags[idx[j]] == flags[1..][rest[j - 1]];
        }
      } else {
        forall j | 0 <= j < |idx| ensures idx[j] < |flags| && flags[idx[j]] {
          assert idx[j] == rest[j] + 1;
          assert flags[idx[j]] == flags[1..][rest[j]];
        }
      }
    }
  }

  lemma {:induction false} PositionsIncrease(flags: seq<bool>)
    ensures forall i, j :: 0 <= i < j < |Positions(flags)| ==> Positions(flags)[i] < Positions(flags)[j]
    decreases |flags|
  {
    if flags != [] {
      PositionsIncrease(flags[1..]);
      var rest, idx := Positions(flags[1..]), Positions(flags);
      if flags[0] {
        forall i, j | 0 <= i < j < |idx| ensures idx[i] < idx[j] {
          if i > 0 {
            assert idx[i] == rest[i - 1] + 1;
          }
          assert idx[j] == rest[j - 1] + 1;
        }
      }
    }
  }

  lemma {:induction false} PositionsComplete(flags: seq<bool>)
    ensures forall k :: 0 <= k < |flags| && flags[k] ==> k in Positions(flags)
    decreases |flags|
  {
    if flags != [] {
      PositionsComplete(flags[1..]);
      var rest, idx := Positions(flags[1..]), Positions(flags);
      var d := if flags[0] then 1 else 0;
      forall k | 1 <= k < |flags| && flags[k] ensures k in idx {
        assert flags[1..][k - 1];
        var j :| 0 <= j < |rest| && rest[j] == k - 1;
        assert idx[j + d] == k;
      }
    }
  }

  /** Which rows the loop keeps. */
  function UsableFlags(rows: seq<Row>, col: string): (f: seq<bool>)
    ensures |f| == |rows| && forall k :: 0 <= k < |rows| ==> f[k] == IsUsableUrl(Get(rows[k], col))
  {
    seq(|rows|, k requires 0 <= k < |rows| => IsUsableUrl(Get(rows[k], col)))
  }

  /** Reference reading of the row filter: the positions of the rows whose
      cell is a usable URL. */
  function UsableRows(rows: seq<Row>, col: string): seq<nat> {
    Positions(UsableFlags(rows, col))
  }

  /** `UsableRows` lists, in increasing order, exactly the positions of the
      rows whose cell is a usable URL. */
  lemma UsableRowsAreTheUsableRows(rows: seq<Row>, col: string)
    ensures forall j :: 0 <= j < |UsableRows(rows, col)| ==>
              UsableRows(rows, col)[j] < |rows| && IsUsableUrl(Get(rows[UsableRows(rows, col)[j]], col))
    ensures forall i, j :: 0 <= i < j < |UsableRows(rows, col)| ==> UsableRows(rows, col)[i] < UsableRows(rows, col)[j]
    ensures forall k :: 0 <= k < |rows| && IsUsableUrl(Get(rows[k], col)) ==> k in UsableRows(rows, col)
  {
    var flags := UsableFlags(rows, col);
    PositionsAreSet(flags);
    PositionsIncrease(flags);
    PositionsComplete(flags);
  }

  /** Row `i` holds, as a string, the URL `u`. */
  predicate CellUrl(rows: seq<Row>, col: string, i: nat, u: string) {
    && i < |rows|
    && Get(rows[i], col).Some?
    && Get(rows[i], col).value.Str?
    && u == Get(rows[i], col).value.s
  }

  /** The entries of `vals` whose flag is set, in order. */
  function Pick<T>(flags: seq<bool>, vals: seq<T>): seq<T>
    requires |vals| == |flags|
    decreases |flags|
  {
    if flags == [] then []
    else if flags[0] then [vals[0]] + Pick(flags[1..], vals[1..])
    else Pick(flags[1..], vals[1..])
  }

  /** `Pick` takes, one for one, the entries at `Positions`. */
  lemma {:induction false} PickAtPositions<T>(flags: seq<bool>, vals: seq<T>)
    requires |vals| == |flags|
    ensures |Pick(flags, vals)| == |Positions(flags)|
    ensures forall j :: 0 <= j < |Pick(flags, vals)| ==>
              Positions(flags)[j] < |vals| && Pick(flags, vals)[j] == vals[Positions(flags)[j]]
    decreases |flags|
  {
    if flags != [] {
      PickAtPositions(flags[1..], vals[1..]);
      var rest, tail := Positions(flags[1..]), Pick(flags[1..], vals[1..]);
      var idx, picked := Positions(flags), Pick(flags, vals);
      if flags[0] {
        assert idx == [0] + Shift(rest) && picked == [vals[0]] + tail;
        forall j | 1 <= j < |picked| ensures idx[j] < |vals| && picked[j] == vals[idx[j]] {
          assert idx[j] == rest[j - 1] + 1 && picked[j] == tail[j - 1];
        }
      } else {
        assert idx == Shift(rest) && picked == tail;
        forall j | 0 <= j < |picked| ensures idx[j] < |vals| && picked[j] == vals[idx[j]] {
          assert idx[j] == rest[j] + 1;
        }
      }
    }
  }

  /** The text of each row's cell, or the empty string when it holds none. */
  function CellTexts(rows: seq<Row>, col: string): (t: seq<string>)
    ensures |t| == |rows|
    ensures forall k :: 0 <= k < |rows| && Get(rows[k], col).Some? && Get(rows[k], col).value.Str? ==>
              t[k] == Get(rows[k], col).value.s
  {
    seq(|rows|, k requires 0 <= k < |rows| =>
      if Get(rows[k], col).Some? && Get(rows[k], col).value.Str? then Get(rows[k], col).value.s else [])
  }

  /** The URL list picks the cell texts of the usable rows. */
  lemma {:induction false} UrlListPicks(rows: seq<Row>, col: string)
    ensures UrlList(rows, col) == Pick(UsableFlags(rows, col), CellTexts(rows, col))
    decreases |rows|
  {
    if rows != [] {
      UrlListPicks(rows[1..], col);
      var flags, texts := UsableFlags(rows, col), CellTexts(rows, col);
      assert flags[1..] == UsableFlags(rows[1..], col) && texts[1..] == CellTexts(rows[1..], col) by {
        forall k | 0 <= k < |rows| - 1 ensures rows[1..][k] == rows[k + 1] { }
      }
      var v := Get(rows[0], col);
      if IsUsableUrl(v) {
        assert flags[0] && texts[0] == v.value.s;
      } else {
        assert !flags[0];
      }
    }
  }

  /** The URL list holds, unstripped, the cells of the rows `UsableRows`
      picks, one for one: a URL on two rows is listed twice. */
  lemma UrlListFollowsRows(rows: seq<Row>, col: string)
    ensures |UrlList(rows, col)| == |UsableRows(rows, col)|
    ensures forall j :: 0 <= j < |UsableRows(rows, col)| ==>
              CellUrl(rows, col, UsableRows(rows, col)[j], UrlList(rows, col)[j])
  {
    var flags, texts := UsableFlags(rows, col), CellTexts(rows, col);
    UrlListPicks(rows, col);
    PickAtPositions(flags, texts);
    PositionsAreSet(flags);
    var idx, urls := Positions(flags), UrlList(rows, col);
    forall j | 0 <= j < |idx| ensures CellUrl(rows, col, idx[j], urls[j]) {
      assert flags[idx[j]];
    }
  }

  /** Every URL sent to the scraper is non-blank once stripped. */
  lemma {:induction false} UrlListUsable(rows: seq<Row>, col: string)
    ensures forall k :: 0 <= k < |UrlList(rows, col)| ==> Strip(UrlList(rows, col)[k]) != []
    decreases |rows|
  {
    if rows != [] {
      UrlListUsable(rows[1..], col);
      var v := Get(rows[0], col);
      var urls, tail := UrlList(rows, col), UrlList(rows[1..], col);
      if IsUsableUrl(v) {
        assert urls == [v.value.s] + tail;
        forall k | 0 <= k < |urls|
          ensures Strip(urls[k]) != []
        {
          if k > 0 {
            assert urls[k] == tail[k - 1];
          }
        }
      } else {
        assert urls == tail;
      }
    }
  }

  const BatchSize: nat := 10

  function Concat(bs: seq<seq<string>>): seq<string> {
    if bs == [] then [] else bs[0] + Concat(bs[1..])
  }

  /** `urls[i:i+10]` for `i` in `range(0, len(urls), 10)`: the URLs in
      order, in batches of ten and a shorter last batch. */
  function Batches(urls: seq<string>): (bs: seq<seq<string>>)
    ensures Concat(bs) == urls
    ensures |bs| == (|urls| + BatchSize - 1) / BatchSize
    ensures forall k :: 0 <= k < |bs| ==> 1 <= |bs[k]| <= BatchSize
    ensures forall k :: 0 <= k < |bs| - 1 ==> |bs[k]| == BatchSize
    decreases |urls|
  {
    if urls == [] then []
    else if |urls| <= BatchSize then [urls]
    else
      var rest := Batches(urls[BatchSize..]);
      assert urls == urls[..BatchSize] + urls[BatchSize..];
      [urls[..BatchSize]] + rest
  }

  /** No batch the workflow sends can trip the scraper's ten-URL guard. */
  lemma BatchesFitTrigger(urls: seq<string>, post: seq<Json> -> Result<HttpResponse, string>,
                          parse: string -> Result<Json, string>)
    ensures forall b :: b in Batches(urls) ==> BrightData.Trigger(b, post, parse) != Failure(BrightData.TooManyUrls)
  {
    forall b | b in Batches(urls)
      ensures BrightData.Trigger(b, post, parse) != Failure(BrightData.TooManyUrls)
    {
      var k :| 0 <= k < |Batches(urls)| && Batches(urls)[k] == b;
      assert |b| <= BrightData.MaxUrlsPerTrigger;
    }
  }

  // ---------------------------------------------------------------------
  // collaborators

  datatype Env = Env(
    /** `scrape_linkedin_profiles` on batch number `k` (from 0). */
    scrape: (nat, seq<string>) -> Result<seq<Json>, BrightData.ScrapeError>,
    /** The generative-text endpoint, called for the row at a position. */
    llm: (nat, Request) -> Result<HttpResponse, string>,
    parse: string -> Result<Json, string>,
    dumps: Json -> string)

  /** The profiles one batch contributes: all of them, or none when
      scraping it raised (the exception is logged). */
  function Contribution(r: Result<seq<Json>, BrightData.ScrapeError>): seq<Json> {
    match r case Success(items) => items case Failure(_) => []
  }

  /** Scraping raised for every batch. */
  predicate AllBatchesFail(bs: seq<seq<string>>, scrape: (nat, seq<string>) -> Result<seq<Json>, BrightData.ScrapeError>,
                           first: nat)
    decreases |bs|
  {
    bs == [] || (scrape(first, bs[0]).Failure? && AllBatchesFail(bs[1..], scrape, first + 1))
  }

  /** `profile_results`: what each batch contributes, in batch order;
      batch `k` (from `first`) is scraped as call number `k`. */
  function Collect(bs: seq<seq<string>>, scrape: (nat, seq<string>) -> Result<seq<Json>, BrightData.ScrapeError>,
                   first: nat): (r: seq<Json>)
    ensures AllBatchesFail(bs, scrape, first) ==> r == []
  {
    if bs == [] then [] else Contribution(scrape(first, bs[0])) + Collect(bs[1..], scrape, first + 1)
  }

  lemma CollectCons(bs: seq<seq<string>>, scrape: (nat, seq<string>) -> Result<seq<Json>, BrightData.ScrapeError>,
                     first: nat)
    requires bs != []
    ensures Collect(bs, scrape, first) == Contribution(scrape(first, bs[0])) + Collect(bs[1..], scrape, first + 1)
  {
  }

  /** Collecting two runs of batches is collecting each, numbered on. */
  lemma {:induction false} CollectAppend(b1: seq<seq<string>>, b2: seq<seq<string>>,
                                         scrape: (nat, seq<string>) -> Result<seq<Json>, BrightData.ScrapeError>,
                                         first: nat)
    ensures Collect(b1 + b2, scrape, first) == Collect(b1, scrape, first) + Collect(b2, scrape, first + |b1|)
    decreases |b1|
  {
    if b1 == [] {
      assert b1 + b2 == b2;
    } else {
      var c := Contribution(scrape(first, b1[0]));
      var p, q := Collect(b1[1..], scrape, first + 1), Collect(b2, scrape, first + |b1|);
      calc {
        Collect(b1 + b2, scrape, first);
      == { CollectCons(b1 + b2, scrape, first);
           assert (b1 + b2)[0] == b1[0] && (b1 + b2)[1..] == b1[1..] + b2; }
        c + Collect(b1[1..] + b2, scrape, first + 1);
      == { CollectAppend(b1[1..], b2, scrape, first + 1); }
        c + (p + q);
      == { ConsAppend(c, p, q); }
        (c + p) + q;
      == { CollectCons(b1, scrape, first); }
        Collect(b1, scrape, first) + q;
      }
    }
  }

  /** Every collected profile was returned by the scrape of some batch. */
  lemma {:induction false} CollectFromBatches(bs: seq<seq<string>>,
                                              scrape: (nat, seq<string>) -> Result<seq<Json>, BrightData.ScrapeError>,
                                              first: nat, x: Json) returns (k: nat)
    requires x in Collect(bs, scrape, first)
    ensures k < |bs| && scrape(first + k, bs[k]).Success? && x in scrape(first + k, bs[k]).value
    decreases |bs|
  {
    if x in Contribution(scrape(first, bs[0])) {
      k := 0;
    } else {
      var j := CollectFromBatches(bs[1..], scrape, first + 1, x);
      k := j + 1;
      assert bs[1..][j] == bs[k];
    }
  }

  /** Collecting after one more batch appends what that batch contributes. */
  lemma CollectSnoc(bs: seq<seq<string>>, b: seq<string>,
                    scrape: (nat, seq<string>) -> Result<seq<Json>, BrightData.ScrapeError>, first: nat)
    ensures Collect(bs + [b], scrape, first) == Collect(bs, scrape, first) + Contribution(scrape(first + |bs|, b))
  {
    CollectAppend(bs, [b], scrape, first);
  }

  // ---------------------------------------------------------------------
  // url_to_profile

  /** `item.get('url') or item.get('input', {}).get('url')`, followed by
      the hashing a dict key needs. Each failure is the message of the
      exception Python raises. */
  function ProfileKey(item: Json): (r: Result<Json, string>)
    ensures r.Success? ==> Hashable(r.value)
    ensures r.Success? && r.value.JStr? ==> item.JObj? && item.fields != map[]
  {
    if !item.JObj? then Failure(NoAttribute(item, "get"))
    else
      var direct := GetOr(item.fields, "url", JNull);
      var key :=
        if Truthy(direct) then Success(direct)
        else
          var input := GetOr(item.fields, "input", JObj(map[]));
          if input.JObj? then Success(GetOr(input.fields, "url", JNull))
          else Failure(NoAttribute(input, "get"));
      match key
      case Failure(m) => Failure(m)
      case Success(k) => if Hashable(k) then Success(k) else Failure(UnhashableType(k))
  }

  /** The key rule: the item's own `url` when it is truthy, otherwise the
      `url` of its `input` dict (`None` when that is missing too); a key
      that cannot be hashed, or a non-dict where `.get` is called, raises. */
  lemma ProfileKeyRule(item: Json)
    ensures !item.JObj? ==> ProfileKey(item) == Failure(NoAttribute(item, "get"))
    ensures item.JObj? ==>
              var direct := GetOr(item.fields, "url", JNull);
              var input := GetOr(item.fields, "input", JObj(map[]));
              && (Truthy(direct) && Hashable(direct) ==> ProfileKey(item) == Success(direct))
              && (Truthy(direct) && !Hashable(direct) ==> ProfileKey(item) == Failure(UnhashableType(direct)))
              && (!Truthy(direct) && !input.JObj? ==> ProfileKey(item) == Failure(NoAttribute(input, "get")))
              && (!Truthy(direct) && input.JObj? ==>
                    var nested := GetOr(input.fields, "url", JNull);
                    ProfileKey(item) == if Hashable(nested) then Success(nested) else Failure(UnhashableType(nested)))
  {
  }

  /** The two shapes a profile comes back in end up side by side in one
      lookup: one keyed by its own `url`, one by `input.url`. */
  lemma BuildLookupMergesKeyForms(a: Json, b: Json, x: string, y: string)
    requires a.JObj? && "url" in a.fields && a.fields["url"] == JStr(x) && x != []
    requires b.JObj? && "url" !in b.fields && "input" in b.fields
    requires b.fields["input"].JObj? && "url" in b.fields["input"].fields
    requires b.fields["input"].fields["url"] == JStr(y)
    ensures BuildLookup([a, b]) == Success(map[x := a][y := b])
  {
    ProfileKeyRule(a);
    ProfileKeyRule(b);
    assert ProfileKey(a) == Success(JStr(x));
    assert GetOr(b.fields, "url", JNull) == JNull;
    assert ProfileKey(b) == Success(JStr(y));
    assert [a, b][..1] == [a];
    assert [a][..0] == [];
    assert BuildLookup([a]) == Success(map[x := a]);
  }

  /** The dict comprehension: later items overwrite earlier ones under the
      same key, and the first item whose key raises aborts the run. Only
      string keys can ever match a stripped URL, so only they are kept. */
  function BuildLookup(items: seq<Json>): (r: Result<map<string, Json>, string>)
    ensures r.Success? ==> forall u :: u in r.value ==> r.value[u] in items
  {
    if items == [] then Success(map[])
    else
      match BuildLookup(items[..|items| - 1])
      case Failure(m) => Failure(m)
      case Success(lookup) =>
        var last := items[|items| - 1];
        match ProfileKey(last)
        case Failure(m) => Failure(m)
        case Success(k) => Success(if k.JStr? then lookup[k.s := last] else lookup)
  }

  predicate AllKeyed(items: seq<Json>) {
    forall k :: 0 <= k < |items| ==> ProfileKey(items[k]).Success?
  }

  /** The lookup is built exactly when every item yields a key. */
  lemma {:induction false} BuildLookupSucceedsIff(items: seq<Json>)
    ensures BuildLookup(items).Success? <==> AllKeyed(items)
  {
    if items != [] {
      var init := items[..|items| - 1];
      BuildLookupSucceedsIff(init);
      assert forall k :: 0 <= k < |init| ==> init[k] == items[k];
    }
  }

  /** A failing build reports the first item whose key raises. */
  lemma {:induction false} BuildLookupReportsFirstFailure(items: seq<Json>, k: nat)
    requires k < |items| && ProfileKey(items[k]).Failure?
    requires forall j :: 0 <= j < k ==> ProfileKey(items[j]).Success?
    ensures BuildLookup(items) == Failure(ProfileKey(items[k]).error)
  {
    var init := items[..|items| - 1];
    if k == |items| - 1 {
      assert AllKeyed(init) by {
        assert forall j :: 0 <= j < |init| ==> init[j] == items[j];
      }
      BuildLookupSucceedsIff(init);
    } else {
      BuildLookupReportsFirstFailure(init, k);
    }
  }

  /** Reference reading of the lookup: the last item whose key is `url`. */
  function LastWithKey(items: seq<Json>, url: string): Option<Json> {
    if items == [] then None
    else if ProfileKey(items[|items| - 1]) == Success(JStr(url)) then Some(items[|items| - 1])
    else LastWithKey(items[..|items| - 1], url)
  }

  /** A built lookup maps each URL to the last item keyed by it, and holds
      no other URL. */
  lemma {:induction false} BuildLookupIsLastWithKey(items: seq<Json>)
    requires BuildLookup(items).Success?
    ensures forall url :: url in BuildLookup(items).value ==> LastWithKey(items, url) == Some(BuildLookup(items).value[url])
    ensures forall url :: url !in BuildLookup(items).value ==> LastWithKey(items, url) == None
  {
    if items != [] {
      BuildLookupIsLastWithKey(items[..|items| - 1]);
    }
  }

  /** Every value in a built lookup is a non-empty dict, so the
      "found but empty" case of the row loop cannot happen. */
  lemma {:induction false} LookupValuesAreTruthy(items: seq<Json>)
    requires BuildLookup(items).Success?
    ensures forall url :: url in BuildLookup(items).value ==> Truthy(BuildLookup(items).value[url])
  {
    if items != [] {
      LookupValuesAreTruthy(items[..|items| - 1]);
    }
  }

  // ---------------------------------------------------------------------
  // one row

  const NoProfileError: string := "No profile data returned"
  const GenerationErrorPrefix: string := "Email generation error: "
  const EmailColumns: seq<string> := ["email", "Email", "EMAIL"]

  /** `row.get('First Name') or row.get('Name') or row.get('name')`: the
      first truthy value, or the last one when none is. */
  function NameOf(row: Row): (r: Option<Cell>)
    ensures CellTruthy(Get(row, "First Name")) ==> r == Get(row, "First Name")
    ensures !CellTruthy(Get(row, "First Name")) && CellTruthy(Get(row, "Name")) ==> r == Get(row, "Name")
    ensures !CellTruthy(Get(row, "First Name")) && !CellTruthy(Get(row, "Name")) ==> r == Get(row, "name")
  {
    var first := Get(row, "First Name");
    if CellTruthy(first) then first
    else
      var name := Get(row, "Name");
      if CellTruthy(name) then name else Get(row, "name")
  }

  /** `possible_email_col in row and pd.notnull(row[possible_email_col])`. */
  predicate HasEmailIn(row: Row, c: string) {
    c in row && row[c] != NaN
  }

  /** The loop over `email`, `Email`, `EMAIL`: the value of the first of
      those columns that the row has and that is not NaN; `None` when there
      is none. */
  function EmailOf(row: Row): (r: Option<Cell>)
    ensures r.None? <==> forall k :: 0 <= k < |EmailColumns| ==> !HasEmailIn(row, EmailColumns[k])
    ensures r.Some? ==> r.value != NaN
  {
    if HasEmailIn(row, EmailColumns[0]) then Some(row[EmailColumns[0]])
    else if HasEmailIn(row, EmailColumns[1]) then Some(row[EmailColumns[1]])
    else if HasEmailIn(row, EmailColumns[2]) then Some(row[EmailColumns[2]])
    else None
  }

  /** The email is the value of the first listed column that the row has
      and that is not NaN, as a search over the list finds it. */
  lemma EmailOfIsFirstListed(row: Row)
    ensures match FirstWhere(EmailColumns, c => HasEmailIn(row, c))
            case None => EmailOf(row) == None
            case Some(k) => EmailOf(row) == Some(row[EmailColumns[k]])
  {
  }

  datatype OutreachResult = OutreachResult(
    name: Option<Cell>, email: Option<Cell>, linkedinUrl: string,
    emailDraft: string, profileError: string, emailError: string)

  /** The record inserted into `outreach_results`, before generation. */
  datatype OutreachRecord = OutreachRecord(
    name: Option<Cell>, email: Option<Cell>, linkedinUrl: string,
    emailDraft: string, profileJson: Json, profileError: string, emailError: string)

  /** The record inserted into `drafted_emails`, after generation. */
  datatype DraftedEmail = DraftedEmail(name: Option<Cell>, email: Option<Cell>, emailDraft: string)

  /** What one row inserts, in this order. */
  datatype RowInserts = RowInserts(outreach: OutreachRecord, drafted: DraftedEmail)

  datatype RowOutcome = Skipped | Produced(result: OutreachResult, inserts: RowInserts)

  /** The email agent as the row at position `idx` calls it:
      `generate_email(context, {'profile_json': profile})`, with that row's
      calls to the endpoint. */
  function Generator(ctx: Context, idx: nat, env: Env): Json -> Result<string, string> {
    profile => GenerateEmail(ctx, map["profile_json" := profile], env.dumps, req => env.llm(idx, req), env.parse)
  }

  /** The email agent for every row position. */
  function Generators(ctx: Context, env: Env): nat -> (Json -> Result<string, string>) {
    i => Generator(ctx, i, env)
  }

  /** The draft and the error text for a row: nothing is generated without
      profile data, and an exception from generation becomes the error. */
  function Draft(generate: Json -> Result<string, string>, profileJson: Json, profileError: string): (r: (string, string))
    ensures !(Truthy(profileJson) && profileError == []) ==> r == ("", "")
    ensures Truthy(profileJson) && profileError == [] ==>
              match generate(profileJson)
              case Success(d) => r == (d, "")
              case Failure(m) => r == ("", GenerationErrorPrefix + m)
  {
    if Truthy(profileJson) && profileError == [] then
      match generate(profileJson)
      case Success(d) => (d, "")
      case Failure(m) => ("", GenerationErrorPrefix + m)
    else ("", "")
  }

  /** The scraped profile is found for a URL: its stripped form is a key of
      the lookup, holding a truthy value. */
  predicate Found(lookup: map<string, Json>, url: string) {
    Strip(url) in lookup && Truthy(lookup[Strip(url)])
  }

  /** The two inserts of a row agree with its result. The insert into
      `outreach_results` happens before generation, so it never carries a
      draft or a generation error; the insert into `drafted_emails` carries
      the result's draft. */
  predicate InsertsAgree(res: OutreachResult, ins: RowInserts) {
    && ins.outreach.name == res.name && ins.outreach.email == res.email
    && ins.outreach.linkedinUrl == res.linkedinUrl
    && ins.outreach.profileError == res.profileError
    && ins.outreach.emailDraft == [] && ins.outreach.emailError == []
    && ins.drafted == DraftedEmail(res.name, res.email, res.emailDraft)
  }

  /** The profile stored for a row and the profile error it reports. */
  datatype Profile = Profile(json: Json, error: string)

  /** `profile_lookup.get(linkedin_url.strip(), {})`, replaced by an empty
      object and reported as missing when it is not truthy. */
  function LookupProfile(lookup: map<string, Json>, linkedinUrl: string): (r: Profile)
    ensures Found(lookup, linkedinUrl) ==> r == Profile(lookup[Strip(linkedinUrl)], "")
    ensures !Found(lookup, linkedinUrl) ==> r == Profile(JObj(map[]), NoProfileError)
  {
    var profileData := GetOr(lookup, Strip(linkedinUrl), JObj(map[]));
    if Truthy(profileData) then Profile(profileData, "") else Profile(JObj(map[]), NoProfileError)
  }

  /** What a row with a usable URL produces: its result and its two
      inserts. The profile is looked up by the stripped URL; a missing or
      empty profile is reported, stored as an empty object, and nothing is
      generated for it. */
  function Produce(linkedinUrl: string, name: Option<Cell>, email: Option<Cell>,
                   lookup: map<string, Json>, generate: Json -> Result<string, string>): (r: RowOutcome)
    ensures r.Produced?
    ensures && r.result.linkedinUrl == linkedinUrl
            && r.result.name == name && r.result.email == email
            && InsertsAgree(r.result, r.inserts)
  {
    var profile := LookupProfile(lookup, linkedinUrl);
    var profileJson, profileError := profile.json, profile.error;
    var outreach := OutreachRecord(name, email, linkedinUrl, "", profileJson, profileError, "");
    var d := Draft(generate, profileJson, profileError);
    Produced(OutreachResult(name, email, linkedinUrl, d.0, profileError, d.1),
             RowInserts(outreach, DraftedEmail(name, email, d.0)))
  }

  /** One iteration of the row loop. A row without a usable URL is skipped;
      any other row produces a result from its URL, its name and its email. */
  function ProcessRow(row: Row, col: string, lookup: map<string, Json>,
                      generate: Json -> Result<string, string>): (r: RowOutcome)
    ensures r.Skipped? <==> !IsUsableUrl(Get(row, col))
    ensures r.Produced? ==> r == Produce(Get(row, col).value.s, NameOf(row), EmailOf(row), lookup, generate)
  {
    var url := Get(row, col);
    if !IsUsableUrl(url) then Skipped
    else Produce(url.value.s, NameOf(row), EmailOf(row), lookup, generate)
  }

  /** A URL whose profile was not scraped reports it, stores an empty
      profile, and gets no draft and no generation error. */
  lemma ProduceNotFound(url: string, name: Option<Cell>, email: Option<Cell>,
                        lookup: map<string, Json>, generate: Json -> Result<string, string>)
    requires !Found(lookup, url)
    ensures var r := Produce(url, name, email, lookup, generate);
            && r.result.profileError == NoProfileError
            && r.result.emailDraft == "" && r.result.emailError == ""
            && r.inserts.outreach.profileJson == JObj(map[])
  {
    assert |NoProfileError| != 0;
  }

  /** A URL whose profile was scraped stores that profile, reports no
      profile error, and gets whatever generation returns for it: the draft,
      or the exception's message after the error prefix. */
  lemma ProduceFound(url: string, name: Option<Cell>, email: Option<Cell>,
                     lookup: map<string, Json>, generate: Json -> Result<string, string>)
    requires Found(lookup, url)
    ensures var r := Produce(url, name, email, lookup, generate);
            var profile := lookup[Strip(url)];
            && r.result.profileError == ""
            && r.inserts.outreach.profileJson == profile
            && (generate(profile).Success? ==>
                  r.result.emailDraft == generate(profile).value && r.result.emailError == "")
            && (generate(profile).Failure? ==>
                  r.result.emailDraft == "" && r.result.emailError == GenerationErrorPrefix + generate(profile).error)
  {
  }

  /** A result reports missing profile data exactly when its URL was not
      found. */
  lemma ProduceReportsMissing(url: string, name: Option<Cell>, email: Option<Cell>,
                              lookup: map<string, Json>, generate: Json -> Result<string, string>)
    ensures var r := Produce(url, name, email, lookup, generate);
            r.result.profileError == "" <==> Found(lookup, url)
  {
    if Found(lookup, url) {
      ProduceFound(url, name, email, lookup, generate);
    } else {
      ProduceNotFound(url, name, email, lookup, generate);
    }
  }

  datatype Processed = Processed(results: seq<OutreachResult>, inserts: seq<RowInserts>)

  /** The row loop from position `base` on; `gen(i)` is the email agent as
      the row at position `i` calls it. */
  function ProcessRows(rows: seq<Row>, base: nat, col: string, lookup: map<string, Json>,
                       gen: nat -> (Json -> Result<string, string>)): (r: Processed)
    ensures |r.results| == |r.inserts| <= |rows|
    decreases |rows|
  {
    if rows == [] then Processed([], [])
    else
      var rest := ProcessRows(rows[1..], base + 1, col, lookup, gen);
      match ProcessRow(rows[0], col, lookup, gen(base))
      case Skipped => rest
      case Produced(res, ins) => Processed([res] + rest.results, [ins] + rest.inserts)
  }

  /** One step of the row loop: the first row's outcome, then the rest. */
  lemma ProcessRowsStep(rows: seq<Row>, base: nat, col: string, lookup: map<string, Json>,
                        gen: nat -> (Json -> Result<string, string>))
    requires rows != []
    ensures var rest := ProcessRows(rows[1..], base + 1, col, lookup, gen);
            var o := ProcessRow(rows[0], col, lookup, gen(base));
            && (o.Skipped? ==> && ProcessRows(rows, base, col, lookup, gen) == rest
                               && UrlList(rows, col) == UrlList(rows[1..], col))
            && (o.Produced? ==> && ProcessRows(rows, base, col, lookup, gen)
                                   == Processed([o.result] + rest.results, [o.inserts] + rest.inserts)
                                && UrlList(rows, col) == [o.result.linkedinUrl] + UrlList(rows[1..], col))
  {
  }

  /** The results carry the given URLs, one each, in order. */
  predicate CarryUrls(results: seq<OutreachResult>, urls: seq<string>) {
    |results| == |urls| && forall k :: 0 <= k < |results| ==> results[k].linkedinUrl == urls[k]
  }

  lemma CarryUrlsCons(res: OutreachResult, results: seq<OutreachResult>, urls: seq<string>)
    requires CarryUrls(results, urls)
    ensures CarryUrls([res] + results, [res.linkedinUrl] + urls)
  {
    var rs, us := [res] + results, [res.linkedinUrl] + urls;
    forall k | 0 <= k < |rs|
      ensures rs[k].linkedinUrl == us[k]
    {
      if k > 0 {
        assert rs[k] == results[k - 1] && us[k] == urls[k - 1];
      }
    }
  }

  /** The row loop yields one result and one pair of inserts per usable URL,
      in row order, and each result carries its row's URL unstripped. */
  lemma {:induction false} ProcessRowsFollowUrls(rows: seq<Row>, base: nat, col: string, lookup: map<string, Json>,
                                                 gen: nat -> (Json -> Result<string, string>))
    ensures var r := ProcessRows(rows, base, col, lookup, gen);
            && |r.results| == |r.inserts|
            && CarryUrls(r.results, UrlList(rows, col))
    decreases |rows|
  {
    if rows != [] {
      ProcessRowsFollowUrls(rows[1..], base + 1, col, lookup, gen);
      ProcessRowsStep(rows, base, col, lookup, gen);
      var rest := ProcessRows(rows[1..], base + 1, col, lookup, gen);
      var o := ProcessRow(rows[0], col, lookup, gen(base));
      if o.Produced? {
        CarryUrlsCons(o.result, rest.results, UrlList(rows[1..], col));
      }
    }
  }

  /** Each result agrees with its inserts and reports missing profile data
      exactly when its stripped URL was not found. */
  predicate ResultsAgree(results: seq<OutreachResult>, inserts: seq<RowInserts>, lookup: map<string, Json>) {
    && |results| == |inserts|
    && forall k :: 0 <= k < |results| ==>
         && InsertsAgree(results[k], inserts[k])
         && (results[k].profileError == "" <==> Found(lookup, results[k].linkedinUrl))
  }

  lemma ResultsAgreeCons(res: OutreachResult, ins: RowInserts, results: seq<OutreachResult>,
                         inserts: seq<RowInserts>, lookup: map<string, Json>)
    requires ResultsAgree(results, inserts, lookup)
    requires InsertsAgree(res, ins) && (res.profileError == "" <==> Found(lookup, res.linkedinUrl))
    ensures ResultsAgree([res] + results, [ins] + inserts, lookup)
  {
    var rs, ins2 := [res] + results, [ins] + inserts;
    forall k | 0 <= k < |rs|
      ensures InsertsAgree(rs[k], ins2[k])
      ensures rs[k].profileError == "" <==> Found(lookup, rs[k].linkedinUrl)
    {
      if k > 0 {
        assert rs[k] == results[k - 1] && ins2[k] == inserts[k - 1];
      }
    }
  }

  /** Every result of the row loop agrees with its inserts and reports
      missing profile data exactly when its stripped URL was not found. */
  lemma {:induction false} ProcessRowsResultsAgree(rows: seq<Row>, base: nat, col: string, lookup: map<string, Json>,
                                                   gen: nat -> (Json -> Result<string, string>))
    ensures var r := ProcessRows(rows, base, col, lookup, gen);
            ResultsAgree(r.results, r.inserts, lookup)
    decreases |rows|
  {
    if rows != [] {
      ProcessRowsResultsAgree(rows[1..], base + 1, col, lookup, gen);
      ProcessRowsStep(rows, base, col, lookup, gen);
      var rest := ProcessRows(rows[1..], base + 1, col, lookup, gen);
      var o := ProcessRow(rows[0], col, lookup, gen(base));
      if o.Produced? {
        ProduceReportsMissing(Get(rows[0], col).value.s, NameOf(rows[0]), EmailOf(rows[0]), lookup, gen(base));
        ResultsAgreeCons(o.result, o.inserts, rest.results, rest.inserts, lookup);
      }
    }
  }

  // ---------------------------------------------------------------------
  // run

  datatype RunOutput = RunOutput(batches: seq<seq<string>>, results: seq<OutreachResult>, inserts: seq<RowInserts>)

  /** `OutreachWorkflow.run`. Without a LinkedIn column nothing is scraped
      and the result list is empty. Otherwise every usable URL is sent in a
      batch of at most ten, and there is one result per usable URL, in row
      order. The run raises only when a scraped item has no usable key. */
  function Run(courseDetails: string, persona: string, table: Table, env: Env): (r: Result<RunOutput, string>)
    ensures FindUrlColumn(table.columns).None? ==> r == Success(RunOutput([], [], []))
    ensures FindUrlColumn(table.columns).Some? ==>
              var urls := UrlList(table.rows, table.columns[FindUrlColumn(table.columns).value]);
              var items := Collect(Batches(urls), env.scrape, 0);
              && (r.Success? <==> AllKeyed(items))
              && (r.Success? ==>
                    && r.value.batches == Batches(urls)
                    && |r.value.results| == |urls|
                    && forall k :: 0 <= k < |urls| ==> r.value.results[k].linkedinUrl == urls[k])
  {
    var ctx := GetContext(Load(New(), courseDetails, persona));
    match FindUrlColumn(table.columns)
    case None => Success(RunOutput([], [], []))
    case Some(i) =>
      var col := table.columns[i];
      var bs := Batches(UrlList(table.rows, col));
      var items := Collect(bs, env.scrape, 0);
      BuildLookupSucceedsIff(items);
      match BuildLookup(items)
      case Failure(m) => Failure(m)
      case Success(lookup) =>
        var gen := Generators(ctx, env);
        var p := ProcessRows(table.rows, 0, col, lookup, gen);
        ProcessRowsFollowUrls(table.rows, 0, col, lookup, gen);
        Success(RunOutput(bs, p.results, p.inserts))
  }

  /** A sheet whose LinkedIn column holds no usable URL scrapes nothing and
      yields no results, without raising. */
  lemma RunWithoutUrls(courseDetails: string, persona: string, table: Table, env: Env)
    requires FindUrlColumn(table.columns).Some?
    requires UrlList(table.rows, table.columns[FindUrlColumn(table.columns).value]) == []
    ensures var r := Run(courseDetails, persona, table, env);
            r.Success? && r.value.batches == [] && r.value.results == []
  {
    assert Batches([]) == [];
    assert Collect([], env.scrape, 0) == [];
    assert AllKeyed([]);
  }

  /** A URL counts as found in a built lookup exactly when some scraped
      item is keyed by its stripped form. */
  lemma FoundIffScraped(items: seq<Json>, url: string)
    requires BuildLookup(items).Success?
    ensures Found(BuildLookup(items).value, url) <==> LastWithKey(items, Strip(url)).Some?
  {
    BuildLookupIsLastWithKey(items);
    LookupValuesAreTruthy(items);
  }

  /** A successful run with a LinkedIn column is the row loop over the
      lookup built from the scraped items. */
  lemma RunIsRowLoop(courseDetails: string, persona: string, table: Table, env: Env)
    requires Run(courseDetails, persona, table, env).Success?
    requires FindUrlColumn(table.columns).Some?
    ensures var col := table.columns[FindUrlColumn(table.columns).value];
            var items := Collect(Batches(UrlList(table.rows, col)), env.scrape, 0);
            && BuildLookup(items).Success?
            && Run(courseDetails, persona, table, env).value.results
               == ProcessRows(table.rows, 0, col, BuildLookup(items).value,
                              Generators(GetContext(Load(New(), courseDetails, persona)), env)).results
  {
    var col := table.columns[FindUrlColumn(table.columns).value];
    var items := Collect(Batches(UrlList(table.rows, col)), env.scrape, 0);
    BuildLookupSucceedsIff(items);
  }

  /** In a successful run a result reports missing profile data exactly
      when no scraped item is keyed by its stripped URL. */
  lemma RunProfileErrorMeansNotScraped(courseDetails: string, persona: string, table: Table, env: Env, k: nat)
    requires Run(courseDetails, persona, table, env).Success?
    requires k < |Run(courseDetails, persona, table, env).value.results|
    requires FindUrlColumn(table.columns).Some?
    ensures var res := Run(courseDetails, persona, table, env).value.results[k];
            var urls := UrlList(table.rows, table.columns[FindUrlColumn(table.columns).value]);
            var items := Collect(Batches(urls), env.scrape, 0);
            res.profileError == "" <==> LastWithKey(items, Strip(res.linkedinUrl)).Some?
  {
    var col := table.columns[FindUrlColumn(table.columns).value];
    var items := Collect(Batches(UrlList(table.rows, col)), env.scrape, 0);
    RunIsRowLoop(courseDetails, persona, table, env);
    var lookup := BuildLookup(items).value;
    var gen := Generators(GetContext(Load(New(), courseDetails, persona)), env);
    ProcessRowsResultsAgree(table.rows, 0, col, lookup, gen);
    var res := Run(courseDetails, persona, table, env).value.results[k];
    FoundIffScraped(items, res.linkedinUrl);
  }

  /** The scraper sees each URL as written in the sheet, but the lookup is
      by the stripped URL: a padded URL whose profile comes back keyed by
      the URL the scraper was sent is reported as missing. */
  lemma PaddedUrlIsNotFound(raw: string, item: Json)
    requires Strip(raw) != raw
    requires ProfileKey(item) == Success(JStr(raw))
    ensures BuildLookup([item]).Success? && Strip(raw) !in BuildLookup([item]).value
  {
    assert [item][..0] == [];
  }
}
