/** The profile-fetch client, `app/scraping/brightdata_linkedin_agent.py`:
    submit a batch of profile URLs to the dataset trigger endpoint, pull the
    snapshot id out of the reply, then poll the snapshot endpoint until it
    returns a non-empty list of profile documents or the wait runs out.

    The HTTP transport is a parameter: `post` stands for the trigger request
    (failing when `requests` raises), `parse` for `response.json()`, and the
    polls are an abstract stream of observations, one per GET. */
module BrightData {
  import opened Base
  import opened PyStr
  import opened PyJson

  /** The most URLs one trigger request may carry. */
  const MaxUrlsPerTrigger: nat := 10
  /** `fetch_snapshot` defaults: give up after 300 s, sleep 5 s between polls. */
  const DefaultMaxWaitSec: int := 300
  const DefaultWaitSec: nat := 5

  /** Why a scrape raised. */
  datatype ScrapeError =
    | TooManyUrls                           // ValueError, before any request
    | RequestFailed(reason: string)         // `requests` raised (connection, timeout)
    | HttpError(status: nat)                // `raise_for_status` on a 4xx/5xx reply
    | BadJson(reason: string)               // the trigger reply is not JSON
    | ShapeError(message: string)           // AttributeError while reading the reply
    | NoSnapshotId(response: Json)          // RuntimeError: no usable snapshot id
    | SnapshotTimeout(snapshotId: Json, maxWaitSec: int) // RuntimeError: not ready in time

  // ---------------------------------------------------------------------
  // trigger_profiles

  /** The JSON array posted to the trigger endpoint. */
  function TriggerBody(urls: seq<string>): (body: seq<Json>)
    ensures |body| == |urls|
    ensures forall i :: 0 <= i < |body| ==> body[i].JObj? && body[i].fields.Keys == {"url"}
  {
    seq(|urls|, i requires 0 <= i < |urls| => JObj(map["url" := JStr(urls[i])]))
  }

  /** The URL each element of a trigger body asks for. */
  function RequestedUrls(body: seq<Json>): seq<string>
    requires forall i :: 0 <= i < |body| ==> body[i].JObj? && "url" in body[i].fields && body[i].fields["url"].JStr?
  {
    seq(|body|, i requires 0 <= i < |body| => body[i].fields["url"].s)
  }

  /** The body asks for exactly the given URLs, one object each, in order. */
  lemma TriggerBodyRoundTrip(urls: seq<string>)
    ensures var body := TriggerBody(urls);
            (forall i :: 0 <= i < |body| ==> body[i].JObj? && "url" in body[i].fields && body[i].fields["url"].JStr?)
            && RequestedUrls(body) == urls
  {
  }

  /** `requests.Response.raise_for_status`: 4xx and 5xx replies raise. */
  predicate IsHttpError(status: nat) {
    400 <= status < 600
  }

  /** The id under the top-level `snapshot_id` key, or `None`. */
  function TopLevelId(fields: map<string, Json>): Json {
    GetOr(fields, "snapshot_id", JNull)
  }

  /** The snapshot id chosen from a parsed trigger reply: a truthy top-level
      `snapshot_id` wins; otherwise the `id` of the first element of a
      non-empty `snapshots` list; a still-falsy id raises. */
  function ExtractSnapshotId(reply: Json): (r: Result<Json, ScrapeError>)
    ensures r.Success? ==> Truthy(r.value)
    ensures !reply.JObj? ==> r == Failure(ShapeError(NoAttribute(reply, "get")))
    ensures reply.JObj? && Truthy(TopLevelId(reply.fields)) ==> r == Success(TopLevelId(reply.fields))
    ensures reply.JObj? && !Truthy(TopLevelId(reply.fields)) ==>
              var snaps := GetOr(reply.fields, "snapshots", JNull);
              if snaps.JArr? && snaps.items != [] && snaps.items[0].JObj? then
                var id := GetOr(snaps.items[0].fields, "id", JNull);
                r == if Truthy(id) then Success(id) else Failure(NoSnapshotId(reply))
              else if snaps.JArr? && snaps.items != [] then
                r == Failure(ShapeError(NoAttribute(snaps.items[0], "get")))
              else
                r == Failure(NoSnapshotId(reply))
  {
    if !reply.JObj? then Failure(ShapeError(NoAttribute(reply, "get")))
    else
      var top := TopLevelId(reply.fields);
      if Truthy(top) then Success(top)
      else
        var snaps := GetOr(reply.fields, "snapshots", JNull);
        if Truthy(snaps) && snaps.JArr? && |snaps.items| > 0 then
          var first := snaps.items[0];
          if !first.JObj? then Failure(ShapeError(NoAttribute(first, "get")))
          else
            var id := GetOr(first.fields, "id", JNull);
            if Truthy(id) then Success(id) else Failure(NoSnapshotId(reply))
        else Failure(NoSnapshotId(reply))
  }

  /** `trigger_profiles`: the size check comes before any request, then the
      POST, the status check, the JSON decoding and the id extraction. */
  function Trigger(urls: seq<string>,
                   post: seq<Json> -> Result<HttpResponse, string>,
                   parse: string -> Result<Json, string>): (r: Result<Json, ScrapeError>)
    ensures |urls| > MaxUrlsPerTrigger <==> r == Failure(TooManyUrls)
    ensures r.Success? ==> Truthy(r.value)
    ensures |urls| <= MaxUrlsPerTrigger ==>
              match post(TriggerBody(urls))
              case Failure(m) => r == Failure(RequestFailed(m))
              case Success(resp) =>
                if IsHttpError(resp.status) then r == Failure(HttpError(resp.status))
                else match parse(resp.text)
                     case Failure(m) => r == Failure(BadJson(m))
                     case Success(reply) => r == ExtractSnapshotId(reply)
  {
    if |urls| > MaxUrlsPerTrigger then Failure(TooManyUrls)
    else
      match post(TriggerBody(urls))
      case Failure(m) => Failure(RequestFailed(m))
      case Success(resp) =>
        if IsHttpError(resp.status) then Failure(HttpError(resp.status))
        else
          match parse(resp.text)
          case Failure(m) => Failure(BadJson(m))
          case Success(reply) => ExtractSnapshotId(reply)
  }

  // ---------------------------------------------------------------------
  // fetch_snapshot

  /** What one GET of the snapshot endpoint produced. `body` is the outcome
      of decoding the reply as JSON. */
  datatype Reply =
    | Answered(status: nat, body: Result<Json, string>)
    | ConnectionFailed(reason: string)

  /** One poll: its reply, and the seconds elapsed since polling started,
      read right after the reply. */
  datatype Observation = Observation(reply: Reply, elapsed: real)

  /** The snapshot is ready: status 200 and a non-empty JSON list. */
  predicate IsReady(reply: Reply) {
    reply.Answered? && reply.status == 200 && reply.body.Success?
    && reply.body.value.JArr? && reply.body.value.items != []
  }

  /** After this poll the loop sleeps and polls again. */
  predicate KeepsPolling(o: Observation, maxWaitSec: int) {
    o.reply.Answered? && !IsReady(o.reply) && o.elapsed <= maxWaitSec as real
  }

  /** The loop sleeps `waitSec` seconds before every poll but the first, so
      the clock read after poll `i` (counting from 0) is at least
      `i * waitSec`. */
  ghost predicate ClockRespectsSleeps(obs: nat -> Observation, waitSec: nat) {
    forall i: nat :: obs(i).elapsed >= (i * waitSec) as real
  }

  datatype PollOutcome =
    | Ready(data: seq<Json>, attempts: nat)
    | TimedOut(attempts: nat)
    | Raised(reason: string, attempts: nat)

  /** The first poll index whose clock reading must exceed `maxWaitSec`. */
  function PollLimit(maxWaitSec: int, waitSec: nat): nat
    requires waitSec > 0
  {
    if maxWaitSec < 0 then 0 else maxWaitSec / waitSec + 1
  }

  lemma BelowLimit(i: nat, maxWaitSec: int, waitSec: nat)
    requires waitSec > 0
    requires i * waitSec <= maxWaitSec
    ensures i < PollLimit(maxWaitSec, waitSec)
  {
    var q := maxWaitSec / waitSec;
    assert maxWaitSec == q * waitSec + maxWaitSec % waitSec;
    if i > q {
      assert i * waitSec >= (q + 1) * waitSec;
    }
  }

  /** The poll loop from poll `i` on. */
  function PollFrom(obs: nat -> Observation, maxWaitSec: int, waitSec: nat, i: nat): (r: PollOutcome)
    requires waitSec > 0 && ClockRespectsSleeps(obs, waitSec)
    requires i <= PollLimit(maxWaitSec, waitSec)
    ensures i < r.attempts <= PollLimit(maxWaitSec, waitSec) + 1
    ensures forall j :: i <= j < r.attempts - 1 ==> KeepsPolling(obs(j), maxWaitSec)
    ensures !KeepsPolling(obs(r.attempts - 1), maxWaitSec)
    ensures r.Ready? <==> IsReady(obs(r.attempts - 1).reply)
    ensures r.Ready? ==> r.data == obs(r.attempts - 1).reply.body.value.items && r.data != []
    ensures r.Raised? <==> obs(r.attempts - 1).reply.ConnectionFailed?
    decreases PollLimit(maxWaitSec, waitSec) - i
  {
    var o := obs(i);
    match o.reply
    case ConnectionFailed(m) => Raised(m, i + 1)
    case Answered(_, body) =>
      if IsReady(o.reply) then Ready(body.value.items, i + 1)
      else if o.elapsed > maxWaitSec as real then TimedOut(i + 1)
      else
        assert (i * waitSec) as real <= o.elapsed;
        BelowLimit(i, maxWaitSec, waitSec);
        PollFrom(obs, maxWaitSec, waitSec, i + 1)
  }

  /** `fetch_snapshot`: it returns only the non-empty list of the first ready
      poll, gives up after the first unready poll whose clock exceeds the
      limit, and lets a failed request propagate. Every poll before the
      deciding one was unready and within the limit. */
  function FetchSnapshot(obs: nat -> Observation, maxWaitSec: int, waitSec: nat): (r: PollOutcome)
    requires waitSec > 0 && ClockRespectsSleeps(obs, waitSec)
    ensures 1 <= r.attempts <= PollLimit(maxWaitSec, waitSec) + 1
    ensures forall j :: 0 <= j < r.attempts - 1 ==> KeepsPolling(obs(j), maxWaitSec)
    ensures var last := obs(r.attempts - 1);
            && (r.Ready? <==> IsReady(last.reply))
            && (r.Ready? ==> r.data == last.reply.body.value.items && r.data != [])
            && (r.TimedOut? <==> last.reply.Answered? && !IsReady(last.reply) && last.elapsed > maxWaitSec as real)
            && (r.Raised? <==> last.reply.ConnectionFailed?)
  {
    PollFrom(obs, maxWaitSec, waitSec, 0)
  }

  /** A poll that is ready returns even when it comes after the limit:
      readiness is checked before the clock. */
  lemma ReadyBeatsTimeout(obs: nat -> Observation, maxWaitSec: int, waitSec: nat)
    requires waitSec > 0 && ClockRespectsSleeps(obs, waitSec)
    requires IsReady(obs(0).reply)
    ensures FetchSnapshot(obs, maxWaitSec, waitSec) == Ready(obs(0).reply.body.value.items, 1)
  {
  }

  // ---------------------------------------------------------------------
  // scrape_linkedin_profiles

  /** `scrape_linkedin_profiles` is `fetch_snapshot(trigger_profiles(urls))`
      with the default wait settings; `polls(id)` is what polling snapshot
      `id` would observe. */
  function Scrape(urls: seq<string>,
                  post: seq<Json> -> Result<HttpResponse, string>,
                  parse: string -> Result<Json, string>,
                  polls: Json -> (nat -> Observation)): (r: Result<seq<Json>, ScrapeError>)
    requires forall id :: ClockRespectsSleeps(polls(id), DefaultWaitSec)
    ensures |urls| > MaxUrlsPerTrigger ==> r == Failure(TooManyUrls)
    ensures Trigger(urls, post, parse).Failure? ==> r == Failure(Trigger(urls, post, parse).error)
    ensures Trigger(urls, post, parse).Success? ==>
              var id := Trigger(urls, post, parse).value;
              var f := FetchSnapshot(polls(id), DefaultMaxWaitSec, DefaultWaitSec);
              && (r.Success? <==> f.Ready?)
              && (f.Ready? ==> r.value == f.data)
              && (f.TimedOut? ==> r == Failure(SnapshotTimeout(id, DefaultMaxWaitSec)))
    ensures r.Success? ==> r.value != []
  {
    match Trigger(urls, post, parse)
    case Failure(e) => Failure(e)
    case Success(id) =>
      match FetchSnapshot(polls(id), DefaultMaxWaitSec, DefaultWaitSec)
      case Ready(data, _) => Success(data)
      case TimedOut(_) => Failure(SnapshotTimeout(id, DefaultMaxWaitSec))
      case Raised(m, _) => Failure(RequestFailed(m))
  }
}
