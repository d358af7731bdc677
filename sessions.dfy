/**
 * The session table of the web service: starting a crawl, reporting its
 * progress, exporting its titles as CSV rows, and dropping finished
 * sessions nobody has looked at for twenty minutes.  Clock readings and
 * the new session id are parameters.
 */
module Sessions {
  import opened Wrappers
  import opened Text
  import opened Ordering
  import opened Urls
  import opened Web
  import opened EnhancedPolicy
  import opened EnhancedCrawling

  /** Seconds a finished session survives after its last access. */
  const SessionLifetime: int := 1200

  /** The value of the `url` field of a request body. */
  datatype Json = JString(text: string) | JOther

  /** One entry of `crawling_sessions`. */
  datatype Session = Session(
    crawler: EnhancedCrawler,
    completed: bool,
    error: Option<string>,
    startTime: int,
    lastAccess: Option<int>,
    url: string)

  /** `session_data.get('last_access', session_data['start_time'])` */
  function LastAccess(s: Session): int {
    match s.lastAccess
    case Some(t) => t
    case None => s.startTime
  }

  /** The cleanup drops a session exactly when it is finished and idle for more than 1200 seconds. */
  predicate Expired(s: Session, now: int) {
    now - LastAccess(s) > SessionLifetime && s.completed
  }

  /** What `crawl` decides about a request body before it creates anything. */
  datatype Admission = Admit(url: string) | Refuse(status: nat, error: string)

  const UrlRequired: string := "URL is required"
  const UrlEmpty: string := "URL cannot be empty"
  const StartFailed: string := "Failed to start crawling"

  /**
   * The checks of `crawl`: a missing or empty body, or one without `url`,
   * is refused with 400; a `url` that is not a string makes `.strip()`
   * raise, which the handler turns into 500; a `url` blank after stripping
   * is refused with 400; a URL the crawler's constructor cannot parse
   * raises, giving 500.  Otherwise the stripped URL is admitted.
   */
  function CheckRequest(body: Option<map<string, Json>>): (r: Admission)
    ensures r.Refuse? && r.status == 400 <==>
      body.None? || "url" !in body.value ||
      (body.value["url"].JString? && Strip(body.value["url"].text) == [])
    ensures r.Refuse? ==> r.status == 400 || (r.status == 500 && r.error == StartFailed)
    ensures r.Admit? ==>
      body.Some? && "url" in body.value && body.value["url"].JString? &&
      r.url == Strip(body.value["url"].text) && r.url != [] && UrlParse(NormalizeUrl(r.url)).Ok?
  {
    match body
    case None => Refuse(400, UrlRequired)
    case Some(data) =>
      if |data| == 0 || "url" !in data then Refuse(400, UrlRequired)
      else
        match data["url"]
        case JOther => Refuse(500, StartFailed)
        case JString(text) =>
          var url := Strip(text);
          if url == [] then Refuse(400, UrlEmpty)
          else if UrlParse(NormalizeUrl(url)).Err? then Refuse(500, StartFailed)
          else Admit(url)
  }

  /** The reply of `crawl`. */
  datatype CrawlReply = Started(url: string, sessionId: string) | Refused(status: nat, error: string)

  /** The reply of `progress`. */
  datatype ProgressReply = ProgressReply(
    message: Option<string>,
    crawledUrls: nat,
    totalUrls: nat,
    visitedUrls: set<string>,
    completed: bool,
    percentage: nat,
    error: Option<string>,
    url: Option<string>)

  /** The reply for a session id the table does not hold. */
  const UnknownSession: ProgressReply :=
    ProgressReply(Some("Session not found"), 0, 0, {}, true, 0, Some("Session expired or not found"), None)

  const CsvHeader: seq<string> := ["URL", "Sayfa Başlığı"]

  /** The reply of `download_csv`: the rows written, or a 404 error. */
  datatype CsvReply = CsvRows(rows: seq<seq<string>>) | CsvMissing(status: nat, error: string)

  const NoSessionForCsv: string := "Session not found. Please generate a sitemap first."
  const NoDataForCsv: string := "CSV data not found. Please generate a sitemap first."

  /** `url_data.get(url, 'Başlık bulunamadı')` */
  function TitleOf(urlData: map<string, string>, url: string): string {
    if url in urlData then urlData[url] else TitleNotFound
  }

  /** `crawling_sessions` */
  class SessionStore {
    var sessions: map<string, Session>

    /** Every session's crawler is one `EnhancedCrawler.__init__` built, so its `total_urls` is zero. */
    ghost predicate Valid()
      reads this
    {
      forall id | id in sessions :: sessions[id].crawler.totalUrls == 0
    }

    constructor ()
      ensures sessions == map[] && Valid()
    {
      sessions := map[];
    }

    /**
     * `cleanup_expired_sessions`: the ids of expired sessions are collected
     * in a first pass, in an order the model does not fix, then deleted.
     */
    method CleanupExpired(now: int)
      requires Valid()
      modifies this
      ensures Valid()
      ensures forall id :: id in sessions <==> id in old(sessions) && !Expired(old(sessions)[id], now)
      ensures forall id | id in sessions :: sessions[id] == old(sessions)[id]
    {
      var expired: seq<string> := [];
      var rest := sessions.Keys;
      while rest != {}
        invariant rest <= sessions.Keys
        invariant forall id :: id in expired <==> id in sessions && id !in rest && Expired(sessions[id], now)
        decreases rest
      {
        var id :| id in rest;
        rest := rest - {id};
        if now - LastAccess(sessions[id]) > SessionLifetime {
          if sessions[id].completed {
            expired := expired + [id];
          }
        }
      }
      ghost var before := sessions;
      var i := 0;
      while i < |expired|
        invariant 0 <= i <= |expired|
        invariant forall id :: id in sessions <==> id in before && id !in expired[..i]
        invariant forall id | id in sessions :: sessions[id] == before[id]
      {
        assert expired[..i + 1] == expired[..i] + [expired[i]];
        sessions := sessions - {expired[i]};
        i := i + 1;
      }
      assert expired[..i] == expired;
    }

    /**
     * `crawl`: an admitted request gets a new session under `sessionId`,
     * not finished, without error, started and last accessed `now`, with a
     * fresh crawler for the stripped URL.  A refused request changes
     * nothing.  The background crawl the handler starts is not part of this
     * method.
     */
    method StartCrawl(body: Option<map<string, Json>>, sessionId: string, now: int) returns (reply: CrawlReply)
      requires Valid()
      modifies this
      ensures Valid()
      ensures CheckRequest(body).Refuse? ==>
        reply == Refused(CheckRequest(body).status, CheckRequest(body).error) && sessions == old(sessions)
      ensures CheckRequest(body).Admit? ==>
        var url := CheckRequest(body).url;
        reply == Started(url, sessionId) &&
        sessionId in sessions &&
        sessions == old(sessions)[sessionId := sessions[sessionId]] &&
        sessions[sessionId].url == url && !sessions[sessionId].completed &&
        sessions[sessionId].error.None? && sessions[sessionId].startTime == now &&
        sessions[sessionId].lastAccess == Some(now) &&
        fresh(sessions[sessionId].crawler) &&
        sessions[sessionId].crawler.startUrl == NormalizeUrl(url) &&
        sessions[sessionId].crawler.visited == {}
    {
      var admission := CheckRequest(body);
      if admission.Refuse? {
        return Refused(admission.status, admission.error);
      }
      var url := admission.url;
      Open(url, sessionId, now);
      reply := Started(url, sessionId);
    }

    /** The session entry `crawl` stores under `sessionId` for an admitted URL. */
    method Open(url: string, sessionId: string, now: int)
      requires Valid() && UrlParse(NormalizeUrl(url)).Ok?
      modifies this
      ensures Valid()
      ensures sessionId in sessions && sessions == old(sessions)[sessionId := sessions[sessionId]]
      ensures sessions[sessionId].url == url && !sessions[sessionId].completed &&
              sessions[sessionId].error.None? && sessions[sessionId].startTime == now &&
              sessions[sessionId].lastAccess == Some(now)
      ensures fresh(sessions[sessionId].crawler) &&
              sessions[sessionId].crawler.startUrl == NormalizeUrl(url) &&
              sessions[sessionId].crawler.visited == {}
    {
      var crawler := new EnhancedCrawler(url);
      var session := Session(crawler, false, None, now, Some(now), url);
      var table := sessions[sessionId := session];
      forall id | id in table
        ensures table[id].crawler.totalUrls == 0
      {
        if id != sessionId {
          assert table[id] == sessions[id];
        }
      }
      sessions := table;
    }

    /**
     * `progress`: an unknown id gets the fixed "not found" reply, which
     * claims completion; a known session has its last access set to `now`
     * and reports its crawler's counts, with percentage 100 once finished
     * and 0 before, since `total_urls` stays zero.
     */
    method Progress(sessionId: string, now: int) returns (reply: ProgressReply)
      requires Valid()
      modifies this
      ensures Valid()
      ensures sessionId !in old(sessions) ==> reply == UnknownSession && sessions == old(sessions)
      ensures sessionId in old(sessions) ==>
        var s := old(sessions)[sessionId];
        sessions == old(sessions)[sessionId := s.(lastAccess := Some(now))] &&
        reply.completed == s.completed &&
        reply.percentage == (if s.completed then 100 else 0) &&
        reply.crawledUrls == |s.crawler.visited| && reply.visitedUrls == s.crawler.visited &&
        reply.totalUrls == 0 && reply.error == s.error && reply.url == Some(s.url)
    {
      if sessionId !in sessions {
        return UnknownSession;
      }
      var s := sessions[sessionId];
      var crawler := s.crawler;
      sessions := sessions[sessionId := s.(lastAccess := Some(now))];
      var percentage: nat;
      if s.completed {
        percentage := 100;
      } else if crawler.totalUrls > 0 {
        // `len(visited) / total_urls * 100`: a float the table's invariant rules out.
        assert false;
      } else {
        percentage := 0;
      }
      reply := ProgressReply(None, |crawler.visited|, crawler.totalUrls, crawler.visited, s.completed,
                             percentage, s.error, Some(s.url));
    }

    /**
     * `download_csv`: for a known session whose crawler recorded titles, a
     * header row and then one row per visited URL in ascending order, with
     * its recorded title or the "not found" title.  The ghost `listing` is
     * the order of the URL rows.
     */
    method CsvExport(sessionId: string) returns (reply: CsvReply, ghost listing: seq<string>)
      ensures sessionId !in sessions ==> reply == CsvMissing(404, NoSessionForCsv)
      ensures sessionId in sessions && sessions[sessionId].crawler.urlData == map[] ==>
        reply == CsvMissing(404, NoDataForCsv)
      ensures sessionId in sessions && sessions[sessionId].crawler.urlData != map[] ==>
        var crawler := sessions[sessionId].crawler;
        reply.CsvRows? && |reply.rows| == |crawler.visited| + 1 && reply.rows[0] == CsvHeader &&
        StrictlyAscending(listing) && |listing| == |crawler.visited| &&
        (forall u :: u in listing <==> u in crawler.visited) &&
        forall i | 0 <= i < |listing| :: reply.rows[i + 1] == [listing[i], TitleOf(crawler.urlData, listing[i])]
    {
      listing := [];
      if sessionId !in sessions {
        return CsvMissing(404, NoSessionForCsv), listing;
      }
      var crawler := sessions[sessionId].crawler;
      if crawler.urlData == map[] {
        return CsvMissing(404, NoDataForCsv), listing;
      }
      var urls := Sorted(crawler.visited);
      var rows := [CsvHeader];
      for i := 0 to |urls|
        invariant |rows| == i + 1 && rows[0] == CsvHeader
        invariant forall k | 0 <= k < i :: rows[k + 1] == [urls[k], TitleOf(crawler.urlData, urls[k])]
      {
        rows := rows + [[urls[i], TitleOf(crawler.urlData, urls[i])]];
      }
      reply := CsvRows(rows);
      listing := urls;
    }
  }

  /** The cleanup never drops a session that is still crawling, nor one accessed within the last 1200 seconds. */
  lemma KeptByCleanup(s: Session, now: int)
    requires !s.completed || now - LastAccess(s) <= SessionLifetime
    ensures !Expired(s, now)
  {
  }
}
