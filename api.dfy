/** The front end's HTTP client: a request interceptor that attaches the
    stored access token as a bearer header, and a response interceptor that
    answers a 401 by refreshing the token once and re-issuing the request.
    Browser storage is a pair of optional strings, the server and the
    refresh endpoint are functions supplied by the caller. */
module ApiClient {
  import opened Seqs

  /** `localStorage`'s `access_token` and `refresh_token` entries; `None` is
      an absent entry. */
  datatype Storage = Storage(access: Option<string>, refresh: Option<string>)

  /** An axios request configuration; `retry` is the `_retry` flag. */
  datatype Request = Request(url: string, headers: map<string, string>, retry: bool)

  /** What came back from the server: a status, or no response at all
      (a network error). */
  datatype Reply = Reply(status: int) | NoResponse

  /** axios resolves only 2xx replies. */
  predicate Succeeded(r: Reply)
  {
    r.Reply? && 200 <= r.status < 300
  }

  /** The result of posting the refresh token to `/api/auth/refresh/`. That
      call goes through plain axios, outside `api` and its interceptors, so
      it is a separate function here and never carries a bearer. */
  datatype Refresh = Refreshed(access: string) | RefreshFailed

  /** The promise a caller of `api` receives. */
  datatype Settled = Resolved(reply: Reply) | Rejected(error: Reply)

  /** One call through `api`: how it settled, every request that reached the
      server, how many refresh calls were made, the storage afterwards, and
      the location set, if any. */
  datatype Exchange = Exchange(settled: Settled, sent: seq<Request>, refreshes: nat,
                               storage: Storage, location: Option<string>)

  const AuthHeader := "Authorization"
  const LoginPath := "/login"

  /** A stored value is truthy when present and non-empty. */
  predicate Truthy(v: Option<string>)
  {
    v.Some? && v.value != ""
  }

  /** The request interceptor. */
  function AttachToken(req: Request, st: Storage): (r: Request)
    ensures Truthy(st.access) ==> r == req.(headers := req.headers[AuthHeader := "Bearer " + st.access.value])
    ensures !Truthy(st.access) ==> r == req
    ensures r.url == req.url && r.retry == req.retry
  {
    if Truthy(st.access) then req.(headers := req.headers[AuthHeader := "Bearer " + st.access.value])
    else req
  }

  /** `api(req)`: the request interceptor, the server, and on an error the
      response interceptor, which re-enters `api` at most once. */
  function Send(req: Request, st: Storage, server: Request -> Reply, refresher: string -> Refresh): (x: Exchange)
    ensures x.sent != [] && x.sent[0] == AttachToken(req, st)
    ensures Succeeded(server(AttachToken(req, st))) ==> x.settled == Resolved(server(AttachToken(req, st))) && x.storage == st
  {
    var sent := AttachToken(req, st);
    var reply := server(sent);
    if Succeeded(reply) then Exchange(Resolved(reply), [sent], 0, st, None)
    else if reply == Reply(401) && !sent.retry then
      var flagged := sent.(retry := true);
      if Truthy(st.refresh) then
        match refresher(st.refresh.value)
        case Refreshed(access) =>
          var st' := st.(access := Some(access));
          var again := AttachToken(flagged, st');
          var reply' := server(again);
          Exchange(if Succeeded(reply') then Resolved(reply') else Rejected(reply'), [sent, again], 1, st', None)
        case RefreshFailed =>
          Exchange(Rejected(reply), [sent], 1, Storage(None, None), Some(LoginPath))
      else Exchange(Rejected(reply), [sent], 0, st, None)
    else Exchange(Rejected(reply), [sent], 0, st, None)
  }

  /** At most one refresh and one retry per call, the first request sent is
      the original one with the stored token attached, and a second request
      is sent only after a refresh. */
  lemma AtMostOneRetry(req: Request, st: Storage, server: Request -> Reply, refresher: string -> Refresh)
    ensures var x := Send(req, st, server, refresher);
      1 <= |x.sent| <= 2 && x.refreshes <= 1 && x.sent[0] == AttachToken(req, st)
      && (|x.sent| == 2 ==> x.refreshes == 1 && x.sent[1].retry)
  {
  }

  /** A failure other than 401 is rejected as it came, and storage and
      location are untouched. */
  lemma OtherErrorsPassThrough(req: Request, st: Storage, server: Request -> Reply, refresher: string -> Refresh)
    requires var r := server(AttachToken(req, st)); !Succeeded(r) && r != Reply(401)
    ensures var x := Send(req, st, server, refresher);
      x == Exchange(Rejected(server(AttachToken(req, st))), [AttachToken(req, st)], 0, st, None)
  {
  }

  /** A 401 on a request already flagged `_retry` is rejected without a
      refresh and without clearing anything. */
  lemma FlaggedRequestNotRefreshed(req: Request, st: Storage, server: Request -> Reply, refresher: string -> Refresh)
    requires req.retry && !Succeeded(server(AttachToken(req, st)))
    ensures var x := Send(req, st, server, refresher);
      x.settled == Rejected(server(AttachToken(req, st))) && x.refreshes == 0 && x.storage == st && x.location == None
  {
  }

  /** Without a refresh token the 401 is rejected, storage is unchanged and
      there is no redirect. */
  lemma NoRefreshTokenRejects(req: Request, st: Storage, server: Request -> Reply, refresher: string -> Refresh)
    requires !Truthy(st.refresh) && server(AttachToken(req, st)) == Reply(401)
    ensures var x := Send(req, st, server, refresher);
      x.settled == Rejected(Reply(401)) && x.refreshes == 0 && x.storage == st && x.location == None
  {
  }

  /** A successful refresh stores the new access token and re-issues the
      original request, which carries the new bearer (when that token is
      non-empty) and settles as the server answers it. */
  lemma RefreshThenRetry(req: Request, st: Storage, server: Request -> Reply, refresher: string -> Refresh, access: string)
    requires !req.retry && Truthy(st.refresh) && server(AttachToken(req, st)) == Reply(401)
    requires refresher(st.refresh.value) == Refreshed(access) && access != ""
    ensures var x := Send(req, st, server, refresher);
      x.storage == st.(access := Some(access)) && |x.sent| == 2
      && x.sent[1].url == req.url && x.sent[1].headers[AuthHeader] == "Bearer " + access
      && (x.settled == Resolved(server(x.sent[1])) || x.settled == Rejected(server(x.sent[1])))
      && x.location == None
  {
  }

  /** A failed refresh removes both tokens, sends the browser to the login
      page and rejects the original error. */
  lemma FailedRefreshLogsOut(req: Request, st: Storage, server: Request -> Reply, refresher: string -> Refresh)
    requires !req.retry && Truthy(st.refresh) && server(AttachToken(req, st)) == Reply(401)
    requires refresher(st.refresh.value) == RefreshFailed
    ensures var x := Send(req, st, server, refresher);
      x == Exchange(Rejected(Reply(401)), [AttachToken(req, st)], 1, Storage(None, None), Some(LoginPath))
  {
  }

  /** With an empty new access token the retry still carries the bearer the
      first attempt had, because the interceptor skips an empty token and
      the header set on the first pass stays on the request. */
  lemma EmptyRefreshKeepsOldBearer(req: Request, server: Request -> Reply, refresher: string -> Refresh)
    requires !req.retry && server(AttachToken(req, Storage(Some("old"), Some("r")))) == Reply(401)
    requires refresher("r") == Refreshed("")
    ensures var x := Send(req, Storage(Some("old"), Some("r")), server, refresher);
      |x.sent| == 2 && x.sent[1].headers[AuthHeader] == "Bearer old"
  {
  }

  /** The browser side of the client: token storage and the location, which
      the interceptors write. */
  class Browser {
    var storage: Storage
    var location: Option<string>

    constructor(st: Storage)
      ensures storage == st && location == None
    {
      storage := st;
      location := None;
    }

    /** One call through `api`, step by step as the interceptors run it. */
    method Call(req: Request, server: Request -> Reply, refresher: string -> Refresh)
      returns (settled: Settled, sent: seq<Request>, refreshes: nat)
      modifies this
      ensures var x := Send(req, old(storage), server, refresher);
        settled == x.settled && sent == x.sent && refreshes == x.refreshes && storage == x.storage
        && location == (if x.location.Some? then x.location else old(location))
    {
      var config := req;
      var token := storage.access;
      if token.Some? && token.value != "" {
        config := config.(headers := config.headers[AuthHeader := "Bearer " + token.value]);
      }
      sent := [config];
      refreshes := 0;
      var reply := server(config);
      if Succeeded(reply) {
        settled := Resolved(reply);
        return;
      }
      if reply == Reply(401) && !config.retry {
        config := config.(retry := true);
        var refreshToken := storage.refresh;
        if refreshToken.Some? && refreshToken.value != "" {
          refreshes := 1;
          var r := refresher(refreshToken.value);
          if r.Refreshed? {
            storage := storage.(access := Some(r.access));
            if r.access != "" {
              config := config.(headers := config.headers[AuthHeader := "Bearer " + r.access]);
            }
            sent := sent + [config];
            var reply' := server(config);
            settled := if Succeeded(reply') then Resolved(reply') else Rejected(reply');
            return;
          } else {
            storage := Storage(None, None);
            location := Some(LoginPath);
          }
        }
      }
      settled := Rejected(reply);
    }
  }
}
