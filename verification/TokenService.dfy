/** TokenService and CleanupService as they are written, over one token table, with other
    requests, the cleanup and the discovery cache moving in between. Every execution is a
    run of the state machine of Tokens. */
module TokenServiceModel {
  import opened Wrappers
  import opened Permissions
  import opened Placeholders
  import opened DiscoveryServiceModel
  import L = LockTable
  import D = Discovery
  import T = Tokens
  import U = EditorURL

  // The documents of file-service and the decisions of the authorization service.
  datatype DocumentLookup = LookupError | NoDocument | Document(mimeType: string)

  datatype Check = CheckError | Denied | Allowed

  datatype Resolution =
    | Resolved(editorURL: string)
    | NoDiscovery
    | FetchFailed
    | UnsupportedMIME
    | NoAction
    | MalformedURL

  datatype Issuance =
    | Issued(token: string, ttlMs: int, wopiSrc: string, editorURL: string)
    | DocumentLookupFailed
    | DocumentNotFound
    | ReadCheckFailed
    | NotAuthorized
    | NoRandomness
    | Unresolved(why: Resolution)
    | PersistFailed

  const MIME_TO_EXTENSION: map<string, string> :=
    map["application/vnd.openxmlformats-officedocument.wordprocessingml.document" := "docx",
        "application/msword" := "doc",
        "application/vnd.oasis.opendocument.text" := "odt",
        "application/vnd.openxmlformats-officedocument.spreadsheetml.sheet" := "xlsx",
        "application/vnd.ms-excel" := "xls",
        "application/vnd.oasis.opendocument.spreadsheet" := "ods",
        "application/vnd.openxmlformats-officedocument.presentationml.presentation" := "pptx",
        "application/vnd.ms-powerpoint" := "ppt",
        "application/vnd.oasis.opendocument.presentation" := "odp",
        T.MIME_TYPE_PDF := "pdf",
        "text/plain" := "txt",
        "text/csv" := "csv"]

  class TokenRepository {
    var rows: T.TokenTable

    constructor ()
      ensures rows == map[]
    {
      rows := map[];
    }

    method Create(row: T.AccessToken, link: L.Link) returns (failed: bool)
      modifies this
      ensures rows == if link == L.DownBefore || row.token in old(rows) then old(rows) else old(rows)[row.token := row]
      ensures failed <==> link != L.Up || row.token in old(rows)
    {
      failed := link != L.Up || row.token in rows;
      if link != L.DownBefore && row.token !in rows {
        rows := rows[row.token := row];
      }
    }

    method FindByToken(tokenValue: string, link: L.Link) returns (row: Option<T.AccessToken>, failed: bool)
      ensures failed <==> link != L.Up
      ensures row == if !failed && tokenValue in rows then Some(rows[tokenValue]) else None
    {
      failed := link != L.Up;
      row := if !failed && tokenValue in rows then Some(rows[tokenValue]) else None;
    }

    method DeleteExpired(now: int, link: L.Link) returns (deleted: nat)
      modifies this
      ensures rows == if link == L.DownBefore then old(rows) else T.Sweep(old(rows), now)
      ensures forall t :: t in rows <==> t in old(rows) && (link != L.DownBefore ==> old(rows)[t].expiresAt >= now)
      ensures forall t :: t in rows ==> rows[t] == old(rows)[t]
      ensures deleted == if link != L.Up then 0 else |old(rows)| - |rows|
    {
      if link == L.DownBefore {
        return 0;
      }
      var before := rows;
      rows := map token | token in rows && rows[token].expiresAt >= now :: rows[token];
      assert rows.Keys <= before.Keys;
      L.SubsetSize(rows.Keys, before.Keys);
      assert |rows.Keys| == |rows| && |before.Keys| == |before|;
      deleted := if link != L.Up then 0 else |before| - |rows|;
    }
  }

  // Request c has created nothing since the run had n events.
  ghost predicate NoneBy(c: nat, evs: seq<T.Event>, n: nat) {
    forall i :: n <= i < |evs| && evs[i].Create? ==> evs[i].c != c
  }

  // The i-th event is the only creation of request c since the run had n events.
  ghost predicate OnlyBy(c: nat, evs: seq<T.Event>, n: nat, i: nat) {
    n <= i < |evs| && evs[i].Create? && evs[i].c == c && NoneBy(c, evs[..i], n) && NoneBy(c, evs, i + 1)
  }

  class TokenService {
    const tokenRepo: TokenRepository
    const discoverySvc: DiscoveryService?
    const baseURL: string      // where browsers find the editor
    const callbackURL: string  // where Collabora finds this service
    const parseURL: string -> Option<string> // url.Parse: the path with the raw query, or an error
    const lib: U.Library
    var now: int
    ghost var events: seq<T.Event>

    ghost function Repr(): set<object> {
      {this, tokenRepo} + (if discoverySvc == null then {} else {discoverySvc})
    }

    ghost function View(): T.State
      reads this, tokenRepo
    {
      T.State(now, tokenRepo.rows)
    }

    ghost predicate Valid()
      reads Repr()
    {
      View() == T.Exec(events) && (discoverySvc != null ==> discoverySvc.Valid())
    }

    constructor (repo: TokenRepository, discovery: DiscoveryService?, base: string, callback: string,
                 parse: string -> Option<string>, library: U.Library)
      requires repo.rows == map[] && (discovery != null ==> discovery.Valid())
      ensures Valid() && tokenRepo == repo && discoverySvc == discovery && events == []
      ensures baseURL == U.TrimSlash(base) && callbackURL == U.TrimSlash(callback)
      ensures parseURL == parse && lib == library
    {
      tokenRepo, discoverySvc, parseURL, lib, now, events := repo, discovery, parse, library, 0, [];
      baseURL, callbackURL := U.TrimSlash(base), U.TrimSlash(callback);
    }

    method Note(ghost was: T.State, ghost e: T.Event)
      requires was == T.Exec(events) && View() == T.Step(was, e)
      requires discoverySvc != null ==> discoverySvc.Valid()
      modifies this`events
      ensures Valid() && events == old(events) + [e]
    {
      T.ExecAppend(events, e);
      events := events + [e];
    }

    // Everyone else: time, sweeps, the creations of other requests.
    method Others(c: nat)
      requires Valid()
      modifies this, tokenRepo
      ensures Valid() && old(events) <= events && NoneBy(c, events, |old(events)|)
    {
      var schedule: seq<T.Event> := *;
      for i := 0 to |schedule|
        invariant Valid() && old(events) <= events && NoneBy(c, events, |old(events)|)
      {
        var e := schedule[i];
        if !(e.Create? && e.c == c) {
          var was := T.State(now, tokenRepo.rows);
          var next := T.Step(was, e);
          now, tokenRepo.rows := next.now, next.rows;
          Note(was, e);
        }
      }
    }

    /** ValidateToken: its answer is the right one at some instant between call and return,
        although it reads the table and the clock at different instants. */
    method ValidateToken(c: nat, tokenValue: string, link: L.Link) returns (row: Option<T.AccessToken>, failed: bool)
      requires Valid()
      modifies this, tokenRepo
      ensures Valid() && old(events) <= events
      ensures failed <==> link != L.Up
      ensures failed ==> row == None
      ensures !failed ==> exists k :: |old(events)| <= k <= |events| && row == T.Answer(T.At(events, k), tokenValue)
    {
      row, failed := tokenRepo.FindByToken(tokenValue, link);
      ghost var n := |events|;
      assert events[..n] == events;
      Others(c);
      assert events[..n] == old(events) && events[..|events|] == events;
      if row == None {
        assert !failed ==> row == T.Answer(T.At(events, n), tokenValue);
        return;
      }
      if T.IsExpired(row.value, now) {
        Lapsed(n, tokenValue);
        row := None;
        return;
      }
      T.RowsSurvive(events, n, |events|, tokenValue);
      assert row == T.Answer(T.At(events, |events|), tokenValue);
    }

    // A row found in the table whose time is over by now validates to nothing now.
    ghost method Lapsed(n: nat, tokenValue: string)
      requires Valid() && n <= |events| && tokenValue in T.At(events, n).rows
      requires T.IsExpired(T.At(events, n).rows[tokenValue], now)
      ensures exists k :: n <= k <= |events| && T.Answer(T.At(events, k), tokenValue) == None
    {
      assert events[..|events|] == events;
      T.LapsesOnce(events, n, |events|, tokenValue);
    }

    ghost function DiscoverySteps(): nat
      reads this, discoverySvc
    {
      if discoverySvc == null then 0 else |discoverySvc.events|
    }

    // The one reason why there is no editor URL: there is no discovery at all; it failed, and
    // nothing was cached at some instant since its run had n events; the document is of no
    // type that has an editor; Collabora has no action for it; or the action's URL is malformed.
    ghost predicate LeadsNowhere(mimeType: string, canWrite: bool, why: Resolution, n: nat)
      reads this, discoverySvc
    {
      if discoverySvc == null then why == NoDiscovery
      else match why
           case NoDiscovery => false
           case FetchFailed => discoverySvc.WasEmptySince(n)
           case UnsupportedMIME => discoverySvc.cached.Some? && mimeType !in MIME_TO_EXTENSION
           case NoAction =>
             && discoverySvc.cached.Some? && mimeType in MIME_TO_EXTENSION
             && D.IsChoice(discoverySvc.cached.value.actions, MIME_TO_EXTENSION[mimeType], canWrite, None)
           case MalformedURL =>
             && discoverySvc.cached.Some? && mimeType in MIME_TO_EXTENSION
             && var actions := discoverySvc.cached.value.actions;
                (exists k :: 0 <= k < |actions| && D.IsChoice(actions, MIME_TO_EXTENSION[mimeType], canWrite, Some(k))
                             && parseURL(actions[k].urlSrc) == None)
           case Resolved(_) => false
    }

    method ResolveEditorURL(mimeType: string, canWrite: bool, params: U.Params) returns (res: Resolution)
      requires Valid()
      modifies Repr() - {this, tokenRepo}
      ensures Valid()
      ensures !res.Resolved? ==> LeadsNowhere(mimeType, canWrite, res, old(DiscoverySteps()))
      ensures res.Resolved? ==> LeadsToEditor(mimeType, canWrite, params, res.editorURL)
    {
      if discoverySvc == null {
        return NoDiscovery;
      }
      var reply: Option<D.Data> := *;
      var data := discoverySvc.GetDiscovery(reply);
      if data == None {
        return FetchFailed;
      }
      discoverySvc.Others();
      if mimeType !in MIME_TO_EXTENSION {
        return UnsupportedMIME;
      }
      var found := discoverySvc.FindActionByExtension(MIME_TO_EXTENSION[mimeType], canWrite);
      if !found.Found? {
        return NoAction;
      }
      var parsed := parseURL(found.action.urlSrc);
      if parsed == None {
        return MalformedURL;
      }
      StripIsANormalForm(parsed.value);
      var editorURL := BuildEditorURL(parsed.value, params);
      ghost var actions := discoverySvc.cached.value.actions;
      ghost var k :| 0 <= k < |actions| && found.action == actions[k]
                     && D.IsChoice(actions, MIME_TO_EXTENSION[mimeType], canWrite, Some(k));
      assert Chosen(actions, MIME_TO_EXTENSION[mimeType], canWrite, k, params, editorURL);
      return Resolved(editorURL);
    }

    // buildEditorURL, from the path and query that Collabora advertises.
    method BuildEditorURL(path: string, params: U.Params) returns (editorURL: string)
      ensures editorURL == U.Build(lib, baseURL, StripFrom(path, 0), params)
      ensures editorURL == baseURL + StripFrom(path, 0) + (if '?' in StripFrom(path, 0) then "&" else "?")
                           + "WOPISrc=" + lib.escape(params.wopiSrc)
                           + "&access_token=" + lib.escape(params.accessToken)
                           + "&access_token_ttl=" + lib.decimal(params.ttlMs)
                           + (if params.lang == "" then "" else "&lang=" + lib.escape(params.lang))
    {
      var editorPath := StripWOPIPlaceholders(path);
      var sep := "?";
      if '?' in editorPath {
        sep := "&";
      }
      editorURL := baseURL + editorPath + sep + "WOPISrc=" + lib.escape(params.wopiSrc)
                   + "&access_token=" + lib.escape(params.accessToken)
                   + "&access_token_ttl=" + lib.decimal(params.ttlMs);
      ghost var front := editorURL;
      if params.lang != "" {
        editorURL := editorURL + ("&lang=" + lib.escape(params.lang));
      }
      assert editorURL == front + U.LangPart(lib, params.lang);
      U.BuildIs(lib, baseURL + editorPath + sep, params);
    }

    // The URL is that of the one action FindActionByExtension has to choose, without its
    // placeholders, for these parameters.
    ghost predicate LeadsToEditor(mimeType: string, canWrite: bool, params: U.Params, editorURL: string)
      reads this, discoverySvc
    {
      && mimeType in MIME_TO_EXTENSION && discoverySvc != null && discoverySvc.cached.Some?
      && var actions := discoverySvc.cached.value.actions;
         exists k :: Chosen(actions, MIME_TO_EXTENSION[mimeType], canWrite, k, params, editorURL)
    }

    ghost predicate Chosen(actions: seq<D.Action>, ext: string, canWrite: bool, k: int, params: U.Params,
                           editorURL: string)
    {
      && 0 <= k < |actions| && D.IsChoice(actions, ext, canWrite, Some(k))
      && var parsed := parseURL(actions[k].urlSrc);
         parsed.Some? && var editorPath := StripFrom(parsed.value, 0);
         !HasPlaceholder(editorPath) && editorURL == U.Build(lib, baseURL, editorPath, params)
    }

    /** IssueToken for request c. A row is asked for only when everything else has worked;
        it then holds exactly the permissions that were found. */
    method IssueToken(c: nat, actorID: string, actorName: string, documentID: string, lang: string,
                      doc: DocumentLookup, read: Check, write: Check, random: Option<string>)
      returns (res: Issuance)
      requires Valid()
      modifies Repr()
      ensures Valid() && old(events) <= events
      ensures res == DocumentLookupFailed <==> doc == LookupError
      ensures res == DocumentNotFound <==> doc == NoDocument
      ensures res == ReadCheckFailed <==> doc.Document? && read == CheckError
      ensures res == NotAuthorized <==> doc.Document? && read == Denied
      ensures res == NoRandomness <==> doc.Document? && read == Allowed && random == None
      ensures !res.Issued? && res != PersistFailed ==> NoneBy(c, events, |old(events)|)
      ensures res.Unresolved? ==>
                && doc.Document? && read == Allowed && random.Some?
                && LeadsNowhere(doc.mimeType, doc.mimeType != "application/pdf" && write == Allowed, res.why,
                                old(DiscoverySteps()))
      ensures res.Issued? || res == PersistFailed ==>
                && doc.Document? && read == Allowed && random.Some?
                && var grant := T.Grant(documentID, actorID, actorName, doc.mimeType, write == Allowed);
                   AskedOnce(c, |old(events)|, grant, random.value, res)
      ensures res.Issued? ==>
                && res.wopiSrc == callbackURL + "/wopi/files/" + documentID
                && var canWrite := doc.mimeType != "application/pdf" && write == Allowed;
                   var params := U.Params(res.wopiSrc, res.token, res.ttlMs, lang);
                   LeadsToEditor(doc.mimeType, canWrite, params, res.editorURL)
    {
      Others(c);
      if doc == LookupError {
        return DocumentLookupFailed;
      }
      if doc == NoDocument {
        return DocumentNotFound;
      }
      if read == CheckError {
        return ReadCheckFailed;
      }
      if read == Denied {
        return NotAuthorized;
      }
      var permissions := READ_ONLY;
      if doc.mimeType != T.MIME_TYPE_PDF {
        if write == Allowed {
          permissions := READ_WRITE;
        }
      }
      if random == None {
        return NoRandomness;
      }
      ghost var grant := T.Grant(documentID, actorID, actorName, doc.mimeType, write == Allowed);
      ghost var n := |events|;
      res := Mint(c, grant, random.value, documentID, actorID, actorName, doc.mimeType, permissions, lang);
      Earlier(c, |old(events)|, n, grant, random.value, res);
    }

    // Request c has asked for its row once since the run had n events; if it was issued, the
    // row is in the table, and the caller got its token and its expiry in milliseconds.
    ghost predicate AskedOnce(c: nat, n: nat, grant: T.Grant, token: string, res: Issuance)
      reads this
    {
      n <= |events| &&
      exists i: nat :: OnlyBy(c, events, n, i) && events[i].grant == grant && events[i].token == token
                       && T.At(events, n).now <= events[i].issuedAt
                       && (if res.Issued? then Delivered(i, res) else Undelivered(i))
    }

    ghost predicate Delivered(i: nat, res: Issuance)
      requires i < |events| && events[i].Create? && res.Issued?
      reads this
    {
      && T.Stored(events, i) && res.token == events[i].token
      && res.ttlMs == (events[i].issuedAt + 28_800_000_000) / 1000
    }

    // The table reported an error, or held this token value already.
    ghost predicate Undelivered(i: nat)
      requires i < |events| && events[i].Create?
      reads this
    {
      events[i].link != L.Up || events[i].token in T.At(events, i).rows
    }

    // Nothing that request c did falls between n and m.
    lemma Earlier(c: nat, n: nat, m: nat, grant: T.Grant, token: string, res: Issuance)
      requires n <= m <= |events| && NoneBy(c, events[..m], n)
      ensures NoneBy(c, events, m) ==> NoneBy(c, events, n)
      ensures AskedOnce(c, m, grant, token, res) ==> AskedOnce(c, n, grant, token, res)
    {
      assert forall i :: n <= i < m ==> events[..m][i] == events[i];
      if AskedOnce(c, m, grant, token, res) {
        T.TimePasses(events, n, m);
        var i: nat :| OnlyBy(c, events, m, i) && events[i].grant == grant && events[i].token == token
                      && T.At(events, m).now <= events[i].issuedAt
                      && (if res.Issued? then Delivered(i, res) else Undelivered(i));
        assert NoneBy(c, events[..i], n);
        assert OnlyBy(c, events, n, i);
      }
    }

    // The part of IssueToken that samples the clock, resolves the editor URL and stores the row.
    method Mint(c: nat, ghost grant: T.Grant, token: string, documentID: string, actorID: string, actorName: string,
                mimeType: string, permissions: string, lang: string)
      returns (res: Issuance)
      requires Valid()
      requires forall t :: T.Minted(grant, token, t)
                           == T.AccessToken(token, documentID, actorID, actorName, permissions, t + T.TOKEN_TTL, t)
      modifies Repr()
      ensures Valid() && old(events) <= events
      ensures res.Issued? || res == PersistFailed || res.Unresolved?
      ensures res.Unresolved? ==> NoneBy(c, events, |old(events)|)
      ensures res.Unresolved? ==> LeadsNowhere(mimeType, permissions == READ_WRITE, res.why, old(DiscoverySteps()))
      ensures !res.Unresolved? ==> AskedOnce(c, |old(events)|, grant, token, res)
      ensures res.Issued? ==>
                && res.wopiSrc == callbackURL + "/wopi/files/" + documentID
                && LeadsToEditor(mimeType, permissions == READ_WRITE,
                                 U.Params(res.wopiSrc, res.token, res.ttlMs, lang), res.editorURL)
    {
      hide T.Exec, T.Step, LeadsNowhere, T.Stored;
      var t := now;
      ghost var n := |events|;
      NowIs();
      assert events[..n] == events;
      Others(c);
      T.TimePasses(events, n, |events|);
      NowIs();
      assert events[..n] == old(events);
      var wopiSrc, ttlMs := U.WOPISrc(callbackURL, documentID), (t + T.TOKEN_TTL) / 1000;
      var params := U.Params(wopiSrc, token, ttlMs, lang);
      var resolution := ResolveEditorURL(mimeType, permissions == READ_WRITE, params);
      if !resolution.Resolved? {
        return Unresolved(resolution);
      }
      ghost var i := |events|;
      var failed := Persist(c, grant, T.AccessToken(token, documentID, actorID, actorName, permissions,
                                                    t + T.TOKEN_TTL, t), t);
      res := if failed then PersistFailed else Issued(token, ttlMs, wopiSrc, resolution.editorURL);
      assert events[..i] == events[..|events| - 1] && events[..n] == old(events);
      assert OnlyBy(c, events, n, i);
    }

    lemma NowIs()
      requires Valid()
      ensures T.At(events, |events|).now == now
    {
      assert events[..|events|] == events;
    }

    method Persist(c: nat, ghost grant: T.Grant, row: T.AccessToken, t: int) returns (failed: bool)
      requires Valid() && t <= now && row == T.Minted(grant, row.token, t)
      modifies tokenRepo, this`events
      ensures Valid() && |events| == |old(events)| + 1 && old(events) <= events
      ensures var e := events[|old(events)|];
              && e.Create? && e.c == c && e.grant == grant && e.token == row.token && e.issuedAt == t
              && (if failed then Undelivered(|old(events)|) else T.Stored(events, |old(events)|))
    {
      var link: L.Link := *;
      ghost var was := View();
      failed := tokenRepo.Create(row, link);
      Note(was, T.Create(c, grant, row.token, t, link));
      assert events[..|old(events)|] == old(events);
    }
  }

  /** CleanupService.run: both tables are swept, the second whatever becomes of the first. */
  class CleanupService {
    const tokenRepo: TokenRepository
    const lockRepo: L.LockRepository

    constructor (tokens: TokenRepository, locks: L.LockRepository)
      ensures tokenRepo == tokens && lockRepo == locks
    {
      tokenRepo, lockRepo := tokens, locks;
    }

    // Each sweep runs at its own instant, and either may fail.
    method Run(now: int, tokenLink: L.Link, later: int, lockLink: L.Link)
      returns (tokensDeleted: nat, locksDeleted: nat)
      modifies tokenRepo, lockRepo
      ensures tokenRepo.rows == T.Step(T.State(now, old(tokenRepo.rows)), T.CleanUp(tokenLink)).rows
      ensures lockRepo.rows
           == if lockLink == L.DownBefore then old(lockRepo.rows) else L.Sweep(old(lockRepo.rows), later)
      ensures forall t :: t in tokenRepo.rows <==>
                t in old(tokenRepo.rows) && (tokenLink != L.DownBefore ==> old(tokenRepo.rows)[t].expiresAt >= now)
      ensures forall f :: f in lockRepo.rows <==>
                f in old(lockRepo.rows) && (lockLink != L.DownBefore ==> old(lockRepo.rows)[f].expiresAt >= later)
      ensures forall t :: t in tokenRepo.rows ==> tokenRepo.rows[t] == old(tokenRepo.rows)[t]
      ensures forall f :: f in lockRepo.rows ==> lockRepo.rows[f] == old(lockRepo.rows)[f]
      ensures tokenLink == L.Up ==> |tokenRepo.rows| + tokensDeleted == |old(tokenRepo.rows)|
      ensures lockLink == L.Up ==> |lockRepo.rows| + locksDeleted == |old(lockRepo.rows)|
    {
      tokensDeleted := tokenRepo.DeleteExpired(now, tokenLink);
      locksDeleted := lockRepo.DeleteExpired(later, lockLink);
    }
  }
}
