/** The access-token table under issuance, validation and cleanup, as a state machine. */
module Tokens {
  import opened Wrappers
  import opened Permissions
  import opened LockTable

  const TOKEN_TTL: int := 8 * 60 * 60 * 1_000_000

  const MIME_TYPE_PDF := "application/pdf"

  // What the lookups of IssueToken found out about one request.
  datatype Grant = Grant(fileId: string, actorId: string, actorName: string, mimeType: string, mayWrite: bool)

  datatype AccessToken = AccessToken(token: string, fileId: string, actorId: string, actorName: string,
                                     permissions: string, expiresAt: int, createdAt: int)

  // access_tokens, by its unique column `token`.
  type TokenTable = map<string, AccessToken>

  datatype State = State(now: int, rows: TokenTable)

  datatype Event =
    | Tick(delta: int)
    | Create(c: nat, grant: Grant, token: string, issuedAt: int, link: Link)
    | CleanUp(link: Link)

  // The row that request `grant` asks for: a PDF is read-only for everybody.
  function Minted(grant: Grant, token: string, issuedAt: int): AccessToken {
    var permissions := if grant.mimeType != MIME_TYPE_PDF && grant.mayWrite then READ_WRITE else READ_ONLY;
    AccessToken(token, grant.fileId, grant.actorId, grant.actorName, permissions, issuedAt + TOKEN_TTL, issuedAt)
  }

  function Sweep(rows: TokenTable, now: int): TokenTable {
    map token | token in rows && rows[token].expiresAt >= now :: rows[token]
  }

  function Init(): State {
    State(0, map[])
  }

  // A token value that is in the table already violates the unique constraint.
  function Step(s: State, e: Event): State {
    match e
    case Tick(delta) => if delta > 0 then s.(now := s.now + delta) else s
    case Create(_, grant, token, issuedAt, link) =>
      if link == DownBefore || token in s.rows || issuedAt > s.now then s
      else s.(rows := s.rows[token := Minted(grant, token, issuedAt)])
    case CleanUp(link) => if link == DownBefore then s else s.(rows := Sweep(s.rows, s.now))
  }

  function Exec(evs: seq<Event>): State {
    if evs == [] then Init() else Step(Exec(evs[..|evs| - 1]), evs[|evs| - 1])
  }

  function At(evs: seq<Event>, i: nat): State
    requires i <= |evs|
  {
    Exec(evs[..i])
  }

  lemma NextState(evs: seq<Event>, i: nat)
    requires i < |evs|
    ensures At(evs, i + 1) == Step(At(evs, i), evs[i])
  {
    assert evs[..i + 1][..i] == evs[..i];
  }

  lemma ExecAppend(evs: seq<Event>, e: Event)
    ensures Exec(evs + [e]) == Step(Exec(evs), e)
  {
    assert (evs + [e])[..|evs|] == evs;
  }

  predicate IsExpired(row: AccessToken, now: int) {
    now > row.expiresAt
  }

  // What ValidateToken answers when it runs in one instant.
  function Answer(s: State, token: string): Option<AccessToken> {
    if token in s.rows && !IsExpired(s.rows[token], s.now) then Some(s.rows[token]) else None
  }

  /** crypto/rand never hands out the same 32 bytes twice. */
  ghost predicate FreshTokens(evs: seq<Event>) {
    forall i, j :: 0 <= i < j < |evs| && evs[i].Create? && evs[j].Create? ==> evs[i].token != evs[j].token
  }

  function WithoutSweeps(evs: seq<Event>): seq<Event> {
    if evs == [] then []
    else
      var n := |evs| - 1;
      WithoutSweeps(evs[..n]) + (if evs[n].CleanUp? then [] else [evs[n]])
  }

  // s after some sweeps, u after fewer of them: u only has more expired rows.
  ghost predicate Swept(s: State, u: State) {
    && s.now == u.now
    && (forall t :: t in s.rows ==> t in u.rows && u.rows[t] == s.rows[t])
    && (forall t :: t in u.rows && t !in s.rows ==> u.rows[t].expiresAt < s.now)
  }

  ghost predicate OnlyCreated(s: State, evs: seq<Event>) {
    forall t :: t in s.rows ==> exists i :: 0 <= i < |evs| && evs[i].Create? && evs[i].token == t
  }

  lemma SweptStep(s: State, u: State, e: Event)
    requires Swept(s, u) && !e.CleanUp?
    requires e.Create? ==> e.token !in u.rows
    ensures Swept(Step(s, e), Step(u, e))
  {
  }

  lemma {:induction false} RunWithoutSweeps(evs: seq<Event>)
    requires FreshTokens(evs)
    ensures Swept(Exec(evs), Exec(WithoutSweeps(evs)))
    ensures OnlyCreated(Exec(WithoutSweeps(evs)), evs)
  {
    if evs != [] {
      var n := |evs| - 1;
      var e, u := evs[n], Exec(WithoutSweeps(evs[..n]));
      RunWithoutSweeps(evs[..n]);
      if e.CleanUp? {
        assert WithoutSweeps(evs) == WithoutSweeps(evs[..n]);
      } else {
        ExecAppend(WithoutSweeps(evs[..n]), e);
        SweptStep(Exec(evs[..n]), u, e);
      }
      CreatedStep(u, evs);
    }
  }

  lemma CreatedStep(u: State, evs: seq<Event>)
    requires evs != [] && OnlyCreated(u, evs[..|evs| - 1])
    ensures OnlyCreated(u, evs)
    ensures OnlyCreated(Step(u, evs[|evs| - 1]), evs)
  {
    var n := |evs| - 1;
    forall t | t in u.rows ensures exists i :: 0 <= i < |evs| && evs[i].Create? && evs[i].token == t {
      var i :| 0 <= i < n && evs[..n][i].Create? && evs[..n][i].token == t;
      assert evs[i].Create? && evs[i].token == t;
    }
  }

  /** A sweep removes exactly the rows that expired before now. */
  lemma SweepsTakeTheExpired(evs: seq<Event>, i: nat, token: string)
    requires i < |evs| && evs[i].CleanUp?
    ensures token in At(evs, i + 1).rows <==>
              && token in At(evs, i).rows
              && (evs[i].link != DownBefore ==> At(evs, i).rows[token].expiresAt >= At(evs, i).now)
    ensures token in At(evs, i + 1).rows ==> At(evs, i + 1).rows[token] == At(evs, i).rows[token]
  {
    NextState(evs, i);
  }

  /** Two runs that differ only in when, and whether, the cleanup sweeps them give the same
      answer for every token value; so no sweep changes what any validation answers, then or
      at any later time. */
  lemma SweepsAreInvisible(a: seq<Event>, b: seq<Event>, token: string)
    requires FreshTokens(a) && FreshTokens(b) && WithoutSweeps(a) == WithoutSweeps(b)
    ensures Answer(Exec(a), token) == Answer(Exec(b), token)
  {
    RunWithoutSweeps(a);
    RunWithoutSweeps(b);
  }

  lemma WithoutSweepsAppend(evs: seq<Event>, e: Event)
    ensures WithoutSweeps(evs + [e]) == WithoutSweeps(evs) + (if e.CleanUp? then [] else [e])
  {
    assert (evs + [e])[..|evs|] == evs;
  }

  function IssueAndExpire(grant: Grant, token: string): seq<Event> {
    [Create(0, grant, token, 0, Up)] + [Tick(TOKEN_TTL + 1)]
  }

  function IssueAgain(grant: Grant, token: string): Event {
    Create(1, grant, token, TOKEN_TTL + 1, Up)
  }

  /** It is freshness that makes this so: if a token value came up again after it had
      expired, a sweep in between would decide whether it can be issued. */
  lemma ReusedTokenShowsTheSweep(grant: Grant, token: string)
    ensures var a := IssueAndExpire(grant, token) + [CleanUp(Up)] + [IssueAgain(grant, token)];
            && Answer(Exec(a), token).Some?
            && Answer(Exec(WithoutSweeps(a)), token) == None
  {
    var expired := IssueAndExpire(grant, token);
    Expired(grant, token);
    ExecAppend(expired, CleanUp(Up));
    ExecAppend(expired + [CleanUp(Up)], IssueAgain(grant, token));
    ExecAppend(expired, IssueAgain(grant, token));
    WithoutSweepsAppend(expired, CleanUp(Up));
    WithoutSweepsAppend(expired + [CleanUp(Up)], IssueAgain(grant, token));
    assert WithoutSweeps(expired + [CleanUp(Up)] + [IssueAgain(grant, token)]) == expired + [IssueAgain(grant, token)];
  }

  lemma Expired(grant: Grant, token: string)
    ensures Exec(IssueAndExpire(grant, token)) == State(TOKEN_TTL + 1, map[token := Minted(grant, token, 0)])
    ensures WithoutSweeps(IssueAndExpire(grant, token)) == IssueAndExpire(grant, token)
  {
    var issue := Create(0, grant, token, 0, Up);
    ExecAppend([], issue);
    ExecAppend([issue], Tick(TOKEN_TTL + 1));
    WithoutSweepsAppend([], issue);
    WithoutSweepsAppend([issue], Tick(TOKEN_TTL + 1));
    assert [] + [issue] == [issue];
  }

  lemma {:induction false} TimePasses(evs: seq<Event>, i: nat, j: nat)
    requires i <= j <= |evs|
    ensures At(evs, i).now <= At(evs, j).now
    decreases j
  {
    if i < j {
      TimePasses(evs, i, j - 1);
      NextState(evs, j - 1);
    }
  }

  /** A row lasts at least until it has expired, and never changes. */
  lemma {:induction false} RowsSurvive(evs: seq<Event>, i: nat, j: nat, token: string)
    requires i <= j <= |evs| && token in At(evs, i).rows
    requires At(evs, j).now <= At(evs, i).rows[token].expiresAt
    ensures token in At(evs, j).rows && At(evs, j).rows[token] == At(evs, i).rows[token]
    decreases j
  {
    if i < j {
      TimePasses(evs, j - 1, j);
      RowsSurvive(evs, i, j - 1, token);
      NextState(evs, j - 1);
    }
  }

  /** Once a row that was in the table has expired, there is an instant from then on at which
      its token value validates to nothing. */
  lemma {:induction false} LapsesOnce(evs: seq<Event>, i: nat, j: nat, token: string)
    requires i <= j <= |evs| && token in At(evs, i).rows
    requires IsExpired(At(evs, i).rows[token], At(evs, j).now)
    ensures exists k :: i <= k <= j && Answer(At(evs, k), token) == None
    decreases j - i
  {
    var row := At(evs, i).rows[token];
    if IsExpired(row, At(evs, i).now) {
      assert Answer(At(evs, i), token) == None;
    } else {
      NextState(evs, i);
      LapsesOnce(evs, i + 1, j, token);
    }
  }

  // The i-th event of the run put its row into the table.
  ghost predicate Stored(evs: seq<Event>, i: nat)
    requires i < |evs|
  {
    && evs[i].Create? && evs[i].link != DownBefore
    && evs[i].token !in At(evs, i).rows && evs[i].issuedAt <= At(evs, i).now
  }

  lemma {:induction false} RowsWereStored(evs: seq<Event>, j: nat, token: string)
    requires j <= |evs| && token in At(evs, j).rows
    ensures exists i :: 0 <= i < j && Stored(evs, i) && evs[i].token == token
                        && At(evs, j).rows[token] == Minted(evs[i].grant, token, evs[i].issuedAt)
    decreases j
  {
    if j > 0 {
      NextState(evs, j - 1);
      if token in At(evs, j - 1).rows {
        RowsWereStored(evs, j - 1, token);
      } else {
        assert Stored(evs, j - 1);
      }
    }
  }

  /** A token validates exactly while it has been issued and its eight hours are not over;
      and the row it validates to is the one its grant asked for. */
  lemma ValidExactlyForItsLifetime(evs: seq<Event>, j: nat, token: string, row: AccessToken)
    requires j <= |evs|
    ensures Answer(At(evs, j), token) == Some(row) <==>
              exists i :: 0 <= i < j && Stored(evs, i) && evs[i].token == token
                          && row == Minted(evs[i].grant, token, evs[i].issuedAt)
                          && At(evs, j).now <= evs[i].issuedAt + 28_800_000_000
  {
    if Answer(At(evs, j), token) == Some(row) {
      RowsWereStored(evs, j, token);
    }
    if i :| 0 <= i < j && Stored(evs, i) && evs[i].token == token
            && row == Minted(evs[i].grant, token, evs[i].issuedAt)
            && At(evs, j).now <= evs[i].issuedAt + 28_800_000_000 {
      NextState(evs, i);
      RowsSurvive(evs, i + 1, j, token);
    }
  }

  /** What a token that validates may do is what its issuance found: it may read, and it
      may write if and only if the document was no PDF and updating it was allowed. */
  lemma ValidTokensGrantWhatWasAllowed(evs: seq<Event>, j: nat, token: string)
    requires j <= |evs| && Answer(At(evs, j), token).Some?
    ensures exists i :: 0 <= i < j && Stored(evs, i) && evs[i].token == token
                        && Answer(At(evs, j), token).value == Minted(evs[i].grant, token, evs[i].issuedAt)
                        && var row, grant, granted := Answer(At(evs, j), token).value, evs[i].grant,
                                                      Split(Answer(At(evs, j), token).value.permissions);
                           && row.token == token && row.fileId == grant.fileId
                           && row.actorId == grant.actorId && row.actorName == grant.actorName
                           && row.createdAt == evs[i].issuedAt && row.expiresAt == evs[i].issuedAt + 28_800_000_000
                           && "read" in granted
                           && ("write" in granted <==> grant.mimeType != "application/pdf" && grant.mayWrite)
  {
    RowsWereStored(evs, j, token);
    MintedStrings("read");
    MintedStrings("write");
  }
}
