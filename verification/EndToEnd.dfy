/** From the decision of the authorization service to the bytes of the document. */
module EndToEnd {
  import opened Wrappers
  import L = LockProtocol
  import T = Tokens
  import LockTheorems

  // The token that this issuance stored is the one that validates to this row.
  ghost predicate IssuedAt(evs: seq<T.Event>, k: nat, token: string, row: T.AccessToken)
    requires k < |evs|
  {
    T.Stored(evs, k) && evs[k].token == token && row == T.Minted(evs[k].grant, token, evs[k].issuedAt)
  }

  // If the call is a PutFile, it was made with this token: for its file, with its permissions.
  predicate MadeWith(call: L.Call, row: T.AccessToken) {
    call.op.Put? ==> call.file == row.fileId && call.op.permissions == row.permissions
  }

  /** If a PutFile made with a token that validated changes a document, then that token was
      issued for this very document, which is no PDF and which the actor was allowed to
      update; only this document changes; and the PutFile itself had found it unlocked or
      locked under the ID it was sent. */
  lemma SavesWereAllowed(tokenEvs: seq<T.Event>, j: nat, token: string,
                         maxLifetime: int, evs: seq<L.Event>, i: nat)
    requires j <= |tokenEvs| && T.Answer(T.At(tokenEvs, j), token).Some?
    requires i < |evs| && L.At(maxLifetime, evs, i + 1).contents != L.At(maxLifetime, evs, i).contents
    requires evs[i].Advance? && evs[i].c in L.At(maxLifetime, evs, i).calls
    requires MadeWith(L.At(maxLifetime, evs, i).calls[evs[i].c], T.Answer(T.At(tokenEvs, j), token).value)
    ensures var call := L.At(maxLifetime, evs, i).calls[evs[i].c];
            && call.op.Put? && call.readAt < i
            && L.At(maxLifetime, evs, i + 1).contents == L.At(maxLifetime, evs, i).contents[call.file := evs[i].c]
            && (exists k :: 0 <= k < j && IssuedAt(tokenEvs, k, token, T.Answer(T.At(tokenEvs, j), token).value)
                            && tokenEvs[k].grant.fileId == call.file
                            && tokenEvs[k].grant.mayWrite && tokenEvs[k].grant.mimeType != "application/pdf")
            && var seen := L.HolderAt(maxLifetime, evs, call.readAt, call.file);
               seen == None || (seen == Some(call.op.lockId) && call.op.lockId != "")
  {
    LockTheorems.WritesAreAuthorized(maxLifetime, evs, i);
    T.ValidTokensGrantWhatWasAllowed(tokenEvs, j, token);
  }

  /** Conversely, a PutFile is turned away for want of permission exactly when its token was
      not issued for writing. */
  lemma ForbiddenExactlyForReadOnlyTokens(tokenEvs: seq<T.Event>, j: nat, token: string, lockId: string)
    requires j <= |tokenEvs| && T.Answer(T.At(tokenEvs, j), token).Some?
    ensures var row := T.Answer(T.At(tokenEvs, j), token).value;
            exists k :: 0 <= k < j && IssuedAt(tokenEvs, k, token, row)
                        && (L.FirstPc(L.Put(row.permissions, lockId)) == L.Finished(L.Forbidden) <==>
                            !tokenEvs[k].grant.mayWrite || tokenEvs[k].grant.mimeType == "application/pdf")
  {
    T.ValidTokensGrantWhatWasAllowed(tokenEvs, j, token);
  }
}
