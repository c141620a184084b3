/**
 * The `qr_tokens` table and what redemption computes from it. Issuance adds
 * one record per successful call (see `Server.Database.GenerateQr`);
 * redemption only reads, so everything here is a function of the tables,
 * the token presented and the current time.
 */
module TokenStore {
  import opened Wrappers
  import opened Js
  import Hex
  import opened Config
  import opened Http
  import opened Files

  /** `5 * 60 * 1000`: a token lives five minutes, in milliseconds. */
  const TtlMs: int := 5 * 60 * 1000

  /** `crypto.randomBytes(16)` */
  const TokenBytes: nat := 16

  /** A row of `qr_tokens`; `user_id` and `file_id` are kept as they were bound. */
  datatype QrToken = QrToken(token: string, userId: JsValue, fileId: JsValue, expiresAt: int)

  type TokenTable = map<string, QrToken>

  predicate KeyedByToken(tokens: TokenTable) {
    forall t :: t in tokens ==> tokens[t].token == t
  }

  /** 32 lowercase hexadecimal characters. */
  predicate IsTokenFormat(s: string) {
    |s| == 2 * TokenBytes && forall i :: 0 <= i < |s| ==> Hex.IsHexDigit(s[i])
  }

  /** `randomBytes(16).toString("hex")` with the random draw given: the token is
      well formed, fits in one URL path segment, and carries the whole draw. */
  function MintToken(random: seq<Hex.uint8>): (token: string)
    requires |random| == TokenBytes
    ensures IsTokenFormat(token) && IsPathSegment(token)
    ensures Hex.Decode(token) == Some(random)
  {
    Hex.DecodeEncode(random);
    Hex.Encode(random)
  }

  /** Two issuances with different random draws never share a token. */
  lemma MintTokenInjective(a: seq<Hex.uint8>, b: seq<Hex.uint8>)
    requires |a| == TokenBytes && |b| == TokenBytes && a != b
    ensures MintToken(a) != MintToken(b)
  {
  }

  /** The record inserted when a token is issued at `now`. */
  function IssuedRecord(token: string, userId: JsValue, fileId: JsValue, now: int): (rec: QrToken)
    ensures rec.expiresAt - now == TtlMs
  {
    QrToken(token, userId, fileId, now + TtlMs)
  }

  /** `SELECT * FROM qr_tokens WHERE token = ? AND expires_at > NOW()`: the
      record under `token`, provided its expiry lies strictly after `now`. */
  function FindValid(tokens: TokenTable, token: string, now: int): (r: Option<QrToken>)
    ensures r.Some? <==> token in tokens && now < tokens[token].expiresAt
    ensures r.Some? ==> r.value == tokens[token]
  {
    if token in tokens && tokens[token].expiresAt > now then Some(tokens[token]) else None
  }

  /** `GET /access-file/:token`: a failed token query is a 500; no live record
      is the one 403; a live record serves its bound file as `ResolveFile`
      says. `onDisk` stands for `fs.existsSync`. */
  function Redeem(tokens: TokenTable, files: FileTable, token: string, now: int,
                  tokenQueryFails: bool, fileQueryFails: bool, onDisk: string -> bool): (r: Response)
    ensures r.DbError? <==> tokenQueryFails
    ensures r.DbError? ==> r == DbError("Database error")
    ensures r.Forbidden? <==> !tokenQueryFails && !(token in tokens && now < tokens[token].expiresAt)
    ensures !tokenQueryFails && token in tokens && now < tokens[token].expiresAt ==>
      r == ResolveFile(files, tokens[token].fileId, fileQueryFails, onDisk)
    ensures r.Ok? ==> token in tokens && r.body.Download?
  {
    if tokenQueryFails then DbError("Database error")
    else match FindValid(tokens, token, now)
      case None => Forbidden
      case Some(rec) => ResolveFile(files, rec.fileId, fileQueryFails, onDisk)
  }

  // ---------------------------------------------------------------------------
  // Properties of redemption

  /** A token that was never issued and a token that has expired get the very
      same response: status, message and all. */
  lemma UnknownAndExpiredAlike(tokens: TokenTable, files: FileTable, unknown: string, expired: string, now: int,
                               fileQueryFails: bool, onDisk: string -> bool)
    requires unknown !in tokens
    requires expired in tokens && tokens[expired].expiresAt <= now
    ensures Redeem(tokens, files, unknown, now, false, fileQueryFails, onDisk)
         == Redeem(tokens, files, expired, now, false, fileQueryFails, onDisk)
         == Forbidden
    ensures Forbidden.Status() == 403 && Forbidden.Message() == "Invalid or expired QR code"
  {
  }

  /** The expiry filter is strict: refused from the expiry instant on,
      never refused before it. */
  lemma RefusedExactlyFromExpiry(tokens: TokenTable, files: FileTable, token: string, now: int,
                                 fileQueryFails: bool, onDisk: string -> bool)
    requires token in tokens
    ensures Redeem(tokens, files, token, now, false, fileQueryFails, onDisk) == Forbidden
        <==> tokens[token].expiresAt <= now
  {
  }

  /** Redemption consumes nothing: any two redemptions before expiry
      (the store unchanged between them) give the same response. */
  lemma RedeemRepeatable(tokens: TokenTable, files: FileTable, token: string, t1: int, t2: int,
                         fileQueryFails: bool, onDisk: string -> bool)
    requires token in tokens && t1 < tokens[token].expiresAt && t2 < tokens[token].expiresAt
    ensures Redeem(tokens, files, token, t1, false, fileQueryFails, onDisk)
         == Redeem(tokens, files, token, t2, false, fileQueryFails, onDisk)
  {
  }

  /** Once refused, always refused: nothing brings a token back. */
  lemma RefusalIsFinal(tokens: TokenTable, files: FileTable, token: string, t1: int, t2: int,
                       fileQueryFails: bool, onDisk: string -> bool)
    requires t1 <= t2
    requires Redeem(tokens, files, token, t1, false, fileQueryFails, onDisk) == Forbidden
    ensures Redeem(tokens, files, token, t2, false, fileQueryFails, onDisk) == Forbidden
  {
  }

  /** A freshly issued token resolves to the file it was issued for throughout
      its five minutes, and is refused from then on. */
  lemma IssueThenRedeem(tokens: TokenTable, files: FileTable, token: string, userId: JsValue, fileId: JsValue,
                        issuedAt: int, now: int, fileQueryFails: bool, onDisk: string -> bool)
    ensures var after := tokens[token := IssuedRecord(token, userId, fileId, issuedAt)];
      Redeem(after, files, token, now, false, fileQueryFails, onDisk)
        == if now < issuedAt + TtlMs then ResolveFile(files, fileId, fileQueryFails, onDisk) else Forbidden
  {
  }

  /** Issuing one token does not change how any other token redeems. */
  lemma IssueKeepsOtherTokens(tokens: TokenTable, files: FileTable, rec: QrToken, other: string, now: int,
                              tokenQueryFails: bool, fileQueryFails: bool, onDisk: string -> bool)
    requires other != rec.token
    ensures Redeem(tokens[rec.token := rec], files, other, now, tokenQueryFails, fileQueryFails, onDisk)
         == Redeem(tokens, files, other, now, tokenQueryFails, fileQueryFails, onDisk)
  {
  }

  /** Once a live token is matched, the access route answers as the
      direct download route `/bioqr/files/download/:id` does for the bound id,
      with the same status and message. */
  lemma RedeemIsDownloadOfBoundFile(tokens: TokenTable, files: FileTable, token: string, now: int, idParam: string,
                                    fileQueryFails: bool, onDisk: string -> bool)
    requires token in tokens && now < tokens[token].expiresAt
    requires SqlId(tokens[token].fileId) == SqlId(Str(idParam))
    ensures Redeem(tokens, files, token, now, false, fileQueryFails, onDisk)
         == ResolveFile(files, Str(idParam), fileQueryFails, onDisk)
  {
  }

  /** Issued at t0 for file 7: at t0 + 299 s the file is served, at t0 + 301 s
      the token is refused. */
  lemma FiveMinuteWindow(tokens: TokenTable, files: FileTable, token: string, t0: int, onDisk: string -> bool)
    requires 7 in files && onDisk(files[7].filepath)
    ensures var after := tokens[token := IssuedRecord(token, Num(1), Num(7), t0)];
      && Redeem(after, files, token, t0 + 299_000, false, false, onDisk)
           == Ok(Download(files[7].filepath, files[7].filename))
      && Redeem(after, files, token, t0 + 301_000, false, false, onDisk) == Forbidden
  {
  }
}
