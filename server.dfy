/**
 * The server's database as one object: the `qr_tokens` and `files` tables,
 * changed in place by the issuing and upload handlers and read by the access
 * and download handlers. Query failures, the random draw, the clock and
 * `fs.existsSync` arrive as parameters.
 */
module Server {
  import opened Wrappers
  import opened Js
  import Hex
  import opened Config
  import opened Http
  import opened Files
  import opened TokenStore

  class Database {
    var qrTokens: TokenTable
    var files: FileTable
    /** A lower bound on the next value of `files.id`'s AUTO_INCREMENT counter:
        every id in use lies below it. */
    var nextFileId: int

    ghost predicate Valid()
      reads this
    {
      && KeyedByToken(qrTokens)
      && KeyedById(files)
      && 1 <= nextFileId
      && forall id :: id in files ==> 1 <= id < nextFileId
    }

    constructor ()
      ensures Valid()
      ensures qrTokens == map[] && files == map[] && nextFileId == 1
    {
      qrTokens := map[];
      files := map[];
      nextFileId := 1;
    }

    /** `POST /bioqr/generate-qr`. Both ids must be truthy (400 otherwise); the
        token is the hex of the 16 random bytes and expires five minutes after
        `now`; a failed insert is a 500 that reveals no token; only after the
        insert is the access URL built and returned. Nothing but `qrTokens`
        changes, and it gains exactly the one record. */
    method GenerateQr(env: Env, userId: JsValue, fileId: JsValue, random: seq<Hex.uint8>, now: int, insertFails: bool)
      returns (r: Response)
      requires Valid()
      requires |random| == TokenBytes
      requires Truthy(userId) && Truthy(fileId) ==> MintToken(random) !in qrTokens
      modifies this`qrTokens
      ensures Valid()
      ensures !(Truthy(userId) && Truthy(fileId)) ==>
        r == BadRequest("user_id and file_id required") && qrTokens == old(qrTokens)
      ensures Truthy(userId) && Truthy(fileId) && insertFails ==>
        r == DbError("Database error") && qrTokens == old(qrTokens)
      ensures Truthy(userId) && Truthy(fileId) && !insertFails ==>
        var token := MintToken(random);
        && r == Ok(QrIssued(AccessUrl(env, token), token, now + TtlMs))
        && qrTokens == old(qrTokens)[token := IssuedRecord(token, userId, fileId, now)]
        && |qrTokens| == |old(qrTokens)| + 1
    {
      if !Truthy(userId) || !Truthy(fileId) {
        return BadRequest("user_id and file_id required");
      }
      var token := MintToken(random);
      var expiresAt := now + 5 * 60 * 1000;
      if insertFails {
        return DbError("Database error");
      }
      qrTokens := qrTokens[token := QrToken(token, userId, fileId, expiresAt)];
      var qrData := BaseUrl(env) + "/access-file/" + token;
      r := Ok(QrIssued(qrData, token, expiresAt));
    }

    /** `GET /access-file/:token`, in the handler's order of checks. It reads
        the tables and changes nothing. */
    method AccessFile(token: string, now: int, tokenQueryFails: bool, fileQueryFails: bool, onDisk: string -> bool)
      returns (r: Response)
      ensures r == Redeem(qrTokens, files, token, now, tokenQueryFails, fileQueryFails, onDisk)
    {
      if tokenQueryFails {
        return DbError("Database error");
      }
      if !(token in qrTokens && qrTokens[token].expiresAt > now) {
        return Forbidden;
      }
      var fileId := qrTokens[token].fileId;
      var row := LookupFile(files, fileId);
      if fileQueryFails || row.None? {
        return FileNotFound;
      }
      if !onDisk(row.value.filepath) {
        return FileNotOnDisk;
      }
      r := Ok(Download(row.value.filepath, row.value.filename));
    }

    /** `GET /bioqr/files/download/:id`: the same three outcomes as the second
        half of the access route, for an id taken from the URL. */
    method DownloadFile(idParam: string, queryFails: bool, onDisk: string -> bool) returns (r: Response)
      ensures r == ResolveFile(files, Str(idParam), queryFails, onDisk)
    {
      var row := LookupFile(files, Str(idParam));
      if queryFails || row.None? {
        return FileNotFound;
      }
      if !onDisk(row.value.filepath) {
        return FileNotOnDisk;
      }
      r := Ok(Download(row.value.filepath, row.value.filename));
    }

    /** `POST /bioqr/files/upload` after multer has run: the checks of
        `CheckUpload`, then the insert, which on success adds one row under the
        id MySQL assigns and answers with that id. `assignedId` is that id: at
        least the counter, but possibly beyond it, since an insert that failed
        after claiming a value does not give it back. */
    method UploadFile(multerError: Option<string>, userId: JsValue, file: Option<UploadedFile>, insertError: Option<string>,
                      assignedId: int)
      returns (r: Response)
      requires Valid()
      requires nextFileId <= assignedId
      modifies this`files, this`nextFileId
      ensures Valid()
      ensures CheckUpload(multerError, userId, file).Reject? ==>
        r == CheckUpload(multerError, userId, file).response && unchanged(this)
      ensures CheckUpload(multerError, userId, file).Accept? && insertError.Some? ==>
        r == DbError("Database error: " + insertError.value) && unchanged(this)
      ensures CheckUpload(multerError, userId, file).Accept? && insertError.None? ==>
        var f, id := file.value, assignedId;
        && id !in old(files)
        && r == Ok(Uploaded(id))
        && files == old(files)[id := FileRow(id, userId, f.originalName, f.mimetype, f.path)]
        && nextFileId == id + 1
    {
      var gate := CheckUpload(multerError, userId, file);
      if gate.Reject? {
        return gate.response;
      }
      if insertError.Some? {
        return DbError("Database error: " + insertError.value);
      }
      var f := gate.file;
      var id := assignedId;
      files := files[id := FileRow(id, userId, f.originalName, f.mimetype, f.path)];
      nextFileId := id + 1;
      r := Ok(Uploaded(id));
    }
  }

  /** Issue a token and scan its QR code at once: the scan serves the file the
      token was issued for, exactly as a direct lookup of that file would. */
  method IssueThenScan(db: Database, env: Env, userId: JsValue, fileId: JsValue, random: seq<Hex.uint8>, now: int,
                       onDisk: string -> bool)
    returns (issued: Response, scanned: Response)
    requires db.Valid()
    requires |random| == TokenBytes
    requires MintToken(random) !in db.qrTokens
    requires Truthy(userId) && Truthy(fileId)
    modifies db`qrTokens
    ensures issued.Ok? && issued.body.QrIssued?
    ensures RouteToken(BaseUrl(env), issued.body.qrData) == Some(issued.body.token)
    ensures scanned == ResolveFile(db.files, fileId, false, onDisk)
  {
    issued := db.GenerateQr(env, userId, fileId, random, now, false);
    var token := MintToken(random);
    AccessUrlRoutesToToken(env, token);
    scanned := db.AccessFile(issued.body.token, now, false, false, onDisk);
    IssueThenRedeem(old(db.qrTokens), db.files, token, userId, fileId, now, now, false, onDisk);
  }
}
