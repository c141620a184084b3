/**
 * The `files` table and the handlers that only read it or validate an upload:
 * the file listing with its path-to-URL normalisation, the lookup by id that
 * both the download route and the QR access route perform, and the upload
 * checks that run before a row is inserted.
 */
module Files {
  import opened Wrappers
  import opened Js
  import opened Config
  import opened Http

  /** A row of `files`; `id` is its AUTO_INCREMENT key. */
  datatype FileRow = FileRow(id: int, userId: JsValue, filename: string, mimetype: string, filepath: string)

  type FileTable = map<int, FileRow>

  predicate KeyedById(files: FileTable) {
    forall id :: id in files ==> files[id].id == id
  }

  // ---------------------------------------------------------------------------
  // `WHERE id = ?`

  predicate IsDecimal(s: string) {
    s != [] && forall i :: 0 <= i < |s| ==> '0' <= s[i] <= '9'
  }

  function DecimalValue(s: string): (n: nat)
    requires forall i :: 0 <= i < |s| ==> '0' <= s[i] <= '9'
  {
    if s == [] then 0 else 10 * DecimalValue(s[..|s| - 1]) + (s[|s| - 1] as int - '0' as int)
  }

  /** The integer a bound parameter compares equal to in `id = ?`: a number, or
      a string of decimal digits (as `req.params.id` always is a string).
      Any other value matches no row. */
  function SqlId(v: JsValue): (id: Option<int>)
    ensures v.Num? ==> id == Some(v.n)
    ensures v.Str? ==> (id.Some? <==> IsDecimal(v.s)) && (id.Some? ==> id.value >= 0)
    ensures !v.Num? && !v.Str? ==> id.None?
  {
    match v
    case Num(n) => Some(n)
    case Str(s) => if IsDecimal(s) then Some(DecimalValue(s)) else None
    case _ => None
  }

  /** The decimal text of `n`, as an id appears in a URL such as
      `/bioqr/files/download/7`. */
  function DecimalString(n: nat): (s: string)
    ensures IsDecimal(s)
  {
    var d := [('0' as int + n % 10) as char];
    if n < 10 then d else DecimalString(n / 10) + d
  }

  /** An id written in decimal names the same row as the number itself. */
  lemma {:induction false} SqlIdOfDecimalString(n: nat)
    ensures SqlId(Str(DecimalString(n))) == SqlId(Num(n))
  {
    DecimalValueOfString(n);
  }

  lemma {:induction false} DecimalValueOfString(n: nat)
    ensures DecimalValue(DecimalString(n)) == n
  {
    var s := DecimalString(n);
    if n >= 10 {
      DecimalValueOfString(n / 10);
      assert s[..|s| - 1] == DecimalString(n / 10);
    }
  }

  /** A leading zero does not change a decimal value. */
  lemma {:induction false} DecimalValueLeadingZero(s: string)
    requires forall i :: 0 <= i < |s| ==> '0' <= s[i] <= '9'
    ensures DecimalValue("0" + s) == DecimalValue(s)
  {
    if s != [] {
      DecimalValueLeadingZero(s[..|s| - 1]);
      assert ("0" + s)[..|s|] == "0" + s[..|s| - 1];
    }
  }

  /** `id = '07'` names the same row as `id = '7'`. */
  lemma SqlIdLeadingZero(s: string)
    requires IsDecimal(s)
    ensures SqlId(Str("0" + s)) == SqlId(Str(s))
  {
    DecimalValueLeadingZero(s);
  }

  /** `SELECT * FROM files WHERE id = ?`, first row. */
  function LookupFile(files: FileTable, id: JsValue): (row: Option<FileRow>)
    ensures row.Some? <==> SqlId(id).Some? && SqlId(id).value in files
    ensures row.Some? ==> row.value == files[SqlId(id).value]
  {
    match SqlId(id)
    case None => None
    case Some(k) => if k in files then Some(files[k]) else None
  }

  /** What the server sends for file `id` once it has decided to serve it:
      a failed or empty query is "File not found", a row whose path is absent
      on disk is "File not found on disk", and otherwise that row's file is
      downloaded under its original name. `onDisk` stands for `fs.existsSync`
      applied to the resolved path. */
  function ResolveFile(files: FileTable, id: JsValue, queryFails: bool, onDisk: string -> bool): (r: Response)
    ensures r.Ok? || r.FileNotFound? || r.FileNotOnDisk?
    ensures r.FileNotFound? <==> queryFails || LookupFile(files, id).None?
    ensures r.FileNotOnDisk? <==> !queryFails && LookupFile(files, id).Some? && !onDisk(LookupFile(files, id).value.filepath)
    ensures r.Ok? ==> LookupFile(files, id).Some?
    ensures r.Ok? ==>
      var row := LookupFile(files, id).value;
      onDisk(row.filepath) && r.body == Download(row.filepath, row.filename)
  {
    if queryFails then FileNotFound
    else match LookupFile(files, id)
      case None => FileNotFound
      case Some(row) =>
        if !onDisk(row.filepath) then FileNotOnDisk
        else Ok(Download(row.filepath, row.filename))
  }

  /** Two parameters that name the same id resolve to the same response. */
  lemma ResolveFileBySqlId(files: FileTable, a: JsValue, b: JsValue, queryFails: bool, onDisk: string -> bool)
    requires SqlId(a) == SqlId(b)
    ensures ResolveFile(files, a, queryFails, onDisk) == ResolveFile(files, b, queryFails, onDisk)
  {
  }

  // ---------------------------------------------------------------------------
  // The file listing

  /** `filepath.replace(/\\/g, "/")`: every backslash becomes a slash and
      every other character stays where it is. */
  function ToUrlPath(p: string): (q: string)
    ensures |q| == |p|
    ensures forall i :: 0 <= i < |p| ==> q[i] == (if p[i] == '\\' then '/' else p[i])
  {
    if p == [] then [] else [if p[0] == '\\' then '/' else p[0]] + ToUrlPath(p[1..])
  }

  /** The normalised path has no backslash, and normalising it again changes nothing. */
  lemma ToUrlPathNormalises(p: string)
    ensures forall i :: 0 <= i < |p| ==> ToUrlPath(p)[i] != '\\'
    ensures ToUrlPath(ToUrlPath(p)) == ToUrlPath(p)
  {
  }

  /** `${baseUrl}/${normalised filepath}`. */
  function FileUrl(env: Env, filepath: string): (url: string)
    ensures |url| == |BaseUrl(env)| + 1 + |filepath|
    ensures url[..|BaseUrl(env)| + 1] == BaseUrl(env) + "/"
    ensures forall i :: |BaseUrl(env)| < i < |url| ==> url[i] != '\\'
    ensures url[|BaseUrl(env)| + 1..] == ToUrlPath(filepath)
  {
    BaseUrl(env) + "/" + ToUrlPath(filepath)
  }

  /** The listing handler given the query's outcome (`None` for a query error):
      one entry per row, in the order of the rows, each linking to the row's
      normalised path under the environment's base URL. */
  function ListFiles(env: Env, rows: Option<seq<FileRow>>): (r: Response)
    ensures rows.None? <==> r == DbError("Database error")
    ensures rows.Some? ==> r.Ok? && r.body.Listing? && |r.body.files| == |rows.value|
    ensures rows.Some? ==> forall i :: 0 <= i < |rows.value| ==>
      var e, row := r.body.files[i], rows.value[i];
      && e.id == row.id && e.filename == row.filename && e.mimetype == row.mimetype
      && e.url == BaseUrl(env) + "/" + ToUrlPath(row.filepath)
  {
    match rows
    case None => DbError("Database error")
    case Some(rs) => Ok(Listing(seq(|rs|, i requires 0 <= i < |rs| =>
      FileEntry(rs[i].id, rs[i].filename, rs[i].mimetype, FileUrl(env, rs[i].filepath)))))
  }

  // ---------------------------------------------------------------------------
  // Upload validation

  /** What multer hands the handler for the `file` field. */
  datatype UploadedFile = UploadedFile(originalName: string, mimetype: string, path: string)

  datatype UploadGate = Reject(response: Response) | Accept(file: UploadedFile)

  /** The checks before the insert, in the handler's order: a multer error,
      then a missing `user_id`, then a missing file, each a 400. */
  function CheckUpload(multerError: Option<string>, userId: JsValue, file: Option<UploadedFile>): (g: UploadGate)
    ensures g.Accept? <==> multerError.None? && Truthy(userId) && file.Some?
    ensures g.Accept? ==> g.file == file.value
    ensures g.Reject? ==> g.response.BadRequest?
    ensures multerError.Some? ==> g == Reject(BadRequest("Upload error: " + multerError.value))
    ensures multerError.None? && !Truthy(userId) ==> g == Reject(BadRequest("user_id is required"))
    ensures multerError.None? && Truthy(userId) && file.None? ==> g == Reject(BadRequest("No file uploaded"))
  {
    if multerError.Some? then Reject(BadRequest("Upload error: " + multerError.value))
    else if !Truthy(userId) then Reject(BadRequest("user_id is required"))
    else if file.None? then Reject(BadRequest("No file uploaded"))
    else Accept(file.value)
  }
}
