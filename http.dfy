/**
 * The responses the handlers send. The status codes and the messages are the
 * server's own; the QR image itself is the opaque rendering of `qrData` and
 * is not part of the model.
 */
module Http {
  /** One element of the user's file listing (`uploaded_at` is not modelled). */
  datatype FileEntry = FileEntry(id: int, filename: string, mimetype: string, url: string)

  datatype Body =
    | QrIssued(qrData: string, token: string, expiresAt: int)
    | Download(path: string, filename: string)
    | Uploaded(fileId: int)
    | Listing(files: seq<FileEntry>)

  datatype Response =
    | Ok(body: Body)
    | BadRequest(message: string)
    | DbError(message: string)
    | Forbidden
    | FileNotFound
    | FileNotOnDisk
  {
    function Status(): int {
      match this
      case Ok(_) => 200
      case BadRequest(_) => 400
      case DbError(_) => 500
      case Forbidden => 403
      case FileNotFound => 404
      case FileNotOnDisk => 404
    }

    /** The message of the JSON (or text) body of an error response. */
    function Message(): string
      requires !Ok?
    {
      match this
      case BadRequest(m) => m
      case DbError(m) => m
      case Forbidden => "Invalid or expired QR code"
      case FileNotFound => "File not found"
      case FileNotOnDisk => "File not found on disk"
    }
  }
}
