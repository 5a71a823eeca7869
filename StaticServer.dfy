/** The routing decisions of the FLAMES static-file server. Joining paths,
    taking the extension and reading the file are done by the runtime: the
    extension and the outcome of the read come in as parameters. */
module StaticServer {

  /** What `fs.readFile` reported: the file's bytes, or an error code. */
  datatype ReadOutcome = Data(bytes: seq<bv8>) | Failed(code: string)

  datatype Body = Bytes(data: seq<bv8>) | Text(text: string)

  /** The status line, the `content-type` header and the body written. */
  datatype Response = Response(status: int, contentType: string, body: Body)

  /** The path handed to `path.join` after the public directory: the site root
      serves the index page, any other URL is looked up as given. */
  function RequestedFile(url: string): (file: string)
    ensures url == "/" ==> file == "index.html"
    ensures url != "/" ==> file == url
  {
    if url == "/" then "index.html" else url
  }

  const KnownExtensions: set<string> := {".js", ".css", ".json", ".png", ".jpg", ".jpeg"}

  /** The `switch` on the extension, starting from 'text/html'. */
  function ContentType(ext: string): (t: string)
    ensures ext !in KnownExtensions <==> t == "text/html"
    ensures t in {"text/html", "text/javascript", "text/css", "application/json", "image/png", "image/jpeg"}
  {
    match ext
    case ".js" => "text/javascript"
    case ".css" => "text/css"
    case ".json" => "application/json"
    case ".png" => "image/png"
    case ".jpg" => "image/jpeg"
    case ".jpeg" => "image/jpeg"
    case _ => "text/html"
  }

  /** Each known extension gets its own type; the two JPEG spellings share one. */
  lemma KnownContentTypes()
    ensures ContentType(".js") == "text/javascript"
    ensures ContentType(".css") == "text/css"
    ensures ContentType(".json") == "application/json"
    ensures ContentType(".png") == "image/png"
    ensures ContentType(".jpg") == ContentType(".jpeg") == "image/jpeg"
    ensures ContentType("") == "text/html"
  {
  }

  /** The `readFile` callback. */
  function Respond(ext: string, read: ReadOutcome): (r: Response)
    ensures r.status == 200 <==> read.Data?
    ensures read.Data? ==> r == Response(200, ContentType(ext), Bytes(read.bytes))
    ensures r.status == 404 <==> read.Failed? && read.code == "ENOENT"
    ensures r.status == 404 ==> r == Response(404, "text/plain", Text("404 Not Found"))
    ensures read.Failed? && read.code != "ENOENT" ==>
              r == Response(500, "text/plain", Text("500 Internal Server Error"))
  {
    match read
    case Failed(code) =>
      if code == "ENOENT" then Response(404, "text/plain", Text("404 Not Found"))
      else Response(500, "text/plain", Text("500 Internal Server Error"))
    case Data(bytes) => Response(200, ContentType(ext), Bytes(bytes))
  }

  /** Errors are always answered in plain text, whatever was asked for. */
  lemma ErrorsArePlainText(ext: string, read: ReadOutcome)
    requires read.Failed?
    ensures Respond(ext, read).contentType == "text/plain"
    ensures Respond(ext, read).body.Text?
  {
  }
}
