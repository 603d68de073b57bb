/** The outside world the client talks to, reduced to data: what each HTTP URL
    answers and what each local file holds. Requests, sockets and file handles
    are not modelled; an answer or a file is a sequence of bytes that may end
    in a read error. */
module Net {
  import opened Common
  import Urls

  /** The bytes a stream yields, and whether reading on past them fails
      (`failsAfter`) rather than reporting end of file. */
  datatype Body = Body(data: seq<byte>, failsAfter: bool)

  /** An HTTP answer: its Content-Type header ("" when absent) and its body. */
  datatype Response = Response(contentType: string, body: Body)

  /** What answers at each URL and what is stored at each path; a URL or a
      path that is absent fails. */
  datatype World = World(http: map<string, Response>, files: map<string, Body>)

  /** An HTTP GET (`http.Get`, or `http.DefaultClient.Do` on a GET request):
      the URL must parse, must use http or https, and must answer. */
  function HttpGet(w: World, url: string): (r: Result<Response>)
    ensures r.Ok? <==>
      Urls.Parse(url).Ok? && Urls.Parse(url).value.scheme in {"http", "https"} && url in w.http
    ensures r.Ok? ==> r.value == w.http[url]
  {
    match Urls.Parse(url)
    case Err(e) => Err(e)
    case Ok(u) =>
      if u.scheme != "http" && u.scheme != "https" then Err(UnsupportedScheme(u.scheme))
      else if url !in w.http then Err(Unreachable(url))
      else Ok(w.http[url])
  }

  /** `io.ReadAll`: the whole body, or the read error that ends it. */
  function ReadAll(b: Body): (r: Result<seq<byte>>)
    ensures r.Ok? <==> !b.failsAfter
    ensures r.Ok? ==> r.value == b.data
  {
    if b.failsAfter then Err(ReadFailed) else Ok(b.data)
  }
}
