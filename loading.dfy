/** loader.go: where a URL is read from, how its media type is found, which
    resources are buffered, and the command line that plays a video. */
module Loading {
  import opened Common
  import opened Net
  import Urls

  // ---------------------------------------------------------------------------
  // Space and routing

  /** `Space` is a Go `int`; only SpaceLocal and SpaceZoro mean something. */
  type Space = int

  const SpaceLocal: Space := 1
  const SpaceZoro: Space := 2

  /** The loader's configuration; the source never changes it after start-up. */
  datatype Loader = Loader(space: Space, zoroURL: string)

  /** How `readCloser` gets at a URL: over HTTP, from a file, or not at all
      because it panics. */
  datatype Route = FetchHttp(url: string) | OpenFile(path: string) | Crash(reason: string)

  /** `readCloser`'s choice. The parse error is ignored by the source, so an
      unparsable URL dereferences a nil `*url.URL`. */
  function RouteOf(l: Loader, raw: string): Route
  {
    match Urls.Parse(raw)
    case Err(_) => Crash("nil pointer dereference")
    case Ok(u) =>
      if u.scheme == "http" || u.scheme == "https" then FetchHttp(raw)
      else if l.space == SpaceLocal then OpenFile(raw)
      else if l.space == SpaceZoro then FetchHttp(l.zoroURL + raw)
      else Crash("unexpected space")
  }

  /** An http or https URL is fetched as it is, whatever the space; any other
      URL is a file path in the local space, is appended to the zoro base in
      the zoro space, and panics in any other space. */
  lemma RouteByScheme(l: Loader, raw: string)
    requires Urls.Parse(raw).Ok?
    ensures Urls.Parse(raw).value.scheme in {"http", "https"} ==> RouteOf(l, raw) == FetchHttp(raw)
    ensures Urls.Parse(raw).value.scheme !in {"http", "https"} ==>
      RouteOf(l, raw) ==
        if l.space == SpaceLocal then OpenFile(raw)
        else if l.space == SpaceZoro then FetchHttp(l.zoroURL + raw)
        else Crash("unexpected space")
  {
  }

  /** A path without any ':' (a relative path such as `a/b.json`) is a file
      in the local space and is fetched below the base in the zoro space. */
  lemma RouteRelative(l: Loader, raw: string)
    requires !Urls.HasCtl(raw) && forall i | 0 <= i < |raw| :: raw[i] != ':'
    ensures l.space == SpaceLocal ==> RouteOf(l, raw) == OpenFile(raw)
    ensures l.space == SpaceZoro ==> RouteOf(l, raw) == FetchHttp(l.zoroURL + raw)
  {
    Urls.ParseNoScheme(raw);
  }

  /** An `http:` or `https:` URL is fetched as it is, in every space. */
  lemma RouteAbsolute(l: Loader, raw: string)
    requires !Urls.HasCtl(raw) && (HasPrefix(raw, "http:") || HasPrefix(raw, "https:"))
    ensures RouteOf(l, raw) == FetchHttp(raw)
  {
    Urls.ParseWebScheme(raw);
  }

  // ---------------------------------------------------------------------------
  // Opening a stream and finding its media type

  /** How many bytes content sniffing may look at. */
  const SniffLen := 512

  /** The bytes `bufio.Reader.Peek(512)` returns: at most the first 512. */
  function Peek(data: seq<byte>): (r: seq<byte>)
    ensures |r| <= SniffLen
    ensures |r| <= |data| && r == data[..|r|]
    ensures |data| <= SniffLen ==> r == data
  {
    if |data| <= SniffLen then data else data[..SniffLen]
  }

  /** A stream that has just been opened, and its media type. */
  datatype Opened = Opened(body: Body, mime: string)

  /** `readCloser`: an HTTP stream carries the Content-Type header; a file is
      peeked and sniffed by `detect` (the mimetype library, not part of this
      model). A file whose first 512 bytes cannot be read fails; a shorter
      file (end of file) does not. The peeked bytes stay in the stream. */
  function Open(l: Loader, w: World, detect: seq<byte> -> string, raw: string): Result<Opened>
  {
    match RouteOf(l, raw)
    case Crash(m) => Err(Panic(m))
    case FetchHttp(u) =>
      (match HttpGet(w, u)
       case Err(e) => Err(e)
       case Ok(resp) => Ok(Opened(resp.body, resp.contentType)))
    case OpenFile(p) =>
      if p !in w.files then Err(NoSuchFile(p))
      else
        var b := w.files[p];
        if |b.data| < SniffLen && b.failsAfter then Err(ReadFailed)
        else Ok(Opened(b, detect(Peek(b.data))))
  }

  /** A file's media type is decided by its first 512 bytes only, it is read
      from the whole unconsumed file, and a short file is not an error. */
  lemma OpenFileSniffsPrefix(l: Loader, w: World, detect: seq<byte> -> string, raw: string, p: string)
    requires RouteOf(l, raw) == OpenFile(p)
    ensures p !in w.files ==> Open(l, w, detect, raw) == Err(NoSuchFile(p))
    ensures p in w.files && (SniffLen <= |w.files[p].data| || !w.files[p].failsAfter) ==>
      Open(l, w, detect, raw) == Ok(Opened(w.files[p], detect(Peek(w.files[p].data))))
    ensures p in w.files && |w.files[p].data| < SniffLen && w.files[p].failsAfter ==>
      Open(l, w, detect, raw) == Err(ReadFailed)
  {
  }

  /** Two files that agree on their first 512 bytes get the same media type. */
  lemma {:induction false} SniffIgnoresTail(a: seq<byte>, b: seq<byte>, detect: seq<byte> -> string)
    requires SniffLen <= |a| && SniffLen <= |b| && a[..SniffLen] == b[..SniffLen]
    ensures detect(Peek(a)) == detect(Peek(b))
  {
    assert Peek(a) == a[..SniffLen];
  }

  // ---------------------------------------------------------------------------
  // Media types

  predicate IsJSON(mime: string)
  {
    HasPrefix(mime, "application/json")
  }

  predicate IsVideo(mime: string)
  {
    HasPrefix(mime, "video")
  }

  /** No media type is both JSON and video. */
  lemma JSONIsNotVideo(mime: string)
    ensures !(IsJSON(mime) && IsVideo(mime))
  {
    if IsJSON(mime) {
      assert mime[0] == mime[..16][0] == 'a';
    }
  }

  // ---------------------------------------------------------------------------
  // File name

  /** The index of the last '/' in `s`, or -1 when there is none. */
  function LastSlash(s: string): (r: int)
    ensures -1 <= r < |s|
    ensures r >= 0 ==> s[r] == '/'
    ensures forall j | r < j < |s| :: s[j] != '/'
  {
    if s == [] then -1
    else if s[|s| - 1] == '/' then |s| - 1
    else LastSlash(s[..|s| - 1])
  }

  /** The file part of `path.Split(url)`: what follows the last '/'. */
  function FileName(url: string): string
  {
    url[LastSlash(url) + 1..]
  }

  /** The file name is a suffix of the URL without any '/', and it is the
      whole URL or follows a '/'. */
  lemma FileNameIsLastSegment(url: string)
    ensures var f := FileName(url);
      && |f| <= |url| && url == url[..|url| - |f|] + f
      && (forall i | 0 <= i < |f| :: f[i] != '/')
      && (|f| < |url| ==> url[|url| - |f| - 1] == '/')
  {
    var k := LastSlash(url) + 1;
    assert url == url[..k] + url[k..];
  }

  /** A URL that ends in '/' has an empty file name. */
  lemma FileNameOfDirectory(url: string)
    requires |url| > 0 && url[|url| - 1] == '/'
    ensures FileName(url) == ""
  {
  }

  // ---------------------------------------------------------------------------
  // Loading

  /** What a loaded resource holds: the buffered bytes, its file name and media
      type, and its stream (the bytes still unread, whether reading past them
      fails, and whether it is open). */
  datatype ResourceView = ResourceView(
    bytes: seq<byte>, fileName: string, mime: string,
    remaining: seq<byte>, failsAfter: bool, open: bool)
  {
    /** Either streaming (open, nothing buffered) or buffered (closed and
        fully drained). */
    predicate WellFormed()
    {
      (open && bytes == []) || (!open && remaining == [] && !failsAfter)
    }
  }

  /** `Load`: JSON is read to the end into `Bytes` and closed; any other media
      type is handed over unread and open. */
  function LoadSpec(l: Loader, w: World, detect: seq<byte> -> string, url: string): Result<ResourceView>
  {
    match Open(l, w, detect, url)
    case Err(e) => Err(e)
    case Ok(o) => Buffer(o, url)
  }

  /** The second half of `Load`, once the stream is open. */
  function Buffer(o: Opened, url: string): Result<ResourceView>
  {
    if IsJSON(o.mime) then
      match ReadAll(o.body)
      case Err(e) => Err(e)
      case Ok(bts) => Ok(ResourceView(bts, FileName(url), o.mime, [], false, false))
    else Ok(ResourceView([], FileName(url), o.mime, o.body.data, o.body.failsAfter, true))
  }

  /** Once its stream is open, a JSON resource holds the entire stream in
      `Bytes` with the stream closed, and any other resource holds nothing and
      keeps its stream open and unconsumed; either way it is well formed and
      keeps the media type and the URL's file name. Only a JSON resource whose
      stream ends in a read error fails. */
  lemma BufferPolicy(o: Opened, url: string)
    ensures Buffer(o, url).Err? <==> IsJSON(o.mime) && o.body.failsAfter
    ensures Buffer(o, url).Err? ==> Buffer(o, url).error == ReadFailed
    ensures Buffer(o, url).Ok? ==>
      var v := Buffer(o, url).value;
      && v.mime == o.mime
      && v.fileName == FileName(url)
      && v.WellFormed()
      && (IsJSON(o.mime) ==> v.bytes == o.body.data && !v.open)
      && (!IsJSON(o.mime) ==> v.bytes == [] && v.open && v.remaining == o.body.data)
  {
  }

  /** A load whose stream cannot be opened fails with the opening error. */
  lemma LoadFailsWithOpen(l: Loader, w: World, detect: seq<byte> -> string, url: string)
    ensures Open(l, w, detect, url).Err? ==>
      LoadSpec(l, w, detect, url) == Err(Open(l, w, detect, url).error)
    ensures Open(l, w, detect, url).Ok? ==>
      LoadSpec(l, w, detect, url) == Buffer(Open(l, w, detect, url).value, url)
  {
  }

  /** An open byte stream: an `io.ReadCloser`. */
  class Stream {
    var remaining: seq<byte>
    var failsAfter: bool
    var open: bool

    constructor (b: Body)
      ensures remaining == b.data && failsAfter == b.failsAfter && open
    {
      remaining := b.data;
      failsAfter := b.failsAfter;
      open := true;
    }

    /** `io.ReadAll`: consumes everything; fails if the stream is closed or
        its data ends in an error. */
    method ReadAll() returns (r: Result<seq<byte>>)
      modifies this
      ensures old(open) ==> r == Net.ReadAll(Body(old(remaining), old(failsAfter)))
      ensures !old(open) ==> r == Err(ReadFailed)
      ensures open == old(open)
      ensures old(open) ==> remaining == [] && !failsAfter
      ensures !old(open) ==> remaining == old(remaining) && failsAfter == old(failsAfter)
    {
      if !open || failsAfter {
        r := Err(ReadFailed);
        if open {
          remaining, failsAfter := [], false;
        }
      } else {
        r := Ok(remaining);
        remaining := [];
      }
    }

    method Close()
      modifies this
      ensures !open && remaining == old(remaining) && failsAfter == old(failsAfter)
    {
      open := false;
    }
  }

  /** A loaded resource: the stream, the buffered bytes, the file name and the
      media type. */
  class Resource {
    const stream: Stream
    var bytes: seq<byte>
    const fileName: string
    const mime: string

    constructor (s: Stream, fileName: string, mime: string)
      ensures stream == s && bytes == [] && this.fileName == fileName && this.mime == mime
    {
      stream := s;
      bytes := [];
      this.fileName := fileName;
      this.mime := mime;
    }

    function View(): ResourceView
      reads this, stream
    {
      ResourceView(bytes, fileName, mime, stream.remaining, stream.failsAfter, stream.open)
    }
  }

  /** `Loader.Load`: opens the URL, names the resource after the URL's last
      segment, and for JSON reads the stream to the end into `Bytes`, closing
      it whether or not the read succeeds. */
  method Load(l: Loader, w: World, detect: seq<byte> -> string, url: string) returns (r: Result<Resource>)
    ensures r.Err? <==> LoadSpec(l, w, detect, url).Err?
    ensures r.Err? ==> r.error == LoadSpec(l, w, detect, url).error
    ensures r.Ok? ==>
      fresh(r.value) && fresh(r.value.stream) && r.value.View() == LoadSpec(l, w, detect, url).value
  {
    var op := Open(l, w, detect, url);
    if op.Err? {
      return Err(op.error);
    }
    r := Wrap(op.value, url);
  }

  /** The resource built around a stream that has just been opened. */
  method Wrap(o: Opened, url: string) returns (r: Result<Resource>)
    ensures r.Err? <==> Buffer(o, url).Err?
    ensures r.Err? ==> r.error == Buffer(o, url).error
    ensures r.Ok? ==>
      fresh(r.value) && fresh(r.value.stream) && r.value.View() == Buffer(o, url).value
  {
    var s := new Stream(o.body);
    var fn := FileName(url);
    var res := new Resource(s, fn, o.mime);
    if IsJSON(res.mime) {
      var bts := s.ReadAll();
      s.Close();
      if bts.Err? {
        return Err(bts.error);
      }
      res.bytes := bts.value;
    }
    return Ok(res);
  }

  // ---------------------------------------------------------------------------
  // Playing a video

  /** `strings.Split(s, " ")`: the pieces between single spaces; the empty
      string gives one empty piece. */
  function Split(s: string): (r: seq<string>)
    ensures |r| >= 1
    ensures forall i, j | 0 <= i < |r| && 0 <= j < |r[i]| :: r[i][j] != ' '
  {
    if s == [] then [""]
    else
      var tail := Split(s[1..]);
      if s[0] == ' ' then [""] + tail else [[s[0]] + tail[0]] + tail[1..]
  }

  /** `strings.Join(parts, " ")`. */
  function Join(parts: seq<string>): string
    requires |parts| >= 1
  {
    if |parts| == 1 then parts[0] else parts[0] + " " + Join(parts[1..])
  }

  predicate NoSpace(s: string)
  {
    forall j | 0 <= j < |s| :: s[j] != ' '
  }

  /** Splitting loses nothing: joining the pieces again gives the command. */
  lemma {:induction false} JoinSplit(s: string)
    ensures Join(Split(s)) == s
  {
    if s != [] {
      var tail := Split(s[1..]);
      JoinSplit(s[1..]);
      if s[0] == ' ' {
        assert Join(Split(s)) == "" + " " + Join(tail);
      } else {
        var r := Split(s);
        assert r[0] == [s[0]] + tail[0] && r[1..] == tail[1..];
        if |tail| == 1 {
          assert Join(r) == [s[0]] + tail[0];
        } else {
          assert Join(r) == [s[0]] + tail[0] + " " + Join(tail[1..]);
          assert Join(tail) == tail[0] + " " + Join(tail[1..]);
        }
        assert s == [s[0]] + s[1..];
      }
    }
  }

  /** A space-free word in front only lengthens the first piece. */
  lemma {:induction false} SplitAfterWord(a: string, t: string)
    requires NoSpace(a)
    ensures Split(a + t) == [a + Split(t)[0]] + Split(t)[1..]
  {
    if a != [] {
      SplitAfterWord(a[1..], t);
      assert (a + t)[1..] == a[1..] + t;
      assert (a + t)[0] == a[0] != ' ';
      assert [a[0]] + (a[1..] + Split(t)[0]) == a + Split(t)[0];
    } else {
      var r := Split(t);
      assert a + t == t && a + r[0] == r[0];
      assert [r[0]] + r[1..] == r;
    }
  }

  /** Joining space-free pieces and splitting again gives the same pieces. */
  lemma {:induction false} SplitJoin(parts: seq<string>)
    requires |parts| >= 1
    requires forall i | 0 <= i < |parts| :: NoSpace(parts[i])
    ensures Split(Join(parts)) == parts
  {
    if |parts| == 1 {
      SplitAfterWord(parts[0], "");
      assert parts[0] + "" == parts[0];
    } else {
      SplitJoin(parts[1..]);
      var rest := Join(parts[1..]);
      assert Join(parts) == parts[0] + (" " + rest);
      SplitAfterWord(parts[0], " " + rest);
      assert (" " + rest)[1..] == rest;
      assert Split(" " + rest) == [""] + parts[1..];
      assert parts[0] + "" == parts[0];
      assert [parts[0]] + parts[1..] == parts;
    }
  }

  /** The player process: a program and its arguments. */
  datatype Command = Command(program: string, args: seq<string>)

  /** `PlayVideo` up to running the player: the saved file's name (or the
      error saving it) decides the command, which is the configured command
      line split on single spaces with the file name appended. */
  function PlayerCommand(videoCmd: string, saved: Result<string>): Result<Command>
  {
    match saved
    case Err(e) => Err(e)
    case Ok(fname) =>
      var argv := Split(videoCmd) + [fname];
      Ok(Command(argv[0], argv[1..]))
  }

  /** The player's argument vector is the command's words followed by the file
      name: the program is the first word, the file name the last argument,
      and the words put back together give the configured command. */
  lemma PlayerArgv(videoCmd: string, fname: string)
    ensures PlayerCommand(videoCmd, Ok(fname)).Ok?
    ensures var c := PlayerCommand(videoCmd, Ok(fname)).value;
      && [c.program] + c.args == Split(videoCmd) + [fname]
      && |c.args| >= 1 && c.args[|c.args| - 1] == fname
      && NoSpace(c.program)
      && Join([c.program] + c.args[..|c.args| - 1]) == videoCmd
  {
    var c := PlayerCommand(videoCmd, Ok(fname)).value;
    var words := Split(videoCmd);
    assert [c.program] + c.args == words + [fname];
    assert [c.program] + c.args[..|c.args| - 1] == words;
    JoinSplit(videoCmd);
  }
}
