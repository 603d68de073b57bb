/** search.go's `Search.Run`: a search field whose changes are debounced
    into fetches of `resolveURL(s.URL) + url.PathEscape(text)`, a list that
    shows the latest result, the keys that move focus between the two, and
    the URL of the item selected when Enter is pressed in the list. The
    terminal application is replaced by one method per kind of event. */
module Searching {
  import opened Common
  import opened Net
  import Urls
  import opened Lists
  import opened Specs
  import Debouncing

  // ---------------------------------------------------------------------------
  // The query

  /** The URL the debounced callback fetches; a base that does not resolve or
      a query that does not parse makes it panic. */
  function QueryURL(zoro: string, base: string, text: seq<byte>): Result<string>
  {
    match Urls.ResolveURL(zoro, base)
    case Err(e) => Err(Panic("resolve url"))
    case Ok(u) =>
      var q := u + Urls.PathEscape(text);
      if Urls.Parse(q).Err? then Err(Panic("new request")) else Ok(q)
  }

  /** The query is the resolved base followed by the escaped text: the text
      adds no '/', '?' or '#' to the URL, and unescaping what was added gives
      back the text typed. */
  lemma QueryURLShape(zoro: string, base: string, text: seq<byte>)
    requires QueryURL(zoro, base, text).Ok?
    ensures Urls.ResolveURL(zoro, base).Ok?
    ensures var u := Urls.ResolveURL(zoro, base).value;
      var q := QueryURL(zoro, base, text).value;
      && q == u + Urls.PathEscape(text)
      && (forall i | |u| <= i < |q| :: q[i] != '/' && q[i] != '?' && q[i] != '#')
      && Urls.PathUnescape(q[|u|..]) == Some(text)
  {
    var u := Urls.ResolveURL(zoro, base).value;
    var q := QueryURL(zoro, base, text).value;
    assert q[|u|..] == Urls.PathEscape(text);
    Urls.PathEscapeRoundTrip(text);
  }

  // ---------------------------------------------------------------------------
  // A fetch completing

  /** What the end of a fetch does: nothing (it was cancelled), crash the
      program (any other failure), or show a new list. */
  datatype Completion = Ignored | Crash(error: Error) | Show(items: seq<ListItem>)

  /** The rest of the debounced callback once the request is built. A request
      the transport refuses before it looks at the context (a scheme other
      than http or https) panics, cancelled or not. Otherwise a cancelled
      context ends the callback quietly; a transport, read or decode error
      panics; so does a document without a list, whose nil list is
      dereferenced when the queued redraw runs. */
  function Complete(cancelled: bool, w: World, decode: seq<byte> -> Option<Spec>, query: string): Completion
  {
    match HttpGet(w, query)
    case Err(e) => if cancelled && e.Unreachable? then Ignored else Crash(e)
    case Ok(resp) =>
      if cancelled then Ignored
      else
        match ReadAll(resp.body)
        case Err(e) => Crash(e)
        case Ok(bts) =>
          match decode(bts)
          case None => Crash(BadJSON)
          case Some(spec) =>
            match spec.list
            case None => Crash(Panic("nil pointer dereference"))
            case Some(l) => Show(l)
  }

  /** A cancelled fetch never shows anything: it is ignored, unless its query
      is refused before it is sent, and then it panics with that error. A
      fetch shows a list exactly when it was not cancelled and its answer
      reads and decodes to a document with a list, and then it shows that
      list. */
  lemma CompleteOutcomes(cancelled: bool, w: World, decode: seq<byte> -> Option<Spec>, query: string)
    ensures cancelled && HttpGet(w, query).Err? && HttpGet(w, query).error.UnsupportedScheme? ==>
      Complete(cancelled, w, decode, query) == Crash(HttpGet(w, query).error)
    ensures cancelled && (HttpGet(w, query).Ok? || HttpGet(w, query).error.Unreachable?) ==>
      Complete(cancelled, w, decode, query) == Ignored
    ensures Complete(cancelled, w, decode, query).Show? <==>
      && !cancelled
      && HttpGet(w, query).Ok?
      && !HttpGet(w, query).value.body.failsAfter
      && decode(HttpGet(w, query).value.body.data).Some?
      && decode(HttpGet(w, query).value.body.data).value.list.Some?
    ensures Complete(cancelled, w, decode, query).Show? ==>
      Complete(cancelled, w, decode, query).items ==
        decode(HttpGet(w, query).value.body.data).value.list.value
  {
  }

  // ---------------------------------------------------------------------------
  // Keys and focus

  datatype Focus = InputField | ListView

  /** Focus, current item, and whether the application has been stopped. */
  datatype Cursor = Cursor(focus: Focus, current: int, stopped: bool)

  /** The input captures of the list and of the field, followed by the
      widget's own handling of the keys they let through, over a list of
      `count` rows. */
  function KeyStep(c: Cursor, count: nat, k: Key): Cursor
  {
    match c.focus
    case InputField =>
      if k == Up then Cursor(ListView, ClampIndex(count - 1, count), c.stopped)
      else if k == Down then Cursor(ListView, ClampIndex(0, count), c.stopped)
      else c
    case ListView =>
      if (k == Up && c.current == 0) || (k == Down && c.current == count - 1) then c.(focus := InputField)
      else if k == Enter then c.(stopped := true)
      else if count == 0 then c
      else c.(current := (c.current + Step(k)) % count)
  }

  /** The focus rules: Up on the first item or Down on the last returns to
      the field; Up from the field selects the last item and Down the first;
      Enter in the list stops; other moves stay on the rows, Tab and Backtab
      wrapping around at the ends since no capture intercepts them. */
  lemma FocusRules(c: Cursor, count: nat, k: Key)
    requires InRange(c.current, count)
    ensures var d := KeyStep(c, count, k);
      && InRange(d.current, count)
      && (c.focus == ListView && ((k == Up && c.current == 0) || (k == Down && c.current == count - 1)) ==>
            d == c.(focus := InputField))
      && (c.focus == InputField && k == Up ==> d.focus == ListView && (count > 0 ==> d.current == count - 1))
      && (c.focus == InputField && k == Down ==> d.focus == ListView && d.current == 0)
      && (c.focus == ListView && k == Tab && count > 0 && c.current == count - 1 ==>
            d == c.(current := 0))
      && (c.focus == ListView && k == Backtab && count > 0 && c.current == 0 ==>
            d == c.(current := count - 1))
      && (d.stopped <==> c.stopped || (c.focus == ListView && k == Enter))
  {
  }

  // ---------------------------------------------------------------------------
  // The result

  /** `(*listSpec)[list.GetCurrentItem()].URL`: the selected item's URL; a nil
      list or an index outside it panics. */
  function Selection(listSpec: Option<seq<ListItem>>, current: int): (r: Result<string>)
    ensures r.Ok? <==> listSpec.Some? && 0 <= current < |listSpec.value|
    ensures r.Ok? ==> r.value == listSpec.value[current].url
  {
    match listSpec
    case None => Err(Panic("nil pointer dereference"))
    case Some(l) => if 0 <= current < |l| then Ok(l[current].url) else Err(Panic("index out of range"))
  }

  datatype Status = Running | Stopped | Crashed(error: Error)

  /** One run of the search prompt. */
  class SearchSession {
    const zoro: string
    const base: string
    const debounce: Debouncing.Debouncer
    const list: ListWidget
    var listSpec: Option<seq<ListItem>>
    var focus: Focus
    var status: Status
    /** Fetches that have been sent and not yet answered, by context. */
    var fetches: map<nat, string>

    /** The controller keeps its invariant, the widget shows exactly the
        latest list, and every fetch belongs to a context that exists. */
    ghost predicate Valid()
      reads this, debounce, list
    {
      && Debouncing.Valid(debounce.Model())
      && debounce.dur == Debouncing.SearchDelay
      && list.Valid()
      && list.rows == (if listSpec.Some? then Rows(listSpec.value) else [])
      && (forall id | id in fetches :: id < |debounce.cancelled|)
    }

    function CursorOf(): Cursor
      reads this, list
    {
      Cursor(focus, list.current, status != Running)
    }

    constructor (zoro: string, base: string)
      ensures Valid() && fresh(debounce) && fresh(list)
      ensures this.zoro == zoro && this.base == base
      ensures debounce.Model() == Debouncing.Init(Debouncing.SearchDelay)
      ensures listSpec == None && focus == InputField && status == Running && fetches == map[]
    {
      this.zoro := zoro;
      this.base := base;
      debounce := new Debouncing.Debouncer(Debouncing.SearchDelay);
      list := new ListWidget();
      listSpec := None;
      focus := InputField;
      status := Running;
      fetches := map[];
    }

    /** The field's text changed at time `now`: debounce a fetch for it. */
    method Changed(now: int, text: seq<byte>)
      requires Valid()
      modifies debounce
      ensures Valid()
      ensures debounce.Model() == Debouncing.AfterDo(old(debounce.Model()), now, text)
    {
      debounce.Do(now, text);
    }

    /** Timer `id` reaches its deadline: if it was pending, its callback builds
        the query and sends it, or panics. */
    method TimerFires(id: nat)
      requires Valid()
      modifies debounce, this
      ensures Valid()
      ensures debounce.Model() == Debouncing.AfterFire(old(debounce.Model()), id)
      ensures listSpec == old(listSpec) && focus == old(focus)
      ensures var pending := id < |old(debounce.timers)| && old(debounce.timers)[id].state == Debouncing.Pending;
        if !pending then status == old(status) && fetches == old(fetches)
        else
          var cb := old(debounce.timers)[id].run;
          match QueryURL(zoro, base, cb.text)
          case Err(e) => status == Crashed(e) && fetches == old(fetches)
          case Ok(q) => status == old(status) && fetches == old(fetches)[cb.ctx := q]
    {
      var run := debounce.Fire(id);
      if run.Some? {
        var cb := run.value;
        assert cb.ctx == id < |debounce.cancelled|;
        var query := QueryURL(zoro, base, cb.text);
        if query.Err? {
          status := Crashed(query.error);
        } else {
          fetches := fetches[cb.ctx := query.value];
        }
      }
    }

    /** The fetch of context `id` is answered by the world `w`. A cancelled
        fetch leaves the list and the widget alone; a successful one replaces
        the list and redraws the widget with it. */
    method FetchCompletes(id: nat, w: World, decode: seq<byte> -> Option<Spec>)
      requires Valid() && id in fetches
      modifies this, list
      ensures Valid()
      ensures fetches == old(fetches) - {id} && focus == old(focus)
      ensures match Complete(debounce.cancelled[id], w, decode, old(fetches)[id])
        case Ignored => listSpec == old(listSpec) && list.rows == old(list.rows) && list.current == old(list.current) && status == old(status)
        case Crash(e) => listSpec == old(listSpec) && list.rows == old(list.rows) && list.current == old(list.current) && status == Crashed(e)
        case Show(items) => listSpec == Some(items) && list.rows == Rows(items) && list.current == 0 && status == old(status)
      ensures !debounce.cancelled[id] ==> id == |debounce.cancelled| - 1
    {
      if !debounce.cancelled[id] {
        Debouncing.LiveIsNewest(debounce.Model(), id);
      }
      var c := Complete(debounce.cancelled[id], w, decode, fetches[id]);
      fetches := fetches - {id};
      match c
      case Ignored =>
      case Crash(e) =>
        status := Crashed(e);
      case Show(items) =>
        listSpec := Some(items);
        Render(items, list);
    }

    /** A key is pressed while the application runs. */
    method KeyPressed(k: Key)
      requires Valid() && status == Running
      modifies this, list
      ensures Valid()
      ensures CursorOf() == KeyStep(old(CursorOf()), |list.rows|, k)
      ensures status == if CursorOf().stopped then Stopped else Running
      ensures list.rows == old(list.rows) && listSpec == old(listSpec) && fetches == old(fetches)
    {
      if focus == InputField {
        if k == Up {
          focus := ListView;
          list.SetCurrentItem(list.ItemCount() - 1);
        } else if k == Down {
          focus := ListView;
          list.SetCurrentItem(0);
        }
      } else {
        if (k == Up && list.current == 0) || (k == Down && list.current == list.ItemCount() - 1) {
          focus := InputField;
        } else if k == Enter {
          status := Stopped;
        } else {
          list.Move(k);
        }
      }
    }

    /** The application stops without Enter (Ctrl-C, which tview turns into
        `Stop`): `Run` goes on to read the selection all the same. */
    method Interrupted()
      requires Valid() && status == Running
      modifies this
      ensures Valid() && status == Stopped
      ensures listSpec == old(listSpec) && focus == old(focus) && fetches == old(fetches)
    {
      status := Stopped;
    }

    /** What `Run` returns once the application has stopped. */
    method Result() returns (r: Result<string>)
      requires Valid() && status == Stopped
      ensures r == Selection(listSpec, list.current)
      ensures r.Ok? ==> listSpec.Some? && list.rows[list.current] == RowOf(listSpec.value[list.current])
    {
      r := Selection(listSpec, list.current);
    }
  }
}
