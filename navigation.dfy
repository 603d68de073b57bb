/** main.go: `execURL` (resolve, fetch, decode, dispatch on the spec) and the
    `main` loop that follows next URLs until one is empty. */
module Navigation {
  import opened Common
  import opened Net
  import Urls
  import opened Lists
  import opened Specs

  /** What `execURL` depends on besides its URL: the zoro base (the `-zoro`
      flag), the network, `json.Unmarshal` (not part of this model), and the
      interactive parts: how a search prompt ends (`Search.Run`), and the item
      the user leaves selected in a list. */
  datatype Env = Env(
    zoro: string,
    world: World,
    decode: seq<byte> -> Option<Spec>,
    runSearch: Search -> Result<string>,
    listCursor: seq<ListItem> -> int)

  /** The first half of `execURL`: resolve the URL, GET it, read the body and
      decode it, each failure wrapped with the step it happened in. */
  function FetchSpec(env: Env, url: string): Result<Spec>
  {
    match Urls.ResolveURL(env.zoro, url)
    case Err(e) => Err(Wrapped("resolve url", e))
    case Ok(u) =>
      match HttpGet(env.world, u)
      case Err(e) => Err(Wrapped("get", e))
      case Ok(resp) =>
        match ReadAll(resp.body)
        case Err(e) => Err(Wrapped("body: read", e))
        case Ok(bts) =>
          match env.decode(bts)
          case None => Err(Wrapped("body: unmarshal", BadJSON))
          case Some(spec) => Ok(spec)
  }

  /** The `switch` of `execURL`: a search node runs the search, otherwise a
      list node runs the list, otherwise the next URL is "". */
  function Dispatch(env: Env, spec: Spec): Result<string>
  {
    if spec.search.Some? then
      match env.runSearch(spec.search.value)
      case Err(e) => Err(Wrapped("search", e))
      case Ok(next) => Ok(next)
    else if spec.list.Some? then
      var l := spec.list.value;
      match ListRun(l, env.listCursor(l))
      case Err(e) => Err(Wrapped("list", e))
      case Ok(next) => Ok(next)
    else Ok("")
  }

  /** `execURL`: the URL to visit next, "" to stop, or the error. */
  function ExecURL(env: Env, url: string): Result<string>
  {
    match FetchSpec(env, url)
    case Err(e) => Err(e)
    case Ok(spec) => Dispatch(env, spec)
  }

  /** A failure to resolve, fetch, read or decode is returned wrapped, and the
      interactive parts are never reached: the result does not depend on
      them. */
  lemma FailuresStopBeforeDispatch(env: Env, url: string,
                                   runSearch: Search -> Result<string>, listCursor: seq<ListItem> -> int)
    requires FetchSpec(env, url).Err?
    ensures ExecURL(env, url) == Err(FetchSpec(env, url).error)
    ensures ExecURL(env, url).error.Wrapped?
    ensures ExecURL(env.(runSearch := runSearch, listCursor := listCursor), url) == ExecURL(env, url)
  {
    assert FetchSpec(env.(runSearch := runSearch, listCursor := listCursor), url) == FetchSpec(env, url);
  }

  /** Which step failed is told by the wrapping: a URL that does not parse
      fails in "resolve url", one that is not answered in "get". */
  lemma FailureSteps(env: Env, url: string)
    ensures Urls.Parse(url).Err? ==>
      ExecURL(env, url) == Err(Wrapped("resolve url", Wrapped("parse", Urls.Parse(url).error)))
    ensures Urls.ResolveURL(env.zoro, url).Ok? && HttpGet(env.world, Urls.ResolveURL(env.zoro, url).value).Err? ==>
      ExecURL(env, url) == Err(Wrapped("get", HttpGet(env.world, Urls.ResolveURL(env.zoro, url).value).error))
  {
  }

  /** A search node wins over a list node: when both are present, only the
      search runs, and the list does not matter. */
  lemma SearchWins(env: Env, s: Search, l: Option<seq<ListItem>>)
    ensures Dispatch(env, Spec(Some(s), l)) == Dispatch(env, Spec(Some(s), None))
    ensures env.runSearch(s).Ok? ==> Dispatch(env, Spec(Some(s), l)) == env.runSearch(s)
  {
  }

  /** A document with neither a search nor a list yields "" and no error; so
      does a list node, since `List.Run` returns "". */
  lemma NoSearchYieldsEmpty(env: Env, l: Option<seq<ListItem>>)
    ensures Dispatch(env, Spec(None, l)) == Ok("")
  {
  }

  // ---------------------------------------------------------------------------
  // The main loop

  /** How the program ends: `Done` when a next URL is "", `Aborted` on the
      first error (the source panics), `UsageExit` when a required flag is
      empty, and `OutOfFuel` when the bound on iterations is reached. */
  datatype Outcome = Done | Aborted(error: Error) | UsageExit | OutOfFuel(next: string)

  /** `execURL` as a function of the URL alone, for the loop below. */
  function Exec(env: Env): string -> Result<string>
  {
    url => ExecURL(env, url)
  }

  /** The loop `for { nextURL, err = execURL(ctx, nextURL); ... }`, with the
      step `exec`, run for at most `fuel` iterations. */
  function Navigate(exec: string -> Result<string>, url: string, fuel: nat): Outcome
    decreases fuel
  {
    if fuel == 0 then OutOfFuel(url)
    else
      match exec(url)
      case Err(e) => Aborted(e)
      case Ok(next) => if next == "" then Done else Navigate(exec, next, fuel - 1)
  }

  /** The URLs the loop visits, from the first one to the one it stops on. */
  function Visited(exec: string -> Result<string>, url: string, fuel: nat): (r: seq<string>)
    ensures 1 <= |r| && r[0] == url
    decreases fuel
  {
    if fuel == 0 then [url]
    else
      match exec(url)
      case Err(_) => [url]
      case Ok(next) => if next == "" then [url] else [url] + Visited(exec, next, fuel - 1)
  }

  /** Each visited URL led to the next one, which was not "". */
  predicate Chain(exec: string -> Result<string>, urls: seq<string>)
  {
    forall i | 0 < i < |urls| :: exec(urls[i - 1]) == Ok(urls[i]) && urls[i] != ""
  }

  /** The loop ends normally exactly when the last URL it visits yields "";
      it aborts exactly when the last URL yields an error, with that error;
      either way every earlier URL yielded the next, non-empty one. */
  lemma {:induction false} NavigateEnds(exec: string -> Result<string>, url: string, fuel: nat)
    ensures var v := Visited(exec, url, fuel);
      var last := v[|v| - 1];
      && Chain(exec, v)
      && |v| <= fuel + 1
      && (Navigate(exec, url, fuel) == Done <==> |v| <= fuel && exec(last) == Ok(""))
      && (Navigate(exec, url, fuel).Aborted? <==> |v| <= fuel && exec(last).Err?)
      && (Navigate(exec, url, fuel).Aborted? ==> Navigate(exec, url, fuel).error == exec(last).error)
    decreases fuel
  {
    if fuel > 0 {
      match exec(url)
      case Err(_) =>
      case Ok(next) =>
        if next != "" {
          NavigateEnds(exec, next, fuel - 1);
          var w := Visited(exec, next, fuel - 1);
          assert Visited(exec, url, fuel) == [url] + w;
          assert ([url] + w)[|w|] == w[|w| - 1];
          forall i | 0 < i < |[url] + w|
            ensures exec(([url] + w)[i - 1]) == Ok(([url] + w)[i]) && ([url] + w)[i] != ""
          {
            if i > 1 {
              assert ([url] + w)[i - 1] == w[i - 2] && ([url] + w)[i] == w[i - 1];
            }
          }
        }
    }
  }

  /** `main`'s loop: follow next URLs until one is "", stopping at the first
      error, for at most `fuel` iterations. */
  method Drive(exec: string -> Result<string>, start: string, fuel: nat) returns (o: Outcome)
    ensures o == Navigate(exec, start, fuel)
  {
    var nextURL := start;
    var left: nat := fuel;
    while true
      invariant Navigate(exec, start, fuel) == Navigate(exec, nextURL, left)
      decreases left
    {
      if left == 0 {
        return OutOfFuel(nextURL);
      }
      var r := exec(nextURL);
      if r.Err? {
        return Aborted(r.error);
      }
      nextURL := r.value;
      if nextURL == "" {
        return Done;
      }
      left := left - 1;
    }
  }

  /** `main`: both the `-url` and the `-zoro` flag must be non-empty, and the
      zoro base must parse; then the loop runs from the `-url` URL. */
  method Start(urlFlag: string, zoroFlag: string, env: Env, fuel: nat) returns (o: Outcome)
    ensures urlFlag == "" || zoroFlag == "" ==> o == UsageExit
    ensures urlFlag != "" && zoroFlag != "" && Urls.Parse(zoroFlag).Err? ==> o == Aborted(Urls.Parse(zoroFlag).error)
    ensures urlFlag != "" && zoroFlag != "" && Urls.Parse(zoroFlag).Ok? ==>
      o == Navigate(Exec(env.(zoro := zoroFlag)), urlFlag, fuel)
  {
    if urlFlag == "" || zoroFlag == "" {
      return UsageExit;
    }
    var zoroURL := Urls.Parse(zoroFlag);
    if zoroURL.Err? {
      return Aborted(zoroURL.error);
    }
    o := Drive(Exec(env.(zoro := zoroFlag)), urlFlag, fuel);
  }
}
