/**
 * `get_day_ahead_prices` in src/fetching/price_fetchers.py: pick the
 * candidate sources from the configuration, try them in order, return the
 * first non-empty frame and fall back to the synthetic series.  Each
 * source's fetcher is a given function from (source, day) to what calling
 * it does: return a frame or raise.
 */
module PriceFetchers {
  import opened Wrappers
  import opened Strings
  import opened Prices
  import opened MockData

  datatype Source = Entsoe | Elexon | Eia | NordPool

  /** The key of `sources_config_map`. */
  function SourceName(s: Source): string
  {
    match s
    case Entsoe => "entsoe"
    case Elexon => "elexon"
    case Eia => "eia"
    case NordPool => "nordpool"
  }

  /** `src_name.upper()`, the tag used in attempts and error messages. */
  function Tag(s: Source): string
  {
    match s
    case Entsoe => "ENTSOE"
    case Elexon => "ELEXON"
    case Eia => "EIA"
    case NordPool => "NORDPOOL"
  }

  /** `name in sources_config_map` and the entry it selects; the match is exact. */
  function KnownSource(name: string): (r: Option<Source>)
    ensures r.Some? ==> SourceName(r.value) == name
    ensures r.None? ==> forall s :: SourceName(s) != name
  {
    if name == "entsoe" then Some(Entsoe)
    else if name == "elexon" then Some(Elexon)
    else if name == "eia" then Some(Eia)
    else if name == "nordpool" then Some(NordPool)
    else None
  }

  /** The four API keys as read from the environment. */
  datatype ApiKeys = ApiKeys(entsoe: Option<string>, elexon: Option<string>, eia: Option<string>, nordpool: Option<string>)

  function KeyOf(keys: ApiKeys, s: Source): Option<string>
  {
    match s
    case Entsoe => keys.entsoe
    case Elexon => keys.elexon
    case Eia => keys.eia
    case NordPool => keys.nordpool
  }

  /** A key is truthy when it is set and not the empty string. */
  predicate Truthy(key: Option<string>)
  {
    key.Some? && key.value != ""
  }

  /** A source is attempted when its key is configured; Nord Pool is attempted without one as well. */
  predicate Usable(keys: ApiKeys, s: Source)
  {
    Truthy(KeyOf(keys, s)) || s == NordPool
  }

  /** The candidate a single preferred name contributes: none when unknown or unusable. */
  function Pick(keys: ApiKeys, name: string): (r: seq<Source>)
    ensures |r| <= 1
    ensures forall s :: s in r <==> SourceName(s) == name && Usable(keys, s)
  {
    match KnownSource(name)
    case Some(s) => if Usable(keys, s) then [s] else []
    case None => []
  }

  /** The candidates of "auto"/"all" mode: each preferred name's pick, in the listed order. */
  function AutoCandidates(keys: ApiKeys, preferred: seq<string>): (r: seq<Source>)
    ensures forall s :: s in r <==> SourceName(s) in preferred && Usable(keys, s)
  {
    if preferred == [] then []
    else
      var init := preferred[..|preferred| - 1];
      assert forall n :: n in preferred <==> n in init || n == preferred[|preferred| - 1];
      AutoCandidates(keys, init) + Pick(keys, preferred[|preferred| - 1])
  }

  /** Candidates follow the preference list: the candidates of a concatenation are the concatenation of the candidates. */
  lemma {:induction false} AutoCandidatesAppend(keys: ApiKeys, a: seq<string>, b: seq<string>)
    ensures AutoCandidates(keys, a + b) == AutoCandidates(keys, a) + AutoCandidates(keys, b)
    decreases |b|
  {
    if b != [] {
      var b' := b[..|b| - 1];
      assert (a + b)[..|a + b| - 1] == a + b';
      assert (a + b)[|a + b| - 1] == b[|b| - 1];
      var last := Pick(keys, b[|b| - 1]);
      assert AutoCandidates(keys, a + b) == AutoCandidates(keys, a + b') + last;
      assert AutoCandidates(keys, b) == AutoCandidates(keys, b') + last;
      AutoCandidatesAppend(keys, a, b');
    } else {
      assert a + b == a;
    }
  }

  /** The configuration the wrapper reads. */
  datatype FetchConfig = FetchConfig(
    dataSource: string,
    preferred: seq<string>,
    keys: ApiKeys,
    mockMin: real,
    mockMax: real)

  /** The ordered list of sources the wrapper will try (when the mode is not "mock"). */
  function Candidates(cfg: FetchConfig): (r: seq<Source>)
    ensures var mode := Lower(cfg.dataSource);
      && (mode == "auto" || mode == "all" ==> r == AutoCandidates(cfg.keys, cfg.preferred))
      && (mode != "auto" && mode != "all" ==> |r| <= 1 && forall s :: s in r <==> SourceName(s) == mode && Usable(cfg.keys, s))
  {
    var mode := Lower(cfg.dataSource);
    if mode == "auto" || mode == "all" then AutoCandidates(cfg.keys, cfg.preferred)
    else Pick(cfg.keys, mode)
  }

  /** What calling a fetcher does: return a frame, or raise with a message. */
  datatype Outcome = Returned(frame: PriceFrame) | Raises(msg: string)

  predicate NonEmpty(o: Outcome)
  {
    o.Returned? && o.frame.rows != []
  }

  /** The line appended to `errors` when a source raises. */
  function ErrorMessage(s: Source, msg: string): string
  {
    "Error fetching from " + Tag(s) + ": " + msg
  }

  /** The error lines of a sequence of attempts, in attempt order. */
  function ErrorLog(tried: seq<Source>, day: int, fetch: (Source, int) -> Outcome): (r: seq<string>)
    ensures |r| <= |tried|
    ensures (forall j :: 0 <= j < |tried| ==> !fetch(tried[j], day).Raises?) ==> r == []
  {
    if tried == [] then []
    else
      var o := fetch(tried[0], day);
      (if o.Raises? then [ErrorMessage(tried[0], o.msg)] else []) + ErrorLog(tried[1..], day, fetch)
  }

  lemma {:induction false} ErrorLogAppend(a: seq<Source>, b: seq<Source>, day: int, fetch: (Source, int) -> Outcome)
    ensures ErrorLog(a + b, day, fetch) == ErrorLog(a, day, fetch) + ErrorLog(b, day, fetch)
  {
    if a != [] {
      assert (a + b)[1..] == a[1..] + b;
      assert (a + b)[0] == a[0];
      var o := fetch(a[0], day);
      var head := if o.Raises? then [ErrorMessage(a[0], o.msg)] else [];
      assert ErrorLog(a + b, day, fetch) == head + ErrorLog(a[1..] + b, day, fetch);
      assert ErrorLog(a, day, fetch) == head + ErrorLog(a[1..], day, fetch);
      ErrorLogAppend(a[1..], b, day, fetch);
    } else {
      assert a + b == b;
    }
  }

  /** A single attempt logs one line when it raises and none otherwise. */
  lemma ErrorLogOne(s: Source, day: int, fetch: (Source, int) -> Outcome)
    ensures ErrorLog([s], day, fetch) == if fetch(s, day).Raises? then [ErrorMessage(s, fetch(s, day).msg)] else []
  {
    assert [s][1..] == [];
  }

  /** The error lines of the first i + 1 attempts: those of the first i and the line of attempt i, if it raised. */
  lemma ErrorLogStep(active: seq<Source>, i: nat, day: int, fetch: (Source, int) -> Outcome)
    requires i < |active|
    ensures active[..i + 1] == active[..i] + [active[i]]
    ensures ErrorLog(active[..i + 1], day, fetch) == ErrorLog(active[..i], day, fetch)
      + if fetch(active[i], day).Raises? then [ErrorMessage(active[i], fetch(active[i], day).msg)] else []
  {
    assert active[..i + 1] == active[..i] + [active[i]];
    ErrorLogAppend(active[..i], [active[i]], day, fetch);
    ErrorLogOne(active[i], day, fetch);
  }

  /** The run of the try loop: the sources called, the winning frame if any, the error lines. */
  datatype Run = Run(tried: seq<Source>, hit: Option<PriceFrame>, errors: seq<string>)

  /**
   * The try loop as a reference definition.  Sources are called in order
   * until one returns a non-empty frame; a source that raises adds one
   * error line and the loop goes on; an empty frame adds nothing.
   */
  function Failover(cands: seq<Source>, day: int, fetch: (Source, int) -> Outcome): (r: Run)
    ensures |r.tried| <= |cands| && r.tried == cands[..|r.tried|]
    ensures r.errors == ErrorLog(r.tried, day, fetch)
    ensures r.hit.None? ==> r.tried == cands && forall j :: 0 <= j < |cands| ==> !NonEmpty(fetch(cands[j], day))
    ensures r.hit.Some? ==>
      && |r.tried| > 0
      && fetch(r.tried[|r.tried| - 1], day) == Returned(r.hit.value)
      && r.hit.value.rows != []
      && forall j :: 0 <= j < |r.tried| - 1 ==> !NonEmpty(fetch(r.tried[j], day))
  {
    if cands == [] then Run([], None, [])
    else
      var o := fetch(cands[0], day);
      if NonEmpty(o) then
        assert ErrorLog([cands[0]], day, fetch) == [];
        Run([cands[0]], Some(o.frame), [])
      else
        var rest := Failover(cands[1..], day, fetch);
        var tried := [cands[0]] + rest.tried;
        assert tried[1..] == rest.tried;
        Run(tried, rest.hit, ErrorLog(tried, day, fetch))
  }

  /** No source after the winning one is called, and every source is called when none wins. */
  lemma {:induction false} FailoverStopsAtFirstHit(cands: seq<Source>, day: int, fetch: (Source, int) -> Outcome, k: nat)
    requires k < |cands| && NonEmpty(fetch(cands[k], day))
    requires forall j :: 0 <= j < k ==> !NonEmpty(fetch(cands[j], day))
    ensures Failover(cands, day, fetch).tried == cands[..k + 1]
    ensures Failover(cands, day, fetch).hit == Some(fetch(cands[k], day).frame)
  {
    if k > 0 {
      FailoverStopsAtFirstHit(cands[1..], day, fetch, k - 1);
      assert [cands[0]] + cands[1..][..k] == cands[..k + 1];
    }
  }

  /** When no source returns rows, every candidate is called and none wins. */
  lemma {:induction false} FailoverWithoutHit(cands: seq<Source>, day: int, fetch: (Source, int) -> Outcome)
    requires forall j :: 0 <= j < |cands| ==> !NonEmpty(fetch(cands[j], day))
    ensures Failover(cands, day, fetch).tried == cands
    ensures Failover(cands, day, fetch).hit == None
  {
    if cands != [] {
      FailoverWithoutHit(cands[1..], day, fetch);
    }
  }

  /** Builds the candidate list the way the wrapper does, by appending. */
  method BuildCandidates(cfg: FetchConfig) returns (active: seq<Source>)
    ensures active == Candidates(cfg)
  {
    var mode := Lower(cfg.dataSource);
    active := [];
    if mode == "auto" || mode == "all" {
      for i := 0 to |cfg.preferred|
        invariant active == AutoCandidates(cfg.keys, cfg.preferred[..i])
      {
        assert cfg.preferred[..i + 1][..i] == cfg.preferred[..i];
        match KnownSource(cfg.preferred[i]) {
          case Some(s) =>
            if Truthy(KeyOf(cfg.keys, s)) {
              active := active + [s];
            } else if s == NordPool {
              active := active + [s];
            }
          case None =>
        }
      }
      assert cfg.preferred[..|cfg.preferred|] == cfg.preferred;
    } else {
      match KnownSource(mode) {
        case Some(s) =>
          if Truthy(KeyOf(cfg.keys, s)) || s == NordPool {
            active := [s];
          }
        case None =>
      }
    }
  }

  /** The try loop: calls the candidates in order and stops at the first non-empty frame. */
  method TryInOrder(active: seq<Source>, day: int, fetch: (Source, int) -> Outcome)
    returns (hit: Option<PriceFrame>, tried: seq<Source>, errors: seq<string>)
    ensures Failover(active, day, fetch) == Run(tried, hit, errors)
  {
    tried, errors, hit := [], [], None;
    for i := 0 to |active|
      invariant tried == active[..i]
      invariant errors == ErrorLog(tried, day, fetch)
      invariant forall j :: 0 <= j < i ==> !NonEmpty(fetch(active[j], day))
    {
      var source := active[i];
      var outcome := fetch(source, day);
      tried := tried + [source];
      ErrorLogStep(active, i, day, fetch);
      match outcome {
        case Returned(frame) =>
          if frame.rows != [] {
            FailoverStopsAtFirstHit(active, day, fetch, i);
            hit := Some(frame);
            return;
          }
        case Raises(msg) =>
          errors := errors + [ErrorMessage(source, msg)];
      }
    }
    assert tried == active;
    FailoverWithoutHit(active, day, fetch);
  }

  /**
   * `get_day_ahead_prices`.  Returns the frame, the sources called in
   * order and the error lines collected.  `date` falls back to `now`.
   */
  method GetDayAheadPrices(cfg: FetchConfig, date: Option<int>, now: int,
                           fetch: (Source, int) -> Outcome, random: nat -> real)
    returns (df: PriceFrame, tried: seq<Source>, errors: seq<string>)
    requires UnitDraws(random)
    ensures var day := if date.Some? then date.value else now;
      && (Lower(cfg.dataSource) == "mock" ==>
            tried == [] && errors == [] && IsMockSeries(df, day, cfg.mockMin, cfg.mockMax))
      && (Lower(cfg.dataSource) != "mock" ==>
            var run := Failover(Candidates(cfg), day, fetch);
            && tried == run.tried
            && errors == run.errors
            && (run.hit.Some? ==> df == run.hit.value)
            && (run.hit.None? ==> IsMockSeries(df, day, cfg.mockMin, cfg.mockMax)))
  {
    var day := if date.Some? then date.value else now;
    tried, errors := [], [];
    var mode := Lower(cfg.dataSource);
    if mode == "mock" {
      df := GenerateMockPriceData(Some(day), now, cfg.mockMin, cfg.mockMax, random);
      return;
    }

    var active := BuildCandidates(cfg);

    if active == [] {
      df := GenerateMockPriceData(Some(day), now, cfg.mockMin, cfg.mockMax, random);
      return;
    }

    var hit;
    hit, tried, errors := TryInOrder(active, day, fetch);
    if hit.Some? {
      df := hit.value;
      return;
    }
    df := GenerateMockPriceData(Some(day), now, cfg.mockMin, cfg.mockMax, random);
  }
}
