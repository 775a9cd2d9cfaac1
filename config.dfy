/**
 * The configuration surface of src/config.py, computed from given strings
 * instead of the process environment: defaults, the preferred-source list,
 * the trailing-slash rule for base URLs and the typed-lookup helper.
 */
module Config {
  import opened Wrappers
  import opened Strings

  const DefaultDataSource: string := "auto"
  const DefaultPreferredSources: string := "entsoe,elexon,eia,nordpool"
  const DefaultElexonBaseUrl: string := "https://data.elexon.co.uk/bmrs/api/v1"
  const DefaultEiaApiUrl: string := "https://api.eia.gov/series/"
  const DefaultVolatilityWindow: int := 24
  const DefaultAnomalyThreshold: real := 2.5
  const DefaultPeakHourStart: int := 8
  const DefaultPeakHourEnd: int := 20
  const DefaultMockPriceMin: real := 30.0
  const DefaultMockPriceMax: real := 70.0

  /** Neither end of w is white space. */
  predicate Trimmed(w: string)
  {
    w == [] || (!IsSpace(w[0]) && !IsSpace(w[|w| - 1]))
  }

  function StripAll(parts: seq<string>): (r: seq<string>)
    ensures |r| == |parts|
    ensures forall i :: 0 <= i < |r| ==> r[i] == Strip(parts[i]) && Trimmed(r[i])
  {
    if parts == [] then [] else [Strip(parts[0])] + StripAll(parts[1..])
  }

  /** PREFERRED_DATA_SOURCES: the comma-separated pieces, each stripped, in order. */
  function ParsePreferredSources(s: string): (r: seq<string>)
    ensures |r| == Count(s, ',') + 1
    ensures forall i :: 0 <= i < |r| ==> Trimmed(r[i])
    ensures |r| == |Split(s, ',')| && forall i :: 0 <= i < |r| ==> r[i] == Strip(Split(s, ',')[i])
  {
    SplitCount(s, ',');
    StripAll(Split(s, ','))
  }

  /** A list written without white space parses back to itself: joining the parsed names gives the string. */
  lemma PreferredSourcesRoundTrip(s: string)
    requires NoSpace(s)
    ensures Join(ParsePreferredSources(s), ',') == s
  {
    var parts := Split(s, ',');
    SplitNoSpace(s, ',');
    forall i | 0 <= i < |parts| ensures Strip(parts[i]) == parts[i] {
      var w := parts[i];
      assert NoSpace(w);
      assert w == [] || (!IsSpace(w[0]) && !IsSpace(w[|w| - 1]));
    }
    assert StripAll(parts) == parts;
    assert ParsePreferredSources(s) == parts;
    JoinSplit(s, ',');
  }

  /** A source name as written in the list: no comma and no white space. */
  predicate PlainName(s: string)
  {
    forall k :: 0 <= k < |s| ==> s[k] != ',' && !IsSpace(s[k])
  }

  /** A list of names that carry neither commas nor white space parses to those names. */
  lemma {:induction false} ParseNames(names: seq<string>)
    requires |names| > 0
    requires forall i :: 0 <= i < |names| ==> PlainName(names[i])
    ensures ParsePreferredSources(Join(names, ',')) == names
  {
    var s := Join(names, ',');
    assert Split(s, ',') == names by {
      forall i | 0 <= i < |names| ensures ',' !in names[i] {
        assert PlainName(names[i]);
      }
      SplitJoin(names);
    }
    forall i | 0 <= i < |names| ensures Strip(names[i]) == names[i] {
      var w := names[i];
      assert PlainName(w);
      assert w == [] || (!IsSpace(w[0]) && !IsSpace(w[|w| - 1]));
    }
    assert StripAll(names) == names;
  }

  /**
   * Names without commas, white space around them allowed, joined with
   * commas parse back to the names with that white space stripped, in order.
   */
  lemma ParseSpacedNames(names: seq<string>)
    requires |names| > 0
    requires forall i :: 0 <= i < |names| ==> ',' !in names[i]
    ensures ParsePreferredSources(Join(names, ',')) == StripAll(names)
  {
    SplitJoin(names);
  }

  /** Two plain names written with a space after the comma still parse to those two names. */
  lemma SpacedPairParses(a: string, b: string)
    requires PlainName(a) && PlainName(b)
    ensures ParsePreferredSources(a + ", " + b) == [a, b]
  {
    var second := [' '] + b;
    SpacedPairJoin(a, b);
    SplitJoin([a, second]);
    PlainNameStripped(a);
    StripLeadingSpace(b);
    var r := ParsePreferredSources(a + ", " + b);
    assert |r| == 2 && r[0] == a && r[1] == b;
  }

  lemma SpacedPairJoin(a: string, b: string)
    requires PlainName(b)
    ensures Join([a, [' '] + b], ',') == a + ", " + b
    ensures ',' !in [' '] + b
  {
    var second := [' '] + b;
    assert [a, second][1..] == [second];
    assert forall k :: 0 <= k < |second| ==> second[k] == ' ' || second[k] == b[k - 1];
  }

  lemma StripLeadingSpace(b: string)
    requires PlainName(b)
    ensures Strip([' '] + b) == b
  {
    var second := [' '] + b;
    assert second[1..] == b;
    assert StripLeft(second) == StripLeft(b);
    PlainNameStripped(b);
  }

  lemma PlainNameStripped(w: string)
    requires PlainName(w)
    ensures Strip(w) == w && StripLeft(w) == w
  {
    assert w == [] || (!IsSpace(w[0]) && !IsSpace(w[|w| - 1]));
  }

  lemma {:induction false} SplitJoin(names: seq<string>)
    requires |names| > 0
    requires forall i :: 0 <= i < |names| ==> ',' !in names[i]
    ensures Split(Join(names, ','), ',') == names
  {
    if |names| == 1 {
      SplitWithoutSeparator(names[0], ',');
    } else {
      SplitJoin(names[1..]);
      SplitAtSeparator(names[0], ',', Join(names[1..], ','));
    }
  }

  /** The default list names the four known sources in priority order. */
  lemma DefaultPreferredOrder()
    ensures ParsePreferredSources(DefaultPreferredSources) == ["entsoe", "elexon", "eia", "nordpool"]
  {
    var names := ["entsoe", "elexon", "eia", "nordpool"];
    assert Join(names, ',') == DefaultPreferredSources;
    ParseNames(names);
  }

  /** ELEXON_BASE_URL and EIA_API_URL: a non-empty URL is given a trailing '/' unless it has one. */
  function WithTrailingSlash(url: string): (r: string)
    ensures url != [] ==> EndsWith(r, "/")
    ensures url == [] ==> r == []
    ensures StartsWith(r, url) && |r| <= |url| + 1
    ensures EndsWith(url, "/") ==> r == url
  {
    if url != [] && !EndsWith(url, "/") then url + "/" else url
  }

  /** Normalising twice is normalising once. */
  lemma TrailingSlashIdempotent(url: string)
    ensures WithTrailingSlash(WithTrailingSlash(url)) == WithTrailingSlash(url)
  {
  }

  // ---- get_env_var -------------------------------------------------------

  /** What get_env_var returns as written: the cast value, or the default exactly as passed. */
  datatype EnvValue<T> = Cast(value: T) | UncastDefault(raw: string)

  /**
   * get_env_var as written: the variable's value (or, when unset, the
   * default) cast by `cast`; a cast that raises ValueError (None here)
   * yields the default value itself, without casting it.
   */
  function GetEnvVarAsWritten<T>(env: Option<string>, default: string, cast: string -> Option<T>): (r: EnvValue<T>)
    ensures var v := if env.Some? then env.value else default;
            (r.Cast? <==> cast(v).Some?) && (r.Cast? ==> r.value == cast(v).value)
    ensures r.UncastDefault? ==> r.raw == default
  {
    var v := if env.Some? then env.value else default;
    match cast(v)
    case Some(x) => Cast(x)
    case None => UncastDefault(default)
  }

  /** int() restricted to strings of decimal digits, as a stand-in cast. */
  function ParseDigits(s: string): Option<nat>
  {
    if s == [] then None
    else if !('0' <= s[|s| - 1] <= '9') then None
    else if |s| == 1 then Some(s[0] as int - '0' as int)
    else match ParseDigits(s[..|s| - 1])
      case None => None
      case Some(n) => Some(n * 10 + (s[|s| - 1] as int - '0' as int))
  }

  /**
   * With a string default, as in the commented use at src/config.py:66, an
   * unparsable environment value makes the helper return the string "24"
   * rather than the integer 24 that the default stands for.
   */
  lemma UncastDefaultReturned()
    ensures ParseDigits("24") == Some(24)
    ensures GetEnvVarAsWritten(Some("abc"), "24", ParseDigits) == UncastDefault("24")
  {
    assert ParseDigits("abc") == None;
    assert ParseDigits("2") == Some(2);
  }

  /**
   * get_env_var as evidently intended: fall back to the default cast to
   * the requested type.  Whenever the default casts, the caller receives a
   * value of that type, never the raw default string.
   */
  function GetEnvVar<T>(env: Option<string>, default: string, cast: string -> Option<T>): (r: Option<T>)
    ensures cast(default).Some? ==> r.Some?
    ensures env.Some? && cast(env.value).Some? ==> r == cast(env.value)
    ensures (env.None? || cast(env.value).None?) ==> r == cast(default)
  {
    var v := if env.Some? then env.value else default;
    match cast(v)
    case Some(x) => Some(x)
    case None => cast(default)
  }
}
