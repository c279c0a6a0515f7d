/**
 * The counter carousel: each configured counter is refreshed by its source
 * when its delay has passed, numbers are formatted to fit three characters,
 * URL sources share one cached response per URL, and the display loop shows
 * every counter that has text.
 */
module Counters {
  import opened Wrappers
  import opened PyText

  /** The default delay of a new URL cache entry when no counter names the URL. */
  const DEFAULT_DELAY: int := 999999999

  /**
   * `_format_number` after `int(number)`: nothing for a missing or
   * non-positive number, `***` from a million, thousands with two decimals
   * (one above ten thousand), else the number right-aligned in three places.
   */
  function FormatNumber(number: Option<int>): (text: Option<Formatted>)
    ensures text.None? <==> number.None? || number.value <= 0
    ensures number.Some? && number.value >= 1000000 ==> text == Some(Plain("***"))
    ensures number.Some? && 1000 <= number.value < 1000000 ==>
              text.Some? && text.value.Fixed? && text.value.prefix == ""
              && text.value.value == number.value as real / 1000.0
              && text.value.places == (if number.value > 10000 then 1 else 2)
    ensures number.Some? && 0 < number.value < 1000 ==>
              text.Some? && text.value.Plain? && |text.value.text| == 3
              && text.value.text == Spaces(3 - |DecimalString(number.value)|) + DecimalString(number.value)
              && ParseInt(text.value.text) == Some(number.value)
  {
    if number.None? || number.value <= 0 then None
    else
      var value := number.value;
      if value >= 1000000 then Some(Plain("***"))
      else if value >= 1000 then
        var val := value as real / 1000.0;
        Some(Fixed("", val, if val > 10.0 then 1 else 2))
      else
        ParseRJust(value, 3);
        assert |DecimalString(value)| <= 3 by { SmallDecimal(value); }
        Some(Plain(RJust(DecimalString(value), 3)))
  }

  /** A number below a thousand takes at most three digits. */
  lemma SmallDecimal(n: int)
    requires 0 <= n < 1000
    ensures |DecimalString(n)| <= 3
  {
    if n >= 10 {
      assert NatString(n) == NatString(n / 10) + [DigitChar(n % 10)];
      if n >= 100 {
        assert NatString(n / 10) == NatString(n / 100) + [DigitChar((n / 10) % 10)];
      }
    }
  }

  /** `_number_url` and `_number_server`: the text read, if any, as an integer; text that is no integer counts as missing. */
  function NumberFromText(text: Option<string>): (r: Option<Formatted>)
    ensures text.None? ==> r.None?
    ensures r.Some? <==> text.Some? && ParseInt(text.value).Some? && ParseInt(text.value).value > 0
  {
    FormatNumber(if text.Some? then ParseInt(text.value) else None)
  }

  /**
   * `_number_file`: the stripped first line, if the file exists.  Text that
   * is no integer makes `int()` raise outside any `try`, an error here.
   */
  function NumberFromFile(line: Option<string>): (r: Result<Option<Formatted>, string>)
    ensures line.None? ==> r == Ok(None)
    ensures line.Some? ==> (r.Err? <==> ParseInt(Strip(line.value)).None?)
  {
    if line.None? then Ok(None)
    else
      var n := ParseInt(Strip(line.value));
      StripUnpadded(Strip(line.value));
      if n.None? then Err("ValueError") else Ok(FormatNumber(n))
  }

  /**
   * One counter of the configuration: its label (`caption`), the source method and its
   * parameters, the refresh delay in seconds, the text last formatted and
   * when it was fetched (seconds on one clock).
   */
  datatype Counter = Counter(caption: string, source: string, params: seq<string>, delay: int,
                             text: Option<Formatted>, lastGet: Option<int>)

  /** The retrieval loop's test: never fetched, or more than `delay` seconds ago. */
  predicate Due(c: Counter, now: int) {
    c.lastGet.None? || now - c.lastGet.value > c.delay
  }

  /** A counter as one pass of the retrieval loop leaves it, `result` being what its source returns now. */
  function Refreshed(c: Counter, now: int, result: Option<Formatted>): (r: Counter)
    ensures Due(c, now) ==> r.text == result && r.lastGet == Some(now)
    ensures !Due(c, now) ==> r == c
    ensures r.caption == c.caption && r.source == c.source && r.params == c.params && r.delay == c.delay
  {
    if Due(c, now) then c.(text := result, lastGet := Some(now)) else c
  }

  /** A counter just refreshed is not due again until its delay has passed. */
  lemma RefreshedNotDue(c: Counter, now: int, later: int, result: Option<Formatted>)
    requires Due(c, now) && c.delay >= 0 && now <= later <= now + c.delay
    ensures !Due(Refreshed(c, now, result), later)
  {
  }

  /** The per-URL cache entry: its delay, when it was fetched, and the response text. */
  datatype CacheEntry = CacheEntry(delay: int, lastGet: Option<int>, response: Option<string>)

  /** Every counter has a first parameter (the loop of `_get_url` indexes it). */
  predicate AllHaveParams(cs: seq<Counter>) {
    forall i :: 0 <= i < |cs| ==> cs[i].params != []
  }

  /** The delay of a new cache entry: the least delay below the default among counters whose first parameter is `url`. */
  function MinDelay(cs: seq<Counter>, url: string): (d: int)
    requires AllHaveParams(cs)
    ensures d <= DEFAULT_DELAY
    ensures forall i :: 0 <= i < |cs| && cs[i].params[0] == url ==> d <= cs[i].delay
    ensures d == DEFAULT_DELAY || exists i :: 0 <= i < |cs| && cs[i].params[0] == url && cs[i].delay == d
  {
    if cs == [] then DEFAULT_DELAY
    else
      var init := cs[..|cs| - 1];
      var last := cs[|cs| - 1];
      assert forall i :: 0 <= i < |init| ==> init[i] == cs[i];
      var d := MinDelay(init, url);
      if last.params[0] == url && last.delay < d then last.delay else d
  }

  /**
   * The counters (their retrieval state), the URL cache, and what the
   * display loop has written, in order.
   */
  class CounterSet {
    var counters: seq<Counter>
    var urlCache: map<string, CacheEntry>
    var written: seq<Formatted>

    /** Loading the configuration: every counter starts with no text and never fetched. */
    constructor (config: seq<Counter>)
      ensures |counters| == |config| && urlCache == map[] && written == []
      ensures forall i :: 0 <= i < |config| ==>
                counters[i] == config[i].(text := None, lastGet := None)
    {
      counters := config;
      urlCache := map[];
      written := [];
      new;
      var i := 0;
      while i < |counters|
        invariant 0 <= i <= |counters| == |config| && urlCache == map[] && written == []
        invariant forall j :: 0 <= j < i ==> counters[j] == config[j].(text := None, lastGet := None)
        invariant forall j :: i <= j < |counters| ==> counters[j] == config[j]
      {
        counters := counters[i := counters[i].(text := None, lastGet := None)];
        i := i + 1;
      }
    }

    /**
     * One pass of `_retrieve_counters` at time `now`: each due counter takes
     * the text its source returns (`results[i]`) and the time; the others
     * are untouched.
     */
    method RetrievePass(now: int, results: seq<Option<Formatted>>)
      requires |results| == |counters|
      modifies this`counters
      ensures |counters| == |old(counters)|
      ensures forall i :: 0 <= i < |counters| ==> counters[i] == Refreshed(old(counters)[i], now, results[i])
    {
      var i := 0;
      while i < |counters|
        invariant 0 <= i <= |counters| == |old(counters)|
        invariant forall j :: 0 <= j < i ==> counters[j] == Refreshed(old(counters)[j], now, results[j])
        invariant forall j :: i <= j < |counters| ==> counters[j] == old(counters)[j]
      {
        var c := counters[i];
        if c.lastGet.None? || now - c.lastGet.value > c.delay {
          counters := counters[i := c.(text := results[i], lastGet := Some(now))];
        }
        i := i + 1;
      }
    }

    /**
     * The minimum-delay loop of `_get_url`: `Err` when a counter has no
     * parameters, as indexing `params[0]` raises.
     */
    method FindMinDelay(url: string) returns (r: Result<int, string>)
      ensures r.Err? <==> !AllHaveParams(counters)
      ensures r.Ok? ==> r.value == MinDelay(counters, url)
    {
      var minDelay := DEFAULT_DELAY;
      var i := 0;
      while i < |counters|
        invariant 0 <= i <= |counters|
        invariant AllHaveParams(counters[..i]) && minDelay == MinDelay(counters[..i], url)
      {
        if counters[i].params == [] {
          return Err("IndexError");
        }
        assert counters[..i + 1][..i] == counters[..i];
        if counters[i].params[0] == url && counters[i].delay < minDelay {
          minDelay := counters[i].delay;
        }
        i := i + 1;
      }
      assert counters[..i] == counters;
      return Ok(minDelay);
    }

    /**
     * `_get_url` at time `now`, `fetched` being what `requests.get` would
     * give (`Err` when it raises or the status is an error): create the
     * cache entry if the URL is new, refetch if the entry is stale, and
     * return the entry's response.
     */
    method GetUrl(url: string, now: int, fetched: Result<string, string>) returns (r: Result<Option<string>, string>)
      modifies this`urlCache
      ensures url !in old(urlCache) && !AllHaveParams(counters) ==> r.Err? && urlCache == old(urlCache)
      ensures url in old(urlCache) || AllHaveParams(counters) ==>
                var entry := if url in old(urlCache) then old(urlCache)[url]
                             else CacheEntry(MinDelay(counters, url), None, None);
                var stale := entry.lastGet.None? || now - entry.lastGet.value > entry.delay;
                && (!stale ==> r == Ok(entry.response) && urlCache == old(urlCache)[url := entry])
                && (stale && fetched.Err? ==> r.Err? && urlCache == old(urlCache)[url := entry])
                && (stale && fetched.Ok? ==>
                      r == Ok(Some(fetched.value))
                      && urlCache == old(urlCache)[url := entry.(response := Some(fetched.value), lastGet := Some(now))])
    {
      if url !in urlCache {
        var minDelay := FindMinDelay(url);
        if minDelay.Err? {
          return Err(minDelay.error);
        }
        urlCache := urlCache[url := CacheEntry(minDelay.value, None, None)];
      }
      var entry := urlCache[url];
      if entry.lastGet.None? || now - entry.lastGet.value > entry.delay {
        if fetched.Err? {
          return Err(fetched.error);
        }
        entry := entry.(response := Some(fetched.value), lastGet := Some(now));
        urlCache := urlCache[url := entry];
      }
      return Ok(entry.response);
    }

    /** One pass of `_display_counters`: write `label + text` for each counter that has text, in order. */
    method DisplayPass()
      modifies this`written
      ensures written == old(written) + Displayed(counters)
    {
      var i := 0;
      while i < |counters|
        invariant 0 <= i <= |counters|
        invariant written == old(written) + Displayed(counters[..i])
      {
        assert counters[..i + 1][..i] == counters[..i];
        if counters[i].text.Some? {
          written := written + [Prefixed(counters[i].caption, counters[i].text.value)];
        }
        i := i + 1;
      }
      assert counters[..i] == counters;
    }
  }

  /** What one display pass writes: each counter with text, its label in front. */
  function Displayed(cs: seq<Counter>): seq<Formatted> {
    if cs == [] then []
    else
      var c := cs[|cs| - 1];
      Displayed(cs[..|cs| - 1]) + (if c.text.Some? then [Prefixed(c.caption, c.text.value)] else [])
  }

  /** The number of counters that have text. */
  function WithText(cs: seq<Counter>): nat {
    if cs == [] then 0 else WithText(cs[..|cs| - 1]) + (if cs[|cs| - 1].text.Some? then 1 else 0)
  }

  /** A display pass writes once per counter with text and skips the others; nothing is written for a counter without text. */
  lemma {:induction false} DisplayedSkipsMissing(cs: seq<Counter>)
    ensures |Displayed(cs)| == WithText(cs)
    ensures (forall i :: 0 <= i < |cs| ==> cs[i].text.None?) ==> Displayed(cs) == []
  {
    if cs != [] {
      var init := cs[..|cs| - 1];
      DisplayedSkipsMissing(init);
      assert forall i :: 0 <= i < |init| ==> init[i] == cs[i];
    }
  }
}
