/**
 * The stand-alone counter board: poller threads store values (numbers,
 * text, or whatever a JSON path leads to) under one-letter keys, and the
 * main loop shows each key followed by its value, formatted to fit the
 * four-character display.
 */
module CounterBoard {
  import opened Wrappers
  import opened PyText

  /** A decoded JSON value (`None`, `bool`, `int`, `float`, `str`, `list`, `dict`). */
  datatype Json =
    | JNull
    | JBool(b: bool)
    | JInt(i: int)
    | JFloat(f: real)
    | JStr(s: string)
    | JList(items: seq<Json>)
    | JObject(fields: map<string, Json>)

  /** One entry of a configured JSON path: a key, an index, or anything else. */
  datatype PathEntry = Key(key: string) | Index(index: int) | Other

  /**
   * `current[entry]` with Python's rules: a key looks up a `dict`; an index
   * picks from a `list` or a `str`, counting from the end when negative; a
   * `dict` has no integer keys; any other pairing is a `TypeError`, and an
   * entry that is neither key nor index a `ValueError`.
   */
  function Step(current: Json, entry: PathEntry): (r: Result<Json, string>)
    ensures entry.Other? ==> r == Err("ValueError")
    ensures entry.Key? && current.JObject? ==>
              r == if entry.key in current.fields then Ok(current.fields[entry.key]) else Err("KeyError")
    ensures entry.Key? && !current.JObject? ==> r == Err("TypeError")
    ensures entry.Index? && current.JList? ==> (r.Ok? <==> -|current.items| <= entry.index < |current.items|)
    ensures entry.Index? && current.JList? && r.Ok? ==>
              r.value == current.items[if entry.index < 0 then |current.items| + entry.index else entry.index]
    ensures entry.Index? && current.JStr? ==> (r.Ok? <==> -|current.s| <= entry.index < |current.s|)
    ensures entry.Index? && current.JStr? && r.Ok? ==>
              r.value == JStr([current.s[if entry.index < 0 then |current.s| + entry.index else entry.index]])
    ensures entry.Index? && (current.JList? || current.JStr?) && r.Err? ==> r.error == "IndexError"
    ensures entry.Index? && current.JObject? ==> r == Err("KeyError")
    ensures entry.Index? && !(current.JList? || current.JStr? || current.JObject?) ==> r == Err("TypeError")
  {
    match entry
    case Other => Err("ValueError")
    case Key(k) =>
      (match current
       case JObject(fields) => if k in fields then Ok(fields[k]) else Err("KeyError")
       case _ => Err("TypeError"))
    case Index(n) =>
      (match current
       case JList(items) =>
         if 0 <= n < |items| then Ok(items[n])
         else if -|items| <= n < 0 then Ok(items[|items| + n])
         else Err("IndexError")
       case JStr(s) =>
         if 0 <= n < |s| then Ok(JStr([s[n]]))
         else if -|s| <= n < 0 then Ok(JStr([s[|s| + n]]))
         else Err("IndexError")
       case JObject(_) => Err("KeyError")
       case _ => Err("TypeError"))
  }

  /** Following a whole path, stopping at the first failing step. */
  function Walk(current: Json, path: seq<PathEntry>): Result<Json, string>
    decreases |path|
  {
    if path == [] then Ok(current)
    else
      match Step(current, path[0])
      case Err(e) => Err(e)
      case Ok(next) => Walk(next, path[1..])
  }

  /** Walking a path in two legs is walking it whole. */
  lemma {:induction false} WalkAppend(current: Json, p: seq<PathEntry>, q: seq<PathEntry>)
    ensures Walk(current, p + q) == match Walk(current, p) case Err(e) => Err(e) case Ok(mid) => Walk(mid, q)
    decreases |p|
  {
    if p != [] {
      assert (p + q)[0] == p[0] && (p + q)[1..] == p[1..] + q;
      if Step(current, p[0]).Ok? {
        WalkAppend(Step(current, p[0]).value, p[1..], q);
      }
    } else {
      assert p + q == q;
    }
  }

  /** The walk loop of `json_url_source`: `current` follows the path one entry at a time. */
  method WalkPath(json: Json, path: seq<PathEntry>) returns (r: Result<Json, string>)
    ensures r == Walk(json, path)
  {
    var current := json;
    var i := 0;
    while i < |path|
      invariant 0 <= i <= |path|
      invariant Walk(json, path) == Walk(current, path[i..])
    {
      assert path[i..][0] == path[i] && path[i..][1..] == path[i + 1..];
      var next := Step(current, path[i]);
      if next.Err? {
        return Err(next.error);
      }
      current := next.value;
      i := i + 1;
    }
    return Ok(current);
  }

  /** The line a file source keeps: with `trim > 0`, all but the last `trim` characters (`s[:-trim]`). */
  function Trim(line: string, trim: int): (r: string)
    ensures trim <= 0 ==> r == line
    ensures trim > 0 ==> |r| == (if trim >= |line| then 0 else |line| - trim) && r == line[..|r|]
  {
    if trim > 0 then line[..if trim >= |line| then 0 else |line| - trim] else line
  }

  /**
   * The text the main loop shows for an `int`: `***` from a million,
   * thousands with two decimals (one above ten thousand), else the number
   * right-aligned in three places (`{value:3d}`).
   */
  function IntText(key: char, v: int): (f: Formatted)
    ensures v >= 1000000 ==> f == Plain([key] + "***")
    ensures 1000 <= v < 1000000 ==>
              f.Fixed? && f.prefix == [key] && f.value == v as real / 1000.0 && f.places == (if v > 10000 then 1 else 2)
    ensures v < 1000 ==> f == Plain([key] + (Spaces(3 - |DecimalString(v)|) + DecimalString(v)))
  {
    if v >= 1000000 then Plain([key] + "***")
    else if v >= 1000 then
      var val := v as real / 1000.0;
      assert val > 10.0 <==> v > 10000;
      Fixed([key], val, if val > 10.0 then 1 else 2)
    else
      assert RJust(DecimalString(v), 3) == Spaces(3 - |DecimalString(v)|) + DecimalString(v);
      Plain([key] + RJust(DecimalString(v), 3))
  }

  /** The text the main loop shows for a `str`: right-aligned in four places when it has a dot, else three. */
  function StrText(key: char, s: string): (f: Formatted)
    ensures '.' in s ==> f == Plain([key] + (Spaces(4 - |s|) + s))
    ensures '.' !in s ==> f == Plain([key] + (Spaces(3 - |s|) + s))
  {
    var w := if '.' in s then 4 else 3;
    assert RJust(s, w) == Spaces(w - |s|) + s;
    Plain([key] + RJust(s, w))
  }

  /**
   * The text the main loop shows for `key`: `---` for no value; an `int`
   * or a `str` as above; a `float` with two decimals.  A `bool` cannot be
   * searched for a dot; a list or a dictionary can, but has no `rjust`.
   */
  function DisplayText(key: char, value: Json): (r: Result<Formatted, string>)
    ensures r.Ok? <==> value.JNull? || value.JInt? || value.JFloat? || value.JStr?
    ensures r.Ok? && r.value.Plain? ==> |r.value.text| >= 1 && r.value.text[0] == key
    ensures r.Ok? && r.value.Fixed? ==> r.value.prefix == [key]
    ensures value.JNull? ==> r == Ok(Plain([key] + "---"))
    ensures value.JInt? ==> r == Ok(IntText(key, value.i))
    ensures value.JFloat? ==> r == Ok(Fixed([key], value.f, 2))
    ensures value.JStr? ==> r == Ok(StrText(key, value.s))
    ensures value.JBool? ==> r == Err("TypeError")
    ensures value.JList? || value.JObject? ==> r == Err("AttributeError")
  {
    match value
    case JNull => Ok(Plain([key] + "---"))
    case JInt(v) => Ok(IntText(key, v))
    case JFloat(f) => Ok(Fixed([key], f, 2))
    case JStr(s) => Ok(StrText(key, s))
    case JBool(_) => Err("TypeError")
    case _ => Err("AttributeError")
  }

  /** A number above -100 and below a thousand takes at most three characters. */
  lemma ShortDecimal(v: int)
    requires -100 < v < 1000
    ensures |DecimalString(v)| <= 3
  {
    var m := if v < 0 then -v else v;
    if m >= 10 {
      assert NatString(m) == NatString(m / 10) + [DigitChar(m % 10)];
      if m >= 100 {
        assert NatString(m / 10) == NatString(m / 100) + [DigitChar((m / 10) % 10)];
      }
    }
  }

  /** Three-place right-aligned decimal text reads back as the number, in three characters above -100. */
  lemma PaddedSmallInt(v: int)
    ensures ParseInt(RJust(DecimalString(v), 3)) == Some(v)
    ensures -100 < v < 1000 ==> |RJust(DecimalString(v), 3)| == 3
  {
    ParseRJust(v, 3);
    if -100 < v < 1000 {
      ShortDecimal(v);
    }
  }

  /**
   * An int below a thousand shows as the key and text that reads back as
   * the number, four characters in all when it is above -100.
   */
  lemma SmallIntReadsBack(key: char, v: int)
    requires v < 1000
    ensures DisplayText(key, JInt(v)).Ok? && DisplayText(key, JInt(v)).value.Plain?
    ensures var t := DisplayText(key, JInt(v)).value.text;
            && t[1..] == Spaces(3 - |DecimalString(v)|) + DecimalString(v)
            && ParseInt(t[1..]) == Some(v) && (-100 < v ==> |t| == 4)
  {
    var d := DecimalString(v);
    var t := DisplayText(key, JInt(v)).value.text;
    assert t[1..] == Spaces(3 - |d|) + d;
    assert RJust(d, 3) == Spaces(3 - |d|) + d;
    PaddedSmallInt(v);
  }

  /** The keys of `counter_data` in the order the main loop visits them. */
  const INITIAL_KEYS: seq<char> := ['T', 'R', 'A', 'P', 'Y', 'S', 'W', 'D', 'N', 'E', 'V', 'I', 'B']

  /** No key occurs twice. */
  ghost predicate Distinct(ks: seq<char>) {
    forall i, j :: 0 <= i < j < |ks| ==> ks[i] != ks[j]
  }

  /** The texts for the first `n` keys, all of which render. */
  function Rendered(order: seq<char>, data: map<char, Json>, n: nat): (texts: seq<Formatted>)
    requires n <= |order| && forall j :: 0 <= j < |order| ==> order[j] in data
    requires forall j :: 0 <= j < n ==> DisplayText(order[j], data[order[j]]).Ok?
    ensures |texts| == n
  {
    if n == 0 then [] else Rendered(order, data, n - 1) + [DisplayText(order[n - 1], data[order[n - 1]]).value]
  }

  /** A dictionary's item order for `extract`: destination keys with their paths, keys distinct. */
  type Extract = seq<(char, seq<PathEntry>)>

  /** The destinations of the first `n` entries of an extract. */
  function DestsUpTo(extract: Extract, n: nat): (ds: set<char>)
    requires n <= |extract|
    ensures forall i :: 0 <= i < n ==> extract[i].0 in ds
  {
    if n == 0 then {} else DestsUpTo(extract, n - 1) + {extract[n - 1].0}
  }

  lemma {:induction false} DestsUpToGrow(extract: Extract, i: nat, n: nat)
    requires i <= n <= |extract|
    ensures DestsUpTo(extract, i) <= DestsUpTo(extract, n)
    decreases n
  {
    if i < n {
      DestsUpToGrow(extract, i, n - 1);
    }
  }

  /** The destinations of an extract. */
  function DestSet(extract: Extract): set<char> {
    DestsUpTo(extract, |extract|)
  }

  /** No destination occurs twice, as the keys of a dictionary. */
  predicate DistinctDests(extract: Extract) {
    forall i, j :: 0 <= i < j < |extract| ==> extract[i].0 != extract[j].0
  }

  /** One path that fails to walk spoils the whole extract. */
  lemma WalkFails(json: Json, extract: Extract, i: nat)
    requires i < |extract| && Walk(json, extract[i].1).Err?
    ensures !AllWalk(json, extract)
  {
  }

  /** The first `n` destinations hold the ends of their paths' walks through `json`. */
  predicate Stored(data: map<char, Json>, json: Json, extract: Extract, n: nat)
    requires n <= |extract|
  {
    forall j :: 0 <= j < n ==>
      Walk(json, extract[j].1).Ok? && extract[j].0 in data && data[extract[j].0] == Walk(json, extract[j].1).value
  }

  /** Storing one more walk's end keeps the earlier ones, the destinations being distinct. */
  lemma StoredStep(data: map<char, Json>, json: Json, extract: Extract, n: nat)
    requires n < |extract| && DistinctDests(extract) && Stored(data, json, extract, n)
    requires Walk(json, extract[n].1).Ok?
    ensures Stored(data[extract[n].0 := Walk(json, extract[n].1).value], json, extract, n + 1)
  {
    var d := data[extract[n].0 := Walk(json, extract[n].1).value];
    forall j | 0 <= j < n + 1
      ensures Walk(json, extract[j].1).Ok? && extract[j].0 in d && d[extract[j].0] == Walk(json, extract[j].1).value
    {
      if j < n {
        assert extract[j].0 != extract[n].0;
      }
    }
  }

  /** `after` holds every key of `before` and of `ds`, and agrees with `before` outside `ds`. */
  ghost predicate UpdatedOn(before: map<char, Json>, after: map<char, Json>, ds: set<char>) {
    after.Keys == before.Keys + ds && forall k :: k in before && k !in ds ==> after[k] == before[k]
  }

  /** Setting one more destination extends the set of updated keys by it. */
  lemma UpdatedStep(before: map<char, Json>, after: map<char, Json>, extract: Extract, i: nat, v: Json)
    requires i < |extract| && UpdatedOn(before, after, DestsUpTo(extract, i))
    ensures UpdatedOn(before, after[extract[i].0 := v], DestsUpTo(extract, i + 1))
  {
  }

  /**
   * The destinations among the first `n` entries of an extract that are
   * neither in `keys` nor an earlier destination: the keys a dictionary
   * with `keys` gains, in the order it gains them, when those entries are
   * assigned.
   */
  function NewKeys(keys: set<char>, extract: Extract, n: nat): (ks: seq<char>)
    requires n <= |extract|
    ensures |ks| <= n
  {
    if n == 0 then []
    else
      var d := extract[n - 1].0;
      NewKeys(keys, extract, n - 1) + (if d in keys || d in DestsUpTo(extract, n - 1) then [] else [d])
  }

  /**
   * Assigning one more entry appends its destination to the order exactly
   * when the dictionary, as the earlier entries left it, lacks it.
   */
  lemma OrderStep(start: seq<char>, before: seq<char>, after: seq<char>, keys: set<char>, current: set<char>,
                  extract: Extract, i: nat)
    requires i < |extract| && current == keys + DestsUpTo(extract, i)
    requires before == start + NewKeys(keys, extract, i)
    requires after == if extract[i].0 in current then before else before + [extract[i].0]
    ensures after == start + NewKeys(keys, extract, i + 1)
  {
  }

  /** Assigning only keys that already exist adds nothing to the order. */
  lemma {:induction false} NewKeysKnown(keys: set<char>, extract: Extract, n: nat)
    requires n <= |extract| && DestsUpTo(extract, n) <= keys
    ensures NewKeys(keys, extract, n) == []
  {
    if n > 0 {
      NewKeysKnown(keys, extract, n - 1);
    }
  }

  /** Entries whose destinations are already keys add nothing. */
  lemma {:induction false} NewKeysNone(keys: set<char>, extract: Extract, i: nat, n: nat)
    requires n <= i <= |extract|
    ensures NewKeys(keys + DestsUpTo(extract, i), extract, n) == []
  {
    if n > 0 {
      NewKeysNone(keys, extract, i, n - 1);
    }
  }

  /** Assigning the first `i` entries and then all `n` is assigning the `n` entries at once. */
  lemma {:induction false} NewKeysSplit(keys: set<char>, extract: Extract, i: nat, n: nat)
    requires i <= n <= |extract|
    ensures NewKeys(keys, extract, i) + NewKeys(keys + DestsUpTo(extract, i), extract, n) == NewKeys(keys, extract, n)
    decreases n
  {
    if n == i {
      NewKeysNone(keys, extract, i, n);
    } else {
      NewKeysSplit(keys, extract, i, n - 1);
      DestsUpToGrow(extract, i, n - 1);
      var d := extract[n - 1].0;
      assert (d in keys + DestsUpTo(extract, i) || d in DestsUpTo(extract, n - 1))
             <==> (d in keys || d in DestsUpTo(extract, n - 1));
    }
  }

  /** The order after the first `done` entries, then after clearing every entry, is the order after assigning every entry once. */
  lemma OrderAfterClear(start: seq<char>, mid: seq<char>, end: seq<char>, keys: set<char>, extract: Extract, done: nat)
    requires done <= |extract| && mid == start + NewKeys(keys, extract, done)
    requires end == mid + NewKeys(keys + DestsUpTo(extract, done), extract, |extract|)
    ensures end == start + NewKeys(keys, extract, |extract|)
  {
    NewKeysSplit(keys, extract, done, |extract|);
  }

  /** Updating the first `i` destinations stays within the extract's destinations. */
  lemma UpdatedWithin(before: map<char, Json>, after: map<char, Json>, extract: Extract, i: nat)
    requires i <= |extract| && UpdatedOn(before, after, DestsUpTo(extract, i))
    ensures before.Keys <= after.Keys <= before.Keys + DestSet(extract)
    ensures forall k :: k in before && k !in DestSet(extract) ==> after[k] == before[k]
  {
    DestsUpToGrow(extract, i, |extract|);
  }

  /** `after` is `before` with every key of `ds` set to no value. */
  ghost predicate Cleared(before: map<char, Json>, after: map<char, Json>, ds: set<char>) {
    UpdatedOn(before, after, ds) && forall k :: k in ds ==> after[k] == JNull
  }

  /** Clearing one more destination extends the set of cleared keys by it. */
  lemma ClearedStep(before: map<char, Json>, after: map<char, Json>, extract: Extract, i: nat)
    requires i < |extract| && Cleared(before, after, DestsUpTo(extract, i))
    ensures Cleared(before, after[extract[i].0 := JNull], DestsUpTo(extract, i + 1))
  {
  }

  /** Every path of the extract leads somewhere in `json`. */
  predicate AllWalk(json: Json, extract: Extract) {
    forall i :: 0 <= i < |extract| ==> Walk(json, extract[i].1).Ok?
  }

  /**
   * `counter_data`: the keys in insertion order (`order`) and the value
   * under each (`data`); `printed` logs what the main loop has shown.
   */
  class Board {
    var order: seq<char>
    var data: map<char, Json>
    var printed: seq<Formatted>

    /** Every key in the order has a value, each key once, and nothing else has one. */
    ghost predicate Valid()
      reads this
    {
      Distinct(order) && forall k :: k in data <==> k in order
    }

    /** The thirteen keys, in order, each without a value yet. */
    constructor ()
      ensures Valid() && order == INITIAL_KEYS && printed == []
      ensures forall k :: k in data <==> k in INITIAL_KEYS
      ensures forall k :: k in data ==> data[k] == JNull
    {
      order := INITIAL_KEYS;
      data := map k | k in INITIAL_KEYS :: JNull;
      printed := [];
    }

    /** `counter_data[dest] = value`: a new key goes last in the order. */
    method Put(dest: char, value: Json)
      requires Valid()
      modifies this`order, this`data
      ensures Valid() && data == old(data)[dest := value]
      ensures order == if dest in old(data) then old(order) else old(order) + [dest]
    {
      if dest !in data {
        order := order + [dest];
      }
      data := data[dest := value];
    }

    /**
     * One poll of `int_file_source`: the stripped first line with its last
     * `trim` characters dropped, stored as an int; a missing file or text
     * that is no int leaves the value as it was.
     */
    method IntFilePoll(dest: char, line: Option<string>, trim: int)
      requires Valid()
      modifies this`order, this`data
      ensures Valid()
      ensures line.Some? && ParseInt(Trim(Strip(line.value), trim)).Some? ==>
                data == old(data)[dest := JInt(ParseInt(Trim(Strip(line.value), trim)).value)]
      ensures line.Some? && ParseInt(Trim(Strip(line.value), trim)).Some? ==>
                order == if dest in old(data) then old(order) else old(order) + [dest]
      ensures line.None? || ParseInt(Trim(Strip(line.value), trim)).None? ==>
                data == old(data) && order == old(order)
    {
      if line.None? {
        return;
      }
      var n := ParseInt(Trim(Strip(line.value), trim));
      if n.Some? {
        Put(dest, JInt(n.value));
      }
    }

    /** One poll of `file_source`: the trimmed line as text, or no value when the file is missing. */
    method FilePoll(dest: char, line: Option<string>, trim: int)
      requires Valid()
      modifies this`order, this`data
      ensures Valid()
      ensures data == old(data)[dest := if line.Some? then JStr(Trim(Strip(line.value), trim)) else JNull]
      ensures order == if dest in old(data) then old(order) else old(order) + [dest]
    {
      var value := if line.Some? then JStr(Trim(Strip(line.value), trim)) else JNull;
      Put(dest, value);
    }

    /** One poll of `number_server` or `int_url_source`: the text received as an int, or no value. */
    method NumberPoll(dest: char, text: Option<string>)
      requires Valid()
      modifies this`order, this`data
      ensures Valid()
      ensures text.Some? && ParseInt(text.value).Some? ==> data == old(data)[dest := JInt(ParseInt(text.value).value)]
      ensures text.None? || ParseInt(text.value).None? ==> data == old(data)[dest := JNull]
      ensures order == if dest in old(data) then old(order) else old(order) + [dest]
    {
      var n := if text.Some? then ParseInt(text.value) else None;
      Put(dest, if n.Some? then JInt(n.value) else JNull);
    }

    /**
     * The `for (dest, path)` loop's progress after `n` turns: the first `n`
     * destinations hold their walks' ends, nothing else changed from
     * `initial`, and the key order is `start` followed by the keys added.
     */
    ghost predicate Progress(initial: map<char, Json>, start: seq<char>, json: Json, extract: Extract, n: nat)
      reads this
    {
      && n <= |extract| && Valid()
      && UpdatedOn(initial, data, DestsUpTo(extract, n))
      && Stored(data, json, extract, n)
      && order == start + NewKeys(initial.Keys, extract, n)
    }

    /**
     * One turn of the `for (dest, path)` loop: walk one path and store where
     * it ends.  `initial` and `start` are the values and the key order before
     * the loop.
     */
    method StoreOne(json: Json, extract: Extract, i: nat, ghost initial: map<char, Json>, ghost start: seq<char>)
      returns (stored: bool)
      requires DistinctDests(extract) && i < |extract| && Progress(initial, start, json, extract, i)
      modifies this`order, this`data
      ensures Valid()
      ensures stored <==> Walk(json, extract[i].1).Ok?
      ensures stored ==> data == old(data)[extract[i].0 := Walk(json, extract[i].1).value]
                         && Progress(initial, start, json, extract, i + 1)
      ensures stored ==> order == if extract[i].0 in old(data) then old(order) else old(order) + [extract[i].0]
      ensures !stored ==> data == old(data) && order == old(order)
    {
      var found := WalkPath(json, extract[i].1);
      if found.Err? {
        return false;
      }
      ghost var before := data;
      ghost var beforeOrder := order;
      StoredStep(data, json, extract, i);
      UpdatedStep(initial, before, extract, i, found.value);
      Put(extract[i].0, found.value);
      OrderStep(start, beforeOrder, order, initial.Keys, before.Keys, extract, i);
      return true;
    }

    /** The `for (dest, path)` loop: store each walk's end until one fails. */
    method StoreWalks(json: Json, extract: Extract) returns (failed: bool, done: nat)
      requires Valid() && DistinctDests(extract)
      modifies this`order, this`data
      ensures Valid()
      ensures failed <==> !AllWalk(json, extract)
      ensures done <= |extract| && (failed <==> done < |extract|)
      ensures old(data).Keys <= data.Keys <= old(data).Keys + DestSet(extract)
      ensures data.Keys == old(data).Keys + DestsUpTo(extract, done)
      ensures forall k :: k in old(data) && k !in DestSet(extract) ==> data[k] == old(data)[k]
      ensures Stored(data, json, extract, done)
      ensures order == old(order) + NewKeys(old(data).Keys, extract, done)
    {
      for i := 0 to |extract|
        invariant Progress(old(data), old(order), json, extract, i)
      {
        var stored := StoreOne(json, extract, i, old(data), old(order));
        if !stored {
          UpdatedWithin(old(data), data, extract, i);
          WalkFails(json, extract, i);
          return true, i;
        }
      }
      UpdatedWithin(old(data), data, extract, |extract|);
      return false, |extract|;
    }

    /** One turn of the error path's loop: the next destination loses its value. */
    method ClearOne(extract: Extract, j: nat, ghost start: seq<char>, ghost initial: map<char, Json>)
      requires Valid() && j < |extract|
      requires Cleared(initial, data, DestsUpTo(extract, j))
      requires order == start + NewKeys(initial.Keys, extract, j)
      modifies this`order, this`data
      ensures Valid()
      ensures Cleared(initial, data, DestsUpTo(extract, j + 1))
      ensures order == start + NewKeys(initial.Keys, extract, j + 1)
    {
      ghost var before := data;
      ghost var beforeOrder := order;
      ClearedStep(initial, before, extract, j);
      Put(extract[j].0, JNull);
      OrderStep(start, beforeOrder, order, initial.Keys, before.Keys, extract, j);
    }

    /** The error path: every destination of the extract loses its value. */
    method ClearDests(extract: Extract)
      requires Valid()
      modifies this`order, this`data
      ensures Valid()
      ensures data.Keys == old(data).Keys + DestSet(extract)
      ensures forall k :: k in old(data) && k !in DestSet(extract) ==> data[k] == old(data)[k]
      ensures forall k :: k in DestSet(extract) ==> data[k] == JNull
      ensures order == old(order) + NewKeys(old(data).Keys, extract, |extract|)
    {
      for j := 0 to |extract|
        invariant Valid()
        invariant Cleared(old(data), data, DestsUpTo(extract, j))
        invariant order == old(order) + NewKeys(old(data).Keys, extract, j)
      {
        ClearOne(extract, j, old(order), old(data));
      }
    }

    /**
     * One poll of `json_url_source`, `fetched` being the decoded reply or
     * the error raised getting it: each destination takes what its path
     * leads to; any failure sets every destination to no value.
     */
    method JsonPoll(fetched: Result<Json, string>, extract: Extract)
      requires Valid() && DistinctDests(extract)
      modifies this`order, this`data
      ensures Valid()
      ensures data.Keys == old(data).Keys + DestSet(extract)
      ensures forall k :: k in old(data) && k !in DestSet(extract) ==> data[k] == old(data)[k]
      ensures fetched.Ok? && AllWalk(fetched.value, extract) ==>
                forall i :: 0 <= i < |extract| ==> data[extract[i].0] == Walk(fetched.value, extract[i].1).value
      ensures !(fetched.Ok? && AllWalk(fetched.value, extract)) ==>
                forall k :: k in DestSet(extract) ==> data[k] == JNull
      ensures order == old(order) + NewKeys(old(data).Keys, extract, |extract|)
    {
      var failed, done := true, 0;
      if fetched.Ok? {
        failed, done := StoreWalks(fetched.value, extract);
      }
      if failed {
        ClearAfterStores(extract, done, old(data), old(order));
      }
    }

    /**
     * The error path after `done` destinations were stored: clearing every
     * destination leaves the board as if only the clearing had happened.
     */
    method ClearAfterStores(extract: Extract, done: nat, ghost initial: map<char, Json>, ghost start: seq<char>)
      requires Valid() && done <= |extract|
      requires data.Keys == initial.Keys + DestsUpTo(extract, done)
      requires forall k :: k in initial && k !in DestSet(extract) ==> data[k] == initial[k]
      requires order == start + NewKeys(initial.Keys, extract, done)
      modifies this`order, this`data
      ensures Valid()
      ensures data.Keys == initial.Keys + DestSet(extract)
      ensures forall k :: k in initial && k !in DestSet(extract) ==> data[k] == initial[k]
      ensures forall k :: k in DestSet(extract) ==> data[k] == JNull
      ensures order == start + NewKeys(initial.Keys, extract, |extract|)
    {
      ghost var mid := order;
      DestsUpToGrow(extract, done, |extract|);
      ClearDests(extract);
      OrderAfterClear(start, mid, order, initial.Keys, extract, done);
    }

    /**
     * One round of the main loop: show each key's text in order.  A value
     * that cannot be shown raises and ends the loop, after the keys before
     * it have been shown.
     */
    method DisplayPass() returns (outcome: Outcome<string>)
      requires Valid()
      modifies this`printed
      ensures |old(printed)| <= |printed| <= |old(printed)| + |order|
      ensures var n := |printed| - |old(printed)|;
              && (forall j :: 0 <= j < n ==> DisplayText(order[j], data[order[j]]).Ok?)
              && printed == old(printed) + Rendered(order, data, n)
              && (outcome.Pass? <==> n == |order|)
              && (outcome.Fail? ==> n < |order| && DisplayText(order[n], data[order[n]]).Err?
                                    && outcome == Fail(DisplayText(order[n], data[order[n]]).error))
    {
      for i := 0 to |order|
        invariant forall j :: 0 <= j < i ==> DisplayText(order[j], data[order[j]]).Ok?
        invariant printed == old(printed) + Rendered(order, data, i)
      {
        var text := DisplayText(order[i], data[order[i]]);
        if text.Err? {
          return Fail(text.error);
        }
        printed := printed + [text.value];
      }
      return Pass;
    }
  }
}
