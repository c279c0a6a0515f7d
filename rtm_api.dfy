/**
 * What the two Remember The Milk clients share: the signed request string
 * of `_request`, the classification of a task's due date against today, the
 * stable sort by due date, and the shape of a `rtm.tasks.getList` reply.
 */
module RtmApi {
  import opened Wrappers
  import opened PyText

  /** The REST endpoint every request string starts with. */
  const RTM_URL: string := "https://api.rememberthemilk.com/services/rest/?"

  /** A dictionary of request parameters, as its items in insertion order. */
  type Params = seq<(string, string)>

  /** The keys, in order. */
  function Keys(ps: Params): (ks: seq<string>)
    ensures |ks| == |ps|
  {
    seq(|ps|, i requires 0 <= i < |ps| => ps[i].0)
  }

  /** No key occurs twice. */
  ghost predicate DistinctKeys(ps: Params) {
    forall i, j :: 0 <= i < j < |ps| ==> ps[i].0 != ps[j].0
  }

  /** `ps[k]`, or `None` when `k` is not a key. */
  function Lookup(ps: Params, k: string): (r: Option<string>)
    ensures r.Some? <==> exists i :: 0 <= i < |ps| && ps[i].0 == k
    ensures r.Some? ==> (k, r.value) in ps
  {
    if ps == [] then None
    else if ps[0].0 == k then Some(ps[0].1)
    else
      var r := Lookup(ps[1..], k);
      assert forall i :: 1 <= i < |ps| ==> ps[i] == ps[1..][i - 1];
      r
  }

  /** `ps[k] = v`: an existing key keeps its place, a new one goes last. */
  function Put(ps: Params, k: string, v: string): (r: Params)
    ensures |r| == |ps| || |r| == |ps| + 1
  {
    if ps == [] then [(k, v)]
    else if ps[0].0 == k then [(k, v)] + ps[1..]
    else [ps[0]] + Put(ps[1..], k, v)
  }

  /** After `ps[k] = v`, looking up `k` gives `v` and every other key looks up as before. */
  lemma {:induction false} PutLookup(ps: Params, k: string, v: string)
    ensures Lookup(Put(ps, k, v), k) == Some(v)
    ensures forall k' :: k' != k ==> Lookup(Put(ps, k, v), k') == Lookup(ps, k')
  {
    var r := Put(ps, k, v);
    if ps != [] {
      assert r[1..] == if ps[0].0 == k then ps[1..] else Put(ps[1..], k, v);
      if ps[0].0 != k {
        PutLookup(ps[1..], k, v);
      }
    }
  }

  /** The keys of a non-empty list: the first key, then the keys of the rest. */
  lemma KeysHead(ps: Params)
    requires ps != []
    ensures Keys(ps) == [ps[0].0] + Keys(ps[1..])
  {
    assert forall i :: 1 <= i < |ps| ==> ps[i] == ps[1..][i - 1];
  }

  /** Setting a key replaces the item with that key in place, or appends a new last item. */
  lemma {:induction false} PutKeys(ps: Params, k: string, v: string)
    ensures Keys(Put(ps, k, v)) == if k in Keys(ps) then Keys(ps) else Keys(ps) + [k]
  {
    var r := Put(ps, k, v);
    if ps == [] {
      assert Keys(r) == [k];
    } else if ps[0].0 == k {
      assert Keys(r) == Keys(ps) by {
        KeysHead(ps);
        KeysHead(r);
        assert r[1..] == ps[1..];
      }
      assert Keys(ps)[0] == k by {
        KeysHead(ps);
      }
    } else {
      var rest := ps[1..];
      var t := Put(rest, k, v);
      assert Keys(r) == [ps[0].0] + Keys(t) by {
        KeysHead(r);
        assert r[1..] == t;
      }
      assert Keys(ps) == [ps[0].0] + Keys(rest) by {
        KeysHead(ps);
      }
      PutKeys(rest, k, v);
      assert k in Keys(ps) <==> k in Keys(rest);
      if k !in Keys(rest) {
        assert [ps[0].0] + (Keys(rest) + [k]) == [ps[0].0] + Keys(rest) + [k];
      }
    }
  }

  /** Setting a key keeps the keys distinct. */
  lemma PutDistinct(ps: Params, k: string, v: string)
    requires DistinctKeys(ps)
    ensures DistinctKeys(Put(ps, k, v))
  {
    PutKeys(ps, k, v);
    var r := Put(ps, k, v);
    if k !in Keys(ps) {
      forall i, j | 0 <= i < j < |r| ensures r[i].0 != r[j].0 {
        assert Keys(r)[i] == r[i].0 && Keys(r)[j] == r[j].0;
      }
    } else {
      forall i, j | 0 <= i < j < |r| ensures r[i].0 != r[j].0 {
        assert Keys(r)[i] == r[i].0 && Keys(r)[j] == r[j].0;
        assert Keys(ps)[i] == ps[i].0 && Keys(ps)[j] == ps[j].0;
      }
    }
  }

  /** Keys strictly increasing in Python's string order. */
  ghost predicate KeysSorted(ps: Params) {
    forall i, j :: 0 <= i < j < |ps| ==> StrLess(ps[i].0, ps[j].0)
  }

  /** Insert one item before the first item with a greater key. */
  function InsertByKey(p: (string, string), ps: Params): (r: Params)
    ensures |r| == |ps| + 1
  {
    if ps == [] || StrLess(p.0, ps[0].0) then [p] + ps
    else [ps[0]] + InsertByKey(p, ps[1..])
  }

  /** Inserting adds the one item and loses none. */
  lemma {:induction false} InsertByKeyPermutes(p: (string, string), ps: Params)
    ensures multiset(InsertByKey(p, ps)) == multiset(ps) + multiset{p}
  {
    if ps != [] && !StrLess(p.0, ps[0].0) {
      assert ps == [ps[0]] + ps[1..];
      InsertByKeyPermutes(p, ps[1..]);
    }
  }

  /** `dict(sorted(ps.items()))`: the items in key order. */
  function SortByKey(ps: Params): (r: Params)
    ensures multiset(r) == multiset(ps)
  {
    if ps == [] then []
    else
      assert ps == [ps[0]] + ps[1..];
      InsertByKeyPermutes(ps[0], SortByKey(ps[1..]));
      InsertByKey(ps[0], SortByKey(ps[1..]))
  }

  /** Inserting an item whose key is above `lo` into items whose keys are all above `lo` keeps them all above `lo`. */
  lemma {:induction false} InsertByKeyAbove(p: (string, string), ps: Params, lo: string)
    requires StrLess(lo, p.0)
    requires forall i :: 0 <= i < |ps| ==> StrLess(lo, ps[i].0)
    ensures forall i :: 0 <= i < |InsertByKey(p, ps)| ==> StrLess(lo, InsertByKey(p, ps)[i].0)
  {
    if ps != [] && !StrLess(p.0, ps[0].0) {
      InsertByKeyAbove(p, ps[1..], lo);
      var t := InsertByKey(p, ps[1..]);
      assert forall j :: 1 <= j < |[ps[0]] + t| ==> ([ps[0]] + t)[j] == t[j - 1];
    }
  }

  lemma {:induction false} InsertByKeySorted(p: (string, string), ps: Params)
    requires KeysSorted(ps)
    requires forall q :: q in ps ==> q.0 != p.0
    ensures KeysSorted(InsertByKey(p, ps))
  {
    var r := InsertByKey(p, ps);
    if ps == [] {
    } else if StrLess(p.0, ps[0].0) {
      forall i, j | 0 <= i < j < |r| ensures StrLess(r[i].0, r[j].0) {
        if i == 0 && j > 1 {
          StrLessTransitive(p.0, ps[0].0, ps[j - 1].0);
        }
      }
    } else {
      assert ps[0] in ps;
      StrLessTotal(p.0, ps[0].0);
      var rest := ps[1..];
      assert forall i :: 0 <= i < |rest| ==> rest[i] == ps[i + 1];
      InsertByKeySorted(p, rest);
      InsertByKeyAbove(p, rest, ps[0].0);
      var t := InsertByKey(p, rest);
      assert r == [ps[0]] + t;
      assert forall j :: 1 <= j < |r| ==> r[j] == t[j - 1];
    }
  }

  lemma {:induction false} SortByKeySorted(ps: Params)
    requires DistinctKeys(ps)
    ensures KeysSorted(SortByKey(ps))
  {
    if ps != [] {
      assert forall i, j :: 0 <= i < j < |ps[1..]| ==> ps[1..][i] == ps[i + 1] && ps[1..][j] == ps[j + 1];
      SortByKeySorted(ps[1..]);
      forall q | q in SortByKey(ps[1..]) ensures q.0 != ps[0].0 {
        assert q in multiset(SortByKey(ps[1..]));
        var k :| 0 <= k < |ps[1..]| && ps[1..][k] == q;
        assert ps[k + 1] == q;
      }
      InsertByKeySorted(ps[0], SortByKey(ps[1..]));
    }
  }

  /** What one item adds to the query: `key=value&`. */
  function QueryEntry(p: (string, string)): string {
    p.0 + "=" + p.1 + "&"
  }

  /** What one item adds to the signature input: `key` then `value`. */
  function SignatureEntry(p: (string, string)): string {
    p.0 + p.1
  }

  /** The query part: one `QueryEntry` per item, in order. */
  function Query(ps: Params): string {
    if ps == [] then "" else Query(ps[..|ps| - 1]) + QueryEntry(ps[|ps| - 1])
  }

  /** The signature input after the secret: one `SignatureEntry` per item, in order. */
  function SignatureBody(ps: Params): string {
    if ps == [] then "" else SignatureBody(ps[..|ps| - 1]) + SignatureEntry(ps[|ps| - 1])
  }

  /** Extending a prefix of the items by one extends the query and the signature input by its entries. */
  lemma QueryStep(items: Params, i: nat, url: string, sig: string)
    requires i < |items|
    ensures url + Query(items[..i]) + QueryEntry(items[i]) == url + Query(items[..i + 1])
    ensures sig + SignatureBody(items[..i]) + SignatureEntry(items[i]) == sig + SignatureBody(items[..i + 1])
  {
    assert items[..i + 1][..i] == items[..i];
  }

  /** The caller's parameters with the four fixed ones set. */
  function RequestParams(params: Params, apiMethod: string, apiKey: string, token: string): (r: Params)
    ensures Lookup(r, "method") == Some(apiMethod) && Lookup(r, "api_key") == Some(apiKey)
    ensures Lookup(r, "auth_token") == Some(token) && Lookup(r, "format") == Some("json")
    ensures forall k :: k != "method" && k != "api_key" && k != "auth_token" && k != "format" ==>
              Lookup(r, k) == Lookup(params, k)
  {
    var p1 := Put(params, "method", apiMethod);
    var p2 := Put(p1, "api_key", apiKey);
    var p3 := Put(p2, "auth_token", token);
    PutLookup(params, "method", apiMethod);
    PutLookup(p1, "api_key", apiKey);
    PutLookup(p2, "auth_token", token);
    PutLookup(p3, "format", "json");
    Put(p3, "format", "json")
  }

  lemma RequestParamsDistinct(params: Params, apiMethod: string, apiKey: string, token: string)
    requires DistinctKeys(params)
    ensures DistinctKeys(RequestParams(params, apiMethod, apiKey, token))
  {
    var p1 := Put(params, "method", apiMethod);
    PutDistinct(params, "method", apiMethod);
    var p2 := Put(p1, "api_key", apiKey);
    PutDistinct(p1, "api_key", apiKey);
    var p3 := Put(p2, "auth_token", token);
    PutDistinct(p2, "auth_token", token);
    PutDistinct(p3, "format", "json");
  }

  /**
   * The loop of `_request`: walk the items once, appending `key=value&` to
   * the URL and `keyvalue` to the secret, then append `api_sig=` and the
   * digest of the signature input.  `md5` is the hex digest, left
   * uninterpreted.
   */
  method SignedQuery(items: Params, secret: string, md5: string -> string) returns (url: string, sig: string)
    ensures sig == secret + SignatureBody(items)
    ensures url == RTM_URL + Query(items) + "api_sig=" + md5(sig)
  {
    url := RTM_URL;
    sig := secret;
    var i := 0;
    while i < |items|
      invariant 0 <= i <= |items|
      invariant url == RTM_URL + Query(items[..i])
      invariant sig == secret + SignatureBody(items[..i])
    {
      QueryStep(items, i, RTM_URL, secret);
      url := url + QueryEntry(items[i]);
      sig := sig + SignatureEntry(items[i]);
      i := i + 1;
    }
    assert items[..i] == items;
    url := url + "api_sig=" + md5(sig);
  }

  /** The items a request is built from, in the order it lists them. */
  function RequestItems(params: Params, apiMethod: string, apiKey: string, token: string): Params {
    SortByKey(RequestParams(params, apiMethod, apiKey, token))
  }

  /** The signed request URL for the caller's parameters. */
  function RequestUrl(params: Params, apiMethod: string, apiKey: string, token: string, secret: string,
                      md5: string -> string): string
  {
    var items := RequestItems(params, apiMethod, apiKey, token);
    RTM_URL + Query(items) + "api_sig=" + md5(secret + SignatureBody(items))
  }

  /**
   * `_request`'s string building: set the four fixed parameters, sort the
   * items by key, and sign them in that one order.
   */
  method BuildRequest(params: Params, apiMethod: string, apiKey: string, token: string, secret: string,
                      md5: string -> string)
    returns (url: string, sig: string)
    ensures var items := RequestItems(params, apiMethod, apiKey, token);
            && sig == secret + SignatureBody(items)
            && url == RTM_URL + Query(items) + "api_sig=" + md5(sig)
    ensures url == RequestUrl(params, apiMethod, apiKey, token, secret, md5)
  {
    var items := RequestItems(params, apiMethod, apiKey, token);
    url, sig := SignedQuery(items, secret, md5);
  }

  /**
   * The items the request is built from are exactly the caller's parameters
   * with the four fixed ones set, each once, in increasing key order.
   */
  lemma RequestItemsSorted(params: Params, apiMethod: string, apiKey: string, token: string)
    requires DistinctKeys(params)
    ensures var rp := RequestParams(params, apiMethod, apiKey, token);
            && KeysSorted(SortByKey(rp)) && multiset(SortByKey(rp)) == multiset(rp)
            && ("method", apiMethod) in SortByKey(rp) && ("format", "json") in SortByKey(rp)
            && ("api_key", apiKey) in SortByKey(rp) && ("auth_token", token) in SortByKey(rp)
  {
    var rp := RequestParams(params, apiMethod, apiKey, token);
    RequestParamsDistinct(params, apiMethod, apiKey, token);
    SortByKeySorted(rp);
    assert ("method", apiMethod) in multiset(rp);
    assert ("format", "json") in multiset(rp);
    assert ("api_key", apiKey) in multiset(rp);
    assert ("auth_token", token) in multiset(rp);
  }

  /** A task's due date against today (`_OVERDUE`, the today tag, `_FUTURE`). */
  datatype Status = Overdue | Today | Future

  /** The order of the statuses along the calendar. */
  function Rank(st: Status): nat {
    match st
    case Overdue => 0
    case Today => 1
    case Future => 2
  }

  /** The if-chain classifying a local due date (a day number) against today's. */
  function Classify(due: int, today: int): (st: Status)
    ensures st == Overdue <==> due < today
    ensures st == Today <==> due == today
  {
    if due < today then Overdue
    else if due == today then Today
    else Future
  }

  /** A later due date never gets an earlier status. */
  lemma ClassifyMonotone(d1: int, d2: int, today: int)
    requires d1 <= d2
    ensures Rank(Classify(d1, today)) <= Rank(Classify(d2, today))
  {
  }

  /** One collected task: its local due date, status and whether it recurs. */
  datatype Task = Task(due: int, status: Status, recurring: bool)

  /** Due dates never decrease along the list. */
  ghost predicate DueSorted(ts: seq<Task>) {
    forall i, j :: 0 <= i < j < |ts| ==> ts[i].due <= ts[j].due
  }

  /** Insert one task before the first task due no earlier. */
  function InsertByDue(t: Task, ts: seq<Task>): (r: seq<Task>)
    ensures |r| == |ts| + 1
  {
    if ts == [] || t.due <= ts[0].due then [t] + ts
    else [ts[0]] + InsertByDue(t, ts[1..])
  }

  /** Inserting adds the one task and loses none. */
  lemma {:induction false} InsertByDuePermutes(t: Task, ts: seq<Task>)
    ensures multiset(InsertByDue(t, ts)) == multiset(ts) + multiset{t}
  {
    if ts != [] && t.due > ts[0].due {
      assert ts == [ts[0]] + ts[1..];
      InsertByDuePermutes(t, ts[1..]);
    }
  }

  /**
   * `sorted(task_list, key=itemgetter('due'))`: a stable sort on the due
   * date (the `%Y-%m-%d` text orders as the date does).
   */
  function SortByDue(ts: seq<Task>): (r: seq<Task>)
    ensures multiset(r) == multiset(ts)
  {
    if ts == [] then []
    else
      assert ts == [ts[0]] + ts[1..];
      InsertByDuePermutes(ts[0], SortByDue(ts[1..]));
      InsertByDue(ts[0], SortByDue(ts[1..]))
  }

  /** Inserting a task due no earlier than `lo` among tasks all due no earlier than `lo` keeps them so. */
  lemma {:induction false} InsertByDueAbove(t: Task, ts: seq<Task>, lo: int)
    requires lo <= t.due
    requires forall i :: 0 <= i < |ts| ==> lo <= ts[i].due
    ensures forall i :: 0 <= i < |InsertByDue(t, ts)| ==> lo <= InsertByDue(t, ts)[i].due
  {
    if ts != [] && t.due > ts[0].due {
      InsertByDueAbove(t, ts[1..], lo);
      var u := InsertByDue(t, ts[1..]);
      assert forall j :: 1 <= j < |[ts[0]] + u| ==> ([ts[0]] + u)[j] == u[j - 1];
    }
  }

  lemma {:induction false} InsertByDueSorted(t: Task, ts: seq<Task>)
    requires DueSorted(ts)
    ensures DueSorted(InsertByDue(t, ts))
  {
    if ts != [] && t.due > ts[0].due {
      var rest := ts[1..];
      assert forall i :: 0 <= i < |rest| ==> rest[i] == ts[i + 1];
      InsertByDueSorted(t, rest);
      InsertByDueAbove(t, rest, ts[0].due);
      var u := InsertByDue(t, rest);
      var r := [ts[0]] + u;
      assert r == InsertByDue(t, ts);
      assert forall j :: 1 <= j < |r| ==> r[j] == u[j - 1];
    }
  }

  /** The sorted list is ordered by due date. */
  lemma {:induction false} SortByDueSorted(ts: seq<Task>)
    ensures DueSorted(SortByDue(ts))
  {
    if ts != [] {
      SortByDueSorted(ts[1..]);
      InsertByDueSorted(ts[0], SortByDue(ts[1..]));
    }
  }

  /** Every task carries the status its due date has against `today`. */
  predicate Classified(ts: seq<Task>, today: int) {
    forall i :: 0 <= i < |ts| ==> ts[i].status == Classify(ts[i].due, today)
  }

  /** Sorting keeps every task's status right, since it only reorders the tasks. */
  lemma SortByDueClassified(ts: seq<Task>, today: int)
    requires Classified(ts, today)
    ensures Classified(SortByDue(ts), today)
  {
    var sorted := SortByDue(ts);
    forall i | 0 <= i < |sorted|
      ensures sorted[i].status == Classify(sorted[i].due, today)
    {
      assert sorted[i] in multiset(ts);
    }
  }

  /** The tasks due on day `d`, in list order. */
  function DueOn(ts: seq<Task>, d: int): (r: seq<Task>)
    ensures |r| <= |ts|
  {
    if ts == [] then [] else (if ts[0].due == d then [ts[0]] else []) + DueOn(ts[1..], d)
  }

  /** The tasks due on `d` among a task followed by more tasks. */
  lemma DueOnCons(t: Task, ts: seq<Task>, d: int)
    ensures DueOn([t] + ts, d) == (if t.due == d then [t] else []) + DueOn(ts, d)
  {
    assert ([t] + ts)[1..] == ts;
  }

  lemma {:induction false} InsertByDueStable(t: Task, ts: seq<Task>, d: int)
    ensures DueOn(InsertByDue(t, ts), d) == (if t.due == d then [t] else []) + DueOn(ts, d)
  {
    if ts == [] || t.due <= ts[0].due {
      DueOnCons(t, ts, d);
    } else {
      var u := InsertByDue(t, ts[1..]);
      var x := DueOn(ts[1..], d);
      var head := if ts[0].due == d then [ts[0]] else [];
      var mid := if t.due == d then [t] else [];
      InsertByDueStable(t, ts[1..], d);
      calc {
        DueOn(InsertByDue(t, ts), d);
      == { DueOnCons(ts[0], u, d); }
        head + DueOn(u, d);
      ==
        head + (mid + x);
      == { assert head == [] || mid == []; }
        mid + (head + x);
      ==
        mid + DueOn(ts, d);
      }
    }
  }

  /** The sort is stable: tasks due the same day keep their relative order. */
  lemma {:induction false} SortByDueStable(ts: seq<Task>, d: int)
    ensures DueOn(SortByDue(ts), d) == DueOn(ts, d)
  {
    if ts != [] {
      SortByDueStable(ts[1..], d);
      InsertByDueStable(ts[0], SortByDue(ts[1..]), d);
    }
  }

  /** In a list sorted by due date, statuses come overdue first, then today, then future. */
  lemma SortedStatusesOrdered(ts: seq<Task>, today: int)
    requires DueSorted(ts)
    requires forall i :: 0 <= i < |ts| ==> ts[i].status == Classify(ts[i].due, today)
    ensures forall i, j :: 0 <= i < j < |ts| ==> Rank(ts[i].status) <= Rank(ts[j].status)
  {
    forall i, j | 0 <= i < j < |ts| ensures Rank(ts[i].status) <= Rank(ts[j].status) {
      ClassifyMonotone(ts[i].due, ts[j].due, today);
    }
  }

  /**
   * One `taskseries` of a reply: whether it has an `rrule`, and the local
   * due date of each of its `task` entries, `None` where the date does not
   * parse.
   */
  datatype Series = Series(recurring: bool, dues: seq<Option<int>>)

  /** `rsp.tasks.list`: one list of series per task list. */
  type TaskLists = seq<seq<Series>>

  /**
   * The body of a 200 reply as `response.json()` and the indexing by
   * `rsp.tasks.list` see it: not JSON or without that structure, the JSON
   * `null` (which `_request` returns as `None`), or the lists.
   */
  datatype Body = Unreadable | JsonNull | Lists(lists: TaskLists)

  /**
   * What one `rtm.tasks.getList` call yields: the connection failing
   * outright, or a status code and the body.
   */
  datatype Reply = ConnectionFailed | Reply(status: int, body: Body)

  /** One task entry as the loops meet it: its series' recurrence and its due date. */
  type Item = (bool, Option<int>)

  function SeriesItems(s: Series): (r: seq<Item>)
    ensures |r| == |s.dues| && forall k :: 0 <= k < |r| ==> r[k] == (s.recurring, s.dues[k])
  {
    seq(|s.dues|, k requires 0 <= k < |s.dues| => (s.recurring, s.dues[k]))
  }

  function ListItems(l: seq<Series>): seq<Item> {
    if l == [] then [] else ListItems(l[..|l| - 1]) + SeriesItems(l[|l| - 1])
  }

  /** Every task entry of the reply, in the order the nested loops visit them. */
  function AllItems(ls: TaskLists): seq<Item> {
    if ls == [] then [] else AllItems(ls[..|ls| - 1]) + ListItems(ls[|ls| - 1])
  }

  lemma {:induction false} ListItemsAppend(a: seq<Series>, b: seq<Series>)
    ensures ListItems(a + b) == ListItems(a) + ListItems(b)
  {
    if b != [] {
      assert (a + b)[..|a + b| - 1] == a + b[..|b| - 1];
      ListItemsAppend(a, b[..|b| - 1]);
    } else {
      assert a + b == a;
    }
  }

  lemma {:induction false} AllItemsAppend(a: TaskLists, b: TaskLists)
    ensures AllItems(a + b) == AllItems(a) + AllItems(b)
  {
    if b != [] {
      assert (a + b)[..|a + b| - 1] == a + b[..|b| - 1];
      AllItemsAppend(a, b[..|b| - 1]);
    } else {
      assert a + b == a;
    }
  }

  /**
   * The task list the loops build from the entries, classifying each due
   * date against `today`, and leaving out future tasks when `dropFuture`;
   * `None` when some due date does not parse, which raises out of the loops.
   */
  function Collect(items: seq<Item>, today: int, dropFuture: bool): (r: Option<seq<Task>>)
    ensures r.None? <==> exists i :: 0 <= i < |items| && items[i].1.None?
    ensures r.Some? ==> |r.value| <= |items|
    ensures r.Some? ==> forall i :: 0 <= i < |r.value| ==>
              r.value[i].status == Classify(r.value[i].due, today) && (dropFuture ==> r.value[i].status != Future)
  {
    if items == [] then Some([])
    else
      var init := items[..|items| - 1];
      var last := items[|items| - 1];
      assert forall i :: 0 <= i < |init| ==> init[i] == items[i];
      match Collect(init, today, dropFuture)
      case None => None
      case Some(ts) =>
        match last.1
        case None => None
        case Some(d) =>
          var st := Classify(d, today);
          if dropFuture && st == Future then Some(ts) else Some(ts + [Task(d, st, last.0)])
  }

  /** The task one parsed entry becomes: its own due date, classified, and its series' recurrence. */
  function EntryTask(item: Item, today: int): (t: Task)
    requires item.1.Some?
    ensures t.due == item.1.value && t.recurring == item.0
    ensures t.status == Classify(item.1.value, today)
  {
    Task(item.1.value, Classify(item.1.value, today), item.0)
  }

  /** The tasks of a list that are not future ones, in list order (the `status != FUTURE` filter). */
  function NotFuture(ts: seq<Task>): (r: seq<Task>)
    ensures |r| <= |ts|
    ensures forall i :: 0 <= i < |r| ==> r[i].status != Future && r[i] in ts
    ensures forall i :: 0 <= i < |ts| && ts[i].status != Future ==> ts[i] in r
  {
    if ts == [] then []
    else
      var init, last := ts[..|ts| - 1], ts[|ts| - 1];
      assert ts == init + [last];
      NotFuture(init) + (if last.status == Future then [] else [last])
  }

  /**
   * When every due date parses, entry i becomes task i; under the filter
   * the result is that list with its future tasks removed.
   */
  lemma {:induction false} CollectEntries(items: seq<Item>, today: int)
    requires forall i :: 0 <= i < |items| ==> items[i].1.Some?
    ensures Collect(items, today, false) ==
              Some(seq(|items|, i requires 0 <= i < |items| => EntryTask(items[i], today)))
    ensures Collect(items, today, true) ==
              Some(NotFuture(seq(|items|, i requires 0 <= i < |items| => EntryTask(items[i], today))))
  {
    var all := seq(|items|, i requires 0 <= i < |items| => EntryTask(items[i], today));
    if items == [] {
      assert all == [];
    } else {
      var init, last := items[..|items| - 1], items[|items| - 1];
      var before := seq(|init|, i requires 0 <= i < |init| => EntryTask(init[i], today));
      CollectEntries(init, today);
      var t := EntryTask(last, today);
      assert all == before + [t];
      assert all[..|all| - 1] == before && all[|all| - 1] == t;
      assert Collect(items, today, false) == Some(before + [t]);
      assert Collect(init, today, true) == Some(NotFuture(before));
      if t.status == Future {
        assert Collect(items, today, true) == Some(NotFuture(before));
        assert NotFuture(all) == NotFuture(before) + [] == NotFuture(before);
      } else {
        assert Collect(items, today, true) == Some(NotFuture(before) + [t]);
      }
    }
  }

  lemma {:induction false} CollectAppend(a: seq<Item>, b: seq<Item>, today: int, dropFuture: bool)
    ensures Collect(a + b, today, dropFuture) ==
              if Collect(a, today, dropFuture).Some? && Collect(b, today, dropFuture).Some?
              then Some(Collect(a, today, dropFuture).value + Collect(b, today, dropFuture).value)
              else None
  {
    if b == [] {
      assert a + b == a;
      if Collect(a, today, dropFuture).Some? {
        assert Collect(a, today, dropFuture).value + [] == Collect(a, today, dropFuture).value;
      }
    } else {
      var b' := b[..|b| - 1];
      var last := b[|b| - 1];
      assert (a + b)[..|a + b| - 1] == a + b' && (a + b)[|a + b| - 1] == last;
      CollectAppend(a, b', today, dropFuture);
      var ca, cb' := Collect(a, today, dropFuture), Collect(b', today, dropFuture);
      if ca.Some? && cb'.Some? && last.1.Some? {
        var d := last.1.value;
        var st := Classify(d, today);
        if !(dropFuture && st == Future) {
          assert ca.value + cb'.value + [Task(d, st, last.0)] == ca.value + (cb'.value + [Task(d, st, last.0)]);
        }
      }
    }
  }

  /** The innermost loop: the `task` entries of one series. */
  method CollectSeries(s: Series, today: int, dropFuture: bool) returns (r: Option<seq<Task>>)
    ensures r == Collect(SeriesItems(s), today, dropFuture)
  {
    var items := SeriesItems(s);
    var acc: seq<Task> := [];
    var k := 0;
    while k < |s.dues|
      invariant 0 <= k <= |s.dues|
      invariant Collect(items[..k], today, dropFuture) == Some(acc)
    {
      assert items[..k + 1][..k] == items[..k] && items[..k + 1][k] == items[k];
      match s.dues[k]
      case None =>
        assert items[k].1.None?;
        return None;
      case Some(d) =>
        var st := Classify(d, today);
        if !(dropFuture && st == Future) {
          acc := acc + [Task(d, st, s.recurring)];
        }
      k := k + 1;
    }
    assert items[..k] == items;
    return Some(acc);
  }

  /** Collecting one more series of a list: its entries' tasks follow, or the whole list is abandoned. */
  lemma ListStep(l: seq<Series>, j: nat, today: int, dropFuture: bool)
    requires j < |l|
    ensures var before, now := Collect(ListItems(l[..j]), today, dropFuture), Collect(SeriesItems(l[j]), today, dropFuture);
            Collect(ListItems(l[..j + 1]), today, dropFuture) ==
              if before.Some? && now.Some? then Some(before.value + now.value) else None
  {
    assert l[..j + 1][..j] == l[..j] && l[..j + 1][j] == l[j];
    CollectAppend(ListItems(l[..j]), SeriesItems(l[j]), today, dropFuture);
  }

  /** Once a prefix of the series fails, the whole list fails. */
  lemma ListAbandoned(l: seq<Series>, j: nat, today: int, dropFuture: bool)
    requires j <= |l| && Collect(ListItems(l[..j]), today, dropFuture).None?
    ensures Collect(ListItems(l), today, dropFuture).None?
  {
    assert l == l[..j] + l[j..];
    ListItemsAppend(l[..j], l[j..]);
    CollectAppend(ListItems(l[..j]), ListItems(l[j..]), today, dropFuture);
  }

  /** The middle loop: the series of one list. */
  method CollectList(l: seq<Series>, today: int, dropFuture: bool) returns (r: Option<seq<Task>>)
    ensures r == Collect(ListItems(l), today, dropFuture)
  {
    var acc: seq<Task> := [];
    var j := 0;
    while j < |l|
      invariant 0 <= j <= |l|
      invariant Collect(ListItems(l[..j]), today, dropFuture) == Some(acc)
    {
      ListStep(l, j, today, dropFuture);
      var part := CollectSeries(l[j], today, dropFuture);
      if part.None? {
        ListAbandoned(l, j + 1, today, dropFuture);
        return None;
      }
      acc := acc + part.value;
      j := j + 1;
    }
    assert l[..j] == l;
    return Some(acc);
  }

  /** Collecting one more list: its tasks follow, or the whole reply is abandoned. */
  lemma ListsStep(ls: TaskLists, i: nat, today: int, dropFuture: bool)
    requires i < |ls|
    ensures var before, now := Collect(AllItems(ls[..i]), today, dropFuture), Collect(ListItems(ls[i]), today, dropFuture);
            Collect(AllItems(ls[..i + 1]), today, dropFuture) ==
              if before.Some? && now.Some? then Some(before.value + now.value) else None
  {
    assert ls[..i + 1][..i] == ls[..i] && ls[..i + 1][i] == ls[i];
    CollectAppend(AllItems(ls[..i]), ListItems(ls[i]), today, dropFuture);
  }

  /** Once a prefix of the lists fails, the whole reply fails. */
  lemma ListsAbandoned(ls: TaskLists, i: nat, today: int, dropFuture: bool)
    requires i <= |ls| && Collect(AllItems(ls[..i]), today, dropFuture).None?
    ensures Collect(AllItems(ls), today, dropFuture).None?
  {
    assert ls == ls[..i] + ls[i..];
    AllItemsAppend(ls[..i], ls[i..]);
    CollectAppend(AllItems(ls[..i]), AllItems(ls[i..]), today, dropFuture);
  }

  /**
   * The nested loops of the fetch: every entry of every series of every
   * list, in order; the first due date that does not parse abandons the
   * whole list.
   */
  method CollectTasks(ls: TaskLists, today: int, dropFuture: bool) returns (r: Option<seq<Task>>)
    ensures r == Collect(AllItems(ls), today, dropFuture)
  {
    var acc: seq<Task> := [];
    var i := 0;
    while i < |ls|
      invariant 0 <= i <= |ls|
      invariant Collect(AllItems(ls[..i]), today, dropFuture) == Some(acc)
    {
      ListsStep(ls, i, today, dropFuture);
      var part := CollectList(ls[i], today, dropFuture);
      if part.None? {
        ListsAbandoned(ls, i + 1, today, dropFuture);
        return None;
      }
      acc := acc + part.value;
      i := i + 1;
    }
    assert ls[..i] == ls;
    return Some(acc);
  }
}
