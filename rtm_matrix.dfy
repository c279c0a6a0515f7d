/**
 * The stand-alone Remember The Milk script: fetch the tasks due today or
 * earlier and report them as one coloured point per task, `N` when the
 * service did not answer 200, or `E` when the reply could not be processed.
 */
module RtmMatrix {
  import opened Wrappers
  import opened Surfaces
  import opened RtmApi

  /** The task filter `fetch_tasks` sends. */
  const FILTER: string := "status:incomplete AND dueBefore:\"1 month of today\""

  /** The colour of one task's point: recurring first, then overdue, then today; `None` for anything else. */
  function PointColor(t: Task): (c: Option<Color>)
    ensures c.None? <==> !t.recurring && t.status == Future
    ensures t.recurring ==> c == Some(Yellow)
    ensures !t.recurring && t.status == Overdue ==> c == Some(Red)
    ensures !t.recurring && t.status == Today ==> c == Some(Green)
  {
    if t.recurring then Some(Yellow)
    else if t.status == Overdue then Some(Red)
    else if t.status == Today then Some(Green)
    else assert t.status == Future; None
  }

  /** The `points` list `__main__` builds. */
  function Points(ts: seq<Task>): (ps: seq<Color>)
    ensures |ps| <= |ts|
  {
    if ts == [] then []
    else
      var c := PointColor(ts[|ts| - 1]);
      Points(ts[..|ts| - 1]) + (if c.Some? then [c.value] else [])
  }

  /** No task of the list is a future one. */
  ghost predicate NoFuture(ts: seq<Task>) {
    forall i :: 0 <= i < |ts| ==> ts[i].status != Future
  }

  /** Sorting by due date brings in no future task. */
  lemma SortByDueNoFuture(ts: seq<Task>)
    requires NoFuture(ts)
    ensures NoFuture(SortByDue(ts))
  {
    var sorted := SortByDue(ts);
    forall i | 0 <= i < |sorted|
      ensures sorted[i].status != Future
    {
      assert sorted[i] in multiset(ts);
    }
  }

  /** Without future tasks every task gets exactly one point, in list order. */
  lemma {:induction false} PointPerTask(ts: seq<Task>)
    requires NoFuture(ts)
    ensures |Points(ts)| == |ts|
    ensures forall i :: 0 <= i < |ts| ==> Some(Points(ts)[i]) == PointColor(ts[i])
  {
    if ts != [] {
      var init := ts[..|ts| - 1];
      PointPerTask(init);
      assert forall i :: 0 <= i < |init| ==> init[i] == ts[i];
    }
  }

  /** What `__main__` prints, or the exception it ends with. */
  datatype Report = NoService | ProcessingFailed | Dots(points: seq<Color>) | Raised(error: string)

  /**
   * The `rtm` client: the task list of the last successful fetch (`None`
   * after a non-200 reply), the last HTTP status and the processing-error
   * flag.
   */
  class Client {
    const apiKey: string
    const secret: string
    const token: string
    var tasks: Option<seq<Task>>
    var lastStatus: Option<int>
    var processingError: bool

    /**
     * The list is only missing once a reply has come back (a non-200 one,
     * or a 200 one whose body is the JSON `null`); a stored list never
     * holds a future task and is sorted by due date.
     */
    ghost predicate Valid()
      reads this
    {
      && (tasks.None? ==> lastStatus.Some?)
      && (tasks.Some? ==> NoFuture(tasks.value) && DueSorted(tasks.value))
    }

    constructor (apiKey: string, secret: string, token: string)
      ensures Valid() && this.apiKey == apiKey && this.secret == secret && this.token == token
      ensures tasks == Some([]) && lastStatus.None? && !processingError
    {
      this.apiKey := apiKey;
      this.secret := secret;
      this.token := token;
      tasks := Some([]);
      lastStatus := None;
      processingError := false;
    }

    /**
     * `fetch_tasks` given the reply and the local date; `url` is the request
     * it sends.  As in the task view, except that future tasks are never
     * added to the list.
     */
    method FetchTasks(reply: Reply, today: int, md5: string -> string) returns (url: string)
      requires Valid()
      modifies this
      ensures Valid()
      ensures url == RequestUrl([("filter", FILTER)], "rtm.tasks.getList", apiKey, token, secret, md5)
      ensures reply.ConnectionFailed? ==> processingError && tasks == old(tasks) && lastStatus == old(lastStatus)
      ensures reply.Reply? ==> lastStatus == Some(reply.status)
      ensures reply.Reply? && reply.status != 200 ==> tasks.None? && !processingError
      ensures reply.Reply? && reply.status == 200 && reply.body.Unreadable? ==> processingError && tasks == old(tasks)
      ensures reply.Reply? && reply.status == 200 && reply.body.JsonNull? ==> tasks.None? && !processingError
      ensures reply.Reply? && reply.status == 200 && reply.body.Lists? ==>
                var found := Collect(AllItems(reply.body.lists), today, true);
                && processingError == found.None?
                && tasks == if found.Some? then Some(SortByDue(found.value)) else old(tasks)
    {
      var sig;
      url, sig := BuildRequest([("filter", FILTER)], "rtm.tasks.getList", apiKey, token, secret, md5);
      TakeReply(reply, today);
    }

    /** What `fetch_tasks` does with the reply to its request. */
    method TakeReply(reply: Reply, today: int)
      requires Valid()
      modifies this`tasks, this`lastStatus, this`processingError
      ensures Valid()
      ensures reply.ConnectionFailed? ==> processingError && tasks == old(tasks) && lastStatus == old(lastStatus)
      ensures reply.Reply? ==> lastStatus == Some(reply.status)
      ensures reply.Reply? && reply.status != 200 ==> tasks.None? && !processingError
      ensures reply.Reply? && reply.status == 200 && reply.body.Unreadable? ==> processingError && tasks == old(tasks)
      ensures reply.Reply? && reply.status == 200 && reply.body.JsonNull? ==> tasks.None? && !processingError
      ensures reply.Reply? && reply.status == 200 && reply.body.Lists? ==>
                var found := Collect(AllItems(reply.body.lists), today, true);
                && processingError == found.None?
                && tasks == if found.Some? then Some(SortByDue(found.value)) else old(tasks)
    {
      if reply.ConnectionFailed? {
        processingError := true;
        return;
      }
      lastStatus := Some(reply.status);
      if reply.status != 200 {
        tasks := None;
        processingError := false;
        return;
      }
      if reply.body.Unreadable? {
        processingError := true;
        return;
      }
      if reply.body.JsonNull? {
        tasks := None;
        processingError := false;
        return;
      }
      var found := CollectTasks(reply.body.lists, today, true);
      if found.None? {
        processingError := true;
        return;
      }
      var sorted := SortByDue(found.value);
      SortByDueSorted(found.value);
      SortByDueNoFuture(found.value);
      tasks := Some(sorted);
      processingError := false;
    }

    /**
     * `__main__` after the fetch: `N` unless the last status is 200, else
     * `E` on a processing error, else `TypeError` when there is no list
     * (after a `null` body), else one point per task.
     */
    method Report() returns (r: Report)
      requires Valid()
      ensures lastStatus != Some(200) ==> r == NoService
      ensures lastStatus == Some(200) && processingError ==> r == ProcessingFailed
      ensures lastStatus == Some(200) && !processingError && tasks.None? ==> r == Raised("TypeError")
      ensures lastStatus == Some(200) && !processingError && tasks.Some? ==> r == Dots(Points(tasks.value))
      ensures r.Dots? ==>
                && tasks.Some? && |r.points| == |tasks.value|
                && forall i :: 0 <= i < |r.points| ==> Some(r.points[i]) == PointColor(tasks.value[i])
    {
      if lastStatus != Some(200) {
        return NoService;
      }
      if processingError {
        return ProcessingFailed;
      }
      if tasks.None? {
        return Raised("TypeError");
      }
      var ts := tasks.value;
      var points: seq<Color> := [];
      var i := 0;
      while i < |ts|
        invariant 0 <= i <= |ts|
        invariant points == Points(ts[..i])
      {
        assert ts[..i + 1][..i] == ts[..i];
        if ts[i].recurring {
          points := points + [Yellow];
        } else if ts[i].status == Overdue {
          points := points + [Red];
        } else if ts[i].status == Today {
          points := points + [Green];
        }
        i := i + 1;
      }
      assert ts[..i] == ts;
      PointPerTask(ts);
      return Dots(points);
    }
  }
}
