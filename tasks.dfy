/** The download queue's values: priorities, tasks, the order the priority
    queue hands tasks out in, and the tasks a batch of URLs puts on the
    queue. */
module DownloadTasks {
  import opened Wrappers
  import opened Text
  import opened Lists
  import Urls
  import Config

  /** `DownloadPriority`; a lower value is served first. */
  datatype DownloadPriority = Urgent | High | Normal | Low {
    function Value(): nat {
      match this
      case Urgent => 0
      case High => 1
      case Normal => 2
      case Low => 3
    }
  }

  /** `DownloadTask`. The callback itself is not modelled, only whether
      there is one; `overrides` are the items of `config_overrides`
      (`None` and `{}` alike are empty). */
  datatype DownloadTask = DownloadTask(
    url: string,
    priority: DownloadPriority,
    overrides: seq<(string, Config.ConfigValue)>,
    hasCallback: bool,
    taskId: string)

  /** `f"task_{int(time.time() * 1000000)}"`, from the clock in whole
      microseconds. */
  function TaskIdAt(micros: nat): (id: string)
    ensures StartsWith(id, "task_")
  {
    "task_" + NatToString(micros)
  }

  /** Different clock readings give different ids; the same reading gives
      the same id. */
  lemma TaskIdInjective(a: nat, b: nat)
    ensures TaskIdAt(a) == TaskIdAt(b) <==> a == b
  {
    if TaskIdAt(a) == TaskIdAt(b) {
      assert NatToString(a) == TaskIdAt(a)[5..];
      assert NatToString(b) == TaskIdAt(b)[5..];
      DigitsOfNat(a);
      DigitsOfNat(b);
    }
  }

  /** `DownloadTask.__lt__`: by priority value alone. */
  predicate TaskLess(a: DownloadTask, b: DownloadTask) {
    a.priority.Value() < b.priority.Value()
  }

  /** The order is a strict order that ties every task of equal priority,
      whatever else differs. */
  lemma TaskLessOrder(a: DownloadTask, b: DownloadTask, c: DownloadTask)
    ensures !TaskLess(a, a)
    ensures TaskLess(a, b) ==> !TaskLess(b, a)
    ensures TaskLess(a, b) && TaskLess(b, c) ==> TaskLess(a, c)
    ensures a.priority == b.priority ==> !TaskLess(a, b) && !TaskLess(b, a)
    ensures !TaskLess(a, b) && !TaskLess(b, a) <==> a.priority == b.priority
  {
  }

  /** Position `i` holds a task that no queued task precedes: a task the
      priority queue may hand out next. */
  predicate IsNext(queue: seq<DownloadTask>, i: int) {
    0 <= i < |queue| && forall j :: 0 <= j < |queue| ==> !TaskLess(queue[j], queue[i])
  }

  /** A non-empty queue has a task to hand out. */
  lemma {:induction false} NextExists(queue: seq<DownloadTask>) returns (i: nat)
    requires queue != []
    ensures IsNext(queue, i)
    decreases |queue|
  {
    if |queue| == 1 {
      i := 0;
    } else {
      var front := queue[..|queue| - 1];
      var k := NextExists(front);
      if TaskLess(queue[|queue| - 1], queue[k]) {
        i := |queue| - 1;
        forall j | 0 <= j < |queue|
          ensures !TaskLess(queue[j], queue[i])
        {
          if j < |queue| - 1 {
            assert front[j] == queue[j];
          }
        }
      } else {
        i := k;
        forall j | 0 <= j < |queue|
          ensures !TaskLess(queue[j], queue[i])
        {
          if j < |queue| - 1 {
            assert front[j] == queue[j];
          }
        }
      }
    }
  }

  /** Any of several tasks of the best priority may come next: equal
      priorities are not broken by queue order. */
  lemma NextIsAnyBest(queue: seq<DownloadTask>, i: nat, j: nat)
    requires IsNext(queue, i) && j < |queue| && queue[j].priority == queue[i].priority
    ensures IsNext(queue, j)
  {
  }

  /** The next task has the smallest priority value in the queue. */
  lemma NextHasBestPriority(queue: seq<DownloadTask>, i: nat)
    requires IsNext(queue, i)
    ensures forall t :: t in queue ==> queue[i].priority.Value() <= t.priority.Value()
  {
  }

  /** The queue without position `i`. */
  function RemoveAt(queue: seq<DownloadTask>, i: nat): (r: seq<DownloadTask>)
    requires i < |queue|
    ensures |r| == |queue| - 1
    ensures multiset(r) == multiset(queue) - multiset{queue[i]}
  {
    assert queue == queue[..i] + [queue[i]] + queue[i + 1..];
    queue[..i] + queue[i + 1..]
  }

  /** The task `add_download` creates for an accepted URL. */
  function NewTask(url: string, priority: DownloadPriority, overrides: seq<(string, Config.ConfigValue)>,
                   hasCallback: bool, micros: nat): DownloadTask {
    DownloadTask(url, priority, overrides, hasCallback, TaskIdAt(micros))
  }

  /** The URL `add_download` queues: the normalized form, where `parse` is
      `urlparse`. */
  function QueuedUrl(url: string, parse: string -> Option<Urls.ParsedUrl>): string {
    Urls.NormalizedText(url, Urls.Normalize(parse(url)))
  }

  /** The tasks `add_batch_downloads` queues, in order: one for each valid
      URL, created at clock `clock(k)` for the k-th URL. */
  function BatchTasks(urls: seq<string>, parse: string -> Option<Urls.ParsedUrl>,
                      priority: DownloadPriority, overrides: seq<(string, Config.ConfigValue)>,
                      clock: nat -> nat): seq<DownloadTask>
    decreases |urls|
  {
    if urls == [] then []
    else
      var k := |urls| - 1;
      BatchTasks(urls[..k], parse, priority, overrides, clock)
        + Queued(urls[k], parse, priority, overrides, false, clock(k))
  }

  /** What `add_download` puts on the queue: the new task for a valid URL,
      nothing for an invalid one. */
  function Queued(url: string, parse: string -> Option<Urls.ParsedUrl>, priority: DownloadPriority,
                  overrides: seq<(string, Config.ConfigValue)>, hasCallback: bool, micros: nat): (q: seq<DownloadTask>)
    ensures |q| == if Urls.IsValidYoutubeUrl(url) then 1 else 0
    ensures forall t :: t in q ==> t == NewTask(QueuedUrl(url, parse), priority, overrides, hasCallback, micros)
    ensures Ids(q) == if Urls.IsValidYoutubeUrl(url) then [TaskIdAt(micros)] else []
  {
    if Urls.IsValidYoutubeUrl(url) then [NewTask(QueuedUrl(url, parse), priority, overrides, hasCallback, micros)]
    else []
  }

  /** A batch one URL longer queues that URL's task after the others. */
  lemma BatchTasksSnoc(urls: seq<string>, i: nat, parse: string -> Option<Urls.ParsedUrl>,
                       priority: DownloadPriority, overrides: seq<(string, Config.ConfigValue)>,
                       clock: nat -> nat)
    requires i < |urls|
    ensures BatchTasks(urls[..i + 1], parse, priority, overrides, clock)
      == BatchTasks(urls[..i], parse, priority, overrides, clock) + Queued(urls[i], parse, priority, overrides, false, clock(i))
  {
    assert urls[..i + 1][..i] == urls[..i];
  }

  /** The ids of `tasks`, in order. */
  function Ids(tasks: seq<DownloadTask>): (ids: seq<string>)
    ensures |ids| == |tasks|
    ensures forall i :: 0 <= i < |tasks| ==> ids[i] == tasks[i].taskId
  {
    seq(|tasks|, i requires 0 <= i < |tasks| => tasks[i].taskId)
  }

  lemma IdsAppend(a: seq<DownloadTask>, b: seq<DownloadTask>)
    ensures Ids(a + b) == Ids(a) + Ids(b)
  {
    assert forall i :: 0 <= i < |a + b| ==> Ids(a + b)[i] == (Ids(a) + Ids(b))[i];
  }

  /** A batch queues exactly one task per valid URL and none for an
      invalid one. */
  lemma {:induction false} BatchTasksCount(urls: seq<string>, parse: string -> Option<Urls.ParsedUrl>,
                                           priority: DownloadPriority, overrides: seq<(string, Config.ConfigValue)>,
                                           clock: nat -> nat)
    ensures |BatchTasks(urls, parse, priority, overrides, clock)| == |Filter(urls, Urls.IsValidYoutubeUrl)|
    decreases |urls|
  {
    if urls != [] {
      var k := |urls| - 1;
      var front := urls[..k];
      BatchTasksCount(front, parse, priority, overrides, clock);
      FilterLast(urls, Urls.IsValidYoutubeUrl);
      assert BatchTasks(urls, parse, priority, overrides, clock)
        == BatchTasks(front, parse, priority, overrides, clock) + Queued(urls[k], parse, priority, overrides, false, clock(k));
    }
  }

  /** Every queued task carries the batch's priority and overrides, no
      callback, and the normalized form of a valid URL of the batch. */
  lemma {:induction false} BatchTasksFrom(urls: seq<string>, parse: string -> Option<Urls.ParsedUrl>,
                                          priority: DownloadPriority, overrides: seq<(string, Config.ConfigValue)>,
                                          clock: nat -> nat, t: DownloadTask)
    requires t in BatchTasks(urls, parse, priority, overrides, clock)
    ensures t.priority == priority && t.overrides == overrides && !t.hasCallback
    ensures exists k :: 0 <= k < |urls| && Urls.IsValidYoutubeUrl(urls[k]) && t.url == QueuedUrl(urls[k], parse)
    decreases |urls|
  {
    var k := |urls| - 1;
    var front := urls[..k];
    if t in BatchTasks(front, parse, priority, overrides, clock) {
      BatchTasksFrom(front, parse, priority, overrides, clock, t);
      var k' :| 0 <= k' < |front| && Urls.IsValidYoutubeUrl(front[k']) && t.url == QueuedUrl(front[k'], parse);
      assert urls[k'] == front[k'];
    } else {
      assert Urls.IsValidYoutubeUrl(urls[k]) && t.url == QueuedUrl(urls[k], parse);
    }
  }

  /** A batch of valid URLs queues one task per URL; a batch of invalid
      ones queues nothing. */
  lemma BatchAllOrNothing(urls: seq<string>, parse: string -> Option<Urls.ParsedUrl>,
                          priority: DownloadPriority, overrides: seq<(string, Config.ConfigValue)>,
                          clock: nat -> nat)
    ensures (forall u :: u in urls ==> Urls.IsValidYoutubeUrl(u)) ==>
      |BatchTasks(urls, parse, priority, overrides, clock)| == |urls|
    ensures (forall u :: u in urls ==> !Urls.IsValidYoutubeUrl(u)) ==>
      BatchTasks(urls, parse, priority, overrides, clock) == []
  {
    BatchTasksCount(urls, parse, priority, overrides, clock);
    if forall u :: u in urls ==> Urls.IsValidYoutubeUrl(u) {
      FilterAll(urls, Urls.IsValidYoutubeUrl);
    }
  }
}
