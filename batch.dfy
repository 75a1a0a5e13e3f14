/**
 * The batch scraper's driver loop: the numbered work list read from the input workbook,
 * the URL limit, the resume filter against an earlier output, one fresh browser session
 * per URL, one row per URL, periodic checkpoints and the final save.
 *
 * Reading and writing workbooks is not modelled: the input and the earlier output are
 * given as values, and every save is recorded as a snapshot of the rows saved.
 */
module Batch {
  import opened Base
  import opened Browser
  import opened Records
  import opened ScraperBulk

  /** One URL to scrape, with its 1-based position in the input. */
  datatype Task = Task(urlNo: nat, url: string)

  /** The input workbook as read: missing, without a URL column, or its URL column. */
  datatype InputTable = InputMissing | NoUrlColumn | Urls(urls: seq<string>)

  /**
   * The earlier output workbook: absent, failing to read, or its rows together with
   * whether it has a URL column.
   */
  datatype PriorOutput = NoPrior | PriorUnreadable | PriorRows(rows: seq<Record>, hasUrlColumn: bool)

  /** What starting a browser for one task gives: the failure, or a session on the product page. */
  datatype Session = StartFailed(message: string) | Started(page: Page)

  /** The row a task contributes, and whether the checkpoint test follows it. */
  datatype Outcome = Outcome(row: Record, checked: bool)

  // ----- the work list -----

  /** The URLs paired with their 1-based positions, in input order. */
  function Numbered(urls: seq<string>): (tasks: seq<Task>)
    ensures |tasks| == |urls|
  {
    seq(|urls|, i requires 0 <= i < |urls| => Task(i + 1, urls[i]))
  }

  /** The first `limit` tasks, or all of them when there is no limit. */
  function Limited(tasks: seq<Task>, limit: Option<nat>): (r: seq<Task>)
    ensures limit.None? ==> r == tasks
    ensures limit.Some? ==> |r| == if limit.value < |tasks| then limit.value else |tasks|
    ensures r == tasks[..|r|]
  {
    if limit.Some? && limit.value < |tasks| then tasks[..limit.value] else tasks
  }

  /** The tasks whose URL is not among `done`, in their order. */
  function Unprocessed(tasks: seq<Task>, done: set<string>): (r: seq<Task>)
    ensures |r| <= |tasks|
    ensures forall t :: t in r ==> t in tasks && t.url !in done
  {
    if tasks == [] then []
    else (if tasks[0].url in done then [] else [tasks[0]]) + Unprocessed(tasks[1..], done)
  }

  /** The URLs of the earlier rows. */
  function UrlsOf(rows: seq<Record>): set<string> {
    set k | 0 <= k < |rows| :: rows[k].url
  }

  /** The rows the result list starts with: the earlier output's, when it could be read. */
  function Preloaded(prior: PriorOutput): seq<Record> {
    if prior.PriorRows? then prior.rows else []
  }

  /**
   * The tasks the loop runs: the numbered URLs, cut to the limit, without those the
   * earlier output already holds when it has a URL column.
   */
  function Pending(urls: seq<string>, limit: Option<nat>, prior: PriorOutput): seq<Task> {
    var limited := Limited(Numbered(urls), limit);
    if prior.PriorRows? && prior.hasUrlColumn then Unprocessed(limited, UrlsOf(prior.rows)) else limited
  }

  // ----- one task -----

  function StartFailureRow(t: Task, message: string): Record {
    Record(t.urlNo, t.url, [], [], [], ServerError, "Failed to start webdriver: " + message + ";")
  }

  function UnhandledRow(t: Task, f: Fault): Record {
    Record(t.urlNo, t.url, [], [], [], ServerError, "Unhandled exception during scrape: " + f.message + ";")
  }

  /**
   * A task's row: a failure row when the browser does not start, the scraped row, or a
   * failure row when the scrape raises; only the last skips the checkpoint test.
   */
  function OutcomeOf(t: Task, s: Session, pincode: string): Outcome {
    match s
    case StartFailed(message) => Outcome(StartFailureRow(t, message), true)
    case Started(page) =>
      match ScrapeUrlSpec(page, t.urlNo, t.url, pincode).result
      case Ok(row) => Outcome(row, true)
      case Err(f) => Outcome(UnhandledRow(t, f), false)
  }

  /** The outcomes of the tasks, in order. */
  function Outcomes(tasks: seq<Task>, start: Task -> Session, pincode: string): (outs: seq<Outcome>)
    ensures |outs| == |tasks|
  {
    seq(|tasks|, i requires 0 <= i < |tasks| => OutcomeOf(tasks[i], start(tasks[i]), pincode))
  }

  function Rows(outs: seq<Outcome>): (rows: seq<Record>)
    ensures |rows| == |outs|
  {
    seq(|outs|, k requires 0 <= k < |outs| => outs[k].row)
  }

  /**
   * The checkpoint snapshots taken while the outcomes are appended: after the `k`-th
   * (counting from 1) when its path runs the test and `k` is a multiple of `interval`.
   */
  function Checkpoints(preloaded: seq<Record>, outs: seq<Outcome>, interval: nat): seq<seq<Record>>
    requires interval > 0
  {
    if outs == [] then []
    else
      var k := |outs|;
      Checkpoints(preloaded, outs[..k - 1], interval)
      + (if outs[k - 1].checked && k % interval == 0 then [preloaded + Rows(outs)] else [])
  }

  /**
   * One iteration's work: start a browser, scrape the URL with it, and quit it whatever
   * happened; the outcome is the row and whether the checkpoint test follows, and
   * `events` is what the browser was asked to do, ending with the quit.
   */
  method RunTask(t: Task, start: Task -> Session, pincode: string) returns (out: Outcome, events: seq<Event>)
    ensures out == OutcomeOf(t, start(t), pincode)
    ensures start(t).StartFailed? ==> events == []
    ensures start(t).Started? ==>
      events == ScrapeUrlSpec(start(t).page, t.urlNo, t.url, pincode).events + [Quit]
  {
    var session := start(t);
    if session.StartFailed? {
      return Outcome(StartFailureRow(t, session.message), true), [];
    }
    out, events := RunSession(t, session.page, pincode);
  }

  /** The part of an iteration after the browser started: scrape, then quit, ignoring a quit that raises. */
  method RunSession(t: Task, page: Page, pincode: string) returns (out: Outcome, events: seq<Event>)
    ensures out == OutcomeOf(t, Started(page), pincode)
    ensures events == ScrapeUrlSpec(page, t.urlNo, t.url, pincode).events + [Quit]
  {
    var d := new Driver(page);
    var r := ScrapeUrl(d, t.urlNo, t.url, pincode);
    if r.Ok? {
      out := Outcome(r.value, true);
    } else {
      out := Outcome(UnhandledRow(t, r.error), false);
    }
    var quitFault := d.Quit();  // swallowed by the `except Exception: pass` around the quit
    events := d.events;
  }

  // ----- the loop -----

  /** Appending the next outcome extends the rows by its row and takes at most one snapshot. */
  lemma {:induction false} AppendStep(preloaded: seq<Record>, outs: seq<Outcome>, i: nat, interval: nat)
    requires i < |outs| && interval > 0
    ensures preloaded + Rows(outs[..i + 1]) == preloaded + Rows(outs[..i]) + [outs[i].row]
    ensures Checkpoints(preloaded, outs[..i + 1], interval) ==
      Checkpoints(preloaded, outs[..i], interval)
      + (if outs[i].checked && (i + 1) % interval == 0 then [preloaded + Rows(outs[..i + 1])] else [])
  {
    assert outs[..i + 1][..i] == outs[..i];
    assert Rows(outs[..i + 1]) == Rows(outs[..i]) + [outs[i].row];
  }

  /**
   * `main`: nothing happens when the input cannot be read; otherwise every pending task
   * appends its row after the preloaded ones, checkpoints are saved along the way and
   * the whole list is saved at the end.
   */
  method RunBatch(table: InputTable, limit: Option<nat>, prior: PriorOutput,
                  start: Task -> Session, pincode: string, interval: nat)
    returns (results: seq<Record>, saves: seq<seq<Record>>)
    requires interval > 0
    ensures !table.Urls? ==> results == [] && saves == []
    ensures table.Urls? ==>
      var outs := Outcomes(Pending(table.urls, limit, prior), start, pincode);
      && results == Preloaded(prior) + Rows(outs)
      && saves == Checkpoints(Preloaded(prior), outs, interval) + [results]
  {
    if !table.Urls? {
      return [], [];
    }
    var tasks := Pending(table.urls, limit, prior);
    ghost var outs := Outcomes(tasks, start, pincode);
    results := Preloaded(prior);
    saves := [];
    var count := 0;
    var i := 0;
    while i < |tasks|
      invariant 0 <= i <= |tasks| && count == i
      invariant results == Preloaded(prior) + Rows(outs[..i])
      invariant saves == Checkpoints(Preloaded(prior), outs[..i], interval)
    {
      var out, _ := RunTask(tasks[i], start, pincode);
      AppendStep(Preloaded(prior), outs, i, interval);
      results := results + [out.row];
      count := count + 1;
      if out.checked && count % interval == 0 {
        saves := saves + [results];
      }
      i := i + 1;
    }
    assert outs[..i] == outs;
    saves := saves + [results];
  }

  // ----- properties -----

  /** The resume filter keeps exactly the tasks whose URL is new. */
  lemma {:induction false} UnprocessedMembers(tasks: seq<Task>, done: set<string>)
    ensures forall t :: t in Unprocessed(tasks, done) <==> t in tasks && t.url !in done
    decreases |tasks|
  {
    if tasks != [] {
      UnprocessedMembers(tasks[1..], done);
      assert forall t :: t in tasks <==> t == tasks[0] || t in tasks[1..];
    }
  }

  /** Nothing is left when every URL is done. */
  lemma {:induction false} AllProcessed(tasks: seq<Task>, done: set<string>)
    requires forall t :: t in tasks ==> t.url in done
    ensures Unprocessed(tasks, done) == []
    decreases |tasks|
  {
    if tasks != [] {
      assert tasks[0] in tasks;
      AllProcessed(tasks[1..], done);
    }
  }

  /** Task numbers strictly increase along the list. */
  predicate Increasing(tasks: seq<Task>) {
    forall i, j :: 0 <= i < j < |tasks| ==> tasks[i].urlNo < tasks[j].urlNo
  }

  lemma {:induction false} ConsIncreasing(x: Task, rest: seq<Task>)
    requires Increasing(rest)
    requires forall y :: y in rest ==> x.urlNo < y.urlNo
    ensures Increasing([x] + rest)
  {
    var r := [x] + rest;
    forall i, j | 0 <= i < j < |r|
      ensures r[i].urlNo < r[j].urlNo
    {
      assert r[j] == rest[j - 1];
      if i > 0 {
        assert r[i] == rest[i - 1];
      }
    }
  }

  lemma {:induction false} TailIncreasing(tasks: seq<Task>)
    requires tasks != [] && Increasing(tasks)
    ensures Increasing(tasks[1..])
    ensures forall y :: y in tasks[1..] ==> tasks[0].urlNo < y.urlNo
  {
    var tail := tasks[1..];
    forall i, j | 0 <= i < j < |tail|
      ensures tail[i].urlNo < tail[j].urlNo
    {
      assert tail[i] == tasks[i + 1] && tail[j] == tasks[j + 1];
    }
    forall y | y in tail
      ensures tasks[0].urlNo < y.urlNo
    {
      var m :| 0 <= m < |tail| && tail[m] == y;
      assert tasks[m + 1] == y;
    }
  }

  /** Filtering keeps tasks in their order, so numbers stay increasing. */
  lemma {:induction false} UnprocessedIncreasing(tasks: seq<Task>, done: set<string>)
    requires Increasing(tasks)
    ensures Increasing(Unprocessed(tasks, done))
    decreases |tasks|
  {
    if tasks != [] {
      var tail := tasks[1..];
      TailIncreasing(tasks);
      UnprocessedIncreasing(tail, done);
      if tasks[0].url !in done {
        UnprocessedMembers(tail, done);
        ConsIncreasing(tasks[0], Unprocessed(tail, done));
      }
    }
  }

  /** The limited list is a prefix of the numbering: task `k` is the `k + 1`-th URL. */
  lemma {:induction false} LimitedNumbered(urls: seq<string>, limit: Option<nat>)
    ensures var l := Limited(Numbered(urls), limit);
      && |l| == (if limit.Some? && limit.value < |urls| then limit.value else |urls|)
      && forall k :: 0 <= k < |l| ==> l[k] == Task(k + 1, urls[k])
  {
  }

  /**
   * Every pending task carries its 1-based position in the input and the URL found
   * there, lies within the limit, and is not in an earlier output with a URL column.
   */
  lemma {:induction false} PendingSound(urls: seq<string>, limit: Option<nat>, prior: PriorOutput)
    ensures forall t :: t in Pending(urls, limit, prior) ==>
      && 1 <= t.urlNo <= |urls| && urls[t.urlNo - 1] == t.url
      && (limit.Some? ==> t.urlNo <= limit.value)
      && (prior.PriorRows? && prior.hasUrlColumn ==> t.url !in UrlsOf(prior.rows))
  {
    var limited := Limited(Numbered(urls), limit);
    LimitedNumbered(urls, limit);
    if prior.PriorRows? && prior.hasUrlColumn {
      UnprocessedMembers(limited, UrlsOf(prior.rows));
    }
    forall t | t in Pending(urls, limit, prior)
      ensures 1 <= t.urlNo <= |urls| && urls[t.urlNo - 1] == t.url
      ensures limit.Some? ==> t.urlNo <= limit.value
    {
      assert t in limited;
      var k :| 0 <= k < |limited| && limited[k] == t;
    }
  }

  /** Conversely, every URL (at 0-based position `k`) within the limit and not yet in the earlier output is pending. */
  lemma {:induction false} PendingComplete(urls: seq<string>, limit: Option<nat>, prior: PriorOutput)
    ensures forall k ::
      && 0 <= k < |urls| && (limit.None? || k < limit.value)
      && !(prior.PriorRows? && prior.hasUrlColumn && urls[k] in UrlsOf(prior.rows))
      ==> Task(k + 1, urls[k]) in Pending(urls, limit, prior)
  {
    var limited := Limited(Numbered(urls), limit);
    LimitedNumbered(urls, limit);
    if prior.PriorRows? && prior.hasUrlColumn {
      UnprocessedMembers(limited, UrlsOf(prior.rows));
    }
    forall k | 0 <= k < |urls| && (limit.None? || k < limit.value)
      ensures Task(k + 1, urls[k]) in limited
    {
      assert limited[k] == Task(k + 1, urls[k]);
    }
  }

  /** The pending tasks keep the input order. */
  lemma {:induction false} PendingOrdered(urls: seq<string>, limit: Option<nat>, prior: PriorOutput)
    ensures Increasing(Pending(urls, limit, prior))
  {
    var limited := Limited(Numbered(urls), limit);
    LimitedNumbered(urls, limit);
    if prior.PriorRows? && prior.hasUrlColumn {
      UnprocessedIncreasing(limited, UrlsOf(prior.rows));
      assert Pending(urls, limit, prior) == Unprocessed(limited, UrlsOf(prior.rows));
    }
  }

  /**
   * The saved list after the run: the earlier rows first, unchanged, then one row per
   * pending task, in order, each carrying that task's number and URL.
   */
  lemma {:induction false} OneRowPerTask(preloaded: seq<Record>, tasks: seq<Task>, start: Task -> Session, pincode: string)
    ensures var rows := preloaded + Rows(Outcomes(tasks, start, pincode));
      && |rows| == |preloaded| + |tasks|
      && rows[..|preloaded|] == preloaded
      && forall i :: 0 <= i < |tasks| ==>
           rows[|preloaded| + i].urlNo == tasks[i].urlNo && rows[|preloaded| + i].url == tasks[i].url
  {
    var outs := Outcomes(tasks, start, pincode);
    forall i | 0 <= i < |tasks|
      ensures outs[i].row.urlNo == tasks[i].urlNo && outs[i].row.url == tasks[i].url
    {
      var t := tasks[i];
      var s := start(t);
      if s.Started? {
        RowKeepsIdentity(t.urlNo, t.url, VisitSpec(s.page, t.url, pincode).result);
      }
    }
  }

  /**
   * A snapshot is taken after the `k`-th outcome exactly when that outcome's path runs
   * the checkpoint test and `k` is a multiple of the interval; it holds the earlier rows
   * and the first `k` new rows.
   */
  lemma {:induction false} CheckpointsExactly(preloaded: seq<Record>, outs: seq<Outcome>, interval: nat)
    requires interval > 0
    ensures forall s :: s in Checkpoints(preloaded, outs, interval) <==>
      exists k :: 1 <= k <= |outs| && outs[k - 1].checked && k % interval == 0
        && s == preloaded + Rows(outs[..k])
    decreases |outs|
  {
    if outs != [] {
      var n := |outs|;
      var init := outs[..n - 1];
      CheckpointsExactly(preloaded, init, interval);
      assert forall k :: 1 <= k <= n - 1 ==> init[..k] == outs[..k] && init[k - 1] == outs[k - 1];
      assert outs[..n] == outs;
    }
  }

  /** Every snapshot starts with the earlier rows and is a prefix of the final list. */
  lemma {:induction false} SavesArePrefixes(preloaded: seq<Record>, outs: seq<Outcome>, interval: nat)
    requires interval > 0
    ensures forall s :: s in Checkpoints(preloaded, outs, interval) ==>
      preloaded <= s && s <= preloaded + Rows(outs)
  {
    CheckpointsExactly(preloaded, outs, interval);
    forall s | s in Checkpoints(preloaded, outs, interval)
      ensures preloaded <= s && s <= preloaded + Rows(outs)
    {
      var k :| 1 <= k <= |outs| && outs[k - 1].checked && k % interval == 0
        && s == preloaded + Rows(outs[..k]);
      assert Rows(outs[..k]) == Rows(outs)[..k];
    }
  }

  lemma {:induction false} MulLess(a: nat, b: nat, c: nat)
    requires a < b && c > 0
    ensures a * c + c <= b * c
    decreases b - a
  {
    if a + 1 < b {
      MulLess(a + 1, b, c);
      assert (a + 1) * c == a * c + c;
    } else {
      assert b * c == a * c + c;
    }
  }

  lemma {:induction false} DivUnique(k: nat, interval: nat, q: nat, r: nat)
    requires interval > 0 && r < interval && k == q * interval + r
    ensures k / interval == q && k % interval == r
  {
    var q2 := k / interval;
    var r2 := k % interval;
    assert k == q2 * interval + r2;
    if q2 < q {
      MulLess(q2, q, interval);
      assert false;
    } else if q < q2 {
      MulLess(q, q2, interval);
      assert false;
    }
  }

  lemma {:induction false} DivStep(k: nat, interval: nat)
    requires k > 0 && interval > 0
    ensures k / interval == (k - 1) / interval + (if k % interval == 0 then 1 else 0)
  {
    var q := (k - 1) / interval;
    var r := (k - 1) % interval;
    assert k - 1 == q * interval + r;
    if r == interval - 1 {
      assert k == (q + 1) * interval + 0;
      DivUnique(k, interval, q + 1, 0);
    } else {
      DivUnique(k, interval, q, r + 1);
    }
  }

  /** When every path runs the test, `n` outcomes take `n / interval` snapshots. */
  lemma {:induction false} CheckpointCount(preloaded: seq<Record>, outs: seq<Outcome>, interval: nat)
    requires interval > 0
    requires forall k :: 0 <= k < |outs| ==> outs[k].checked
    ensures |Checkpoints(preloaded, outs, interval)| == |outs| / interval
    decreases |outs|
  {
    if outs != [] {
      CheckpointCount(preloaded, outs[..|outs| - 1], interval);
      DivStep(|outs|, interval);
    }
  }

  /**
   * Resuming when the earlier output already holds every URL within the limit runs no
   * task: the list and the single final save are the earlier rows.
   */
  lemma {:induction false} NothingLeftToScrape(urls: seq<string>, limit: Option<nat>, prior: PriorOutput,
                            start: Task -> Session, pincode: string, interval: nat)
    requires interval > 0 && prior.PriorRows? && prior.hasUrlColumn
    requires forall t :: t in Limited(Numbered(urls), limit) ==> t.url in UrlsOf(prior.rows)
    ensures Pending(urls, limit, prior) == []
    ensures var outs := Outcomes(Pending(urls, limit, prior), start, pincode);
      && Preloaded(prior) + Rows(outs) == prior.rows
      && Checkpoints(Preloaded(prior), outs, interval) + [Preloaded(prior) + Rows(outs)] == [prior.rows]
  {
    AllProcessed(Limited(Numbered(urls), limit), UrlsOf(prior.rows));
  }
}
