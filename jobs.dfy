/**
 * The single-consumer worker (meme_search/image_to_text_generator/app/jobs.py).
 * One pass of its `while True` loop is `Cycle`: fetch the row with the
 * smallest id, report status 2, run the extraction, then complete, fail or
 * schedule a retry; it returns the posts it made and the sleep it chose
 * (None: loop again at once). `CycleSpec` states that outcome as a function
 * of the rows before the cycle, and the lemmas below state what it promises.
 *
 * What a cycle cannot see is an input: the file system and the model
 * (`Oracles`), the store statements that raise in this cycle (`faults`, each
 * such statement raising with the given text), and whether the job's row was
 * removed by someone else while it was extracted.
 */
module Worker {
  import opened Wrappers
  import opened Errors
  import opened Senders
  import opened ImageToTextGenerator
  import opened JobQueue

  /** Default sleep when there was no job, or after a worker-level error. */
  const IdleInterval: nat := 5
  const MemesDir := "/app/public/memes/"

  datatype Config = Config(jobDb: string, appUrl: string)

  /**
   * Store statements that can raise: connecting, the fetch, a DELETE with its
   * commit, the retry UPDATE with its commit, and the SELECT that reads the
   * count back after that commit. A raising statement has no effect; when the
   * read-back raises, the committed increment stays.
   */
  datatype StoreOp = Connect | Fetch | Delete | Update | ReadBack

  /** The file probes, model download and model output, by path and model name. */
  datatype Oracles = Oracles(file: string -> FileInfo, download: string -> DownloadOutcome,
                             infer: (string, string) -> InferOutcome)

  datatype CycleInput = CycleInput(oracles: Oracles, faults: map<StoreOp, string>, rowVanished: bool)

  datatype CycleResult = CycleResult(posts: seq<Post>, sleep: Option<nat>, rows: seq<Row>)

  /** Python's `sub in s` on strings. */
  predicate Contains(s: string, sub: string)
  {
    exists i | 0 <= i <= |s| - |sub| :: OccursAt(s, sub, i)
  }

  predicate OccursAt(s: string, sub: string, i: nat)
  {
    i + |sub| <= |s| && s[i..i + |sub|] == sub
  }

  /** The path handed to extraction: under the memes directory, unless the database path mentions "tests". */
  function JobPath(jobDb: string, imagePath: string): (r: string)
    ensures r == imagePath <==> Contains(jobDb, "tests")
    ensures !Contains(jobDb, "tests") ==> r == MemesDir + imagePath
  {
    assert |MemesDir + imagePath| > |imagePath|;
    if Contains(jobDb, "tests") then imagePath else MemesDir + imagePath
  }

  /** `proccess_job`: the extraction of one job's image with its model. */
  function Extract(o: Oracles, path: string, model: string): Call
  {
    ImageToText(path, model, o.file(path), o.download(model), o.infer(path, model))
  }

  /** The guard `if not job or sleep_time > 5`. */
  function LoopSleep(hadJob: bool, sleepTime: nat): (s: Option<nat>)
    ensures s.None? <==> hadJob && sleepTime <= IdleInterval
    ensures s.Some? ==> s.value == sleepTime
  {
    if !hadJob || sleepTime > IdleInterval then Some(sleepTime) else None
  }

  /** The description of a job that used up its attempts. */
  function MaxRetriesMessage(e: Raised): string
  {
    "Max retries (" + Decimal(MaxRetryAttempts) + ") exceeded. Last error: " + e.message
  }

  /** `handle_job_failure`: the failure pair, then the DELETE; a failing DELETE escapes to the loop's handler. */
  function FailJob(posts: seq<Post>, rows: seq<Row>, job: Row, message: string, input: CycleInput, appUrl: string): (r: CycleResult)
    ensures r.posts == posts + FailureSender(job.imageCoreId, message, appUrl)
    ensures r.sleep.None? <==> Delete !in input.faults
    ensures Delete in input.faults ==> r.sleep == Some(IdleInterval)
    ensures r.rows == if Delete in input.faults then rows else Without(rows, job.id)
  {
    var failed := posts + FailureSender(job.imageCoreId, message, appUrl);
    if Delete in input.faults then CycleResult(failed, Some(IdleInterval), rows)
    else CycleResult(failed, LoopSleep(true, IdleInterval), Without(rows, job.id))
  }

  /**
   * The TransientError handler and the catch-all: increment and read back
   * the count, give up at MAX_RETRY_ATTEMPTS, otherwise keep the row and pick
   * the delay. A failing UPDATE, or a failing read-back after the committed
   * increment, escapes to the loop's handler.
   */
  function RetryJob(posts: seq<Post>, rows: seq<Row>, job: Row, e: Raised, input: CycleInput, appUrl: string): (r: CycleResult)
    ensures |posts| <= |r.posts| && r.posts[..|posts|] == posts
    ensures r.posts != posts ==> r.posts == posts + FailureSender(job.imageCoreId, MaxRetriesMessage(e), appUrl)
    ensures Update in input.faults ==> r == CycleResult(posts, Some(IdleInterval), rows)
    ensures Update !in input.faults && ReadBack in input.faults ==>
      r == CycleResult(posts, Some(IdleInterval), Bump(rows, job.id))
  {
    if Update in input.faults then CycleResult(posts, Some(IdleInterval), rows)
    else
      var bumped := Bump(rows, job.id);
      if ReadBack in input.faults then CycleResult(posts, Some(IdleInterval), bumped)
      else match ClassifyRetry(RetryCountOf(bumped, job.id))
      case GiveUp => FailJob(posts, bumped, job, MaxRetriesMessage(e), input, appUrl)
      case RetryAfter(delay) => CycleResult(posts, LoopSleep(true, delay), bumped)
  }

  /** The posts, sleep and rows one cycle leaves behind, from the rows it started with. */
  function CycleSpec(rows: seq<Row>, ready: bool, cfg: Config, input: CycleInput): (r: CycleResult)
  {
    if Connect in input.faults || !ready || Fetch in input.faults then
      CycleResult([], Some(IdleInterval), rows)
    else match Head(rows)
      case None => CycleResult([], LoopSleep(false, IdleInterval), rows)
      case Some(job) =>
        Settle([Started(job, cfg)], Live(rows, input), job, HeadCall(job, cfg, input).outcome, input, cfg.appUrl)
  }

  /**
   * What follows the extraction of `job`: `started` are the posts so far and
   * `live` the rows as they are once the extraction returned.
   */
  function Settle(started: seq<Post>, live: seq<Row>, job: Row, outcome: Result<string, Raised>,
                  input: CycleInput, appUrl: string): (r: CycleResult)
  {
    match outcome
    case Success(text) =>
      var done := started + [DescriptionSender(job.imageCoreId, text, appUrl),
                             StatusSender(job.imageCoreId, Done, appUrl)];
      if Delete in input.faults then RetryJob(done, live, job, Other(input.faults[Delete]), input, appUrl)
      else CycleResult(done, LoopSleep(true, IdleInterval), Without(live, job.id))
    case Failure(e) =>
      if e.Permanent? then FailJob(started, live, job, e.message, input, appUrl)
      else RetryJob(started, live, job, e, input, appUrl)
  }

  /** The extraction a cycle runs for `job`. */
  function HeadCall(job: Row, cfg: Config, input: CycleInput): Call
  {
    Extract(input.oracles, JobPath(cfg.jobDb, job.imagePath), job.model)
  }

  /** The status 2 post for `job`. */
  function Started(job: Row, cfg: Config): Post
  {
    StatusSender(job.imageCoreId, InProgress, cfg.appUrl)
  }

  /** `handle_job_failure` on the store. `escaped` means the DELETE raised. */
  method HandleJobFailure(store: JobStore, job: Row, message: string, input: CycleInput, appUrl: string)
    returns (posts: seq<Post>, escaped: bool)
    requires store.Valid() && store.Ready()
    modifies store
    ensures store.Valid() && store.schema == old(store.schema) && store.nextId == old(store.nextId)
    ensures posts == FailureSender(job.imageCoreId, message, appUrl)
    ensures escaped == (Delete in input.faults)
    ensures store.rows == if escaped then old(store.rows) else Without(old(store.rows), job.id)
  {
    posts := FailureSender(job.imageCoreId, message, appUrl);
    escaped := Delete in input.faults;
    if !escaped {
      store.DeleteById(job.id);
    }
  }

  /** One pass of the worker loop. */
  method Cycle(store: JobStore, cfg: Config, input: CycleInput) returns (posts: seq<Post>, sleep: Option<nat>)
    requires store.Valid()
    modifies store
    ensures store.Valid() && store.schema == old(store.schema) && store.nextId == old(store.nextId)
    ensures CycleResult(posts, sleep, store.rows) == CycleSpec(old(store.rows), old(store.Ready()), cfg, input)
  {
    if Connect in input.faults || !store.Ready() || Fetch in input.faults {
      return [], Some(IdleInterval);
    }
    var job := store.Oldest();
    if job.None? {
      return [], LoopSleep(false, IdleInterval);
    }
    var row := job.value;
    var started := [StatusSender(row.imageCoreId, InProgress, cfg.appUrl)];
    if input.rowVanished {
      store.DeleteById(row.id);
    }
    var call := Extract(input.oracles, JobPath(cfg.jobDb, row.imagePath), row.model);
    posts, sleep := SettleJob(store, started, row, call.outcome, input, cfg.appUrl);
  }

  /** The part of a pass after the extraction returned: complete the job, fail it, or retry it. */
  method SettleJob(store: JobStore, started: seq<Post>, row: Row, outcome: Result<string, Raised>,
                   input: CycleInput, appUrl: string) returns (posts: seq<Post>, sleep: Option<nat>)
    requires store.Valid() && store.Ready()
    modifies store
    ensures store.Valid() && store.schema == old(store.schema) && store.nextId == old(store.nextId)
    ensures CycleResult(posts, sleep, store.rows) == Settle(started, old(store.rows), row, outcome, input, appUrl)
  {
    posts := started;
    var failure: Raised;
    if outcome.Success? {
      posts := posts + [DescriptionSender(row.imageCoreId, outcome.value, appUrl),
                        StatusSender(row.imageCoreId, Done, appUrl)];
      if Delete !in input.faults {
        store.DeleteById(row.id);
        return posts, LoopSleep(true, IdleInterval);
      }
      failure := Other(input.faults[Delete]);
    } else {
      failure := outcome.error;
    }
    if !failure.Retryable() {
      var failed, escaped := HandleJobFailure(store, row, failure.message, input, appUrl);
      posts := posts + failed;
      sleep := if escaped then Some(IdleInterval) else LoopSleep(true, IdleInterval);
    } else {
      posts, sleep := ScheduleRetry(store, posts, row, failure, input, appUrl);
    }
  }

  /** The retry handlers: count the attempt, then give up or pick the delay. */
  method ScheduleRetry(store: JobStore, posts0: seq<Post>, row: Row, e: Raised, input: CycleInput, appUrl: string)
    returns (posts: seq<Post>, sleep: Option<nat>)
    requires store.Valid() && store.Ready()
    modifies store
    ensures store.Valid() && store.schema == old(store.schema) && store.nextId == old(store.nextId)
    ensures CycleResult(posts, sleep, store.rows) == RetryJob(posts0, old(store.rows), row, e, input, appUrl)
  {
    posts := posts0;
    if Update in input.faults {
      return posts, Some(IdleInterval);
    }
    var n := store.IncrementRetryCount(row.id);
    if ReadBack in input.faults {
      return posts, Some(IdleInterval);
    }
    if n >= MaxRetryAttempts {
      var failed, escaped := HandleJobFailure(store, row, MaxRetriesMessage(e), input, appUrl);
      posts := posts + failed;
      sleep := if escaped then Some(IdleInterval) else LoopSleep(true, IdleInterval);
    } else {
      sleep := LoopSleep(true, RetryDelay(n));
    }
  }

  // ----- what a cycle promises -----

  /** The store could be opened and the oldest row read. */
  predicate FetchRuns(ready: bool, input: CycleInput)
  {
    ready && Connect !in input.faults && Fetch !in input.faults
  }

  /** In the test setup the path is used as given; otherwise it is placed under the memes directory. */
  lemma PathExamples()
    ensures JobPath("/tests/test.db", "/full/path/test.jpg") == "/full/path/test.jpg"
    ensures JobPath("/app/jobs.db", "memes/test.jpg") == "/app/public/memes/memes/test.jpg"
  {
    assert OccursAt("/tests/test.db", "tests", 1);
    var s := "/app/jobs.db";
    forall i: nat | i <= |s| - 5 ensures !OccursAt(s, "tests", i) {
      assert s[i] != 't';
      assert "tests"[0] == 't';
    }
  }

  /** Any database path with "tests" anywhere in it uses the image path as given, whatever surrounds it. */
  lemma TestsAnywhere(prefix: string, suffix: string, imagePath: string)
    ensures JobPath(prefix + "tests" + suffix, imagePath) == imagePath
  {
    var db := prefix + "tests" + suffix;
    assert db[|prefix|..|prefix| + 5] == "tests";
    assert OccursAt(db, "tests", |prefix|);
  }

  /** A store that cannot be opened or read leaves the table alone, posts nothing and idles. */
  lemma StoreUnavailable(rows: seq<Row>, ready: bool, cfg: Config, input: CycleInput)
    requires !FetchRuns(ready, input)
    ensures CycleSpec(rows, ready, cfg, input) == CycleResult([], Some(IdleInterval), rows)
  {
  }

  /** An empty queue: nothing is posted and the worker idles. */
  lemma EmptyQueue(ready: bool, cfg: Config, input: CycleInput)
    ensures CycleSpec([], ready, cfg, input) == CycleResult([], Some(IdleInterval), [])
  {
  }

  /**
   * The job taken is the oldest row: its status 2 is the first post, and
   * every post of the cycle is about its image core. Whatever happens, the
   * cycle only deletes rows or raises counts.
   */
  lemma SelectsOldest(rows: seq<Row>, ready: bool, cfg: Config, input: CycleInput)
    requires IdsIncreasing(rows) && rows != [] && FetchRuns(ready, input)
    ensures forall x :: x in rows ==> rows[0].id <= x.id
    ensures var c := CycleSpec(rows, ready, cfg, input);
      |c.posts| >= 1 && c.posts[0] == Started(rows[0], cfg)
  {
    forall x | x in rows ensures rows[0].id <= x.id {
      var k :| 0 <= k < |rows| && rows[k] == x;
      assert k == 0 || rows[0].id < rows[k].id;
    }
  }

  /** A successful extraction: status 2, the description, status 3, then the row is gone and the loop goes on at once. */
  lemma SuccessCycle(rows: seq<Row>, ready: bool, cfg: Config, input: CycleInput, text: string)
    requires IdsIncreasing(rows) && rows != [] && FetchRuns(ready, input)
    requires Delete !in input.faults && !input.rowVanished
    requires HeadCall(rows[0], cfg, input).outcome == Success(text)
    ensures CycleSpec(rows, ready, cfg, input)
         == CycleResult([Started(rows[0], cfg), DescriptionSender(rows[0].imageCoreId, text, cfg.appUrl),
                         StatusSender(rows[0].imageCoreId, Done, cfg.appUrl)], None, rows[1..])
  {
    WithoutHead(rows);
  }

  /**
   * A permanent error is never retried: status 2, then status 5 and the error
   * text as the description, the row deleted whatever its count.
   */
  lemma PermanentCycle(rows: seq<Row>, ready: bool, cfg: Config, input: CycleInput, message: string)
    requires IdsIncreasing(rows) && rows != [] && FetchRuns(ready, input)
    requires Delete !in input.faults && !input.rowVanished
    requires HeadCall(rows[0], cfg, input).outcome == Failure(Permanent(message))
    ensures var c := CycleSpec(rows, ready, cfg, input);
      && c == CycleResult([Started(rows[0], cfg)] + FailureSender(rows[0].imageCoreId, message, cfg.appUrl), None, rows[1..])
      && StatusCount(c.posts, Failed) == 1
      && FailureMessage(c.posts[1..]) == Some(message)
  {
    WithoutHead(rows);
    var c := CycleSpec(rows, ready, cfg, input);
    var f := FailureSender(rows[0].imageCoreId, message, cfg.appUrl);
    assert c.posts[1..] == f;
    StatusCountAppend([Started(rows[0], cfg)], f, Failed);
  }

  /**
   * A transient error (or any other exception) raises the count by one. At
   * MAX_RETRY_ATTEMPTS the job fails with the "Max retries" message and its
   * row is deleted; below it the row stays at the head with the new count,
   * nothing is reported as failed, and the loop waits the retry delay if it
   * exceeds the idle interval.
   */
  lemma TransientCycle(rows: seq<Row>, ready: bool, cfg: Config, input: CycleInput, e: Raised)
    requires IdsIncreasing(rows) && rows != [] && FetchRuns(ready, input)
    requires Delete !in input.faults && Update !in input.faults && ReadBack !in input.faults && !input.rowVanished
    requires HeadCall(rows[0], cfg, input).outcome == Failure(e) && e.Retryable()
    ensures var n := rows[0].retryCount + 1; var c := CycleSpec(rows, ready, cfg, input);
      && (n >= MaxRetryAttempts ==>
            c == CycleResult([Started(rows[0], cfg)] + FailureSender(rows[0].imageCoreId, MaxRetriesMessage(e), cfg.appUrl),
                             None, rows[1..]))
      && (n < MaxRetryAttempts ==>
            c == CycleResult([Started(rows[0], cfg)], LoopSleep(true, RetryDelay(n)),
                             [rows[0].(retryCount := n)] + rows[1..]))
  {
    BumpHead(rows);
    var bumped := Bump(rows, rows[0].id);
    BumpKeepsIds(rows, rows[0].id);
    LookupUnique(bumped, bumped[0]);
    WithoutHead(bumped);
  }

  /** A job kept for retry is taken again by the next cycle, before any job added since. */
  lemma RetriedJobTakenNext(rows: seq<Row>, ready: bool, cfg: Config, input: CycleInput, e: Raised,
                            added: seq<Row>, next: CycleInput)
    requires IdsIncreasing(rows) && rows != [] && FetchRuns(ready, input) && FetchRuns(ready, next)
    requires Delete !in input.faults && Update !in input.faults && ReadBack !in input.faults && !input.rowVanished
    requires HeadCall(rows[0], cfg, input).outcome == Failure(e) && e.Retryable()
    requires rows[0].retryCount + 1 < MaxRetryAttempts
    requires IdsIncreasing(added) && forall x, y :: x in added && y in rows ==> y.id < x.id
    ensures var after := CycleSpec(rows, ready, cfg, input).rows + added;
      && after != [] && after[0] == rows[0].(retryCount := rows[0].retryCount + 1) && IdsIncreasing(after)
      && CycleSpec(after, ready, cfg, next)
         == Settle([Started(after[0], cfg)], Live(after, next), after[0], HeadCall(after[0], cfg, next).outcome, next, cfg.appUrl)
  {
    TransientCycle(rows, ready, cfg, input, e);
    var kept := [rows[0].(retryCount := rows[0].retryCount + 1)] + rows[1..];
    assert CycleSpec(rows, ready, cfg, input).rows == kept;
    assert (kept + added)[0] == kept[0];
    KeptBeforeAdded(rows, added);
    TakesJob(kept + added, ready, cfg, next);
  }

  /** Ids handed out later are larger, so the kept rows come before the added ones. */
  lemma KeptBeforeAdded(rows: seq<Row>, added: seq<Row>)
    requires IdsIncreasing(rows) && rows != []
    requires IdsIncreasing(added) && forall x, y :: x in added && y in rows ==> y.id < x.id
    ensures IdsIncreasing(([rows[0].(retryCount := rows[0].retryCount + 1)] + rows[1..]) + added)
  {
    var kept := [rows[0].(retryCount := rows[0].retryCount + 1)] + rows[1..];
    BumpHead(rows);
    BumpKeepsIds(rows, rows[0].id);
    forall x, y | x in added && y in kept ensures y.id < x.id {
      var k :| 0 <= k < |kept| && kept[k] == y;
      assert rows[k] in rows && rows[k].id == y.id;
    }
    AppendIncreasing(kept, added);
  }

  lemma AppendIncreasing(a: seq<Row>, b: seq<Row>)
    requires IdsIncreasing(a) && IdsIncreasing(b) && forall x, y :: x in b && y in a ==> y.id < x.id
    ensures IdsIncreasing(a + b)
  {
    var s := a + b;
    forall i, j | 0 <= i < j < |s| ensures s[i].id < s[j].id {
      if j < |a| {
      } else if i < |a| {
        assert s[j] == b[j - |a|] && s[i] == a[i];
      } else {
        assert s[i] == b[i - |a|] && s[j] == b[j - |a|];
      }
    }
  }

  /** The error text of the last failed attempt ends the "Max retries" message. */
  lemma MaxRetriesText(e: Raised)
    ensures MaxRetriesMessage(e) == "Max retries (3) exceeded. Last error: " + e.message
  {
  }

  /** No store statement raises and the row stays put while its image is extracted. */
  predicate Undisturbed(input: CycleInput)
  {
    input.faults == map[] && !input.rowVanished
  }

  /** The extraction of `job` fails with the retryable error `e`. */
  predicate FailsWith(job: Row, cfg: Config, input: CycleInput, e: Raised)
  {
    HeadCall(job, cfg, input).outcome == Failure(e) && e.Retryable()
  }

  /**
   * The second and third transient failures of a job: count 2 keeps the row
   * and sleeps the second delay, count 3 gives up and deletes it. The first
   * failure of a fresh job is `KeptForRetry` with count 1 and no sleep.
   */
  lemma SecondAndThirdFailures(job: Row, rest: seq<Row>, cfg: Config, in2: CycleInput, in3: CycleInput, e2: Raised, e3: Raised)
    requires IdsIncreasing([job] + rest) && job.retryCount == 1
    requires Undisturbed(in2) && Undisturbed(in3)
    requires FailsWith(job, cfg, in2, e2) && FailsWith(job, cfg, in3, e3)
    ensures CycleSpec([job] + rest, true, cfg, in2) == CycleResult([Started(job, cfg)], Some(10), [job.(retryCount := 2)] + rest)
    ensures CycleSpec([job.(retryCount := 2)] + rest, true, cfg, in3)
         == CycleResult([Started(job, cfg)] + FailureSender(job.imageCoreId, MaxRetriesMessage(e3), cfg.appUrl), None, rest)
  {
    RetrySchedule();
    StartedIgnoresCount(job, 2, cfg);
    IgnoresCount(job, 2, cfg, in3, e3);
    KeptForRetry(job, rest, cfg, in2, e2);
    GivenUp(job.(retryCount := 2), rest, cfg, in3, e3);
  }

  /**
   * The schedule of a job that keeps failing: after the first attempt the
   * delay does not exceed the idle interval, after the second the loop sleeps
   * 10 seconds, the third gives up.
   */
  lemma RetrySchedule()
    ensures LoopSleep(true, RetryDelay(1)) == None && LoopSleep(true, RetryDelay(2)) == Some(10)
    ensures ClassifyRetry(1).RetryAfter? && ClassifyRetry(2).RetryAfter? && ClassifyRetry(3) == GiveUp
  {
  }

  /** The extraction does not depend on the retry count. */
  lemma IgnoresCount(job: Row, n: nat, cfg: Config, input: CycleInput, e: Raised)
    ensures FailsWith(job.(retryCount := n), cfg, input, e) == FailsWith(job, cfg, input, e)
  {
  }

  lemma StartedIgnoresCount(job: Row, n: nat, cfg: Config)
    ensures Started(job.(retryCount := n), cfg) == Started(job, cfg)
  {
  }

  /** One transient failure of the head below the limit, on a table that starts with it. */
  lemma KeptForRetry(job: Row, rest: seq<Row>, cfg: Config, input: CycleInput, e: Raised)
    requires IdsIncreasing([job] + rest) && job.retryCount + 1 < MaxRetryAttempts
    requires Undisturbed(input) && FailsWith(job, cfg, input, e)
    ensures var n := job.retryCount + 1;
      && CycleSpec([job] + rest, true, cfg, input)
         == CycleResult([Started(job, cfg)], LoopSleep(true, RetryDelay(n)), [job.(retryCount := n)] + rest)
      && IdsIncreasing([job.(retryCount := n)] + rest)
  {
    var rows := [job] + rest;
    assert rows[0] == job && rows[1..] == rest;
    TransientCycle(rows, true, cfg, input, e);
    BumpHead(rows);
    BumpKeepsIds(rows, job.id);
  }

  /** The transient failure that reaches the limit, on a table that starts with the job. */
  lemma GivenUp(job: Row, rest: seq<Row>, cfg: Config, input: CycleInput, e: Raised)
    requires IdsIncreasing([job] + rest) && job.retryCount + 1 == MaxRetryAttempts
    requires Undisturbed(input) && FailsWith(job, cfg, input, e)
    ensures CycleSpec([job] + rest, true, cfg, input)
         == CycleResult([Started(job, cfg)] + FailureSender(job.imageCoreId, MaxRetriesMessage(e), cfg.appUrl), None, rest)
  {
    var rows := [job] + rest;
    assert rows[0] == job && rows[1..] == rest;
    TransientCycle(rows, true, cfg, input, e);
  }

  /**
   * The row vanished while its image was extracted and the attempt failed:
   * the increment finds no row and reads back 0, so the loop sleeps the last
   * retry delay.
   */
  lemma VanishedRowCycle(rows: seq<Row>, ready: bool, cfg: Config, input: CycleInput, e: Raised)
    requires IdsIncreasing(rows) && rows != [] && FetchRuns(ready, input)
    requires Update !in input.faults && ReadBack !in input.faults && input.rowVanished
    requires HeadCall(rows[0], cfg, input).outcome == Failure(e) && e.Retryable()
    ensures CycleSpec(rows, ready, cfg, input)
         == CycleResult([Started(rows[0], cfg)], Some(RetryDelays[|RetryDelays| - 1]), rows[1..])
  {
    WithoutHead(rows);
    assert forall x :: x in rows[1..] ==> x.id != rows[0].id by {
      forall x | x in rows[1..] ensures x.id != rows[0].id {
        var k :| 0 <= k < |rows[1..]| && rows[1..][k] == x;
        assert rows[k + 1] == x;
      }
    }
    BumpCount(rows[1..], rows[0].id);
  }

  /**
   * A DELETE that raises after a successful extraction lands in the
   * catch-all: the job counts a failed attempt although status 3 and its
   * description were already posted, and the row stays queued.
   */
  lemma StoreErrorCountsAgainstRetries(rows: seq<Row>, ready: bool, cfg: Config, input: CycleInput, text: string)
    requires IdsIncreasing(rows) && rows != [] && FetchRuns(ready, input)
    requires Delete in input.faults && Update !in input.faults && ReadBack !in input.faults && !input.rowVanished
    requires HeadCall(rows[0], cfg, input).outcome == Success(text)
    requires rows[0].retryCount + 1 < MaxRetryAttempts
    ensures var n := rows[0].retryCount + 1;
      CycleSpec(rows, ready, cfg, input)
      == CycleResult([Started(rows[0], cfg), DescriptionSender(rows[0].imageCoreId, text, cfg.appUrl),
                      StatusSender(rows[0].imageCoreId, Done, cfg.appUrl)],
                     LoopSleep(true, RetryDelay(n)), [rows[0].(retryCount := n)] + rows[1..])
  {
    var job := rows[0];
    var n := job.retryCount + 1;
    BumpHead(rows);
    var bumped := Bump(rows, job.id);
    BumpKeepsIds(rows, job.id);
    LookupUnique(bumped, bumped[0]);
    var done := [Started(job, cfg), DescriptionSender(job.imageCoreId, text, cfg.appUrl),
                 StatusSender(job.imageCoreId, Done, cfg.appUrl)];
    assert RetryCountOf(bumped, job.id) == n;
    assert RetryJob(done, rows, job, Other(input.faults[Delete]), input, cfg.appUrl)
        == CycleResult(done, LoopSleep(true, RetryDelay(n)), bumped);
    assert Live(rows, input) == rows;
  }

  /**
   * Because of that, a job can end a cycle with a count of MAX_RETRY_ATTEMPTS
   * still queued: its last attempt failed, the failure was posted, and the
   * DELETE of handle_job_failure raised too.
   */
  lemma CountCanReachMax(job: Row, cfg: Config, input: CycleInput)
    requires job.retryCount + 1 == MaxRetryAttempts
    requires input.faults == map[Delete := "database is locked"] && !input.rowVanished
    requires HeadCall(job, cfg, input).outcome.Failure? && HeadCall(job, cfg, input).outcome.error.Retryable()
    ensures var c := CycleSpec([job], true, cfg, input);
      && c.rows == [job.(retryCount := MaxRetryAttempts)]
      && c.sleep == Some(IdleInterval)
      && StatusCount(c.posts, Failed) == 1
  {
    var e := HeadCall(job, cfg, input).outcome.error;
    BumpHead([job]);
    var bumped := Bump([job], job.id);
    LookupUnique(bumped, bumped[0]);
    var c := CycleSpec([job], true, cfg, input);
    var f := FailureSender(job.imageCoreId, MaxRetriesMessage(e), cfg.appUrl);
    assert c.posts == [Started(job, cfg)] + f;
    StatusCountAppend([Started(job, cfg)], f, Failed);
  }

  /**
   * A read-back that raises after the committed increment escapes to the
   * loop's handler: the row stays queued with its raised count and nothing
   * reports the job failed. So the count can reach MAX_RETRY_ATTEMPTS with no
   * DELETE raising.
   */
  lemma ReadBackKeepsRaisedCount(job: Row, rest: seq<Row>, cfg: Config, input: CycleInput, e: Raised)
    requires IdsIncreasing([job] + rest)
    requires input.faults == map[ReadBack := "disk I/O error"] && !input.rowVanished
    requires FailsWith(job, cfg, input, e)
    ensures CycleSpec([job] + rest, true, cfg, input)
         == CycleResult([Started(job, cfg)], Some(IdleInterval), [job.(retryCount := job.retryCount + 1)] + rest)
    ensures job.retryCount + 1 == MaxRetryAttempts ==> !WithinBudget(CycleSpec([job] + rest, true, cfg, input).rows)
  {
    var rows := [job] + rest;
    assert rows[0] == job && rows[1..] == rest;
    BumpHead(rows);
    var c := CycleSpec(rows, true, cfg, input);
    assert c == CycleResult([Started(job, cfg)], Some(IdleInterval), [job.(retryCount := job.retryCount + 1)] + rest);
    assert c.rows[0] in c.rows;
  }

  /** A missing image fails the job at once with the not-found message. */
  lemma MissingImageCycle(rows: seq<Row>, ready: bool, cfg: Config, input: CycleInput)
    requires IdsIncreasing(rows) && rows != [] && FetchRuns(ready, input)
    requires Delete !in input.faults && !input.rowVanished
    requires !input.oracles.file(JobPath(cfg.jobDb, rows[0].imagePath)).present
    ensures var path := JobPath(cfg.jobDb, rows[0].imagePath);
      CycleSpec(rows, ready, cfg, input)
      == CycleResult([Started(rows[0], cfg)] + FailureSender(rows[0].imageCoreId, "Image file not found: " + path, cfg.appUrl),
                     None, rows[1..])
  {
    var path := JobPath(cfg.jobDb, rows[0].imagePath);
    var f := input.oracles.file(path);
    MissingFileFirst(path, rows[0].model, f.size, f.image, input.oracles.download(rows[0].model),
                     input.oracles.infer(path, rows[0].model));
    PermanentCycle(rows, ready, cfg, input, "Image file not found: " + path);
  }

  /** What the loop may sleep: the idle interval, or a retry delay longer than it. */
  predicate SleepAllowed(sleep: Option<nat>)
  {
    sleep.Some? ==> sleep.value == IdleInterval || (sleep.value in RetryDelays && sleep.value > IdleInterval)
  }

  /**
   * Over any cycle: the table afterwards holds only jobs it held before, with
   * counts that did not drop, still in id order; the loop sleeps only the
   * idle interval or a retry delay longer than it; and it goes on at once
   * only after a job was taken.
   */
  lemma CycleInvariants(rows: seq<Row>, ready: bool, cfg: Config, input: CycleInput)
    requires IdsIncreasing(rows)
    ensures var c := CycleSpec(rows, ready, cfg, input);
      && Follows(c.rows, rows) && IdsIncreasing(c.rows) && SleepAllowed(c.sleep)
      && (c.sleep.None? ==> FetchRuns(ready, input) && rows != [])
  {
    if FetchRuns(ready, input) && rows != [] {
      var job := rows[0];
      var live := Live(rows, input);
      var r := Settle([Started(job, cfg)], live, job, HeadCall(job, cfg, input).outcome, input, cfg.appUrl);
      TakesJob(rows, ready, cfg, input);
      LiveFollows(rows, input);
      SettleInvariants([Started(job, cfg)], live, job, HeadCall(job, cfg, input).outcome, input, cfg.appUrl);
      FollowsTrans(r.rows, live, rows);
    } else {
      FollowsRefl(rows);
    }
  }

  /** The rows as they are once the extraction of the head returned. */
  function Live(rows: seq<Row>, input: CycleInput): seq<Row>
    requires rows != []
  {
    if input.rowVanished then Without(rows, rows[0].id) else rows
  }

  lemma LiveFollows(rows: seq<Row>, input: CycleInput)
    requires IdsIncreasing(rows) && rows != []
    ensures Follows(Live(rows, input), rows) && IdsIncreasing(Live(rows, input))
  {
    WithoutFollows(rows, rows[0].id);
    FollowsRefl(rows);
  }

  /** A cycle that fetched a job is the handling of that job's extraction outcome. */
  lemma TakesJob(rows: seq<Row>, ready: bool, cfg: Config, input: CycleInput)
    requires FetchRuns(ready, input) && rows != []
    ensures CycleSpec(rows, ready, cfg, input)
         == Settle([Started(rows[0], cfg)], Live(rows, input), rows[0], HeadCall(rows[0], cfg, input).outcome, input, cfg.appUrl)
  {
  }

  lemma SettleInvariants(started: seq<Post>, live: seq<Row>, job: Row, outcome: Result<string, Raised>,
                         input: CycleInput, appUrl: string)
    requires IdsIncreasing(live)
    ensures var r := Settle(started, live, job, outcome, input, appUrl);
      Follows(r.rows, live) && IdsIncreasing(r.rows) && SleepAllowed(r.sleep)
  {
    var r := Settle(started, live, job, outcome, input, appUrl);
    match outcome
    case Success(text) =>
      var done := started + [DescriptionSender(job.imageCoreId, text, appUrl),
                             StatusSender(job.imageCoreId, Done, appUrl)];
      if Delete in input.faults {
        assert r == RetryJob(done, live, job, Other(input.faults[Delete]), input, appUrl);
        RetryInvariants(done, live, job, Other(input.faults[Delete]), input, appUrl);
      } else {
        assert r == CycleResult(done, None, Without(live, job.id));
        WithoutFollows(live, job.id);
      }
    case Failure(e) =>
      if e.Permanent? {
        assert r == FailJob(started, live, job, e.message, input, appUrl);
        FailInvariants(started, live, job, e.message, input, appUrl);
      } else {
        assert r == RetryJob(started, live, job, e, input, appUrl);
        RetryInvariants(started, live, job, e, input, appUrl);
      }
  }

  lemma FailInvariants(posts: seq<Post>, live: seq<Row>, job: Row, message: string, input: CycleInput, appUrl: string)
    requires IdsIncreasing(live)
    ensures var r := FailJob(posts, live, job, message, input, appUrl);
      Follows(r.rows, live) && IdsIncreasing(r.rows) && SleepAllowed(r.sleep)
  {
    FollowsRefl(live);
    WithoutFollows(live, job.id);
  }

  lemma RetryInvariants(posts: seq<Post>, live: seq<Row>, job: Row, e: Raised, input: CycleInput, appUrl: string)
    requires IdsIncreasing(live)
    ensures var r := RetryJob(posts, live, job, e, input, appUrl);
      Follows(r.rows, live) && IdsIncreasing(r.rows) && SleepAllowed(r.sleep)
  {
    var r := RetryJob(posts, live, job, e, input, appUrl);
    if Update in input.faults {
      assert r.rows == live && r.sleep == Some(IdleInterval);
      FollowsRefl(live);
    } else {
      var bumped := Bump(live, job.id);
      BumpFollows(live, job.id);
      BumpKeepsIds(live, job.id);
      var n := RetryCountOf(bumped, job.id);
      if ReadBack in input.faults {
        assert r.rows == bumped && r.sleep == Some(IdleInterval);
      } else if n >= MaxRetryAttempts {
        assert r == FailJob(posts, bumped, job, MaxRetriesMessage(e), input, appUrl);
        FailInvariants(posts, bumped, job, MaxRetriesMessage(e), input, appUrl);
        FollowsTrans(r.rows, bumped, live);
      } else {
        assert r.rows == bumped && r.sleep == LoopSleep(true, RetryDelay(n));
      }
    }
  }

  /**
   * Without a failing DELETE or read-back, no queued job ever has a count of
   * MAX_RETRY_ATTEMPTS or more: the increment that reaches it deletes the row.
   */
  lemma RetryBudgetKept(rows: seq<Row>, ready: bool, cfg: Config, input: CycleInput)
    requires IdsIncreasing(rows) && WithinBudget(rows) && Delete !in input.faults && ReadBack !in input.faults
    ensures WithinBudget(CycleSpec(rows, ready, cfg, input).rows)
  {
    if FetchRuns(ready, input) && rows != [] {
      assert WithinBudget(Live(rows, input)) && IdsIncreasing(Live(rows, input));
      SettleBudget([Started(rows[0], cfg)], Live(rows, input), rows[0], HeadCall(rows[0], cfg, input).outcome, input, cfg.appUrl);
    }
  }

  lemma SettleBudget(started: seq<Post>, live: seq<Row>, job: Row, outcome: Result<string, Raised>,
                     input: CycleInput, appUrl: string)
    requires IdsIncreasing(live) && WithinBudget(live) && Delete !in input.faults && ReadBack !in input.faults
    ensures WithinBudget(Settle(started, live, job, outcome, input, appUrl).rows)
  {
    match outcome
    case Success(text) =>
    case Failure(e) =>
      if e.Retryable() {
        RetryBudget(started, live, job, e, input, appUrl);
      }
  }

  lemma RetryBudget(posts: seq<Post>, live: seq<Row>, job: Row, e: Raised, input: CycleInput, appUrl: string)
    requires IdsIncreasing(live) && WithinBudget(live) && Delete !in input.faults && ReadBack !in input.faults
    ensures WithinBudget(RetryJob(posts, live, job, e, input, appUrl).rows)
  {
    if Update !in input.faults {
      var bumped := Bump(live, job.id);
      BumpCount(live, job.id);
      BumpKeepsIds(live, job.id);
      var n := RetryCountOf(bumped, job.id);
      forall x | x in bumped && x.id != job.id ensures x.retryCount < MaxRetryAttempts {
        var k :| 0 <= k < |bumped| && bumped[k] == x;
        assert live[k] in live;
      }
      forall x | x in bumped && x.id == job.id ensures n == x.retryCount {
        LookupUnique(bumped, x);
      }
      if n >= MaxRetryAttempts {
        assert RetryJob(posts, live, job, e, input, appUrl).rows == Without(bumped, job.id);
      } else {
        assert RetryJob(posts, live, job, e, input, appUrl).rows == bumped;
      }
    }
  }

  ghost predicate WithinBudget(rows: seq<Row>)
  {
    forall x :: x in rows ==> x.retryCount < MaxRetryAttempts
  }

  // ----- the loop -----

  /** The results of consecutive applications of `step`, each to the rows the previous one left. */
  function Trace(step: (seq<Row>, CycleInput) -> CycleResult, rows: seq<Row>, inputs: seq<CycleInput>): (trace: seq<CycleResult>)
    ensures |trace| == |inputs|
    decreases |inputs|
  {
    if inputs == [] then []
    else
      var c := step(rows, inputs[0]);
      [c] + Trace(step, c.rows, inputs[1..])
  }

  /** The table a trace leaves behind. */
  function Final(rows: seq<Row>, trace: seq<CycleResult>): seq<Row>
  {
    if trace == [] then rows else trace[|trace| - 1].rows
  }

  /** A trace is its first step followed by the trace from the rows that step left. */
  lemma TraceStep(step: (seq<Row>, CycleInput) -> CycleResult, rows: seq<Row>, first: CycleInput, rest: seq<CycleInput>)
    ensures Trace(step, rows, [first] + rest) == [step(rows, first)] + Trace(step, step(rows, first).rows, rest)
    ensures Final(rows, Trace(step, rows, [first] + rest)) == Final(step(rows, first).rows, Trace(step, step(rows, first).rows, rest))
  {
    assert ([first] + rest)[1..] == rest;
  }

  /** Splitting a trace: the first `k` steps, then the rest from where they left the table. */
  lemma {:induction false} TraceSplit(step: (seq<Row>, CycleInput) -> CycleResult, rows: seq<Row>, inputs: seq<CycleInput>, k: nat)
    requires k <= |inputs|
    ensures var t := Trace(step, rows, inputs[..k]);
      Trace(step, rows, inputs) == t + Trace(step, Final(rows, t), inputs[k..])
    decreases k
  {
    if k == 0 {
      assert inputs[..0] == [] && inputs[0..] == inputs;
    } else {
      var tail := inputs[1..];
      assert inputs == [inputs[0]] + tail;
      assert inputs[..k] == [inputs[0]] + tail[..k - 1];
      assert tail[k - 1..] == inputs[k..];
      TraceStep(step, rows, inputs[0], tail);
      TraceStep(step, rows, inputs[0], tail[..k - 1]);
      TraceSplit(step, step(rows, inputs[0]).rows, tail, k - 1);
    }
  }

  /** One pass of the worker loop as a step function. */
  function CycleStep(ready: bool, cfg: Config): (seq<Row>, CycleInput) -> CycleResult
  {
    (rows, input) => CycleSpec(rows, ready, cfg, input)
  }

  /** The results of consecutive cycles of the worker loop. */
  function Run(rows: seq<Row>, ready: bool, cfg: Config, inputs: seq<CycleInput>): (trace: seq<CycleResult>)
    ensures |trace| == |inputs|
  {
    Trace(CycleStep(ready, cfg), rows, inputs)
  }

  /** Along any run the table keeps its id order and holds only jobs it started with. */
  lemma {:induction false} RunFollows(rows: seq<Row>, ready: bool, cfg: Config, inputs: seq<CycleInput>)
    requires IdsIncreasing(rows)
    ensures forall k :: 0 <= k < |inputs| ==>
      IdsIncreasing(Run(rows, ready, cfg, inputs)[k].rows) && Follows(Run(rows, ready, cfg, inputs)[k].rows, rows)
    decreases |inputs|
  {
    if inputs != [] {
      var c := CycleSpec(rows, ready, cfg, inputs[0]);
      CycleInvariants(rows, ready, cfg, inputs[0]);
      RunFollows(c.rows, ready, cfg, inputs[1..]);
      assert inputs == [inputs[0]] + inputs[1..];
      TraceStep(CycleStep(ready, cfg), rows, inputs[0], inputs[1..]);
      var t := Run(rows, ready, cfg, inputs);
      forall k | 0 <= k < |inputs| ensures IdsIncreasing(t[k].rows) && Follows(t[k].rows, rows) {
        if k > 0 {
          assert t[k] == Run(c.rows, ready, cfg, inputs[1..])[k - 1];
          FollowsTrans(t[k].rows, c.rows, rows);
        }
      }
    }
  }

  /** Extending a trace by one step. */
  lemma TraceSnoc(step: (seq<Row>, CycleInput) -> CycleResult, rows: seq<Row>, inputs: seq<CycleInput>, i: nat)
    requires i < |inputs|
    ensures var t := Trace(step, rows, inputs[..i]);
      var r := step(Final(rows, t), inputs[i]);
      Trace(step, rows, inputs[..i + 1]) == t + [r] && Final(rows, t + [r]) == r.rows
  {
    TraceSplit(step, rows, inputs[..i + 1], i);
    assert inputs[..i + 1][..i] == inputs[..i];
    assert inputs[..i + 1][i..] == [inputs[i]] + [];
    TraceStep(step, Final(rows, Trace(step, rows, inputs[..i])), inputs[i], []);
  }

  /** `process_jobs`: the worker loop over the given inputs, one cycle each. */
  method ProcessJobs(store: JobStore, cfg: Config, inputs: seq<CycleInput>) returns (trace: seq<CycleResult>)
    requires store.Valid()
    modifies store
    ensures store.Valid() && store.schema == old(store.schema) && store.nextId == old(store.nextId)
    ensures trace == Run(old(store.rows), old(store.Ready()), cfg, inputs)
    ensures store.rows == Final(old(store.rows), trace)
  {
    ghost var rows0 := store.rows;
    var ready := store.Ready();
    ghost var step := CycleStep(ready, cfg);
    trace := [];
    var i := 0;
    while i < |inputs|
      invariant 0 <= i <= |inputs|
      invariant store.Valid() && store.schema == old(store.schema) && store.nextId == old(store.nextId)
      invariant store.Ready() == ready
      invariant trace == Trace(step, rows0, inputs[..i])
      invariant store.rows == Final(rows0, trace)
    {
      ghost var before := store.rows;
      var posts, sleep := Cycle(store, cfg, inputs[i]);
      TraceSnoc(step, rows0, inputs, i);
      trace := trace + [CycleResult(posts, sleep, store.rows)];
      i := i + 1;
    }
    assert inputs[..i] == inputs;
  }
}
