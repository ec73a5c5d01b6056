# Image-captioning job queue of meme-search, in Dafny

This project models the component of meme-search that turns queued images
into text descriptions.

- **The job store.** A SQLite `jobs` table whose ids autoincrement. Each row
  holds an image core id, an image path, a model name and a retry count. It
  is modelled as the class `JobQueue.JobStore`. Its row sequence is kept in
  id order, next to the next id AUTOINCREMENT hands out and to the schema.
- **The worker loop (`process_jobs`).** Each pass takes the oldest row and
  reports status 2 to the Rails application. It then runs the extraction and
  ends in one of three ways:
  - completes: description, status 3, delete;
  - fails: status 5 and an "Error: ..." description, then delete;
  - schedules a retry: the retry count goes up, and after three attempts the
    job fails with "Max retries (3) exceeded. Last error: ...".

  One pass is the method `Worker.Cycle`, proved equal to the function
  `Worker.CycleSpec`. The loop is `Worker.ProcessJobs`, proved equal to
  `Worker.Run`, the sequence of cycle results.
- **The extraction (`image_to_text`).** First validation, in order: the file
  exists, its size is at most 10 MiB, it is a valid image. Then the model
  download and the model's output. The validation failures and the model's
  own custom errors are PermanentError or TransientError, and every other
  download or extraction failure becomes TransientError. An OSError from the
  size probe (`os.path.getsize`) is not caught and escapes as it is. The
  file system and the model are inputs.
- **The notifications.** `status_sender`, `description_sender` and
  `failure_sender`, each modelled as the POSTs it makes. The receiver's
  answer only picks a log line.
- **The smaller pieces.** The request model with its model-name validator,
  the constants and URL composition, and the add-job and remove-job
  endpoints as their tests describe them.
- **The earlier Rails prototype server.** A JSON file holding a FIFO list:
  `enqueue_job` appends, and the worker thread pops the head. It is modelled
  as the class `RailsQueue.FileQueue`.

Inputs the worker cannot see are parameters of each cycle:

- the file probes, the download outcome and the model outcome (`Oracles`);
- the store statements that raise in this cycle (`faults`);
- whether another request deleted the job's row during the extraction
  (`rowVanished`).

Sleeping is not performed. A cycle returns the sleep it would take, where
`None` means it loops again at once.

Two behaviours of the code are worth stating on their own:

- **Store errors after a successful extraction.** A DELETE that raises
  after a successful extraction reaches the catch-all handler
  (jobs.py:126-139) and counts as a failed attempt, although the
  description and status 3 were already posted. See
  `Worker.StoreErrorCountsAgainstRetries` and `Worker.CountCanReachMax`.
  A read-back of the count that raises after the committed increment
  (jobs.py:46-49) escapes to the loop's handler with the raised count kept
  and no failure posted. See `Worker.ReadBackKeepsRaisedCount`.
- **A row removed during a failed extraction.** `increment_retry_count`
  then reads back 0 (jobs.py:50), and the index `min(0 - 1, 2)` resolves to
  `RETRY_DELAYS[-1]`, so the worker waits 20 seconds (jobs.py:119-120). See
  `Worker.VanishedRowCycle`.

## Model

| member | source | states |
|---|---|---|
| Errors.RetryDelay | meme_search/image_to_text_generator/app/jobs.py:119-120 | the Python lookup `RETRY_DELAYS[min(n-1, len-1)]` never fails for a count read back from the store; the n-th failure waits the n-th delay, capped at the last; the count 0 resolves index -1 to the last delay |
| Errors.ClassifyRetry | meme_search/image_to_text_generator/app/jobs.py:113-120 | the worker gives up exactly when the new count reaches MAX_RETRY_ATTEMPTS; otherwise it retries after a delay taken from the table |
| Errors.DefaultSchedule | meme_search/image_to_text_generator/app/errors.py:30-33 | with the shipped constants the counts 1, 2 and 3 and beyond map to 5, 10 and 20 seconds, and a vanished row maps to 20 |
| Errors.RetryDelaysShape | meme_search/image_to_text_generator/app/errors.py:32-33 | the delay table is non-empty, each delay doubles the previous one, and the table is strictly increasing |
| Errors.RetriedIndices | meme_search/image_to_text_generator/app/errors.py:30-33 | for a row that still exists, the retried counts 1 .. MAX-1 reach only delay indices 0 and 1 |
| Errors.Constants | meme_search/image_to_text_generator/app/errors.py:26-30 | the size limit is 10485760 bytes and the retry limit is 3 |
| Constants.EnvGet | meme_search_pro/image_to_text_generator/app/constants.py:5-7 | an environment lookup gives the variable's value when it is set and the default otherwise |
| Constants.AppUrl | meme_search_pro/image_to_text_generator/app/constants.py:8 | the callback base URL always ends in "/image_cores/" |
| Constants.DefaultUrls | meme_search_pro/image_to_text_generator/app/constants.py:5-8 | with neither variable set, the port is "3000", GEN_URL is "http://127.0.0.1:3000", and the callbacks go to "http://127.0.0.1:3000/image_cores/" |
| Constants.GenUrlOverridesPort | meme_search_pro/image_to_text_generator/app/constants.py:7-8 | a set GEN_URL decides the callback URL, whatever APP_PORT is |
| Constants.PortDecidesUrl | meme_search_pro/image_to_text_generator/app/constants.py:5-8 | with GEN_URL unset, the callbacks go to "http://127.0.0.1:" + APP_PORT + "/image_cores/", and to port 3000 when APP_PORT is unset too |
| Constants.ModelList | meme_search_pro/image_to_text_generator/app/constants.py:12-13 | the model list has six distinct names with "test" first, and the default "Florence-2-base" is among them |
| DataModels.ValidateOption | meme_search/image_to_text_generator/app/data_models.py:11-16 | a value is accepted iff it is None or an available model; an accepted value comes back unchanged; a rejected one fails with the "model must be one of [...]" message |
| DataModels.ParseJob | meme_search/image_to_text_generator/app/data_models.py:6-16 | an omitted model takes the default without validation; a given model is accepted iff it is available; an accepted job keeps its image core id and path and always names an available model |
| DataModels.ValidateExamples | meme_search/image_to_text_generator/tests/unit/test_api.py:122-132 | "invalid-model-name" is rejected, and every listed model is accepted unchanged |
| ImageToTextGenerator.ValidateImage | meme_search/image_to_text_generator/app/image_to_text_generator.py:9-33 | the checks run in order: a missing file is a PermanentError naming the path; then an OSError from the size probe escapes as itself; then a file over the limit is the "Image file too large" PermanentError whatever its contents; then an unidentified image is "Invalid or corrupt image file: <path>" and any other read failure "Cannot read image file: <path> - <reason>"; validation passes iff the file exists, its size is at most the limit and it verifies as an image |
| ImageToTextGenerator.DownloadModel | meme_search/image_to_text_generator/app/image_to_text_generator.py:36-45 | any failure to select or download the model becomes the TransientError "Model download failed: ..." |
| ImageToTextGenerator.ImageToText | meme_search/image_to_text_generator/app/image_to_text_generator.py:48-82 | a validation error escapes unchanged and with no pause; success requires validation, download and a text output, and returns that text; the "test" model pauses exactly once for 5 s, after the download and only then |
| ImageToTextGenerator.Classification | meme_search/image_to_text_generator/app/image_to_text_generator.py:48-82 | the outcome is Permanent iff validation rejected the file or the model raised a PermanentError; a non-custom error escapes only from the size probe; a download failure, a MemoryError and any other extraction error are Transient; a PermanentError or TransientError raised by the model is re-raised unchanged, message included |
| ImageToTextGenerator.Classify | meme_search/image_to_text_generator/app/image_to_text_generator.py:70-82 | the handlers around extract succeed iff the model returned text, return that text, re-raise the model's PermanentError and TransientError with their messages, turn a MemoryError into the TransientError "Out of memory processing image: <e>" and any other error into "Image processing failed: <e>", and never let a non-custom error through |
| ImageToTextGenerator.MissingFileFirst | meme_search/image_to_text_generator/app/image_to_text_generator.py:16-17 | a missing file gives "Image file not found: <path>" whatever the size, format, download and model outcomes |
| ImageToTextGenerator.SizeBoundary | meme_search/image_to_text_generator/app/image_to_text_generator.py:20-24 | exactly MAX_IMAGE_SIZE_BYTES passes, and one byte more is a PermanentError |
| ImageToTextGenerator.TextUnchanged | meme_search/image_to_text_generator/tests/unit/test_image_to_text_generator.py:152-179 | an empty description and a whitespace-padded description are returned unchanged |
| Senders.StatusSender | meme_search/image_to_text_generator/app/senders.py:17-19 | status_sender makes one post of the image core's status details to exactly APP_URL + "status_receiver" (the given base URL as prefix, the endpoint as the rest), with the 30 s timeout |
| Senders.DescriptionSender | meme_search/image_to_text_generator/app/senders.py:5-7 | description_sender makes one post of the image core's description to exactly APP_URL + "description_receiver" (the given base URL as prefix, the endpoint as the rest), with the 30 s timeout |
| Senders.CallbackUrls | meme_search_pro/image_to_text_generator/app/constants.py:8 | with the configured base URL, status posts go to AppUrl + "status_receiver" and description posts to AppUrl + "description_receiver", so the URLs end in "/image_cores/status_receiver" and "/image_cores/description_receiver" |
| Senders.FailureSender | meme_search/image_to_text_generator/app/senders.py:29-49 | a failure notification is exactly two posts: first status_sender's post of status 5 for the image core to APP_URL + "status_receiver", then the "Error: " + message description for the same core to APP_URL + "description_receiver" with the 30 s timeout; reading the pair back gives the message |
| Senders.FailureRoundTrip | meme_search/image_to_text_generator/app/senders.py:35-42 | any pair of posts whose reading gives a message, sent to the two endpoints of a base URL with the 30 s timeout, is exactly what failure_sender posts for that message |
| Senders.StatusLog | meme_search/image_to_text_generator/app/senders.py:17-26 | status_sender logs a delivery iff the code is 2xx, and logs an error iff the transport raised; it never raises |
| Senders.DescriptionLog | meme_search/image_to_text_generator/app/senders.py:5-14 | description_sender logs a delivery iff the code is exactly 200, and logs an error iff the transport raised; it never raises |
| Senders.DeliveryTests | meme_search/image_to_text_generator/tests/unit/test_senders.py:101-193 | 201 and 299 are delivered statuses, 400 and 500 are not, and 201 is not a delivered description; every delivered description code is also a delivered status code |
| JobQueue.InitSchema | meme_search/image_to_text_generator/app/job_queue.py:5-28 | after init_db the jobs table exists and carries retry_count, no other table is touched, and an initialised schema is left as it is |
| JobQueue.InitIdempotent | meme_search_pro/image_to_text_generator/tests/unit/test_job_queue.py:81-94 | a second init_db changes nothing |
| JobQueue.InitCases | meme_search/image_to_text_generator/app/job_queue.py:20-25 | a fresh file gets the full five-column table, and a table from before retries gets retry_count appended |
| JobQueue.Head | meme_search/image_to_text_generator/app/jobs.py:66-67 | the fetch finds a row iff the table is not empty, the row it finds is in the table, and on a table in id order it has the smallest id (`ORDER BY id LIMIT 1`) |
| JobQueue.Without | meme_search/image_to_text_generator/app/jobs.py:102 | deleting by id keeps exactly the rows with other ids, in id order |
| JobQueue.WithoutCore | meme_search/image_to_text_generator/tests/unit/test_api.py:247-278 | deleting by image core keeps exactly the rows of other image cores, in id order |
| JobQueue.Bump | meme_search/image_to_text_generator/app/jobs.py:46 | the UPDATE raises by one the count of the row with that id, position by position, and leaves every other row as it was |
| JobQueue.Lookup | meme_search/image_to_text_generator/app/jobs.py:48-49 | the lookup finds a row with that id when there is one, and finds none iff no row has the id |
| JobQueue.LookupUnique | meme_search/image_to_text_generator/app/job_queue.py:12 | ids are a primary key, so looking up a row's id finds that row |
| JobQueue.BumpCount | meme_search/image_to_text_generator/app/jobs.py:44-50 | increment_retry_count reads back the old count plus one, or 0 with nothing changed when no row has the id |
| JobQueue.BumpKeepsIds | meme_search/image_to_text_generator/app/jobs.py:46 | the increment changes no id, so the id order survives it |
| JobQueue.WithoutHead | meme_search/image_to_text_generator/app/jobs.py:102 | deleting the oldest row leaves the other rows in order |
| JobQueue.WithoutAbsent | meme_search/image_to_text_generator/app/jobs.py:39 | deleting an id that no row has changes nothing |
| JobQueue.BumpHead | meme_search/image_to_text_generator/app/jobs.py:46 | raising the oldest row's count changes only that row |
| JobQueue.WithoutFollows | meme_search/image_to_text_generator/app/jobs.py:39 | a delete leaves only jobs that were queued, none with a lower count |
| JobQueue.BumpFollows | meme_search/image_to_text_generator/app/jobs.py:46 | an increment leaves the same jobs, none with a lower count |
| JobQueue.FollowsHead | meme_search/image_to_text_generator/app/jobs.py:66 | a table left by deletes and increments never starts with a job older than the original head, so the queue is first in, first out |
| JobQueue.JobStore.constructor | meme_search/image_to_text_generator/app/job_queue.py:5-6 | a new database file has no tables and no rows, and its next id is 1 |
| JobQueue.JobStore.InitDb | meme_search/image_to_text_generator/app/job_queue.py:5-28 | init_db applies the schema change of InitSchema and leaves the rows and the id counter alone |
| JobQueue.JobStore.Insert | meme_search/image_to_text_generator/app/job_queue.py:11-17 | a missing image_path or model is rejected as a NOT NULL violation and changes nothing; otherwise the row is appended last with the next id and retry_count 0 |
| JobQueue.JobStore.Oldest | meme_search/image_to_text_generator/app/jobs.py:66-67 | the fetch gives None iff the table is empty, and otherwise the row with the smallest id |
| JobQueue.JobStore.CheckQueue | meme_search/image_to_text_generator/app/job_queue.py:32-37 | queue_length is the number of rows |
| JobQueue.JobStore.DeleteById | meme_search/image_to_text_generator/app/jobs.py:39-40 | the table becomes the rows with other ids |
| JobQueue.JobStore.IncrementRetryCount | meme_search/image_to_text_generator/app/jobs.py:44-50 | the row's count goes up by one and the new count is returned; 0 is returned when the row is gone |
| JobQueue.JobStore.RemoveByImageCoreId | meme_search/image_to_text_generator/tests/unit/test_api.py:247-318 | every row of the image core is deleted, and the result says whether there was one |
| Api.AddJob | meme_search/image_to_text_generator/tests/unit/test_api.py:59-132 | an invalid model gives a 422 and touches nothing; otherwise the job is queued last with retry_count 0, status 1 is posted for its image core, and the reply is "Job added to queue" |
| Api.RemoveJob | meme_search/image_to_text_generator/tests/unit/test_api.py:247-318 | no row of the image core remains; status 0 is posted if one existed and status 3 if not; the reply is the same either way |
| Worker.JobPath | meme_search/image_to_text_generator/app/jobs.py:76 | the image path is used as given iff the database path contains "tests"; otherwise it is placed under /app/public/memes/ |
| Worker.TestsAnywhere | meme_search/image_to_text_generator/app/jobs.py:76 | any database path with "tests" anywhere in it, whatever surrounds it, uses the image path as given |
| Worker.LoopSleep | meme_search/image_to_text_generator/app/jobs.py:151-152 | the loop goes on without sleeping iff it had a job and the chosen sleep is at most 5 s; otherwise it sleeps exactly the chosen time |
| Worker.FailJob | meme_search/image_to_text_generator/app/jobs.py:31-41 | handle_job_failure posts the failure pair and deletes the row; a DELETE that raises keeps the row and sends the loop to its handler, which sleeps 5 s (jobs.py:154) |
| Worker.RetryJob | meme_search/image_to_text_generator/app/jobs.py:109-139 | a retry handler only appends to the posts, and anything it appends is the "Max retries" failure pair; a raising UPDATE changes nothing and idles 5 s; a raising read-back keeps the committed increment and idles 5 s |
| Worker.HandleJobFailure | meme_search/image_to_text_generator/app/jobs.py:31-41 | on the store: the failure pair is posted, and the row is deleted unless the DELETE raised |
| Worker.CycleSpec | meme_search/image_to_text_generator/app/jobs.py:53-163 | the result of one pass of the loop from the rows before it; what it promises is stated by the cycle lemmas below (StoreUnavailable, EmptyQueue, TakesJob, SuccessCycle, PermanentCycle, TransientCycle, CycleInvariants) |
| Worker.Settle | meme_search/image_to_text_generator/app/jobs.py:87-139 | the handling of an extraction outcome: success, permanent failure or retry; its properties are SettleInvariants and SettleBudget |
| Worker.Extract | meme_search/image_to_text_generator/app/jobs.py:13-28 | proccess_job runs image_to_text on the job's path and model; its properties are those of ImageToTextGenerator.ImageToText |
| Worker.Cycle | meme_search/image_to_text_generator/app/jobs.py:53-163 | one pass of the loop on the store yields the posts, the sleep and the new rows that CycleSpec gives for the rows before it |
| Worker.SettleJob | meme_search/image_to_text_generator/app/jobs.py:87-139 | completing, failing or retrying the job on the store agrees with Settle |
| Worker.ScheduleRetry | meme_search/image_to_text_generator/app/jobs.py:109-139 | the retry handlers on the store agree with RetryJob |
| Worker.PathExamples | meme_search/image_to_text_generator/tests/unit/test_jobs.py:402-453 | a database path containing "tests" uses the image path as given; otherwise the path is put under /app/public/memes/ |
| Worker.StoreUnavailable | meme_search/image_to_text_generator/app/jobs.py:154-163 | when the store cannot be opened or read, the cycle posts nothing, leaves the table alone and sleeps 5 s, and the loop goes on |
| Worker.EmptyQueue | meme_search/image_to_text_generator/app/jobs.py:141-152 | on an empty queue the cycle posts nothing and sleeps 5 s |
| Worker.SelectsOldest | meme_search/image_to_text_generator/app/jobs.py:66-82 | the job taken has the smallest id, and its status 2 is the first post of the cycle |
| Worker.SuccessCycle | meme_search/image_to_text_generator/app/jobs.py:87-103 | a success posts status 2, then the description, then status 3; the row is deleted and the loop goes on without sleeping |
| Worker.PermanentCycle | meme_search/image_to_text_generator/app/jobs.py:105-107 | a permanent error posts status 2 and then the failure pair carrying the error text, with exactly one status 5; the row is deleted whatever its count |
| Worker.TransientCycle | meme_search/image_to_text_generator/app/jobs.py:109-139 | a retryable error raises the count by one; at the limit the job fails with the "Max retries" message and is deleted; below it the row stays at the head and nothing fails, and the loop sleeps the retry delay only if it exceeds 5 s |
| Worker.RetriedJobTakenNext | meme_search/image_to_text_generator/app/jobs.py:66 | after a job is kept for retry and later jobs are added, the table is still in id order, its head is the kept row with its raised count, and the next cycle handles that row's extraction |
| Worker.MaxRetriesText | meme_search/image_to_text_generator/app/jobs.py:115 | the give-up message is "Max retries (3) exceeded. Last error: " followed by the last error's text |
| Worker.SecondAndThirdFailures | meme_search/image_to_text_generator/app/jobs.py:111-124 | a job failing again keeps its row with count 2 and sleeps 10 s, then at count 3 is failed and deleted |
| Worker.RetrySchedule | meme_search/image_to_text_generator/app/jobs.py:113-120 | after the first attempt the loop does not sleep, after the second it sleeps 10 s, and the third attempt gives up |
| Worker.KeptForRetry | meme_search/image_to_text_generator/app/jobs.py:117-124 | a failure below the limit keeps the job at the head with its count raised and the table still in id order |
| Worker.GivenUp | meme_search/image_to_text_generator/app/jobs.py:113-116 | the failure that reaches the limit posts the "Max retries" failure and deletes the row |
| Worker.VanishedRowCycle | meme_search/image_to_text_generator/app/jobs.py:44-50 | a row removed during a failed extraction reads back count 0, and the loop sleeps the last retry delay |
| Worker.StoreErrorCountsAgainstRetries | meme_search/image_to_text_generator/app/jobs.py:126-139 | a DELETE that raises after a success counts as a failed attempt, although status 3 and the description were posted; the row stays queued |
| Worker.CountCanReachMax | meme_search/image_to_text_generator/app/jobs.py:128-132 | a job can end a cycle still queued with count 3, after its failure was posted, when the DELETE of handle_job_failure raises |
| Worker.MissingImageCycle | meme_search/image_to_text_generator/tests/test_app.py:148-198 | a missing image posts status 2 and then the "Image file not found" failure, and removes the job |
| Worker.CycleInvariants | meme_search/image_to_text_generator/app/jobs.py:53-163 | after any cycle the table holds only jobs it held before, with counts that did not drop, still in id order; the loop sleeps only 5 s or a longer retry delay; it skips the sleep only after taking a job |
| Worker.TakesJob | meme_search/image_to_text_generator/app/jobs.py:66-89 | a cycle that fetched a row is the handling of that row's extraction outcome |
| Worker.SettleInvariants | meme_search/image_to_text_generator/app/jobs.py:87-139 | completing, failing or retrying a job keeps only queued jobs, with counts that did not drop, in id order, and sleeps only an allowed time |
| Worker.FailInvariants | meme_search/image_to_text_generator/app/jobs.py:31-41 | failing a job keeps only queued jobs, in id order, and sleeps only an allowed time |
| Worker.RetryInvariants | meme_search/image_to_text_generator/app/jobs.py:109-139 | retrying a job keeps only queued jobs, with counts that did not drop, in id order, and sleeps only an allowed time |
| Worker.RetryBudgetKept | meme_search/image_to_text_generator/app/jobs.py:113-116 | when neither a DELETE nor the count's read-back raises, no queued job ever holds a count of MAX_RETRY_ATTEMPTS or more |
| Worker.SettleBudget | meme_search/image_to_text_generator/app/jobs.py:87-139 | the handlers keep every queued count below the limit when neither a DELETE nor the read-back raises |
| Worker.RetryBudget | meme_search/image_to_text_generator/app/jobs.py:109-139 | the retry handlers keep every queued count below the limit when neither a DELETE nor the read-back raises |
| Worker.ReadBackKeepsRaisedCount | meme_search/image_to_text_generator/app/jobs.py:44-50 | a read-back that raises after the committed increment leaves the row queued with its raised count, posts only status 2, and idles 5 s; at the last attempt this leaves a queued count of MAX_RETRY_ATTEMPTS |
| Worker.Run | meme_search/image_to_text_generator/app/jobs.py:55 | the loop over a sequence of cycle inputs yields one cycle result per input |
| Worker.RunFollows | meme_search/image_to_text_generator/app/jobs.py:55-163 | along the whole loop, the table stays in id order and holds only jobs it started with |
| Worker.ProcessJobs | meme_search/image_to_text_generator/app/jobs.py:53-163 | the worker loop on the store yields Run's results, and leaves the table the last cycle left |
| RailsQueue.FileQueue.constructor | rails/image_to_text_server/app.py:16-18 | the queue is the list already in the file, or empty when there is no file |
| RailsQueue.FileQueue.Enqueue | rails/image_to_text_server/app.py:45-55 | the job is appended last, the other jobs are unchanged, and the reply is "Job added to queue" |
| RailsQueue.FileQueue.WorkStep | rails/image_to_text_server/app.py:24-43 | on a non-empty queue, the first job is taken, the rest stay in order, and the pause is 2 s; on an empty queue nothing changes and the pause is 5 s |
| RailsQueue.FileQueue.Serve | rails/image_to_text_server/app.py:24-55 | a sequence of requests and worker passes processes and leaves exactly what Replay gives |
| RailsQueue.ReplayFifo | rails/image_to_text_server/app.py:24-55 | the processed jobs followed by those left are the initial list followed by the enqueued jobs: the queue is first in, first out, and no job is lost or duplicated |
| RailsQueue.Drain | rails/image_to_text_server/app.py:24-39 | one worker pass per queued job processes all of them, in list order, and empties the file |

## Left out

- HTTP is left out. `requests.post` is modelled by the post it makes, and the receiver's answer only chooses a log line. The FastAPI/uvicorn endpoint layer is not modelled.
- app/app.py (the add, remove and queue-length endpoints) is not part of this model. `Api.AddJob` and `Api.RemoveJob` follow the behaviour that tests/unit/test_api.py checks.
- JobQueue.JobStore.RemoveByImageCoreId and Api.RemoveJob delete every row of the image core. The tests only ever remove a single row, so the case of several rows is an assumption about app/app.py.
- A store fault holds for its statement for the whole cycle. When a DELETE raises after a success and the catch-all then gives up at count 3, the second DELETE, in handle_job_failure, raises too. A lock that clears within the cycle is not expressed, so `Worker.CountCanReachMax` shows only the case where both DELETEs raise.
- The JobStore methods other than InitDb require `Ready()`, the schema that init_db creates. Calling them before init_db raises "no such table: jobs" in SQLite, and that error path is not modelled for them. The worker's own cycle does model it, through the `!store.Ready()` branch of `Worker.Cycle`.
- The commits are not separate fault points. In the model, a raising commit is treated as its statement raising, with no effect. SQLite can behave otherwise: after a DELETE whose commit raises "database is locked", the transaction stays open, and a later successful commit of the retry UPDATE also commits the pending DELETE. That path is not modelled. Only the read-back after the retry UPDATE is a fault point after a commit.
- SQLite plumbing is left out: connections, cursors, commit and close. Each committed statement is one method of `JobStore`. The 64-bit bound on ids is not modelled.
- The database file is modelled as always reachable at the configured path. A connect or fetch failure is a per-cycle fault input.
- The threading lock and the worker thread are left out. Each cycle is one atomic step, and `time.sleep` becomes the returned sleep. A concurrent removal is visible only as the `rowVanished` input.
- The unlocked read-modify-write race on the Rails prototype's JSON file is left out, because it is concurrency. Each request and each worker pass is one atomic step.
- The JSON file and its encoding are left out. The list inside the file is the `jobs` field, and a first write of `[]` is an empty `jobs`.
- Model loading and inference are left out, because model_init.py is not part of this model. Whether the file exists, its size, whether it verifies, and the download and extract outcomes are oracle inputs.
- ImageToTextGenerator.ValidateImage: the too-large message omits its MB figures, because they are float formatting. The too-large case is still a PermanentError, with the text "Image file too large".
- `str(e)` of an exception is its text, and `Raised.message` stands for it.
- Logging is left out, except as the delivered / undelivered / errored choice of each sender.
- Worker.Run: its own contract states only the number of results. What a run does is stated by `Worker.RunFollows`, by `Worker.ProcessJobs`, and by the one-cycle lemmas.
- Worker.RetryJob: its own contract says only that posts are appended and what may be appended. The exact posts, sleep and rows for each case are stated by `Worker.TransientCycle`, `Worker.KeptForRetry`, `Worker.GivenUp` and `Worker.VanishedRowCycle`.
- A scenario of three or more failing cycles in one run equation is not stated. The successive failures of one job are chained through `Worker.KeptForRetry` and `Worker.SecondAndThirdFailures`.
- The benchmark script test_quantized_moondream.py, the model classes behind test_model_init.py, and the meme_search_pro sender variant are not part of this model.
- Pydantic's coercion of request fields is left out. A request is its typed fields, with the model optional.
