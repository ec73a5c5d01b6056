/**
 * The add-job and remove-job endpoints as their tests describe them
 * (meme_search/image_to_text_generator/tests/unit/test_api.py); the endpoint
 * module itself, app/app.py, is not part of this model. The HTTP layer is
 * left out: a request is its fields, a reply its JSON body or a 422.
 */
module Api {
  import opened Wrappers
  import opened JobQueue
  import opened Senders
  import opened DataModels

  datatype Reply = Ok(status: string) | Unprocessable(detail: string)

  const AddedReply := "Job added to queue"
  const RemovedReply := "Job removed from queue"

  /**
   * POST /add_job: an invalid model is rejected with 422 and touches
   * nothing; otherwise the job is queued last with retry_count 0 and status
   * 1 (queued) is reported for its image core.
   */
  method AddJob(store: JobStore, imageCoreId: int, imagePath: string, model: Option<string>, appUrl: string)
    returns (posts: seq<Post>, reply: Reply)
    requires store.Valid() && store.Ready()
    modifies store
    ensures store.Valid() && store.schema == old(store.schema)
    ensures ParseJob(imageCoreId, imagePath, model).Failure? ==>
      && reply == Unprocessable(ParseJob(imageCoreId, imagePath, model).error)
      && posts == [] && store.rows == old(store.rows) && store.nextId == old(store.nextId)
    ensures ParseJob(imageCoreId, imagePath, model).Success? ==>
      && reply == Ok(AddedReply)
      && posts == [StatusSender(imageCoreId, Queued, appUrl)]
      && store.rows == old(store.rows) + [Row(old(store.nextId), imageCoreId, imagePath,
                                              ParseJob(imageCoreId, imagePath, model).value.model, 0)]
      && store.nextId == old(store.nextId) + 1
  {
    var job := ParseJob(imageCoreId, imagePath, model);
    if job.Failure? {
      return [], Unprocessable(job.error);
    }
    var inserted := store.Insert(job.value.imageCoreId, Some(job.value.imagePath), Some(job.value.model));
    posts := [StatusSender(imageCoreId, Queued, appUrl)];
    reply := Ok(AddedReply);
  }

  /**
   * DELETE /remove_job/{image_core_id}: the same reply whether or not a job
   * was queued; status 0 (not started) is reported when one was removed,
   * status 3 (done) when there was none.
   */
  method RemoveJob(store: JobStore, imageCoreId: int, appUrl: string) returns (posts: seq<Post>, reply: Reply)
    requires store.Valid() && store.Ready()
    modifies store
    ensures store.Valid() && store.schema == old(store.schema) && store.nextId == old(store.nextId)
    ensures reply == Ok(RemovedReply)
    ensures store.rows == WithoutCore(old(store.rows), imageCoreId)
    ensures forall x :: x in store.rows ==> x.imageCoreId != imageCoreId
    ensures posts == [StatusSender(imageCoreId,
                                   if exists x :: x in old(store.rows) && x.imageCoreId == imageCoreId
                                   then NotStarted else Done, appUrl)]
  {
    var existed := store.RemoveByImageCoreId(imageCoreId);
    posts := [StatusSender(imageCoreId, if existed then NotStarted else Done, appUrl)];
    reply := Ok(RemovedReply);
  }
}
