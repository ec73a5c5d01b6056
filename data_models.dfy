/**
 * Request model of the add-job endpoint
 * (meme_search/image_to_text_generator/app/data_models.py): a job names an
 * image core, an image path and a model; the model must be one of the
 * available models and defaults to the default model.
 */
module DataModels {
  import opened Wrappers
  import opened Constants

  datatype JobModel = JobModel(imageCoreId: int, imagePath: string, model: string)

  /** The message raised for a model outside the list: "model must be one of [...]". */
  function ModelError(): string
  {
    "model must be one of " + PyListRepr(AvailableModels)
  }

  /** `JobModel.validate_option`: None passes; any other value must be an available model. */
  function ValidateOption(value: Option<string>): (r: Result<Option<string>, string>)
    ensures r.Success? <==> value.None? || value.value in AvailableModels
    ensures r.Success? ==> r.value == value
    ensures r.Failure? ==> r.error == ModelError()
  {
    if value.Some? && value.value !in AvailableModels then Failure(ModelError()) else Success(value)
  }

  /**
   * Building a JobModel from a request body. An omitted model takes the
   * default without running the validator (a pydantic default is not
   * validated); a given model goes through `ValidateOption`.
   */
  function ParseJob(imageCoreId: int, imagePath: string, model: Option<string>): (r: Result<JobModel, string>)
    ensures model.None? ==> r == Success(JobModel(imageCoreId, imagePath, DefaultModel))
    ensures model.Some? ==> (r.Success? <==> model.value in AvailableModels)
    ensures r.Success? ==> r.value.model in AvailableModels
    ensures r.Success? ==> r.value.imageCoreId == imageCoreId && r.value.imagePath == imagePath
  {
    match model
    case None => Success(JobModel(imageCoreId, imagePath, DefaultModel))
    case Some(m) =>
      match ValidateOption(Some(m))
      case Success(_) => Success(JobModel(imageCoreId, imagePath, m))
      case Failure(e) => Failure(e)
  }

  /** Python's `str()` of a list of strings: `['a', 'b']`. */
  function PyListRepr(xs: seq<string>): string
  {
    "[" + JoinQuoted(xs) + "]"
  }

  function JoinQuoted(xs: seq<string>): string
    decreases |xs|
  {
    if xs == [] then ""
    else if |xs| == 1 then "'" + xs[0] + "'"
    else "'" + xs[0] + "', " + JoinQuoted(xs[1..])
  }

  /** The add-job test's rejected name, and every listed name accepted unchanged. */
  lemma ValidateExamples()
    ensures ValidateOption(Some("invalid-model-name")).Failure?
    ensures forall m :: m in AvailableModels ==> ValidateOption(Some(m)) == Success(Some(m))
  {
  }
}
