/**
 * Notification composition (meme_search/image_to_text_generator/app/senders.py).
 * A sender is modelled by the POST it makes: the URL, the `data` payload and
 * the timeout. The receiver's answer only decides which log line is written;
 * whatever it is (any status code, or a transport exception), the sender
 * returns normally, so the posts a caller emits never depend on it.
 */
module Senders {
  import opened Wrappers
  import opened Constants

  const StatusEndpoint := "status_receiver"
  const DescriptionEndpoint := "description_receiver"
  const TimeoutSeconds: nat := 30
  const ErrorPrefix := "Error: "

  /** Status codes of an image core. */
  const NotStarted := 0
  const Queued := 1
  const InProgress := 2
  const Done := 3
  const Failed := 5

  /** The `data` object of a post: status details or job output. */
  datatype Details =
    | StatusDetails(imageCoreId: int, status: int)
    | DescriptionDetails(imageCoreId: int, description: string)

  datatype Post = Post(url: string, data: Details, timeout: nat)

  /** `status_sender`: one post of the status details to APP_URL + "status_receiver". */
  function StatusSender(imageCoreId: int, status: int, appUrl: string): (p: Post)
    ensures EndsWith(p.url, StatusEndpoint) && p.timeout == TimeoutSeconds
    ensures |p.url| == |appUrl| + |StatusEndpoint| && p.url[..|appUrl|] == appUrl
    ensures p.data.StatusDetails? && p.data.imageCoreId == imageCoreId && p.data.status == status
  {
    ConcatEndsWith(appUrl, StatusEndpoint);
    Post(appUrl + StatusEndpoint, StatusDetails(imageCoreId, status), TimeoutSeconds)
  }

  /** `description_sender`: one post of the job output to APP_URL + "description_receiver". */
  function DescriptionSender(imageCoreId: int, description: string, appUrl: string): (p: Post)
    ensures EndsWith(p.url, DescriptionEndpoint) && p.timeout == TimeoutSeconds
    ensures |p.url| == |appUrl| + |DescriptionEndpoint| && p.url[..|appUrl|] == appUrl
    ensures p.data.DescriptionDetails? && p.data.imageCoreId == imageCoreId && p.data.description == description
  {
    ConcatEndsWith(appUrl, DescriptionEndpoint);
    Post(appUrl + DescriptionEndpoint, DescriptionDetails(imageCoreId, description), TimeoutSeconds)
  }

  /**
   * `failure_sender`: status 5 through `status_sender`, then the message,
   * prefixed with "Error: ", posted to the description endpoint.
   */
  function FailureSender(imageCoreId: int, message: string, appUrl: string): (posts: seq<Post>)
    ensures |posts| == 2
    ensures StatusCount(posts, Failed) == 1 && |Descriptions(posts)| == 1
    ensures FailureMessage(posts) == Some(message)
    ensures posts[0] == StatusSender(imageCoreId, Failed, appUrl)
    ensures posts[1].data == DescriptionDetails(imageCoreId, ErrorPrefix + message)
    ensures posts[1].url == appUrl + DescriptionEndpoint && posts[1].timeout == TimeoutSeconds
  {
    var posts := [StatusSender(imageCoreId, Failed, appUrl),
                  DescriptionSender(imageCoreId, ErrorPrefix + message, appUrl)];
    assert posts[1..][1..] == [];
    assert Descriptions(posts[1..]) == [ErrorPrefix + message];
    assert StatusCount(posts[1..], Failed) == 0;
    assert (ErrorPrefix + message)[|ErrorPrefix|..] == message;
    posts
  }

  /** With the configured base URL, the senders post to ".../image_cores/status_receiver" and ".../image_cores/description_receiver". */
  lemma CallbackUrls(env: Env, imageCoreId: int, status: int, description: string)
    ensures StatusSender(imageCoreId, status, AppUrl(env)).url == AppUrl(env) + StatusEndpoint
    ensures DescriptionSender(imageCoreId, description, AppUrl(env)).url == AppUrl(env) + DescriptionEndpoint
    ensures EndsWith(StatusSender(imageCoreId, status, AppUrl(env)).url, CallbackPath + StatusEndpoint)
    ensures EndsWith(DescriptionSender(imageCoreId, description, AppUrl(env)).url, CallbackPath + DescriptionEndpoint)
  {
    var g := GenUrl(env);
    assert g + CallbackPath + StatusEndpoint == g + (CallbackPath + StatusEndpoint);
    assert g + CallbackPath + DescriptionEndpoint == g + (CallbackPath + DescriptionEndpoint);
    ConcatEndsWith(g, CallbackPath + StatusEndpoint);
    ConcatEndsWith(g, CallbackPath + DescriptionEndpoint);
  }

  /** How many posts carry the given status. */
  function StatusCount(posts: seq<Post>, status: int): nat
    decreases |posts|
  {
    if posts == [] then 0
    else (if posts[0].data == StatusDetails(posts[0].data.imageCoreId, status) then 1 else 0)
         + StatusCount(posts[1..], status)
  }

  /** The description texts posted, in order. */
  function Descriptions(posts: seq<Post>): seq<string>
    decreases |posts|
  {
    if posts == [] then []
    else (if posts[0].data.DescriptionDetails? then [posts[0].data.description] else [])
         + Descriptions(posts[1..])
  }

  /**
   * Reads a failure pair back: status 5 followed by an "Error: " description
   * for the same image core gives the message; anything else gives None.
   */
  function FailureMessage(posts: seq<Post>): Option<string>
  {
    if |posts| == 2 && posts[0].data.StatusDetails? && posts[0].data.status == Failed
       && posts[1].data.DescriptionDetails?
       && posts[1].data.imageCoreId == posts[0].data.imageCoreId
       && |ErrorPrefix| <= |posts[1].data.description|
       && posts[1].data.description[..|ErrorPrefix|] == ErrorPrefix
    then Some(posts[1].data.description[|ErrorPrefix|..])
    else None
  }

  /** The failure pair is exactly what its reader accepts, with the same URL base. */
  lemma FailureRoundTrip(posts: seq<Post>, imageCoreId: int, message: string, appUrl: string)
    requires FailureMessage(posts) == Some(message)
    requires posts[0].data.imageCoreId == imageCoreId
    requires posts[0].url == appUrl + StatusEndpoint && posts[1].url == appUrl + DescriptionEndpoint
    requires posts[0].timeout == TimeoutSeconds && posts[1].timeout == TimeoutSeconds
    ensures posts == FailureSender(imageCoreId, message, appUrl)
  {
    var d := posts[1].data.description;
    assert d == d[..|ErrorPrefix|] + d[|ErrorPrefix|..];
  }

  lemma {:induction false} StatusCountAppend(a: seq<Post>, b: seq<Post>, status: int)
    ensures StatusCount(a + b, status) == StatusCount(a, status) + StatusCount(b, status)
    decreases |a|
  {
    if a == [] {
      assert a + b == b;
    } else {
      assert (a + b)[1..] == a[1..] + b;
      StatusCountAppend(a[1..], b, status);
    }
  }

  lemma {:induction false} DescriptionsAppend(a: seq<Post>, b: seq<Post>)
    ensures Descriptions(a + b) == Descriptions(a) + Descriptions(b)
    decreases |a|
  {
    if a == [] {
      assert a + b == b;
    } else {
      assert (a + b)[1..] == a[1..] + b;
      DescriptionsAppend(a[1..], b);
    }
  }

  /** What the receiver answered: a status code, or a transport exception. */
  datatype Response = Answered(code: int) | TransportError(reason: string)

  /** The log line a sender writes; it is the only thing the answer decides. */
  datatype LogLine = Delivered | Undelivered(code: int) | Errored(reason: string)

  /** `status_sender` counts any 2xx code as delivered. */
  function StatusLog(r: Response): (l: LogLine)
    ensures l.Delivered? <==> r.Answered? && 200 <= r.code < 300
    ensures l.Errored? <==> r.TransportError?
  {
    match r
    case Answered(c) => if 200 <= c < 300 then Delivered else Undelivered(c)
    case TransportError(e) => Errored(e)
  }

  /** `description_sender` and the second half of `failure_sender` count only 200 as delivered. */
  function DescriptionLog(r: Response): (l: LogLine)
    ensures l.Delivered? <==> r == Answered(200)
    ensures l.Errored? <==> r.TransportError?
  {
    match r
    case Answered(c) => if c == 200 then Delivered else Undelivered(c)
    case TransportError(e) => Errored(e)
  }

  /** The description test is the stricter one: 201 and 299 are delivered statuses but not descriptions. */
  lemma DeliveryTests()
    ensures forall r :: DescriptionLog(r).Delivered? ==> StatusLog(r).Delivered?
    ensures StatusLog(Answered(201)).Delivered? && StatusLog(Answered(299)).Delivered?
    ensures !StatusLog(Answered(400)).Delivered? && !StatusLog(Answered(500)).Delivered?
    ensures !DescriptionLog(Answered(201)).Delivered?
  {
  }
}
