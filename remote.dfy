/**
 * The remote shortening service as the components see it: the requests they send and the
 * replies they classify. Transport and JSON decoding are abstracted: the caller supplies the
 * reply, already decoded, or a failure carrying the message of the error that was thrown.
 */
module Remote {
  import opened Wrappers
  import opened Records

  /** The base address used when the build configures none (or an empty one). */
  const DefaultBase := "http://localhost:8080"

  /** The path segment of the display-only redirect link. */
  const RedirectPath := "/shorten/r/"

  datatype Verb = Post | Delete | Put | Get

  /** An HTTP request: verb, absolute address, and the `url` field of the JSON body when there is one. */
  datatype Request = Request(verb: Verb, target: string, bodyUrl: Option<string>)

  /**
   * What a remote call produced: a response with its status and its decoded body, or `Failed`
   * when the request itself or the decoding of the body threw, with that error's message.
   */
  datatype Reply<T> = Failed(message: string) | Received(status: int, data: T)

  /** The Fetch Standard's `ok`: a status in the range 200 to 299. */
  predicate IsOk(status: int): (ok: bool)
    ensures ok <==> status / 100 == 2
  {
    200 <= status <= 299
  }

  /** The service base: the configured address, unless it is missing or empty. */
  function ApiBase(configured: Option<string>): (base: string)
    ensures base != ""
    ensures configured.Some? && configured.value != "" ==> base == configured.value
    ensures configured == None || configured == Some("") ==> base == DefaultBase
  {
    match configured
    case Some(address) => if address != "" then address else DefaultBase
    case None => DefaultBase
  }

  /** The address of one record: the base, `/shorten/`, then the code. */
  function RecordAddress(base: string, code: string): (a: string)
    ensures |a| == |base| + |"/shorten/"| + |code|
    ensures a[..|base|] == base
    ensures a[|base|..|base| + |"/shorten/"|] == "/shorten/"
    ensures a[|a| - |code|..] == code
  {
    base + "/shorten/" + code
  }

  /** `shorten`: a POST to the collection address, carrying the URL. */
  function CreateRequest(base: string, url: string): (r: Request)
    ensures r.verb == Post && r.bodyUrl == Some(url)
    ensures |r.target| >= |base| && r.target[..|base|] == base && r.target[|base|..] == "/shorten"
  {
    Request(Post, base + "/shorten", Some(url))
  }

  /** The panel's delete: a DELETE without a body to the record's address. */
  function DeleteRequest(base: string, code: string): (r: Request)
    ensures r.verb == Delete && r.bodyUrl == None
    ensures r.target == RecordAddress(base, code)
  {
    Request(Delete, RecordAddress(base, code), None)
  }

  /** The panel's update: a PUT to the record's address, carrying the new URL. */
  function UpdateRequest(base: string, code: string, url: string): (r: Request)
    ensures r.verb == Put && r.bodyUrl == Some(url)
    ensures r.target == RecordAddress(base, code)
  {
    Request(Put, RecordAddress(base, code), Some(url))
  }

  /** The panel's stats call: a GET without a body to the record's address followed by `/stats`. */
  function StatsRequest(base: string, code: string): (r: Request)
    ensures r.verb == Get && r.bodyUrl == None
    ensures r.target == RecordAddress(base, code) + "/stats"
  {
    Request(Get, RecordAddress(base, code) + "/stats", None)
  }

  /**
   * Delete, update and stats address one record each: for one base, the same target means the
   * same code; delete and update share the target and differ in verb.
   */
  lemma RequestsAddressOneRecord(base: string, c1: string, c2: string, url: string)
    ensures DeleteRequest(base, c1).target == DeleteRequest(base, c2).target ==> c1 == c2
    ensures StatsRequest(base, c1).target == StatsRequest(base, c2).target ==> c1 == c2
    ensures DeleteRequest(base, c1).target == UpdateRequest(base, c1, url).target
    ensures DeleteRequest(base, c1) != UpdateRequest(base, c1, url)
  {
    var s1, s2 := StatsRequest(base, c1).target, StatsRequest(base, c2).target;
    if s1 == s2 {
      assert s1[..|s1| - 6] == RecordAddress(base, c1);
      assert s2[..|s2| - 6] == RecordAddress(base, c2);
    }
  }

  /** The short link shown for a record: the base, the redirect path, then the code. */
  function ShortLink(base: string, code: string): (link: string)
    ensures |link| == |base| + |RedirectPath| + |code|
    ensures link[..|base|] == base
    ensures link[|base|..|base| + |RedirectPath|] == RedirectPath
    ensures link[|link| - |code|..] == code
  {
    base + RedirectPath + code
  }

  /** For one base, different codes give different short links. */
  lemma ShortLinkInjective(base: string, c1: string, c2: string)
    requires ShortLink(base, c1) == ShortLink(base, c2)
    ensures c1 == c2
  {
    var prefix := |base| + |RedirectPath|;
    assert c1 == ShortLink(base, c1)[prefix..];
    assert c2 == ShortLink(base, c2)[prefix..];
  }

  /** The call succeeded with a decoded body and an ok status. */
  predicate Accepted<T>(reply: Reply<T>)
  {
    reply.Received? && IsOk(reply.status)
  }

  /** Message of the error `shorten` throws on a non-ok status. */
  const NotOkMessage := "Network response was not ok"

  /** Message of the error `del` throws on a non-ok status. */
  const DeleteFailedMessage := "Delete failed"

  /** `useApi.shorten`: the created record on an ok status; otherwise the error it throws. */
  function Shorten(reply: Reply<LinkRecord>): (r: Result<LinkRecord, string>)
    ensures r.Success? <==> Accepted(reply)
    ensures r.Success? ==> r.value == reply.data
    ensures reply.Received? && !IsOk(reply.status) ==> r == Failure(NotOkMessage)
    ensures reply.Failed? ==> r == Failure(reply.message)
  {
    match reply
    case Failed(message) => Failure(message)
    case Received(status, data) => if IsOk(status) then Success(data) else Failure(NotOkMessage)
  }

  /**
   * `useApi.del`: `true` on 204, `true` on any other ok status, and the error it throws otherwise.
   * The 204 test is thus subsumed by the ok test: it succeeds exactly on the ok statuses.
   */
  function Del(reply: Reply<()>): (r: Result<bool, string>)
    ensures r.Success? <==> Accepted(reply)
    ensures r.Success? ==> r.value
    ensures reply.Received? && !IsOk(reply.status) ==> r == Failure(DeleteFailedMessage)
    ensures reply.Failed? ==> r == Failure(reply.message)
  {
    match reply
    case Failed(message) => Failure(message)
    case Received(status, _) =>
      if status == 204 then Success(true)
      else if !IsOk(status) then Failure(DeleteFailedMessage)
      else Success(true)
  }
}
