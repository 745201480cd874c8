/// JiraEndpoint: the webhook entry point. An event the tracker posts is dropped when the
/// endpoint's own user caused it, classified, converted and sent to the application under
/// the event name of its kind; the tracker is always answered {status: "ok"} unless the
/// conversion fails.
module Endpoint {
  import opened Base
  import opened JsonValues
  import TextConverter
  import opened Fields
  import opened IssueConversion
  import opened JiraEvents

  /** One event sent to the application. */
  datatype Sent = Sent(name: string, payload: Json)

  /** The answer to the tracker. */
  const StatusOk: Json := JMap(map["status" := JStr("ok")])

  /** The application event each kind is sent as; unknown events are not sent. */
  function Topic(kind: EventKind): (r: Option<string>)
    ensures r.None? <==> kind == Unknown
  {
    match kind
    case IssueCreated => Some("issueCreated")
    case IssueUpdated => Some("issueUpdated")
    case IssueDeleted => Some("issueDeleted")
    case CommentCreated => Some("commentCreated")
    case VersionReleased => Some("versionReleased")
    case Unknown => None
  }

  /** Different kinds are sent under different names. */
  lemma TopicsDistinct(a: EventKind, b: EventKind)
    requires Topic(a).Some? && Topic(a) == Topic(b)
    ensures a == b
  {
  }

  /** A conversion whose failure propagates: on success the event is sent and the tracker is
      answered ok. */
  predicate Delivered(topic: string, event: Result<Json>, r: Result<Json>, out: seq<Sent>)
  {
    match event
    case Err(e) => r == Err(e) && out == []
    case Ok(v) => r == Ok(StatusOk) && out == [Sent(topic, v)]
  }

  /** What one webhook of the given kind leads to: the response and the events sent. A failing
      release conversion is swallowed: nothing is sent and the answer is still ok. */
  ghost predicate Handled(settled: CacheState, markup: TextConverter.Markup, findProject: Option<string> -> Json,
                          kind: EventKind, request: Json, r: Result<Json>, out: seq<Sent>)
  {
    match kind
    case Unknown => r == Ok(StatusOk) && out == []
    case VersionReleased =>
      r == Ok(StatusOk) &&
      out == (match ConvertReleasedVersion(request, findProject)
              case Ok(v) => [Sent(Topic(kind).value, v)]
              case Err(_) => [])
    case CommentCreated => Delivered(Topic(kind).value, ConvertCreatedComment(markup, request), r, out)
    case IssueUpdated =>
      exists event :: UpdatedIssueOf(settled, markup, request, event) && Delivered(Topic(kind).value, event, r, out)
    case _ =>
      exists event :: IssueResultOf(settled, markup, Nested(request, "issue"), event) &&
        Delivered(Topic(kind).value, event, r, out)
  }

  /** jiraWebhooks: the response and the events sent for a request, when the endpoint's user
      is username. Events the endpoint's own user caused are dropped. */
  ghost predicate WebhookOf(settled: CacheState, markup: TextConverter.Markup, findProject: Option<string> -> Json,
                            username: string, request: Json, r: Result<Json>, out: seq<Sent>)
  {
    match DetectUser(request)
    case Err(e) => r == Err(e) && out == []
    case Ok(user) =>
      if user == Some(username) then r == Ok(StatusOk) && out == []
      else match DetectEvent(request)
        case Err(e) => r == Err(e) && out == []
        case Ok(kind) => Handled(settled, markup, findProject, kind, request, r, out)
  }

  /** At most one event is sent per webhook, under the name of the webhook's kind, and every
      answer that is not a failure is {status: "ok"}. */
  lemma OneEventAtMost(settled: CacheState, markup: TextConverter.Markup, findProject: Option<string> -> Json,
                       username: string, request: Json, r: Result<Json>, out: seq<Sent>)
    requires WebhookOf(settled, markup, findProject, username, request, r, out)
    ensures |out| <= 1
    ensures r.Ok? ==> r.value == StatusOk
    ensures |out| == 1 ==>
      DetectUser(request).Ok? && DetectUser(request).value != Some(username) && DetectEvent(request).Ok? &&
      Topic(DetectEvent(request).value) == Some(out[0].name)
  {
    if DetectUser(request).Ok? && DetectUser(request).value != Some(username) && DetectEvent(request).Ok? {
      HandledShape(settled, markup, findProject, DetectEvent(request).value, request, r, out);
    }
  }

  /** Only the release of a version swallows a failed conversion: for every other kind the
      endpoint's answer is ok exactly when the event was sent. */
  lemma OnlyReleasesSwallowFailures(settled: CacheState, markup: TextConverter.Markup, findProject: Option<string> -> Json,
                                    username: string, request: Json, r: Result<Json>, out: seq<Sent>)
    requires WebhookOf(settled, markup, findProject, username, request, r, out)
    requires DetectUser(request).Ok? && DetectUser(request).value != Some(username)
    requires DetectEvent(request).Ok? && DetectEvent(request).value !in {Unknown, VersionReleased}
    ensures r.Ok? <==> |out| == 1
  {
    HandledShape(settled, markup, findProject, DetectEvent(request).value, request, r, out);
  }

  /** What handling one kind of event can lead to. */
  lemma HandledShape(settled: CacheState, markup: TextConverter.Markup, findProject: Option<string> -> Json,
                     kind: EventKind, request: Json, r: Result<Json>, out: seq<Sent>)
    requires Handled(settled, markup, findProject, kind, request, r, out)
    ensures |out| <= 1 && (r.Ok? ==> r.value == StatusOk)
    ensures |out| == 1 ==> Topic(kind) == Some(out[0].name)
    ensures kind != Unknown && kind != VersionReleased ==> (r.Ok? <==> |out| == 1)
  {
    if kind == IssueUpdated {
      var event :| UpdatedIssueOf(settled, markup, request, event) && Delivered(Topic(kind).value, event, r, out);
    } else if kind == IssueCreated || kind == IssueDeleted {
      var event :| IssueResultOf(settled, markup, Nested(request, "issue"), event) &&
        Delivered(Topic(kind).value, event, r, out);
    }
  }

  /** The endpoint, configured with its own user name and the project lookup of the REST
      client; sent is every event sent to the application so far. */
  class JiraEndpoint {
    const username: string
    const events: Events
    const findProject: Option<string> -> Json
    var sent: seq<Sent>

    constructor (username: string, events: Events, findProject: Option<string> -> Json)
      ensures this.username == username && this.events == events && this.findProject == findProject
      ensures sent == []
    {
      this.username := username;
      this.events := events;
      this.findProject := findProject;
      sent := [];
    }

    /** events().send(name, payload). */
    method Send(name: string, payload: Json)
      modifies this
      ensures sent == old(sent) + [Sent(name, payload)]
    {
      sent := sent + [Sent(name, payload)];
    }

    /** jiraWebhooks: handles one webhook; only appends to the events sent. */
    method JiraWebhooks(request: Json) returns (r: Result<Json>)
      requires events.converter.cache.Valid()
      modifies this, events.converter.cache
      ensures events.converter.cache.Valid() && events.converter.cache.Settled() == old(events.converter.cache.Settled())
      ensures |old(sent)| <= |sent| && sent[..|old(sent)|] == old(sent)
      ensures WebhookOf(old(events.converter.cache.Settled()), events.converter.markup, findProject, username,
                        request, r, sent[|old(sent)|..])
    {
      var user := DetectUser(request);
      if user.Err? {
        return Err(user.error);
      }
      if user.value == Some(username) {
        return Ok(StatusOk);
      }
      var kind := DetectEvent(request);
      if kind.Err? {
        return Err(kind.error);
      }
      r := Dispatch(kind.value, request);
    }

    /** The routing of jiraWebhooks: the event of the given kind is converted and sent. */
    method Dispatch(kind: EventKind, request: Json) returns (r: Result<Json>)
      requires events.converter.cache.Valid()
      modifies this, events.converter.cache
      ensures events.converter.cache.Valid() && events.converter.cache.Settled() == old(events.converter.cache.Settled())
      ensures |old(sent)| <= |sent| && sent[..|old(sent)|] == old(sent)
      ensures Handled(old(events.converter.cache.Settled()), events.converter.markup, findProject,
                      kind, request, r, sent[|old(sent)|..])
    {
      match kind {
        case IssueCreated =>
          var event := events.ConvertCreatedIssue(request);
          r := Deliver("issueCreated", event);
        case IssueUpdated =>
          var event := events.ConvertUpdatedIssue(request);
          r := Deliver("issueUpdated", event);
        case IssueDeleted =>
          var event := events.ConvertDeletedIssue(request);
          r := Deliver("issueDeleted", event);
        case CommentCreated =>
          var event := ConvertCreatedComment(events.converter.markup, request);
          r := Deliver("commentCreated", event);
        case VersionReleased =>
          var event := ConvertReleasedVersion(request, findProject);
          if event.Ok? {
            Send("versionReleased", event.value);
          }
          r := Ok(StatusOk);
        case Unknown =>
          r := Ok(StatusOk);
      }
    }

    /** A converted event is sent and answered ok; a failed conversion is the answer. */
    method Deliver(topic: string, event: Result<Json>) returns (r: Result<Json>)
      modifies this
      ensures |old(sent)| <= |sent| && sent[..|old(sent)|] == old(sent)
      ensures Delivered(topic, event, r, sent[|old(sent)|..])
    {
      if event.Err? {
        return Err(event.error);
      }
      Send(topic, event.value);
      assert sent[|old(sent)|..] == [Sent(topic, event.value)];
      r := Ok(StatusOk);
    }
  }
}
