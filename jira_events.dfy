/// JiraEvents: what a webhook from the tracker is about, who caused it, and the payload the
/// application receives for it.
module JiraEvents {
  import opened Base
  import opened Strings
  import opened JsonValues
  import TimeUtils
  import TextConverter
  import opened Fields
  import opened IssueValues
  import opened IssueConversion

  /** The user reported for events the tracker raises by itself. */
  const SystemUser: string := "__system_user__"

  /** detectUser: the name of the webhook's user, or the system user when there is none. A
      user that is not an object fails (string() on null). */
  function DetectUser(body: Json): (r: Result<Option<string>>)
    ensures body != JNull && !Has(body, "user") ==> r == Ok(Some(SystemUser))
    ensures Has(body, "user") && Nested(body, "user") != JNull ==> r == Ok(StrOf(Nested(body, "user"), "name"))
    ensures r.Err? <==> body == JNull || (Has(body, "user") && Nested(body, "user") == JNull)
  {
    var b :- Receiver(body);
    if Has(b, "user") then
      var user :- Receiver(Nested(b, "user"));
      Ok(StrOf(user, "name"))
    else Ok(Some(SystemUser))
  }

  /** The kinds of event the endpoint tells apart. */
  datatype EventKind = IssueCreated | IssueUpdated | CommentCreated | IssueDeleted | VersionReleased | Unknown
  {
    /** The name detectEvent returns for the kind. */
    function Name(): string
    {
      match this
      case IssueCreated => "issue-created"
      case IssueUpdated => "issue-updated"
      case CommentCreated => "comment-created"
      case IssueDeleted => "issue-deleted"
      case VersionReleased => "version-released"
      case Unknown => "unknown"
    }
  }

  /** No two kinds share a name, so switching on the name is switching on the kind. */
  lemma NamesDistinct(a: EventKind, b: EventKind)
    ensures a.Name() == b.Name() ==> a == b
  {
  }

  /** detectEvent: the kind of a webhook by its webhookEvent; an issue update carrying a comment
      is a new comment. A missing webhookEvent fails (a switch on null). */
  function DetectEvent(body: Json): (r: Result<EventKind>)
    ensures r.Err? <==> StrOf(body, "webhookEvent").None?
  {
    var b :- Receiver(body);
    match StrOf(b, "webhookEvent")
    case None => Err(NullDeref)
    case Some(e) =>
      Ok(if e == "jira:issue_created" then IssueCreated
         else if e == "jira:issue_updated" then (if Has(b, "comment") then CommentCreated else IssueUpdated)
         else if e == "jira:issue_deleted" then IssueDeleted
         else if e == "jira:version_released" then VersionReleased
         else Unknown)
  }

  /** The webhook events the endpoint recognises. */
  const KnownEvents: set<string> := {"jira:issue_created", "jira:issue_updated", "jira:issue_deleted", "jira:version_released"}

  /** The classification table: each recognised webhookEvent gives its kind, an update is a new
      comment exactly when the body has a comment, and everything else is unknown. */
  lemma DetectEventTable(body: Json, e: string)
    requires StrOf(body, "webhookEvent") == Some(e)
    ensures DetectEvent(body).Ok?
    ensures DetectEvent(body).value == IssueCreated <==> e == "jira:issue_created"
    ensures DetectEvent(body).value == CommentCreated <==> e == "jira:issue_updated" && Has(body, "comment")
    ensures DetectEvent(body).value == IssueUpdated <==> e == "jira:issue_updated" && !Has(body, "comment")
    ensures DetectEvent(body).value == IssueDeleted <==> e == "jira:issue_deleted"
    ensures DetectEvent(body).value == VersionReleased <==> e == "jira:version_released"
    ensures DetectEvent(body).value == Unknown <==> e !in KnownEvents
  {
  }

  // ---------------------------------------------------------------------------------------
  // modifiedFields of an issue update

  /** One changelog entry: its field name, a custom field's id replaced by the cached display
      name (null when the cache does not know it). */
  function Entry(settled: CacheState, field: string): Json
  {
    if StartsWith(field, "customfield_") then OfString(NameOf(Lookup(settled.byId, field))) else JStr(field)
  }

  /** The entries of the changelog items; an item without a field name fails (startsWith on null). */
  function ModifiedNames(settled: CacheState, items: seq<Json>): (r: Result<seq<Json>>)
    ensures r.Ok? <==> forall i :: 0 <= i < |items| ==> StrOf(items[i], "field").Some?
    ensures r.Ok? ==>
      |r.value| == |items| &&
      forall i :: 0 <= i < |items| ==> r.value[i] == Entry(settled, StrOf(items[i], "field").value)
  {
    if forall i :: 0 <= i < |items| ==> StrOf(items[i], "field").Some? then
      Ok(seq(|items|, i requires 0 <= i < |items| && StrOf(items[i], "field").Some? =>
        Entry(settled, StrOf(items[i], "field").value)))
    else Err(NullDeref)
  }

  /** modifiedFields: the changelog's entries, or none when there is no changelog or it lists no
      items. A changelog that is not an object, or items that are not a list, fail. */
  function ModifiedFields(settled: CacheState, body: Json): Result<seq<Json>>
  {
    if Has(body, "changelog") then
      var changelog :- Receiver(Nested(body, "changelog"));
      if Has(changelog, "items") then
        var items :- ItemsOrFail(changelog, "items");
        ModifiedNames(settled, items)
      else Ok([])
    else Ok([])
  }

  /** modifiedFields follows changelog.items one to one and in order: field names are kept,
      custom field ids become their display names. */
  lemma ModifiedFieldsOrder(settled: CacheState, body: Json, items: seq<Json>)
    requires Get(Nested(body, "changelog"), "items") == JList(items)
    requires ModifiedFields(settled, body).Ok?
    ensures var names := ModifiedFields(settled, body).value;
      |names| == |items| &&
      forall i :: 0 <= i < |items| ==>
        StrOf(items[i], "field").Some? &&
        var field := StrOf(items[i], "field").value;
        (!StartsWith(field, "customfield_") ==> names[i] == JStr(field)) &&
        (StartsWith(field, "customfield_") ==> names[i] == OfString(NameOf(Lookup(settled.byId, field))))
  {
    assert Has(body, "changelog") && Has(Nested(body, "changelog"), "items");
  }

  /** Without a changelog, or without items in it, modifiedFields is empty. */
  lemma ModifiedFieldsAbsent(settled: CacheState, body: Json)
    requires !Has(body, "changelog") || (Nested(body, "changelog") != JNull && !Has(Nested(body, "changelog"), "items"))
    ensures ModifiedFields(settled, body) == Ok([])
  {
  }

  /** A changelog naming a custom field the cache does not know reports null for it. */
  lemma UnknownCustomFieldIsNull(settled: CacheState, field: string)
    requires StartsWith(field, "customfield_") && field !in settled.byId
    ensures Entry(settled, field) == JNull
  {
  }

  /** Json set(key, v) on a map. */
  function WithKey(j: Json, key: string, v: Json): Json
  {
    if j.JMap? then JMap(j.fields[key := v]) else j
  }

  /** What convertUpdatedIssue may return: the converted issue with its modifiedFields. */
  ghost predicate UpdatedIssueOf(settled: CacheState, markup: TextConverter.Markup, body: Json, r: Result<Json>)
  {
    exists issue ::
      IssueResultOf(settled, markup, Nested(body, "issue"), issue) &&
      r == (match issue
            case Err(e) => Err(e)
            case Ok(v) =>
              var names :- ModifiedFields(settled, body);
              Ok(WithKey(v, "modifiedFields", JList(names))))
  }

  // ---------------------------------------------------------------------------------------
  // Comments and versions

  /** convertCreatedComment: the converted comment, with the key of its issue. */
  function ConvertCreatedComment(markup: TextConverter.Markup, body: Json): (r: Result<Json>)
    ensures r.Ok? <==> CommentToApp(markup, Nested(body, "comment")).Ok? && Nested(body, "issue") != JNull
  {
    var comment :- CommentToApp(markup, Nested(body, "comment"));
    var issue :- Receiver(Nested(body, "issue"));
    Ok(WithKey(comment, "issueKey", Str(issue, "key")))
  }

  /** The comment event is the converted comment plus issueKey; nothing of the comment changes. */
  lemma CreatedCommentAddsKey(markup: TextConverter.Markup, body: Json)
    requires ConvertCreatedComment(markup, body).Ok?
    ensures var comment := CommentToApp(markup, Nested(body, "comment")).value;
      var event := ConvertCreatedComment(markup, body).value;
      comment.JMap? && event.JMap? && "issueKey" !in comment.fields &&
      event.fields == comment.fields["issueKey" := Str(Nested(body, "issue"), "key")]
  {
    assert "issueKey" !in CommentKeys;
  }

  /** convertReleasedVersion, with the project lookup (an HTTP call) given as findProject:
      id from the body, name and description from the version, the release date re-emitted,
      and the key of the version's project. */
  function ConvertReleasedVersion(body: Json, findProject: Option<string> -> Json): (r: Result<Json>)
    ensures r.Ok? ==> r.value.JMap? && r.value.fields.Keys == {"id", "name", "description", "releaseDate", "project"}
  {
    var b :- Receiver(body);
    var version :- Receiver(Nested(b, "version"));
    var releaseDate :- TimeUtils.ParseVersionDate(StrOf(version, "userReleaseDate"));
    var project :- Receiver(findProject(StrOf(version, "projectId")));
    Ok(JMap(map["id" := Str(b, "id"), "name" := Str(version, "name"), "description" := Str(version, "description"),
                "releaseDate" := OfString(releaseDate), "project" := Str(project, "key")]))
  }

  /** Where each field of a released version comes from; a malformed release date fails the
      conversion. */
  lemma ReleasedVersionSources(body: Json, findProject: Option<string> -> Json)
    requires body != JNull && Nested(body, "version") != JNull
    ensures var version := Nested(body, "version");
      var date := TimeUtils.ParseVersionDate(StrOf(version, "userReleaseDate"));
      var project := findProject(StrOf(version, "projectId"));
      var r := ConvertReleasedVersion(body, findProject);
      (date.Err? ==> r == Err(ParseFailure)) &&
      (date.Ok? && project == JNull ==> r == Err(NullDeref)) &&
      (r.Ok? ==>
         r.value.fields["id"] == Str(body, "id") && r.value.fields["name"] == Str(version, "name") &&
         r.value.fields["description"] == Str(version, "description") &&
         r.value.fields["releaseDate"] == OfString(date.value) && r.value.fields["project"] == Str(project, "key"))
  {
  }

  /** The webhook conversions that go through the issue converter and its field cache. */
  class Events {
    const converter: IssueConverter

    constructor (converter: IssueConverter)
      ensures this.converter == converter
    {
      this.converter := converter;
    }

    /** convertCreatedIssue: the webhook's issue, converted. */
    method ConvertCreatedIssue(body: Json) returns (r: Result<Json>)
      requires converter.cache.Valid()
      modifies converter.cache
      ensures converter.cache.Valid() && converter.cache.Settled() == old(converter.cache.Settled())
      ensures IssueResultOf(old(converter.cache.Settled()), converter.markup, Nested(body, "issue"), r)
    {
      r := converter.FromJiraToApp(Nested(body, "issue"));
    }

    /** convertDeletedIssue: the webhook's issue, converted. */
    method ConvertDeletedIssue(body: Json) returns (r: Result<Json>)
      requires converter.cache.Valid()
      modifies converter.cache
      ensures converter.cache.Valid() && converter.cache.Settled() == old(converter.cache.Settled())
      ensures IssueResultOf(old(converter.cache.Settled()), converter.markup, Nested(body, "issue"), r)
    {
      r := converter.FromJiraToApp(Nested(body, "issue"));
    }

    /** convertUpdatedIssue: the converted issue with the names of the changed fields, read
        one changelog item at a time. */
    method ConvertUpdatedIssue(body: Json) returns (r: Result<Json>)
      requires converter.cache.Valid()
      modifies converter.cache
      ensures converter.cache.Valid() && converter.cache.Settled() == old(converter.cache.Settled())
      ensures UpdatedIssueOf(old(converter.cache.Settled()), converter.markup, body, r)
    {
      var issue := converter.FromJiraToApp(Nested(body, "issue"));
      if issue.Err? {
        return Err(issue.error);
      }
      var names := ChangedFieldNames(body);
      if names.Err? {
        return Err(names.error);
      }
      return Ok(WithKey(issue.value, "modifiedFields", JList(names.value)));
    }

    /** The changelog loop of convertUpdatedIssue: each item's field name, a custom field's id
        looked up in the cache. */
    method ChangedFieldNames(body: Json) returns (r: Result<seq<Json>>)
      requires converter.cache.Valid()
      modifies converter.cache
      ensures converter.cache.Valid() && converter.cache.Settled() == old(converter.cache.Settled())
      ensures r == ModifiedFields(old(converter.cache.Settled()), body)
    {
      ghost var settled := converter.cache.Settled();
      var names: seq<Json> := [];
      if Has(body, "changelog") {
        var changelog := Receiver(Nested(body, "changelog"));
        if changelog.Err? {
          return Err(changelog.error);
        }
        if Has(changelog.value, "items") {
          var items := ItemsOrFail(changelog.value, "items");
          if items.Err? {
            return Err(items.error);
          }
          for i := 0 to |items.value|
            invariant converter.cache.Valid() && converter.cache.Settled() == settled
            invariant |names| == i
            invariant forall j :: 0 <= j < i ==>
              StrOf(items.value[j], "field").Some? && names[j] == Entry(settled, StrOf(items.value[j], "field").value)
          {
            var field := StrOf(items.value[i], "field");
            if field.None? {
              return Err(NullDeref);
            }
            var name := JStr(field.value);
            if StartsWith(field.value, "customfield_") {
              var display := converter.cache.GetCustomFieldName(field.value);
              name := OfString(display);
            }
            names := names + [name];
          }
          ghost var expected := ModifiedNames(settled, items.value);
          assert expected.Ok? && |expected.value| == |names|;
          forall j | 0 <= j < |names| ensures expected.value[j] == names[j] {
          }
          assert expected.value == names;
        }
      }
      return Ok(names);
    }
  }
}
