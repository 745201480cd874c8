/// IssueValues: the per-value half of IssueConverter — the type dispatch that converts one
/// field value in each direction, the enum, issue reference and link projections, and the
/// comment, work log and attachment conversions.
module IssueValues {
  import opened Base
  import opened Strings
  import opened JsonValues
  import TimeUtils
  import TextConverter

  /** The cast (Json) value: null and Json objects pass, any other value fails. */
  function AsJson(v: Json): (r: Result<Json>)
    ensures r.Ok? <==> v == JNull || IsJsonObject(v)
    ensures r.Ok? ==> r.value == v
  {
    if v == JNull || IsJsonObject(v) then Ok(v) else Err(ClassCast)
  }

  /** A method called on a value: fails on null. */
  function Receiver(v: Json): (r: Result<Json>)
    ensures r.Ok? <==> v != JNull
    ensures r.Ok? ==> r.value == v
  {
    if v == JNull then Err(NullDeref) else Ok(v)
  }

  /** string(key) as a nullable Java String. */
  function StrOf(j: Json, key: string): Option<string>
  {
    AsString(Str(j, key))
  }

  /** The field types passed through unchanged in both directions. */
  const PlainTypes: set<string> := {"string", "number", "date"}

  /** The field types sent to the tracker as {name: value}. */
  const NamedTypes: set<string> := {"user", "version", "component", "priority", "resolution", "issuetype", "status"}

  /** The field types read back as a bare enum. */
  const EnumTypes: set<string> := {"component", "priority", "resolution", "issuetype", "status"}

  const UserExtras: seq<string> := ["key", "emailAddress", "displayName", "active"]
  const VersionExtras: seq<string> := ["archived", "released", "releaseDate"]
  const ProjectExtras: seq<string> := ["key"]

  /** The keys convertEnum writes. */
  function EnumKeys(j: Json, extras: seq<string>): set<string>
  {
    {"name"} + (if Has(j, "id") then {"id"} else {}) + (set f | f in extras)
  }

  /** convertEnum, stated declaratively: id when present, the name, and each extra field
      copied as it is (a later write of the same key wins, so an extra wins over id and name). */
  function EnumFields(j: Json, extras: seq<string>): map<string, Json>
  {
    map k | k in EnumKeys(j, extras) ::
      if k in extras then Get(j, k) else if k == "name" then Str(j, "name") else Str(j, "id")
  }

  function EnumValue(j: Json, extras: seq<string>): Json
  {
    if j == JNull then JNull else JMap(EnumFields(j, extras))
  }

  lemma EnumFieldsStart(j: Json)
    ensures EnumFields(j, []) == (if Has(j, "id") then map["id" := Str(j, "id")] else map[])["name" := Str(j, "name")]
  {
  }

  lemma EnumFieldsStep(j: Json, extras: seq<string>, x: string)
    ensures EnumFields(j, extras + [x]) == EnumFields(j, extras)[x := Get(j, x)]
  {
    assert EnumKeys(j, extras + [x]) == EnumKeys(j, extras) + {x};
  }

  /** convertEnum: the map built key by key. */
  method ConvertEnum(json: Json, extras: seq<string>) returns (r: Json)
    ensures r == EnumValue(json, extras)
  {
    if json == JNull {
      return JNull;
    }
    var fields: map<string, Json> := map[];
    if Has(json, "id") {
      fields := fields["id" := Str(json, "id")];
    }
    fields := fields["name" := Str(json, "name")];
    EnumFieldsStart(json);
    for i := 0 to |extras|
      invariant fields == EnumFields(json, extras[..i])
    {
      assert extras[..i + 1] == extras[..i] + [extras[i]];
      EnumFieldsStep(json, extras[..i], extras[i]);
      fields := fields[extras[i] := Get(json, extras[i])];
    }
    assert extras[..|extras|] == extras;
    r := JMap(fields);
  }

  /** An enum carries id exactly when the source has one, always a name, and every extra field. */
  lemma EnumShape(j: Json, extras: seq<string>)
    requires j != JNull && "id" !in extras && "name" !in extras
    ensures EnumValue(j, extras).JMap?
    ensures var m := EnumValue(j, extras).fields;
      ("id" in m <==> Has(j, "id")) && ("id" in m ==> m["id"] == Str(j, "id")) &&
      "name" in m && m["name"] == Str(j, "name") &&
      (forall f :: f in extras ==> f in m && m[f] == Get(j, f)) &&
      (forall k :: k in m ==> k == "id" || k == "name" || k in extras)
  {
  }

  /** issueRef: id, key and the summary under fields; a reference without fields fails. */
  function IssueRef(j: Json): (r: Result<Json>)
    ensures j == JNull ==> r == Ok(JNull)
    ensures j != JNull ==> (r.Ok? <==> Nested(j, "fields") != JNull)
    ensures j != JNull && r.Ok? ==> r.value.JMap? && r.value.fields.Keys == {"id", "key", "summary"}
  {
    if j == JNull then Ok(JNull)
    else
      var fields :- Receiver(Nested(j, "fields"));
      Ok(JMap(map["id" := Str(j, "id"), "key" := Str(j, "key"), "summary" := Str(fields, "summary")]))
  }

  /** issueLink: the reference of the outward issue with the outward name of the link type
      when there is an outward issue, otherwise those of the inward issue. */
  function IssueLink(j: Json): (r: Result<Json>)
    ensures j == JNull ==> r == Ok(JNull)
  {
    if j == JNull then Ok(JNull)
    else
      var side := if Has(j, "outwardIssue") then "outward" else "inward";
      var ref :- IssueRef(Nested(j, side + "Issue"));
      var link :- Receiver(ref);
      var linkType :- Receiver(Nested(j, "type"));
      Ok(JMap(link.fields["relationship" := Str(linkType, side)]))
  }

  /** The relationship is the link type read from this issue's side, and the rest is the
      reference of the issue on the other end. */
  lemma LinkRelationship(j: Json)
    requires IssueLink(j).Ok? && j != JNull
    ensures var r := IssueLink(j).value;
      r.JMap? && "relationship" in r.fields &&
      (Has(j, "outwardIssue") ==>
         IssueRef(Nested(j, "outwardIssue")).Ok? && IssueRef(Nested(j, "outwardIssue")).value.JMap? &&
         r.fields["relationship"] == Str(Nested(j, "type"), "outward") &&
         r.fields - {"relationship"} == IssueRef(Nested(j, "outwardIssue")).value.fields) &&
      (!Has(j, "outwardIssue") ==>
         IssueRef(Nested(j, "inwardIssue")).Ok? && IssueRef(Nested(j, "inwardIssue")).value.JMap? &&
         r.fields["relationship"] == Str(Nested(j, "type"), "inward") &&
         r.fields - {"relationship"} == IssueRef(Nested(j, "inwardIssue")).value.fields)
  {
    var side := if Has(j, "outwardIssue") then "outward" else "inward";
    var ref := IssueRef(Nested(j, side + "Issue")).value;
    assert ref.fields.Keys == {"id", "key", "summary"};
    assert IssueLink(j).value.fields - {"relationship"} == ref.fields;
    if Has(j, "outwardIssue") {
      assert side + "Issue" == "outwardIssue";
    } else {
      assert side + "Issue" == "inwardIssue";
    }
  }

  /** convertFieldValueToApp: the dispatch on the field's type. A null type fails like the
      switch on it; a cast to String or Json of a value of another kind fails. */
  function ValueToApp(v: Json, t: Option<string>): Result<Json>
  {
    if v == JNull then Ok(JNull)
    else if t.None? then Err(NullDeref)
    else if t.value in PlainTypes then Ok(v)
    else if t.value == "datetime" then
      if v.JStr? then Ok(OfLong(TimeUtils.ParseJiraDate(Some(v.s)))) else Err(ClassCast)
    else if t.value == "user" then
      var o :- AsJson(v); Ok(EnumValue(o, UserExtras))
    else if t.value == "version" then
      var o :- AsJson(v); Ok(EnumValue(o, VersionExtras))
    else if t.value in EnumTypes then
      var o :- AsJson(v); Ok(EnumValue(o, []))
    else if t.value == "project" then
      var o :- AsJson(v); Ok(EnumValue(o, ProjectExtras))
    else if t.value == "issuelinks" then
      var o :- AsJson(v); IssueRef(o)
    else Ok(v)
  }

  /** convertFieldValueToJira: named types become {name: v}, a project {key: v}, a date-time
      (a Long) is formatted in the given zone offset, and the rest pass through. */
  function ValueToJira(v: Json, t: Option<string>, offset: int): Result<Json>
  {
    if v == JNull then Ok(JNull)
    else if t.None? then Err(NullDeref)
    else if t.value in PlainTypes then Ok(v)
    else if t.value == "datetime" then
      if v.JInt? then Ok(OfString(TimeUtils.FormatJiraDate(Some(v.i), offset))) else Err(ClassCast)
    else if t.value in NamedTypes then Ok(Single("name", v))
    else if t.value == "project" then Ok(Single("key", v))
    else Ok(v)
  }

  /** The types with no case of their own. */
  predicate OtherType(t: string)
  {
    t !in PlainTypes && t !in NamedTypes && t !in {"datetime", "project", "issuelinks"}
  }

  /** The dispatch table, direction by direction. */
  lemma ValueTable(v: Json, t: Option<string>, offset: int)
    ensures v == JNull ==> ValueToApp(v, t) == Ok(JNull) && ValueToJira(v, t, offset) == Ok(JNull)
    ensures v != JNull && t.None? ==> ValueToApp(v, t).Err? && ValueToJira(v, t, offset).Err?
    ensures v != JNull && t.Some? && (t.value in PlainTypes || OtherType(t.value)) ==>
      ValueToApp(v, t) == Ok(v) && ValueToJira(v, t, offset) == Ok(v)
    ensures v != JNull && t.Some? && t.value in NamedTypes ==> ValueToJira(v, t, offset) == Ok(JMap(map["name" := v]))
    ensures v != JNull && t == Some("project") ==> ValueToJira(v, t, offset) == Ok(JMap(map["key" := v]))
  {
  }

  /** A name sent to the tracker for a named type reads back as the enum with that name. */
  lemma NamedRoundTrip(name: string, t: string, offset: int)
    requires t in NamedTypes
    ensures var out := ValueToJira(JStr(name), Some(t), offset);
      out.Ok? && ValueToApp(out.value, Some(t)).Ok? &&
      Get(ValueToApp(out.value, Some(t)).value, "name") == JStr(name)
  {
    var out := Single("name", JStr(name));
    assert Str(out, "name") == JStr(name);
    if t == "user" {
      assert "name" !in UserExtras;
    } else if t == "version" {
      assert "name" !in VersionExtras;
    }
  }

  /** A date-time sent to the tracker reads back as the same instant. */
  lemma DateTimeRoundTrip(ms: int, offset: int)
    requires -1440 < offset < 1440 && 1 <= TimeUtils.FromMillis(ms, offset).year <= 9999
    ensures var out := ValueToJira(JInt(ms), Some("datetime"), offset);
      out.Ok? && ValueToApp(out.value, Some("datetime")) == Ok(JInt(ms))
  {
    TimeUtils.FormatParseRoundTrip(ms, offset);
    var text := TimeUtils.FormatJiraDate(Some(ms), offset).value;
    DateTimeCase(JInt(ms), offset);
    DateTimeCase(JStr(text), offset);
  }

  /** The date-time case of both directions: a Long is formatted, a text is parsed. */
  lemma DateTimeCase(v: Json, offset: int)
    requires v != JNull
    ensures ValueToJira(v, Some("datetime"), offset) ==
      if v.JInt? then Ok(OfString(TimeUtils.FormatJiraDate(Some(v.i), offset))) else Err(ClassCast)
    ensures ValueToApp(v, Some("datetime")) ==
      if v.JStr? then Ok(OfLong(TimeUtils.ParseJiraDate(Some(v.s)))) else Err(ClassCast)
  {
    assert "datetime" !in PlainTypes;
  }

  /** The conversions applied element-wise to a list. */
  datatype Conversion =
    | ToApp(t: Option<string>)
    | ToJira(t: Option<string>, offset: int)
    | Ref
    | Link
    | CommentIn(markup: TextConverter.Markup)
    | WorkLogIn(markup: TextConverter.Markup)
    | AttachmentIn

  function Apply(c: Conversion, v: Json): Result<Json>
  {
    match c
    case ToApp(t) => ValueToApp(v, t)
    case ToJira(t, offset) => ValueToJira(v, t, offset)
    case Ref => IssueRef(v)
    case Link => IssueLink(v)
    case CommentIn(markup) => CommentToApp(markup, v)
    case WorkLogIn(markup) => WorkLogToApp(markup, v)
    case AttachmentIn => AttachmentToApp(v)
  }

  /** A conversion applied to each element in order; the first failure is the result. */
  function ApplyAll(c: Conversion, xs: seq<Json>): (r: Result<seq<Json>>)
    ensures r.Ok? <==> forall i :: 0 <= i < |xs| ==> Apply(c, xs[i]).Ok?
    ensures r.Ok? ==> |r.value| == |xs| && forall i :: 0 <= i < |xs| ==> r.value[i] == Apply(c, xs[i]).value
  {
    if |xs| == 0 then Ok([])
    else
      var front :- ApplyAll(c, xs[..|xs| - 1]);
      var last :- Apply(c, xs[|xs| - 1]);
      Ok(front + [last])
  }

  /** A failure is the failure of the first element that fails. */
  lemma {:induction false} ApplyAllFirstError(c: Conversion, xs: seq<Json>) returns (i: nat)
    requires ApplyAll(c, xs).Err?
    ensures i < |xs| && Apply(c, xs[i]) == Err(ApplyAll(c, xs).error)
    ensures forall j :: 0 <= j < i ==> Apply(c, xs[j]).Ok?
  {
    var n := |xs| - 1;
    if ApplyAll(c, xs[..n]).Err? {
      i := ApplyAllFirstError(c, xs[..n]);
      assert xs[..n][i] == xs[i];
      forall j | 0 <= j < i ensures Apply(c, xs[j]).Ok? {
        assert xs[..n][j] == xs[j];
      }
    } else {
      i := n;
      forall j | 0 <= j < i ensures Apply(c, xs[j]).Ok? {
        assert xs[..n][j] == xs[j];
      }
    }
  }

  /** Once a prefix fails, the whole list fails the same way: the loop may stop there. */
  lemma {:induction false} ApplyAllStopsAtFailure(c: Conversion, xs: seq<Json>, k: nat)
    requires k <= |xs| && ApplyAll(c, xs[..k]).Err?
    ensures ApplyAll(c, xs) == ApplyAll(c, xs[..k])
    decreases |xs| - k
  {
    if k < |xs| {
      ApplyAllSnoc(c, xs, k);
      ApplyAllStopsAtFailure(c, xs, k + 1);
    } else {
      assert xs[..k] == xs;
    }
  }

  /** ApplyAll on one more element: the prefix, then the element. */
  lemma ApplyAllSnoc(c: Conversion, xs: seq<Json>, i: nat)
    requires i < |xs|
    ensures ApplyAll(c, xs[..i + 1]) ==
      (var front :- ApplyAll(c, xs[..i]); var last :- Apply(c, xs[i]); Ok(front + [last]))
  {
    assert xs[..i + 1][..i] == xs[..i];
  }

  /** The for-loop the converter runs over a list: push each converted element. */
  method ConvertEach(c: Conversion, xs: seq<Json>) returns (r: Result<seq<Json>>)
    ensures r == ApplyAll(c, xs)
  {
    var out: seq<Json> := [];
    for i := 0 to |xs|
      invariant ApplyAll(c, xs[..i]) == Ok(out)
    {
      ApplyAllSnoc(c, xs, i);
      var item := Apply(c, xs[i]);
      if item.Err? {
        ApplyAllStopsAtFailure(c, xs, i + 1);
        return Err(item.error);
      }
      out := out + [item.value];
    }
    assert xs[..|xs|] == xs;
    return Ok(out);
  }

  /** convertManyFieldValueToApp: null stays null, a list is converted element by element, and
      a bare value is wrapped into a one-element list. */
  function ManyToApp(v: Json, t: Option<string>): Result<Json>
  {
    if v == JNull then Ok(JNull)
    else if v.JList? then
      var ys :- ApplyAll(ToApp(t), v.items); Ok(JList(ys))
    else
      var y :- ValueToApp(v, t); Ok(JList([y]))
  }

  /** convertManyFieldValueToJira: null stays null, a list is converted element by element, and
      anything else becomes the empty list. */
  function ManyToJira(v: Json, t: Option<string>, offset: int): Result<Json>
  {
    if v == JNull then Ok(JNull)
    else if v.JList? then
      var ys :- ApplyAll(ToJira(t, offset), v.items); Ok(JList(ys))
    else Ok(JList([]))
  }

  /** The two array wrappers disagree on a bare value: inbound wraps it, outbound drops it. */
  lemma ManyOnBareValue(v: Json, t: Option<string>, offset: int)
    requires v != JNull && !v.JList? && ValueToApp(v, t).Ok?
    ensures ManyToApp(v, t) == Ok(JList([ValueToApp(v, t).value]))
    ensures ManyToJira(v, t, offset) == Ok(JList([]))
  {
  }

  /** On a list both wrappers keep length and order. */
  lemma ManyOnList(xs: seq<Json>, t: Option<string>, offset: int)
    ensures ManyToApp(JList(xs), t).Ok? ==> (ManyToApp(JList(xs), t).value.JList? &&
      |ManyToApp(JList(xs), t).value.items| == |xs| &&
      forall i :: 0 <= i < |xs| ==> ManyToApp(JList(xs), t).value.items[i] == ValueToApp(xs[i], t).value)
    ensures ManyToJira(JList(xs), t, offset).Ok? ==> (ManyToJira(JList(xs), t, offset).value.JList? &&
      |ManyToJira(JList(xs), t, offset).value.items| == |xs| &&
      forall i :: 0 <= i < |xs| ==> ManyToJira(JList(xs), t, offset).value.items[i] == ValueToJira(xs[i], t, offset).value)
  {
  }

  /** issueRefs / issueLinks: null stays null, otherwise one entry per element, in order. */
  function ListOf(c: Conversion, xs: Option<seq<Json>>): (r: Result<Json>)
    ensures xs.None? ==> r == Ok(JNull)
    ensures xs.Some? ==> (r.Ok? <==> forall i :: 0 <= i < |xs.value| ==> Apply(c, xs.value[i]).Ok?)
    ensures xs.Some? && r.Ok? ==>
      r.value.JList? && |r.value.items| == |xs.value| &&
      forall i :: 0 <= i < |xs.value| ==> r.value.items[i] == Apply(c, xs.value[i]).value
  {
    if xs.None? then Ok(JNull)
    else var ys :- ApplyAll(c, xs.value); Ok(JList(ys))
  }

  /** The keys of a converted comment. */
  const CommentKeys: set<string> := {"id", "author", "created", "bodyHtml", "bodyText", "bodyWiki"}

  function DateOf(j: Json, key: string): Json
  {
    OfLong(TimeUtils.ParseJiraDate(StrOf(j, key)))
  }

  /** commentFromJiraToApp. */
  function CommentToApp(markup: TextConverter.Markup, c: Json): (r: Result<Json>)
    ensures r.Ok? ==> r.value.JMap? && r.value.fields.Keys == CommentKeys
  {
    var comment :- Receiver(c);
    var author :- ValueToApp(Nested(comment, "author"), Some("user"));
    var body := StrOf(comment, "body");
    Ok(JMap(map["id" := Str(comment, "id"), "author" := author, "created" := DateOf(comment, "created"),
                "bodyHtml" := OfString(TextConverter.ConvertWikiToHtml(markup, body)),
                "bodyText" := OfString(TextConverter.ConvertWikiToText(markup, body)),
                "bodyWiki" := OfString(body)]))
  }

  /** The keys of a converted work log. */
  const WorkLogKeys: set<string> :=
    {"id", "author", "created", "started", "timeSpent", "commentHtml", "commentText", "commentWiki"}

  /** The keys of a converted attachment. */
  const AttachmentKeys: set<string> := {"id", "author", "created", "filename", "mimeType", "size", "contentUrl"}

  /** workLogFromJiraToApp. */
  function WorkLogToApp(markup: TextConverter.Markup, w: Json): Result<Json>
  {
    var worklog :- Receiver(w);
    var author :- ValueToApp(Nested(worklog, "author"), Some("user"));
    Ok(JMap(map["id" := Str(worklog, "id"), "author" := author,
                "created" := DateOf(worklog, "created"), "started" := DateOf(worklog, "started"),
                "timeSpent" := JInt(TimeUtils.ParseSeconds(Int(worklog, "timeSpentSeconds"))),
                "commentHtml" := OfString(TextConverter.ConvertWikiToHtml(markup, StrOf(worklog, "comment"))),
                "commentText" := OfString(TextConverter.ConvertWikiToText(markup, StrOf(worklog, "comment"))),
                "commentWiki" := Str(worklog, "comment")]))
  }

  /** attachmentFromJiraToApp; contentUrl is read as an integer, so a URL string reads as null. */
  function AttachmentToApp(a: Json): Result<Json>
  {
    var attachment :- Receiver(a);
    var author :- ValueToApp(Nested(attachment, "author"), Some("user"));
    Ok(JMap(map["id" := Str(attachment, "id"), "author" := author,
                "created" := DateOf(attachment, "created"),
                "filename" := Str(attachment, "filename"), "mimeType" := Str(attachment, "mimeType"),
                "size" := OfLong(Int(attachment, "size")),
                "contentUrl" := OfLong(Int(attachment, "contentUrl"))]))
  }

  /** Every non-null comment converts, with its author as a user. It keeps its wiki body
      verbatim, and its text form is null exactly when the body is, and is trimmed. */
  lemma CommentBodies(markup: TextConverter.Markup, c: Json)
    requires c != JNull
    ensures CommentToApp(markup, c).Ok?
    ensures var m := CommentToApp(markup, c).value.fields;
      m.Keys == CommentKeys && m["id"] == Str(c, "id") && m["created"] == DateOf(c, "created") &&
      Ok(m["author"]) == ValueToApp(Nested(c, "author"), Some("user")) && m["bodyWiki"] == Str(c, "body") &&
      (m["bodyText"] == JNull <==> m["bodyWiki"] == JNull) &&
      (m["bodyText"].JStr? ==> var t := m["bodyText"].s; t == [] || (!Trimmable(t[0]) && !Trimmable(t[|t| - 1])))
  {
    var author := AuthorConverts(c);
    var body := StrOf(c, "body");
    CommentRecord(CommentToApp(markup, c).value.fields, Str(c, "id"), author, DateOf(c, "created"),
      OfString(TextConverter.ConvertWikiToHtml(markup, body)), OfString(TextConverter.ConvertWikiToText(markup, body)),
      OfString(body));
  }

  /** Every non-null work log converts. The time spent is its seconds in milliseconds, zero
      when missing; commentWiki is the raw comment, and commentText is null exactly when the
      comment is, and is trimmed. */
  lemma WorkLogFields(markup: TextConverter.Markup, w: Json)
    requires w != JNull
    ensures WorkLogToApp(markup, w).Ok?
    ensures var m := WorkLogToApp(markup, w).value.fields;
      m.Keys == WorkLogKeys && m["id"] == Str(w, "id") &&
      Ok(m["author"]) == ValueToApp(Nested(w, "author"), Some("user")) &&
      m["created"] == DateOf(w, "created") && m["started"] == DateOf(w, "started") &&
      m["timeSpent"].JInt? && m["timeSpent"].i % 1000 == 0 &&
      m["timeSpent"].i / 1000 == Int(w, "timeSpentSeconds").GetOr(0) &&
      m["commentWiki"] == Str(w, "comment") &&
      (m["commentText"] == JNull <==> m["commentWiki"] == JNull) &&
      (m["commentText"].JStr? ==> var t := m["commentText"].s; t == [] || (!Trimmable(t[0]) && !Trimmable(t[|t| - 1])))
  {
    var author := AuthorConverts(w);
    var comment := StrOf(w, "comment");
    WorkLogRecord(WorkLogToApp(markup, w).value.fields, Str(w, "id"), author, DateOf(w, "created"),
      DateOf(w, "started"), JInt(TimeUtils.ParseSeconds(Int(w, "timeSpentSeconds"))),
      OfString(TextConverter.ConvertWikiToHtml(markup, comment)),
      OfString(TextConverter.ConvertWikiToText(markup, comment)), Str(w, "comment"));
  }

  /** v is what integer(key) gives: a number as it is, a string as the integer it parses as
      (null when it does not parse), and null for anything else. */
  predicate ReadAsNumber(j: Json, key: string, v: Json)
  {
    (Get(j, key).JInt? ==> v == Get(j, key)) &&
    (Get(j, key).JStr? ==> v == (match ParseInt(Get(j, key).s) case Some(n) => JInt(n) case None => JNull)) &&
    (!Get(j, key).JInt? && !Get(j, key).JStr? ==> v == JNull)
  }

  /** Every non-null attachment converts. Its id, file name and MIME type are copied when they
      are strings; size and contentUrl keep a number, read a string as the integer it parses as,
      and are null otherwise, an unparsable string included. */
  lemma AttachmentFields(a: Json)
    requires a != JNull
    ensures AttachmentToApp(a).Ok?
    ensures var m := AttachmentToApp(a).value.fields;
      m.Keys == AttachmentKeys && m["id"] == Str(a, "id") && m["created"] == DateOf(a, "created") &&
      Ok(m["author"]) == ValueToApp(Nested(a, "author"), Some("user")) &&
      m["filename"] == Str(a, "filename") && m["mimeType"] == Str(a, "mimeType") &&
      ReadAsNumber(a, "size", m["size"]) && ReadAsNumber(a, "contentUrl", m["contentUrl"])
  {
    var author := AuthorConverts(a);
    AttachmentRecord(AttachmentToApp(a).value.fields, Str(a, "id"), author, DateOf(a, "created"),
      Str(a, "filename"), Str(a, "mimeType"), OfLong(Int(a, "size")), OfLong(Int(a, "contentUrl")));
  }

  // The three record lemmas below read a map display with its values abstracted, so that
  // looking keys up does not drag the values' definitions along.

  lemma CommentRecord(m: map<string, Json>, id: Json, author: Json, created: Json,
                      html: Json, text: Json, wiki: Json)
    requires m == map["id" := id, "author" := author, "created" := created,
                      "bodyHtml" := html, "bodyText" := text, "bodyWiki" := wiki]
    ensures m.Keys == CommentKeys && m["id"] == id && m["author"] == author && m["created"] == created &&
      m["bodyText"] == text && m["bodyWiki"] == wiki
  {
  }

  lemma WorkLogRecord(m: map<string, Json>, id: Json, author: Json, created: Json, started: Json,
                      spent: Json, html: Json, text: Json, wiki: Json)
    requires m == map["id" := id, "author" := author, "created" := created, "started" := started,
                      "timeSpent" := spent, "commentHtml" := html, "commentText" := text, "commentWiki" := wiki]
    ensures m.Keys == WorkLogKeys && m["id"] == id && m["author"] == author && m["created"] == created &&
      m["started"] == started && m["timeSpent"] == spent && m["commentText"] == text && m["commentWiki"] == wiki
  {
  }

  lemma AttachmentRecord(m: map<string, Json>, id: Json, author: Json, created: Json,
                         filename: Json, mimeType: Json, size: Json, contentUrl: Json)
    requires m == map["id" := id, "author" := author, "created" := created, "filename" := filename,
                      "mimeType" := mimeType, "size" := size, "contentUrl" := contentUrl]
    ensures m.Keys == AttachmentKeys && m["id"] == id && m["author"] == author && m["created"] == created &&
      m["filename"] == filename && m["mimeType"] == mimeType && m["size"] == size && m["contentUrl"] == contentUrl
  {
  }

  /** The author of a record converts as a user whatever it holds: json(key) gives null or a
      Json object, and both pass the cast. */
  lemma AuthorConverts(j: Json) returns (author: Json)
    ensures ValueToApp(Nested(j, "author"), Some("user")) == Ok(author)
  {
    assert AsJson(Nested(j, "author")).Ok?;
    author := ValueToApp(Nested(j, "author"), Some("user")).value;
  }

  /** A URL stored under contentUrl (any text with the colon of a scheme) is not a number, so
      the converted attachment loses it. */
  lemma ContentUrlIsLost(a: map<string, Json>)
    requires "contentUrl" in a && a["contentUrl"].JStr? && ':' in a["contentUrl"].s
    ensures AttachmentToApp(JMap(a)).Ok?
    ensures Get(AttachmentToApp(JMap(a)).value, "contentUrl") == JNull
  {
    var fields := Nested(JMap(a), "author");
    assert AsJson(fields).Ok?;
    var url := a["contentUrl"].s;
    var k :| 0 <= k < |url| && url[k] == ':';
    assert !AllDigits(url) by { assert !IsDigit(url[k]); }
    if k > 0 {
      assert !AllDigits(url[1..]) by { assert url[1..][k - 1] == ':'; }
    }
  }

  /** The body of an outgoing comment or description in the requested format: HTML is reduced
      to text, wiki and plain text go through unchanged. */
  function BodyIn(markup: TextConverter.Markup, format: Option<string>, body: Option<string>): Option<string>
  {
    if format.Some? && Folded(format.value) == "html" then TextConverter.ConvertHtmlToWiki(markup, body)
    else if format.Some? && Folded(format.value) == "wiki" then body
    else TextConverter.ConvertTextToWiki(body)
  }

  /** commentFromAppToJira. */
  function CommentToJira(markup: TextConverter.Markup, c: Json): Result<Json>
  {
    var comment :- Receiver(c);
    Ok(JMap(map["issueKey" := Str(comment, "issueKey"),
                "body" := OfString(BodyIn(markup, StrOf(comment, "bodyFormat"), StrOf(comment, "body")))]))
  }

  /** Only an HTML body is rewritten; wiki, plain text and a missing format keep the body. */
  lemma CommentBodyFormats(markup: TextConverter.Markup, c: Json)
    requires c != JNull
    ensures CommentToJira(markup, c).Ok?
    ensures var m := CommentToJira(markup, c).value.fields;
      m["issueKey"] == Str(c, "issueKey") &&
      (StrOf(c, "bodyFormat").Some? && Folded(StrOf(c, "bodyFormat").value) == "html" ==>
         m["body"] == OfString(TextConverter.ConvertHtmlToText(markup, StrOf(c, "body")))) &&
      (!(StrOf(c, "bodyFormat").Some? && Folded(StrOf(c, "bodyFormat").value) == "html") ==>
         m["body"] == Str(c, "body"))
  {
  }
}
