/// IssueConverter: whole issues between the tracker's JSON and the application's format.
/// Custom fields are resolved through the field cache; every id lookup is answered from the
/// cache's settled state (see Fields.FieldsCache.Settled).
module IssueConversion {
  import opened Base
  import opened Strings
  import opened JsonValues
  import TimeUtils
  import TextConverter
  import opened Fields
  import opened IssueValues

  // ---------------------------------------------------------------------------------------
  // Inbound: the tracker's issue to the application's.

  /** The keys of a Json map; other values have none. */
  function KeysOf(j: Json): map<string, Json>
  {
    if j.JMap? then j.fields else map[]
  }

  /** jsons(key) handed on as a Json list, or null. */
  function ListValue(j: Json, key: string): Json
  {
    match Items(j, key)
    case Some(xs) => JList(xs)
    case None => JNull
  }

  /** json(key) of a key that contains reported present: fails when the value is not an object. */
  function Sub(j: Json, key: string): Result<Json>
  {
    Receiver(Nested(j, key))
  }

  predicate IsCustomKey(k: string)
  {
    StartsWith(k, "customfield_")
  }

  /** One custom field of an incoming issue, converted by the cached type and array flag. */
  function CustomIn(settled: CacheState, fields: map<string, Json>, k: string): Result<Json>
    requires k in fields
  {
    var e := Lookup(settled.byId, k);
    var isArray :- ArrayOf(e);
    if isArray then ManyToApp(fields[k], TypeOf(e)) else ValueToApp(fields[k], TypeOf(e))
  }

  /** Custom field k is stored under display name n with value v. */
  predicate Written(settled: CacheState, fields: map<string, Json>, k: string, n: string, v: Json)
  {
    k in fields && IsCustomKey(k) && NameOf(Lookup(settled.byId, k)) == Some(n) && CustomIn(settled, fields, k) == Ok(v)
  }

  /** What getCustomFields may return. It fails exactly when some custom field fails; otherwise
      every resolved custom field is filed under its display name, and every entry comes from
      a custom field with that display name (when two share a name, the one visited last wins,
      and the visiting order is the hash map's). For a field the cache cannot name the Java
      code calls Json.set with a null key; that helper is not part of this model, and the
      model files nothing for such a field. */
  ghost predicate CustomFieldsOf(settled: CacheState, fields: map<string, Json>, c: Result<Json>)
  {
    (c.Ok? <==> forall k :: k in fields && IsCustomKey(k) ==> CustomIn(settled, fields, k).Ok?) &&
    (c.Err? ==> exists k :: k in fields && IsCustomKey(k) && CustomIn(settled, fields, k) == Err(c.error)) &&
    (c.Ok? ==> (c.value.JMap? &&
      (forall k :: k in fields && IsCustomKey(k) && NameOf(Lookup(settled.byId, k)).Some? ==>
         NameOf(Lookup(settled.byId, k)).value in c.value.fields) &&
      (forall n :: n in c.value.fields ==> exists k :: Written(settled, fields, k, n, c.value.fields[n]))))
  }

  /** subTask: true exactly when issuetype is present and flags a sub-task. */
  function SubTask(fields: Json): Result<bool>
  {
    if Has(fields, "issuetype") then
      var t :- Sub(fields, "issuetype"); Ok(BoolOr(t, "subtask", false))
    else Ok(false)
  }

  function Millis(j: Json, key: string): Json
  {
    JInt(TimeUtils.ParseSeconds(Int(j, key)))
  }

  /** remainingEstimate: from timetracking, 0 without it. */
  function RemainingEstimate(fields: Json): Result<Json>
  {
    if Has(fields, "timetracking") then
      var t :- Sub(fields, "timetracking"); Ok(Millis(t, "remainingEstimateSeconds"))
    else Ok(JInt(0))
  }

  /** The progress record with no data: all zeros. */
  const NoProgress: Json := JMap(map["progress" := JInt(0), "total" := JInt(0), "percent" := JInt(0)])

  /** progress / aggregateProgress: amounts in milliseconds and the percentage as an exact
      fraction; a missing percentage counts as 0. */
  function Progress(fields: Json, key: string): Result<Json>
  {
    if Has(fields, key) then
      var p :- Sub(fields, key);
      var percent := Int(p, "percent").GetOr(0);
      Ok(JMap(map["progress" := Millis(p, "progress"), "total" := Millis(p, "total"),
                  "percent" := JDec(percent as real / 100.0)]))
    else Ok(NoProgress)
  }

  function Votes(fields: Json): Result<Json>
  {
    if Has(fields, "votes") then
      var v :- Sub(fields, "votes"); Ok(OfLong(Int(v, "votes")))
    else Ok(JInt(0))
  }

  /** comments: present only when the issue has a comment record holding comments. */
  function Comments(markup: TextConverter.Markup, fields: Json): Result<Option<Json>>
  {
    if Has(fields, "comment") then
      var c :- Sub(fields, "comment");
      if Has(c, "comments") then
        var xs :- ItemsOrFail(c, "comments");
        var ys :- ApplyAll(CommentIn(markup), xs);
        Ok(Some(JList(ys)))
      else Ok(None)
    else Ok(None)
  }

  /** workLogs: present only when the issue has a worklog record holding worklogs. */
  function WorkLogs(markup: TextConverter.Markup, fields: Json): Result<Option<Json>>
  {
    if Has(fields, "worklog") then
      var w :- Sub(fields, "worklog");
      if Has(w, "worklogs") then
        var xs :- ItemsOrFail(w, "worklogs");
        var ys :- ApplyAll(WorkLogIn(markup), xs);
        Ok(Some(JList(ys)))
      else Ok(None)
    else Ok(None)
  }

  /** attachments: present only when the issue has attachments. */
  function Attachments(fields: Json): Result<Option<Json>>
  {
    if Has(fields, "attachment") then
      var xs :- ItemsOrFail(fields, "attachment");
      var ys :- ApplyAll(AttachmentIn, xs);
      Ok(Some(JList(ys)))
    else Ok(None)
  }

  /** A for-each over jsons(key): iterating a null list fails. */
  function ItemsOrFail(j: Json, key: string): Result<seq<Json>>
  {
    match Items(j, key)
    case Some(xs) => Ok(xs)
    case None => Err(NullDeref)
  }

  function Optional(m: map<string, Json>, key: string, v: Option<Json>): map<string, Json>
  {
    if v.Some? then m[key := v.value] else m
  }

  // fromJiraToApp in source order, one section of the output at a time; each section fails
  // with the first failing read in it.

  const HeaderKeys: set<string> := {"id", "key", "issueType", "subTask", "project"}
  const TimeKeys: set<string> := {"timeSpent", "aggregateTimeSpent", "timeEstimate", "aggregateTimeEstimate",
    "timeOriginalEstimate", "aggregateOriginalTimeEstimate", "remainingEstimate", "progress", "aggregateProgress"}
  const PlanKeys: set<string> := {"versions", "fixVersions", "status", "created", "updated", "dueDate",
    "resolution", "resolutionDate", "priority", "labels"}
  const PeopleKeys: set<string> := {"issueLinks", "components", "environment", "votes", "assignee", "reporter", "creator"}
  const TextKeys: set<string> := {"summary", "descriptionHtml", "descriptionText", "descriptionWiki",
    "parent", "subTasks", "customFields"}
  const ActivityKeys: set<string> := {"comments", "workLogs", "attachments"}

  function HeaderPart(issue: Json, fields: Json): (r: Result<map<string, Json>>)
    ensures r.Ok? ==> r.value.Keys == HeaderKeys
  {
    var issueType :- ValueToApp(Nested(fields, "issuetype"), Some("issuetype"));
    var subTask :- SubTask(fields);
    var project :- ValueToApp(Nested(fields, "project"), Some("project"));
    Ok(map["id" := Str(issue, "id"), "key" := Str(issue, "key"),
           "issueType" := issueType, "subTask" := JBool(subTask), "project" := project])
  }

  function TimePart(fields: Json): (r: Result<map<string, Json>>)
    ensures r.Ok? ==> r.value.Keys == TimeKeys
  {
    var remaining :- RemainingEstimate(fields);
    var progress :- Progress(fields, "progress");
    var aggregate :- Progress(fields, "aggregateprogress");
    Ok(map["timeSpent" := Millis(fields, "timespent"),
           "aggregateTimeSpent" := Millis(fields, "aggregatetimespent"),
           "timeEstimate" := Millis(fields, "timeestimate"),
           "aggregateTimeEstimate" := Millis(fields, "aggregatetimeestimate"),
           "timeOriginalEstimate" := Millis(fields, "timeoriginalestimate"),
           "aggregateOriginalTimeEstimate" := Millis(fields, "aggregateoriginaltimeestimate"),
           "remainingEstimate" := remaining, "progress" := progress, "aggregateProgress" := aggregate])
  }

  function PlanPart(fields: Json): (r: Result<map<string, Json>>)
    ensures r.Ok? ==> r.value.Keys == PlanKeys
  {
    var versions :- ManyToApp(ListValue(fields, "versions"), Some("version"));
    var fixVersions :- ManyToApp(ListValue(fields, "fixVersions"), Some("version"));
    var status :- ValueToApp(Nested(fields, "status"), Some("status"));
    var resolution :- ValueToApp(Nested(fields, "resolution"), Some("resolution"));
    var priority :- ValueToApp(Nested(fields, "priority"), Some("priority"));
    Ok(map["versions" := versions, "fixVersions" := fixVersions, "status" := status,
           "created" := DateOf(fields, "created"), "updated" := DateOf(fields, "updated"),
           "dueDate" := Str(fields, "duedate"), "resolution" := resolution,
           "resolutionDate" := DateOf(fields, "resolutiondate"), "priority" := priority,
           "labels" := ListValue(fields, "labels")])
  }

  /** reporter and creator are read from assignee, like assignee itself. */
  function PeoplePart(fields: Json): (r: Result<map<string, Json>>)
    ensures r.Ok? ==> r.value.Keys == PeopleKeys
  {
    var links :- ListOf(Link, Items(fields, "issuelinks"));
    var components :- ManyToApp(ListValue(fields, "components"), Some("component"));
    var votes :- Votes(fields);
    var assignee :- ValueToApp(Nested(fields, "assignee"), Some("user"));
    Ok(map["issueLinks" := links, "components" := components, "environment" := Str(fields, "environment"),
           "votes" := votes, "assignee" := assignee, "reporter" := assignee, "creator" := assignee])
  }

  function TextPart(markup: TextConverter.Markup, fields: Json, custom: Result<Json>): (r: Result<map<string, Json>>)
    ensures r.Ok? ==> r.value.Keys == TextKeys
  {
    var description := StrOf(fields, "description");
    var parent :- IssueRef(Nested(fields, "parent"));
    var subTasks :- ListOf(Ref, Items(fields, "subtasks"));
    var customFields :- custom;
    Ok(map["summary" := Str(fields, "summary"),
           "descriptionHtml" := OfString(TextConverter.ConvertWikiToHtml(markup, description)),
           "descriptionText" := OfString(TextConverter.ConvertWikiToText(markup, description)),
           "descriptionWiki" := OfString(description),
           "parent" := parent, "subTasks" := subTasks, "customFields" := customFields])
  }

  function ActivityPart(markup: TextConverter.Markup, fields: Json): (r: Result<map<string, Json>>)
    ensures r.Ok? ==> r.value.Keys <= ActivityKeys
  {
    var comments :- Comments(markup, fields);
    var workLogs :- WorkLogs(markup, fields);
    var attachments :- Attachments(fields);
    Ok(Optional(Optional(Optional(map[], "comments", comments), "workLogs", workLogs), "attachments", attachments))
  }

  /** fromJiraToApp, with the outcome of getCustomFields given as custom. */
  function IssueToApp(markup: TextConverter.Markup, issue: Json, custom: Result<Json>): Result<Json>
  {
    var _ :- Receiver(issue);
    var fields :- Receiver(Nested(issue, "fields"));
    var header :- HeaderPart(issue, fields);
    var times :- TimePart(fields);
    var plan :- PlanPart(fields);
    var people :- PeoplePart(fields);
    var text :- TextPart(markup, fields, custom);
    var activity :- ActivityPart(markup, fields);
    Ok(JMap(header + times + plan + people + text + activity))
  }

  // The sections' key sets are pairwise disjoint, so their union is a plain merge. The fact
  // is split over the lemmas below only to keep each set comparison small for the solver.

  lemma HeaderKeysDisjoint()
    ensures HeaderKeys !! (TimeKeys + PlanKeys + PeopleKeys + TextKeys + ActivityKeys)
  {
    HeaderEarlyDisjoint();
    HeaderLateDisjoint();
  }

  lemma HeaderEarlyDisjoint()
    ensures HeaderKeys !! TimeKeys && HeaderKeys !! PlanKeys
  {
  }

  lemma HeaderLateDisjoint()
    ensures HeaderKeys !! PeopleKeys && HeaderKeys !! TextKeys && HeaderKeys !! ActivityKeys
  {
  }

  lemma TimeKeysDisjoint()
    ensures TimeKeys !! (PlanKeys + PeopleKeys + TextKeys + ActivityKeys)
  {
    TimePlanDisjoint();
    TimeOthersDisjoint();
  }

  lemma TimePlanDisjoint()
    ensures TimeKeys !! PlanKeys
  {
  }

  lemma TimeOthersDisjoint()
    ensures TimeKeys !! PeopleKeys && TimeKeys !! TextKeys && TimeKeys !! ActivityKeys
  {
  }

  lemma LaterKeysDisjoint()
    ensures PlanKeys !! (PeopleKeys + TextKeys + ActivityKeys)
    ensures PeopleKeys !! (TextKeys + ActivityKeys)
    ensures TextKeys !! ActivityKeys
  {
    PlanKeysDisjoint();
    PeopleKeysDisjoint();
  }

  lemma PlanKeysDisjoint()
    ensures PlanKeys !! PeopleKeys && PlanKeys !! TextKeys && PlanKeys !! ActivityKeys
  {
  }

  lemma PeopleKeysDisjoint()
    ensures PeopleKeys !! TextKeys && PeopleKeys !! ActivityKeys && TextKeys !! ActivityKeys
  {
  }

  /** A key of one section reads, in the assembled issue, what that section wrote. */
  lemma SectionLookup(header: map<string, Json>, times: map<string, Json>, plan: map<string, Json>,
                      people: map<string, Json>, text: map<string, Json>, activity: map<string, Json>)
    requires header.Keys == HeaderKeys && times.Keys == TimeKeys && plan.Keys == PlanKeys
    requires people.Keys == PeopleKeys && text.Keys == TextKeys && activity.Keys <= ActivityKeys
    ensures var all := header + times + plan + people + text + activity;
      (forall k :: k in HeaderKeys ==> k in all && all[k] == header[k]) &&
      (forall k :: k in TimeKeys ==> k in all && all[k] == times[k]) &&
      (forall k :: k in PlanKeys ==> k in all && all[k] == plan[k]) &&
      (forall k :: k in PeopleKeys ==> k in all && all[k] == people[k]) &&
      (forall k :: k in TextKeys ==> k in all && all[k] == text[k]) &&
      (forall k :: k in ActivityKeys ==> (k in all <==> k in activity)) &&
      (forall k :: k in activity ==> all[k] == activity[k])
  {
    HeaderKeysDisjoint();
    TimeKeysDisjoint();
    LaterKeysDisjoint();
  }

  /** A converted issue is its six sections side by side. */
  lemma Sections(markup: TextConverter.Markup, issue: Json, custom: Result<Json>)
    requires IssueToApp(markup, issue, custom).Ok?
    ensures var fields := Nested(issue, "fields");
      var r := IssueToApp(markup, issue, custom).value;
      HeaderPart(issue, fields).Ok? && TimePart(fields).Ok? && PlanPart(fields).Ok? &&
      PeoplePart(fields).Ok? && TextPart(markup, fields, custom).Ok? && ActivityPart(markup, fields).Ok? &&
      r == JMap(HeaderPart(issue, fields).value + TimePart(fields).value + PlanPart(fields).value +
                PeoplePart(fields).value + TextPart(markup, fields, custom).value + ActivityPart(markup, fields).value)
  {
  }

  /** Sections and SectionLookup together, for the lemmas below. */
  lemma Assembled(markup: TextConverter.Markup, issue: Json, custom: Result<Json>)
    requires IssueToApp(markup, issue, custom).Ok?
    ensures var fields := Nested(issue, "fields");
      var r := IssueToApp(markup, issue, custom).value;
      HeaderPart(issue, fields).Ok? && TimePart(fields).Ok? && PlanPart(fields).Ok? &&
      PeoplePart(fields).Ok? && TextPart(markup, fields, custom).Ok? && ActivityPart(markup, fields).Ok? &&
      r.JMap? &&
      (forall k :: k in HeaderKeys ==> Get(r, k) == HeaderPart(issue, fields).value[k]) &&
      (forall k :: k in TimeKeys ==> Get(r, k) == TimePart(fields).value[k]) &&
      (forall k :: k in PlanKeys ==> Get(r, k) == PlanPart(fields).value[k]) &&
      (forall k :: k in PeopleKeys ==> Get(r, k) == PeoplePart(fields).value[k]) &&
      (forall k :: k in TextKeys ==> Get(r, k) == TextPart(markup, fields, custom).value[k]) &&
      (forall k :: k in ActivityKeys ==> (k in r.fields <==> k in ActivityPart(markup, fields).value)) &&
      (forall k :: k in ActivityPart(markup, fields).value ==> r.fields[k] == ActivityPart(markup, fields).value[k])
  {
    Sections(markup, issue, custom);
    var fields := Nested(issue, "fields");
    SectionLookup(HeaderPart(issue, fields).value, TimePart(fields).value, PlanPart(fields).value,
                  PeoplePart(fields).value, TextPart(markup, fields, custom).value, ActivityPart(markup, fields).value);
  }

  /** subTask holds exactly when the issue type is present and flags a sub-task. */
  lemma SubTaskFlag(issue: Json, fields: Json)
    requires HeaderPart(issue, fields).Ok?
    ensures HeaderPart(issue, fields).value["subTask"]
         == JBool(Has(fields, "issuetype") && BoolOr(Nested(fields, "issuetype"), "subtask", false))
  {
  }

  /** The time section: every amount is the tracker's seconds times 1000 (0 when absent). */
  lemma TimeSection(fields: Json)
    requires TimePart(fields).Ok?
    ensures var t := TimePart(fields).value;
      t["timeSpent"] == JInt(1000 * Int(fields, "timespent").GetOr(0)) &&
      t["timeEstimate"] == JInt(1000 * Int(fields, "timeestimate").GetOr(0)) &&
      t["timeOriginalEstimate"] == JInt(1000 * Int(fields, "timeoriginalestimate").GetOr(0))
  {
    TimeMap(fields);
  }

  /** No time tracking means no remaining estimate, and a missing progress record reads as
      all zeros. */
  lemma TimeDefaults(fields: Json)
    requires TimePart(fields).Ok?
    ensures var t := TimePart(fields).value;
      (!Has(fields, "timetracking") ==> t["remainingEstimate"] == JInt(0)) &&
      (!Has(fields, "progress") ==> t["progress"] == NoProgress) &&
      (!Has(fields, "aggregateprogress") ==> t["aggregateProgress"] == NoProgress)
  {
    TimeMap(fields);
  }

  lemma TimeMap(fields: Json)
    requires TimePart(fields).Ok?
    ensures TimePart(fields).value == map[
      "timeSpent" := Millis(fields, "timespent"),
      "aggregateTimeSpent" := Millis(fields, "aggregatetimespent"),
      "timeEstimate" := Millis(fields, "timeestimate"),
      "aggregateTimeEstimate" := Millis(fields, "aggregatetimeestimate"),
      "timeOriginalEstimate" := Millis(fields, "timeoriginalestimate"),
      "aggregateOriginalTimeEstimate" := Millis(fields, "aggregateoriginaltimeestimate"),
      "remainingEstimate" := RemainingEstimate(fields).value, "progress" := Progress(fields, "progress").value,
      "aggregateProgress" := Progress(fields, "aggregateprogress").value]
  {
  }

  /** A present progress record keeps its percentage as the exact fraction percent / 100, a
      missing percentage counting as 0, and its amounts in milliseconds. */
  lemma ProgressExact(fields: Json)
    requires TimePart(fields).Ok?
    ensures Has(fields, "progress") ==>
      var g := TimePart(fields).value["progress"];
      var p := Nested(fields, "progress");
      Get(g, "percent").JDec? && Get(g, "percent").d * 100.0 == Int(p, "percent").GetOr(0) as real &&
      Get(g, "progress") == JInt(1000 * Int(p, "progress").GetOr(0)) &&
      Get(g, "total") == JInt(1000 * Int(p, "total").GetOr(0))
  {
    if Has(fields, "progress") {
      TimeMap(fields);
      ProgressRecord(fields, "progress");
    }
  }

  lemma ProgressRecord(fields: Json, key: string)
    requires Progress(fields, key).Ok? && Has(fields, key)
    ensures var g := Progress(fields, key).value;
      var p := Nested(fields, key);
      Get(g, "percent").JDec? && Get(g, "percent").d * 100.0 == Int(p, "percent").GetOr(0) as real &&
      Get(g, "progress") == JInt(1000 * Int(p, "progress").GetOr(0)) &&
      Get(g, "total") == JInt(1000 * Int(p, "total").GetOr(0))
  {
  }

  /** The people section: no votes record means 0 votes, and reporter and creator are both
      the converted assignee. */
  lemma PeopleSection(fields: Json)
    requires PeoplePart(fields).Ok?
    ensures var m := PeoplePart(fields).value;
      (!Has(fields, "votes") ==> m["votes"] == JInt(0)) &&
      m["reporter"] == m["assignee"] && m["creator"] == m["assignee"] &&
      Ok(m["assignee"]) == ValueToApp(Nested(fields, "assignee"), Some("user"))
  {
  }

  /** The plan section: the dates are read as timestamps, the due date and labels are copied,
      and versions, status, resolution and priority are their value conversions. */
  lemma PlanSection(fields: Json)
    requires PlanPart(fields).Ok?
    ensures var m := PlanPart(fields).value;
      m["created"] == DateOf(fields, "created") && m["updated"] == DateOf(fields, "updated") &&
      m["resolutionDate"] == DateOf(fields, "resolutiondate") &&
      m["dueDate"] == Str(fields, "duedate") && m["labels"] == ListValue(fields, "labels") &&
      Ok(m["versions"]) == ManyToApp(ListValue(fields, "versions"), Some("version")) &&
      Ok(m["fixVersions"]) == ManyToApp(ListValue(fields, "fixVersions"), Some("version")) &&
      Ok(m["status"]) == ValueToApp(Nested(fields, "status"), Some("status")) &&
      Ok(m["resolution"]) == ValueToApp(Nested(fields, "resolution"), Some("resolution")) &&
      Ok(m["priority"]) == ValueToApp(Nested(fields, "priority"), Some("priority"))
  {
    var m := PlanPart(fields).value;
    PlanRecord(m, ManyToApp(ListValue(fields, "versions"), Some("version")).value,
      ManyToApp(ListValue(fields, "fixVersions"), Some("version")).value,
      ValueToApp(Nested(fields, "status"), Some("status")).value, DateOf(fields, "created"),
      DateOf(fields, "updated"), Str(fields, "duedate"),
      ValueToApp(Nested(fields, "resolution"), Some("resolution")).value, DateOf(fields, "resolutiondate"),
      ValueToApp(Nested(fields, "priority"), Some("priority")).value, ListValue(fields, "labels"));
  }

  /** The text section: customFields is the outcome of getCustomFields, the description is
      kept as wiki text and rendered by the text converter, and parent and subTasks are issue
      references. */
  lemma TextSection(markup: TextConverter.Markup, fields: Json, custom: Result<Json>)
    requires TextPart(markup, fields, custom).Ok?
    ensures var m := TextPart(markup, fields, custom).value;
      var description := StrOf(fields, "description");
      custom.Ok? && m["customFields"] == custom.value &&
      m["summary"] == Str(fields, "summary") && m["descriptionWiki"] == OfString(description) &&
      m["descriptionHtml"] == OfString(TextConverter.ConvertWikiToHtml(markup, description)) &&
      m["descriptionText"] == OfString(TextConverter.ConvertWikiToText(markup, description)) &&
      Ok(m["parent"]) == IssueRef(Nested(fields, "parent")) &&
      Ok(m["subTasks"]) == ListOf(Ref, Items(fields, "subtasks"))
  {
    var description := StrOf(fields, "description");
    TextRecord(TextPart(markup, fields, custom).value, Str(fields, "summary"),
      OfString(TextConverter.ConvertWikiToHtml(markup, description)),
      OfString(TextConverter.ConvertWikiToText(markup, description)), OfString(description),
      IssueRef(Nested(fields, "parent")).value, ListOf(Ref, Items(fields, "subtasks")).value, custom.value);
  }

  // The two record lemmas below read a map display with its values abstracted, so that
  // looking keys up does not drag the values' definitions along.

  lemma PlanRecord(m: map<string, Json>, versions: Json, fixVersions: Json, status: Json, created: Json,
                   updated: Json, dueDate: Json, resolution: Json, resolutionDate: Json, priority: Json, labels: Json)
    requires m == map["versions" := versions, "fixVersions" := fixVersions, "status" := status,
                      "created" := created, "updated" := updated, "dueDate" := dueDate, "resolution" := resolution,
                      "resolutionDate" := resolutionDate, "priority" := priority, "labels" := labels]
    ensures m["versions"] == versions && m["fixVersions"] == fixVersions && m["status"] == status &&
      m["created"] == created && m["updated"] == updated && m["dueDate"] == dueDate &&
      m["resolution"] == resolution && m["resolutionDate"] == resolutionDate &&
      m["priority"] == priority && m["labels"] == labels
  {
  }

  lemma TextRecord(m: map<string, Json>, summary: Json, html: Json, text: Json, wiki: Json,
                   parent: Json, subTasks: Json, customFields: Json)
    requires m == map["summary" := summary, "descriptionHtml" := html, "descriptionText" := text,
                      "descriptionWiki" := wiki, "parent" := parent, "subTasks" := subTasks,
                      "customFields" := customFields]
    ensures m["summary"] == summary && m["descriptionHtml"] == html && m["descriptionText"] == text &&
      m["descriptionWiki"] == wiki && m["parent"] == parent && m["subTasks"] == subTasks &&
      m["customFields"] == customFields
  {
  }

  /** comments, workLogs and attachments appear only when the issue carries them, each with
      one converted item per source item, in order. */
  lemma ActivitySection(markup: TextConverter.Markup, fields: Json)
    requires ActivityPart(markup, fields).Ok?
    ensures var m := ActivityPart(markup, fields).value;
      ("comments" in m <==> Has(fields, "comment") && Has(Nested(fields, "comment"), "comments")) &&
      ("workLogs" in m <==> Has(fields, "worklog") && Has(Nested(fields, "worklog"), "worklogs")) &&
      ("attachments" in m <==> Has(fields, "attachment"))
    ensures var m := ActivityPart(markup, fields).value;
      "comments" in m ==>
        var xs := Items(Nested(fields, "comment"), "comments");
        xs.Some? && m["comments"].JList? && |m["comments"].items| == |xs.value| &&
        forall i :: 0 <= i < |xs.value| ==> Ok(m["comments"].items[i]) == CommentToApp(markup, xs.value[i])
    ensures var m := ActivityPart(markup, fields).value;
      "workLogs" in m ==>
        var xs := Items(Nested(fields, "worklog"), "worklogs");
        xs.Some? && m["workLogs"].JList? && |m["workLogs"].items| == |xs.value| &&
        forall i :: 0 <= i < |xs.value| ==> Ok(m["workLogs"].items[i]) == WorkLogToApp(markup, xs.value[i])
    ensures var m := ActivityPart(markup, fields).value;
      "attachments" in m ==>
        var xs := Items(fields, "attachment");
        xs.Some? && m["attachments"].JList? && |m["attachments"].items| == |xs.value| &&
        forall i :: 0 <= i < |xs.value| ==> Ok(m["attachments"].items[i]) == AttachmentToApp(xs.value[i])
  {
    CommentsPresent(markup, fields);
    WorkLogsPresent(markup, fields);
    AttachmentsPresent(fields);
  }

  lemma CommentsPresent(markup: TextConverter.Markup, fields: Json)
    requires Comments(markup, fields).Ok?
    ensures var r := Comments(markup, fields).value;
      (r.Some? <==> Has(fields, "comment") && Has(Nested(fields, "comment"), "comments")) &&
      (r.Some? ==>
        var xs := Items(Nested(fields, "comment"), "comments");
        xs.Some? && r.value.JList? && |r.value.items| == |xs.value| &&
        forall i :: 0 <= i < |xs.value| ==> Ok(r.value.items[i]) == CommentToApp(markup, xs.value[i]))
  {
  }

  lemma WorkLogsPresent(markup: TextConverter.Markup, fields: Json)
    requires WorkLogs(markup, fields).Ok?
    ensures var r := WorkLogs(markup, fields).value;
      (r.Some? <==> Has(fields, "worklog") && Has(Nested(fields, "worklog"), "worklogs")) &&
      (r.Some? ==>
        var xs := Items(Nested(fields, "worklog"), "worklogs");
        xs.Some? && r.value.JList? && |r.value.items| == |xs.value| &&
        forall i :: 0 <= i < |xs.value| ==> Ok(r.value.items[i]) == WorkLogToApp(markup, xs.value[i]))
  {
  }

  lemma AttachmentsPresent(fields: Json)
    requires Attachments(fields).Ok?
    ensures var r := Attachments(fields).value;
      (r.Some? <==> Has(fields, "attachment")) &&
      (r.Some? ==>
        var xs := Items(fields, "attachment");
        xs.Some? && r.value.JList? && |r.value.items| == |xs.value| &&
        forall i :: 0 <= i < |xs.value| ==> Ok(r.value.items[i]) == AttachmentToApp(xs.value[i]))
  {
  }

  // ---------------------------------------------------------------------------------------
  // Outbound: the application's issue to a partial update for the tracker.

  /** Each name s becomes {name: s}, in order. */
  function NameList(xs: seq<Json>): (r: seq<Json>)
    ensures |r| == |xs| && forall i :: 0 <= i < |xs| ==> r[i] == Single("name", xs[i])
  {
    seq(|xs|, i requires 0 <= i < |xs| => Single("name", xs[i]))
  }

  function Put(m: map<string, Json>, present: bool, key: string, v: Json): map<string, Json>
  {
    if present then m[key := v] else m
  }

  /** The input key each scalar built-in output key is read from. */
  const ScalarSources: map<string, string> := map[
    "project" := "project", "issuetype" := "issueType", "summary" := "summary",
    "description" := "description", "duedate" := "dueDate", "assignee" := "assignee",
    "reporter" := "reporter", "labels" := "labels", "priority" := "priority"]

  /** The value written for a scalar built-in: a project by key, the issue type, assignee,
      reporter and priority by name, the description in the requested format, the rest as
      given. */
  function ScalarValue(markup: TextConverter.Markup, app: Json, k: string): Json
  {
    if k == "project" then Single("key", Str(app, "project"))
    else if k == "issuetype" then Single("name", Str(app, "issueType"))
    else if k == "assignee" || k == "reporter" || k == "priority" then Single("name", Str(app, k))
    else if k == "description" then
      OfString(BodyIn(markup, StrOf(app, "descriptionFormat"), StrOf(app, "description")))
    else if k == "duedate" then Str(app, "dueDate")
    else if k == "labels" then ListValue(app, "labels")
    else Str(app, k)
  }

  /** The scalar built-ins, each written only when its input key is present. */
  function ScalarOut(markup: TextConverter.Markup, app: Json): map<string, Json>
  {
    map k | k in ScalarSources && Has(app, ScalarSources[k]) :: ScalarValue(markup, app, k)
  }

  /** The built-in fields of fromAppToJira; versions and components fail when present but not
      a list. */
  function BuiltinOut(markup: TextConverter.Markup, app: Json): Result<map<string, Json>>
  {
    var versions :- if Has(app, "versions") then ItemsOrFail(app, "versions") else Ok([]);
    var components :- if Has(app, "components") then ItemsOrFail(app, "components") else Ok([]);
    Ok(Put(Put(ScalarOut(markup, app), Has(app, "versions"), "versions", JList(NameList(versions))),
               Has(app, "components"), "components", JList(NameList(components))))
  }

  /** The input key each built-in output key is read from. */
  const BuiltinSources: map<string, string> := ScalarSources["versions" := "versions"]["components" := "components"]

  /** A partial update: a built-in field is written exactly when its input key is present, and
      nothing else is. */
  lemma PartialUpdate(markup: TextConverter.Markup, app: Json)
    requires BuiltinOut(markup, app).Ok?
    ensures forall k :: k in BuiltinSources ==> (k in BuiltinOut(markup, app).value <==> Has(app, BuiltinSources[k]))
    ensures BuiltinOut(markup, app).value.Keys <= BuiltinSources.Keys
  {
    assert "versions" !in ScalarSources && "components" !in ScalarSources;
  }

  /** versions and components map each name s to {name: s}, keeping length and order. */
  lemma NamedLists(markup: TextConverter.Markup, app: Json, key: string)
    requires BuiltinOut(markup, app).Ok? && key in {"versions", "components"} && Has(app, key)
    ensures var xs := Items(app, key);
      xs.Some? && key in BuiltinOut(markup, app).value &&
      BuiltinOut(markup, app).value[key] == JList(NameList(xs.value))
  {
  }

  /** The description is written only when supplied, reduced to text for an HTML format. */
  lemma DescriptionOut(markup: TextConverter.Markup, app: Json)
    requires BuiltinOut(markup, app).Ok?
    ensures "description" in BuiltinOut(markup, app).value <==> Has(app, "description")
    ensures Has(app, "description") ==>
      BuiltinOut(markup, app).value["description"]
        == OfString(BodyIn(markup, StrOf(app, "descriptionFormat"), StrOf(app, "description")))
  {
    assert "description" in ScalarSources && ScalarSources["description"] == "description";
  }

  /** One resolved custom field of an outgoing issue: input key n names field byName[n], whose
      cached type and array flag choose the conversion. */
  function CustomOut(st: CacheState, app: map<string, Json>, n: string, offset: int): Result<Json>
    requires n in app && n in st.byName
  {
    var e := Lookup(st.byId, st.byName[n]);
    var isArray :- ArrayOf(e);
    if isArray then ManyToJira(app[n], TypeOf(e), offset) else ValueToJira(app[n], TypeOf(e), offset)
  }

  /** k is the id of a field some input key names. */
  ghost predicate IsCustomId(st: CacheState, app: map<string, Json>, k: string)
  {
    exists n :: n in app && n in st.byName && st.byName[n] == k
  }

  /** The fields of an outgoing issue: every input key that names a field writes that field's
      id, converted by its cached type and array flag (over a built-in of the same id);
      every other output key is a built-in. Keys naming no field are dropped. */
  ghost predicate OutFieldsOf(st: CacheState, app: map<string, Json>, builtin: map<string, Json>, offset: int,
                              out: map<string, Json>)
  {
    (forall n :: n in app && n in st.byName ==>
       (st.byName[n] in out && CustomOut(st, app, n, offset) == Ok(out[st.byName[n]]))) &&
    (forall k :: k in builtin ==> k in out) &&
    (forall k :: k in out && !IsCustomId(st, app, k) ==> k in builtin && out[k] == builtin[k]) &&
    (forall k :: k in out ==> k in builtin || IsCustomId(st, app, k))
  }

  /** The outgoing fields are determined: whatever order the input keys are visited in. */
  lemma OutFieldsUnique(st: CacheState, app: map<string, Json>, builtin: map<string, Json>, offset: int,
                        out1: map<string, Json>, out2: map<string, Json>)
    requires OutFieldsOf(st, app, builtin, offset, out1) && OutFieldsOf(st, app, builtin, offset, out2)
    ensures out1 == out2
  {
    forall k | k in out1 ensures k in out2 && out1[k] == out2[k] {
      if IsCustomId(st, app, k) {
        var n :| n in app && n in st.byName && st.byName[n] == k;
      }
    }
    forall k | k in out2 ensures k in out1 {
      if IsCustomId(st, app, k) {
        var n :| n in app && n in st.byName && st.byName[n] == k;
      }
    }
  }

  /** Every custom field of the input converts. */
  predicate CustomOutOk(st: CacheState, app: map<string, Json>, offset: int)
  {
    forall n :: n in app && n in st.byName ==> CustomOut(st, app, n, offset).Ok?
  }

  /** fromAppToJira: fails on a null input, on a failing built-in and on a failing custom field;
      otherwise the issue key when supplied, and the fields. */
  ghost predicate IssueToJiraOf(st: CacheState, markup: TextConverter.Markup, app: Json, offset: int, r: Result<Json>)
  {
    (r.Ok? <==> app != JNull && BuiltinOut(markup, app).Ok? && CustomOutOk(st, KeysOf(app), offset)) &&
    (app != JNull && BuiltinOut(markup, app).Err? ==> r == Err(BuiltinOut(markup, app).error)) &&
    (r.Ok? ==> exists out ::
       OutFieldsOf(st, KeysOf(app), BuiltinOut(markup, app).value, offset, out) &&
       r.value == JMap(Put(map[], Has(app, "key"), "key", Str(app, "key"))["fields" := JMap(out)]))
  }

  /** The loop of fromAppToJira that turns names into {name: s} records. */
  method NamesToJira(names: seq<Json>) returns (r: seq<Json>)
    ensures r == NameList(names)
  {
    r := [];
    for i := 0 to |names|
      invariant |r| == i && forall j :: 0 <= j < i ==> r[j] == Single("name", names[j])
    {
      r := r + [Single("name", names[i])];
    }
  }

  /** The outgoing fields after the input keys in done have been visited. */
  ghost predicate OutSoFar(st: CacheState, app: map<string, Json>, builtin: map<string, Json>, offset: int,
                           done: set<string>, out: map<string, Json>)
  {
    (forall n :: n in app && n in done && n in st.byName ==>
       (st.byName[n] in out && CustomOut(st, app, n, offset) == Ok(out[st.byName[n]]))) &&
    (forall k :: k in builtin ==> k in out) &&
    (forall k :: k in out && !IsCustomId(st, app, k) ==> k in builtin && out[k] == builtin[k]) &&
    (forall k :: k in out ==> k in builtin || IsCustomId(st, app, k))
  }

  /** Writing one more custom field keeps the earlier ones, since no two names share an id. */
  lemma OutStep(st: CacheState, app: map<string, Json>, builtin: map<string, Json>, offset: int,
                done: set<string>, out: map<string, Json>, n: string)
    requires Consistent(st) && OutSoFar(st, app, builtin, offset, done, out)
    requires n in app && n !in done && n in st.byName && CustomOut(st, app, n, offset).Ok?
    ensures OutSoFar(st, app, builtin, offset, done + {n}, out[st.byName[n] := CustomOut(st, app, n, offset).value])
  {
    var out' := out[st.byName[n] := CustomOut(st, app, n, offset).value];
    assert IsCustomId(st, app, st.byName[n]);
    forall m | m in app && m in done + {n} && m in st.byName
      ensures st.byName[m] in out' && CustomOut(st, app, m, offset) == Ok(out'[st.byName[m]])
    {
      if m != n {
        assert st.byName[m] != st.byName[n];
      }
    }
  }

  lemma OutDone(st: CacheState, app: map<string, Json>, builtin: map<string, Json>, offset: int,
                out: map<string, Json>)
    requires OutSoFar(st, app, builtin, offset, app.Keys, out)
    ensures OutFieldsOf(st, app, builtin, offset, out)
  {
  }

  /** The built-in fields of fromAppToJira, with the loops over versions and components. */
  method BuiltinToJira(markup: TextConverter.Markup, app: Json) returns (r: Result<map<string, Json>>)
    ensures r == BuiltinOut(markup, app)
  {
    var fields := ScalarOut(markup, app);
    if Has(app, "versions") {
      var xs := ItemsOrFail(app, "versions");
      if xs.Err? { return Err(xs.error); }
      var names := NamesToJira(xs.value);
      fields := fields["versions" := JList(names)];
    }
    if Has(app, "components") {
      var xs := ItemsOrFail(app, "components");
      if xs.Err? { return Err(xs.error); }
      var names := NamesToJira(xs.value);
      fields := fields["components" := JList(names)];
    }
    return Ok(fields);
  }

  /** The loops of fromJiraToApp over comments, work logs and attachments. */
  method ActivityFromJira(markup: TextConverter.Markup, fields: Json) returns (r: Result<map<string, Json>>)
    ensures r == ActivityPart(markup, fields)
  {
    var comments: Option<Json> := None;
    if Has(fields, "comment") {
      var record := Sub(fields, "comment");
      if record.Err? { return Err(record.error); }
      if Has(record.value, "comments") {
        var xs := ItemsOrFail(record.value, "comments");
        if xs.Err? { return Err(xs.error); }
        var ys := ConvertEach(CommentIn(markup), xs.value);
        if ys.Err? { return Err(ys.error); }
        comments := Some(JList(ys.value));
      }
    }
    var workLogs: Option<Json> := None;
    if Has(fields, "worklog") {
      var record := Sub(fields, "worklog");
      if record.Err? { return Err(record.error); }
      if Has(record.value, "worklogs") {
        var xs := ItemsOrFail(record.value, "worklogs");
        if xs.Err? { return Err(xs.error); }
        var ys := ConvertEach(WorkLogIn(markup), xs.value);
        if ys.Err? { return Err(ys.error); }
        workLogs := Some(JList(ys.value));
      }
    }
    var attachments: Option<Json> := None;
    if Has(fields, "attachment") {
      var xs := ItemsOrFail(fields, "attachment");
      if xs.Err? { return Err(xs.error); }
      var ys := ConvertEach(AttachmentIn, xs.value);
      if ys.Err? { return Err(ys.error); }
      attachments := Some(JList(ys.value));
    }
    return Ok(Optional(Optional(Optional(map[], "comments", comments), "workLogs", workLogs),
                       "attachments", attachments));
  }

  /** Some outcome of getCustomFields always exists: the relation is never empty. */
  lemma CustomFieldsExist(settled: CacheState, fields: map<string, Json>) returns (c: Result<Json>)
    ensures CustomFieldsOf(settled, fields, c)
  {
    if forall k :: k in fields && IsCustomKey(k) ==> CustomIn(settled, fields, k).Ok? {
      var names := set k | k in fields && IsCustomKey(k) && NameOf(Lookup(settled.byId, k)).Some? ::
        NameOf(Lookup(settled.byId, k)).value;
      var out := map n | n in names ::
        var k :| k in fields && IsCustomKey(k) && NameOf(Lookup(settled.byId, k)) == Some(n);
        CustomIn(settled, fields, k).value;
      forall n | n in out ensures exists k :: Written(settled, fields, k, n, out[n]) {
        var k :| k in fields && IsCustomKey(k) && NameOf(Lookup(settled.byId, k)) == Some(n) &&
          out[n] == CustomIn(settled, fields, k).value;
        assert Written(settled, fields, k, n, out[n]);
      }
      c := Ok(JMap(out));
    } else {
      var k :| k in fields && IsCustomKey(k) && CustomIn(settled, fields, k).Err?;
      c := Err(CustomIn(settled, fields, k).error);
    }
  }

  /** A possible outcome of fromJiraToApp for the given settled cache. */
  ghost predicate IssueResultOf(settled: CacheState, markup: TextConverter.Markup, issue: Json, r: Result<Json>)
  {
    exists custom :: CustomFieldsOf(settled, KeysOf(Nested(issue, "fields")), custom) &&
      r == IssueToApp(markup, issue, custom)
  }

  /** Each issue converted to the item at the same position. */
  ghost predicate ConvertedIssues(settled: CacheState, markup: TextConverter.Markup, issues: seq<Json>, items: seq<Json>)
  {
    |items| == |issues| && forall i :: 0 <= i < |issues| ==> IssueResultOf(settled, markup, issues[i], Ok(items[i]))
  }

  /** One more issue converted extends the converted prefix. */
  lemma ConvertedStep(settled: CacheState, markup: TextConverter.Markup, issues: seq<Json>, i: nat,
                      items: seq<Json>, item: Json)
    requires i < |issues| && ConvertedIssues(settled, markup, issues[..i], items)
    requires IssueResultOf(settled, markup, issues[i], Ok(item))
    ensures ConvertedIssues(settled, markup, issues[..i + 1], items + [item])
  {
    var prefix, out := issues[..i + 1], items + [item];
    forall j | 0 <= j < |prefix| ensures IssueResultOf(settled, markup, prefix[j], Ok(out[j])) {
      if j < i {
        assert prefix[j] == issues[..i][j] && out[j] == items[j];
      }
    }
  }

  /** The page of results: the total, and the converted issues. */
  function SearchPage(sr: Json, items: seq<Json>): Json
  {
    JMap(map["total" := OfLong(Int(sr, "total")), "items" := JList(items)])
  }

  /** What searchResultFromJiraToApp may return: null for a null result, a failure when the
      result has no issue list, the failure of the first issue that fails, or the total and
      every issue converted, in order. */
  ghost predicate SearchResultOf(settled: CacheState, markup: TextConverter.Markup, sr: Json, r: Result<Json>)
  {
    (sr == JNull ==> r == Ok(JNull)) &&
    (sr != JNull && Items(sr, "issues").None? ==> r == Err(NullDeref)) &&
    (sr != JNull && Items(sr, "issues").Some? ==>
      var issues := Items(sr, "issues").value;
      (r.Ok? ==> exists items :: ConvertedIssues(settled, markup, issues, items) && r.value == SearchPage(sr, items)) &&
      (r.Err? ==>
         exists i, items ::
           0 <= i < |issues| && IssueResultOf(settled, markup, issues[i], Err(r.error)) &&
           ConvertedIssues(settled, markup, issues[..i], items)))
  }

  /** The converter, with the field cache it resolves custom fields through, the markup
      libraries, and the zone offset (in minutes) date-times are sent in. */
  class IssueConverter {
    const cache: FieldsCache
    const markup: TextConverter.Markup
    const offset: int

    constructor (cache: FieldsCache, markup: TextConverter.Markup, offset: int)
      ensures this.cache == cache && this.markup == markup && this.offset == offset
    {
      this.cache := cache;
      this.markup := markup;
      this.offset := offset;
    }

    /** getCustomFields: each customfield_ key of the issue, in hash-map order, filed under its
        display name. */
    method GetCustomFields(fields: map<string, Json>) returns (r: Result<Json>)
      requires cache.Valid()
      modifies cache
      ensures cache.Valid() && cache.Settled() == old(cache.Settled())
      ensures CustomFieldsOf(old(cache.Settled()), fields, r)
    {
      ghost var settled := cache.Settled();
      var out: map<string, Json> := map[];
      var todo := fields.Keys;
      while todo != {}
        invariant todo <= fields.Keys
        invariant cache.Valid() && cache.Settled() == settled
        invariant forall k :: k in fields && k !in todo && IsCustomKey(k) ==> CustomIn(settled, fields, k).Ok?
        invariant forall k :: k in fields && k !in todo && IsCustomKey(k) && NameOf(Lookup(settled.byId, k)).Some? ==>
          NameOf(Lookup(settled.byId, k)).value in out
        invariant forall n :: n in out ==> exists k :: Written(settled, fields, k, n, out[n])
        decreases |todo|
      {
        var k :| k in todo;
        todo := todo - {k};
        if StartsWith(k, "customfield_") {
          var name := cache.GetCustomFieldName(k);
          var fieldType := cache.GetCustomFieldType(k);
          var isArray := cache.IsCustomFieldArray(k);
          if isArray.Err? {
            return Err(isArray.error);
          }
          var value := if isArray.value then ManyToApp(fields[k], fieldType) else ValueToApp(fields[k], fieldType);
          if value.Err? {
            return Err(value.error);
          }
          if name.Some? {
            assert Written(settled, fields, k, name.value, value.value);
            out := out[name.value := value.value];
          }
        }
      }
      return Ok(JMap(out));
    }

    /** fromJiraToApp: the sections in source order, custom fields through the cache, and the
        comments, work logs and attachments converted one by one. */
    method FromJiraToApp(issue: Json) returns (r: Result<Json>)
      requires cache.Valid()
      modifies cache
      ensures cache.Valid() && cache.Settled() == old(cache.Settled())
      ensures IssueResultOf(old(cache.Settled()), markup, issue, r)
    {
      ghost var settled := cache.Settled();
      ghost var anyCustom := CustomFieldsExist(settled, KeysOf(Nested(issue, "fields")));
      if issue == JNull || Nested(issue, "fields") == JNull {
        return Err(NullDeref);
      }
      var fields := Nested(issue, "fields");
      var header := HeaderPart(issue, fields);
      if header.Err? { return Err(header.error); }
      var times := TimePart(fields);
      if times.Err? { return Err(times.error); }
      var plan := PlanPart(fields);
      if plan.Err? { return Err(plan.error); }
      var people := PeoplePart(fields);
      if people.Err? { return Err(people.error); }
      var parent := IssueRef(Nested(fields, "parent"));
      if parent.Err? { return Err(parent.error); }
      var subTasks := ListOf(Ref, Items(fields, "subtasks"));
      if subTasks.Err? { return Err(subTasks.error); }
      var custom := GetCustomFields(KeysOf(fields));
      var text := TextPart(markup, fields, custom);
      if text.Err? { return Err(text.error); }

      var activity := ActivityFromJira(markup, fields);
      if activity.Err? { return Err(activity.error); }
      return Ok(JMap(header.value + times.value + plan.value + people.value + text.value + activity.value));
    }

    /** The custom-field loop of fromAppToJira: every input key the cache knows as a custom
        field name writes that field's id over the built-in fields. Field ids found by name
        are already cached, so the cache is neither refreshed nor changed. */
    method CustomFieldsToJira(input: map<string, Json>, builtin: map<string, Json>) returns (r: Result<map<string, Json>>)
      requires cache.Valid()
      modifies cache
      ensures cache.Valid() && cache.State() == old(cache.State()) && cache.fetches == old(cache.fetches)
      ensures r.Ok? <==> CustomOutOk(old(cache.State()), input, offset)
      ensures r.Ok? ==> OutFieldsOf(old(cache.State()), input, builtin, offset, r.value)
    {
      ghost var st := cache.State();
      var fields := builtin;
      var todo := input.Keys;
      while todo != {}
        invariant todo <= input.Keys
        invariant cache.Valid() && cache.State() == st && cache.fetches == old(cache.fetches)
        invariant OutSoFar(st, input, builtin, offset, input.Keys - todo, fields)
        decreases |todo|
      {
        var n :| n in todo;
        ghost var done := input.Keys - todo;
        todo := todo - {n};
        assert input.Keys - todo == done + {n};
        var id := cache.GetCustomFieldId(n);
        if id.Some? {
          SettledLookup(st, cache.remote, id.value);
          var fieldType := cache.GetCustomFieldType(id.value);
          var isArray := cache.IsCustomFieldArray(id.value);
          if isArray.Err? {
            assert CustomOut(st, input, n, offset).Err?;
            return Err(isArray.error);
          }
          var value := if isArray.value then ManyToJira(input[n], fieldType, offset)
                       else ValueToJira(input[n], fieldType, offset);
          assert value == CustomOut(st, input, n, offset);
          if value.Err? {
            return Err(value.error);
          }
          OutStep(st, input, builtin, offset, done, fields, n);
          fields := fields[id.value := value.value];
        }
      }
      OutDone(st, input, builtin, offset, fields);
      return Ok(fields);
    }

    /** fromAppToJira: the key when supplied, then the fields (built-ins, then custom fields). */
    method FromAppToJira(app: Json) returns (r: Result<Json>)
      requires cache.Valid()
      modifies cache
      ensures cache.Valid() && cache.State() == old(cache.State()) && cache.fetches == old(cache.fetches)
      ensures IssueToJiraOf(old(cache.State()), markup, app, offset, r)
    {
      if app == JNull {
        return Err(NullDeref);
      }
      var issue: map<string, Json> := map[];
      if Has(app, "key") {
        issue := issue["key" := Str(app, "key")];
      }
      assert issue == Put(map[], Has(app, "key"), "key", Str(app, "key"));
      var builtin := BuiltinToJira(markup, app);
      if builtin.Err? {
        return Err(builtin.error);
      }
      var fields := CustomFieldsToJira(KeysOf(app), builtin.value);
      if fields.Err? {
        return Err(fields.error);
      }
      return Ok(JMap(issue["fields" := JMap(fields.value)]));
    }

    /** searchResultFromJiraToApp: every issue of a search result, converted in order. */
    method SearchResultFromJiraToApp(sr: Json) returns (r: Result<Json>)
      requires cache.Valid()
      modifies cache
      ensures cache.Valid() && cache.Settled() == old(cache.Settled())
      ensures SearchResultOf(old(cache.Settled()), markup, sr, r)
    {
      if sr == JNull {
        return Ok(JNull);
      }
      var issues := Items(sr, "issues");
      if issues.None? {
        return Err(NullDeref);
      }
      ghost var settled := cache.Settled();
      var items: seq<Json> := [];
      for i := 0 to |issues.value|
        invariant cache.Valid() && cache.Settled() == settled
        invariant ConvertedIssues(settled, markup, issues.value[..i], items)
      {
        var item := FromJiraToApp(issues.value[i]);
        if item.Err? {
          return Err(item.error);
        }
        ConvertedStep(settled, markup, issues.value, i, items, item.value);
        items := items + [item.value];
      }
      assert issues.value[..|issues.value|] == issues.value;
      return Ok(SearchPage(sr, items));
    }
  }
}
