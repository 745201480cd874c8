# jira-endpoint, modelled in Dafny

This project models the core of the Slingr JIRA endpoint. The endpoint sits between an
application and a JIRA tracker:

- it converts the tracker's issue JSON into the application's format and back;
- it caches the tracker's field metadata, indexed by field id and by display name, so that
  custom fields (`customfield_NNNNN`) can be named and typed;
- it turns the tracker's webhooks into application events;
- it checks a search's page size and selects the workflow transition to perform.

Each Java class of that core has its own module:

| module | file | models |
|---|---|---|
| `Base`, `Strings`, `JsonValues` | base.dfy, strings.dfy, json.dfy | `Option`/`Result`, the Java exceptions as `Error` values, the string helpers, and the JSON values with the typed accessors the code relies on |
| `TimeUtils` | time_utils.dfy | `parseSeconds`, the `yyyy-MM-dd'T'HH:mm:ss.SSSZ` timestamps, and release dates in `dd/MMM/yy` |
| `TextConverter` | text_converter.dfy | the glue around the markup libraries (the libraries are function fields of `Markup`) |
| `Fields` | fields_cache.dfy | class `FieldsCache`, with its lazily refreshed two-index cache |
| `IssueValues` | issue_values.dfy | the per-type value conversions, enums, issue references and links, comments, work logs and attachments |
| `IssueConversion` | issue_converter.dfy | class `IssueConverter`: issues in both directions, custom fields and search pages |
| `JiraEvents` | jira_events.dfy | class `Events`: user and event detection, and the event payloads |
| `JiraApi` | jira_api.dfy | the `findIssues` guard and the transition selection of `doTransition` |
| `Endpoint` | jira_endpoint.dfy | class `JiraEndpoint`: `jiraWebhooks`, with the events sent kept as a log |

How the model handles Java behaviour:

- **Exceptions.** A `NullPointerException`, `ClassCastException`, `IllegalArgumentException` or
  `ParseException` the code can raise becomes an `Err` result at the point where the code
  raises it.
- **Cache state.** The field cache is a class whose methods update its two maps. A lookup of
  an unknown id refreshes the cache from the tracker's field listing. That listing is a
  constant of the cache (`remote`), so refreshing is idempotent. Every conversion is
  therefore specified against the settled state, `ApplyListing(state, remote)`, which no
  call changes.
- **Character data.** `Character.isWhitespace` is written out in full (`Strings.IsWhitespace`).
  The case mappings `Character.toUpperCase` and `toLowerCase` are Unicode tables, so transition
  names are matched under tables given as a parameter (`Strings.CaseMap`), with
  `equalsIgnoreCase`'s per-character test. Where one side is an ASCII literal (the `html` and
  `wiki` formats, the month names), the model folds the other side onto ASCII: the dotless i,
  the dotted capital I, the long s and the Kelvin sign fold onto i, i, s and k.
  `Strings.EqualsAsciiIgnoringCase` shows this is `equalsIgnoreCase` under any tables that
  agree with Java's on and into ASCII (`Strings.JavaCasesOnAscii`).
- **Map order.** The Java loops iterate over `HashMap` keys in no fixed order. Their methods
  choose a key arbitrarily, and their specifications (`CustomFieldsOf`, `OutFieldsOf`,
  `IssueResultOf`, …) hold whatever the order.

The code does some things that look unintended. The model follows the code in each case, and
the lemmas named state it:

- `reporter` and `creator` are both read from `assignee` (`IssueConversion.PeopleSection`).
- `contentUrl` is read as an integer, so a URL string comes out null
  (`IssueValues.ContentUrlIsLost`).
- A custom field the cache does not know has a null type. A Java `switch` on a null type
  throws, so the conversion fails rather than passing the value through
  (`IssueValues.ValueTable`).
- A field listed without `schema` has no array flag, and `isCustomFieldArray` unboxes null
  (`Fields.FieldsCache.IsCustomFieldArray`, `Fields.ArrayOf`).
- The name index is written only the first time an id is seen, so a renamed field keeps its
  old name key (`Fields.NameIndexOnFirstSight`, `Fields.NewNamesOnlyForNewIds`).
- The outbound custom-field loop visits every input key, built-in ones included, because the
  name index holds every field (`IssueConversion.OutFieldsUnique`,
  `IssueConversion.IssueConverter.CustomFieldsToJira`).
- A `customfield_*` in a changelog that the cache cannot resolve becomes null, not the raw
  id (`JiraEvents.UnknownCustomFieldIsNull`).
- Only the release of a version swallows a failed conversion
  (`Endpoint.OnlyReleasesSwallowFailures`).

## Model

All source paths are under `src/main/java/io/slingr/endpoints/jira/`.

| member | source | states |
|---|---|---|
| TimeUtils.ParseSeconds | src/main/java/io/slingr/endpoints/jira/converters/TimeUtils.java:29-34 | null seconds give 0; otherwise the result is a whole number of seconds in milliseconds, equal to seconds × 1000 |
| TimeUtils.ParseSecondsFitsLong | src/main/java/io/slingr/endpoints/jira/converters/TimeUtils.java:29-34 | any 32-bit seconds value, widened to long before the multiplication, gives milliseconds inside the 64-bit range, so there is no overflow |
| TimeUtils.ParseJiraDate | src/main/java/io/slingr/endpoints/jira/converters/TimeUtils.java:17-26 | null or blank text gives null; any other result is the instant of a timestamp that the text parses to under the tracker's pattern; unparseable text gives null rather than failing |
| TimeUtils.FormatJiraDate | src/main/java/io/slingr/endpoints/jira/converters/TimeUtils.java:44-50 | the result is null exactly when the instant is null |
| TimeUtils.FormatParseRoundTrip | src/main/java/io/slingr/endpoints/jira/converters/TimeUtils.java:13-26 | parsing the formatted text of an instant (years 1..9999, any zone offset under 24 h) gives back the same milliseconds, because both use one pattern |
| TimeUtils.RenderParse | src/main/java/io/slingr/endpoints/jira/converters/TimeUtils.java:13 | the pattern's text of any valid timestamp parses back to that same timestamp: year, month, day, time, milliseconds and zone offset |
| TimeUtils.PartsRoundTrip | src/main/java/io/slingr/endpoints/jira/converters/TimeUtils.java:13 | any separator-and-fixed-width-number layout reads back the numbers written into it, and leaves the rest of the text untouched |
| TimeUtils.FromMillisToMillis | src/main/java/io/slingr/endpoints/jira/converters/TimeUtils.java:44-50 | splitting an instant into calendar fields in a zone and recombining them gives back the instant |
| TimeUtils.CivilFromDays | src/main/java/io/slingr/endpoints/jira/converters/TimeUtils.java:44-50 | the calendar date of a day number is a valid proleptic Gregorian date whose day number is that day |
| TimeUtils.ParseVersionDate | src/main/java/io/slingr/endpoints/jira/converters/TimeUtils.java:36-42 | null or blank text gives null; a date is re-emitted as 10 characters (`yyyy-MM-dd`); the only failure is a parse failure |
| TimeUtils.VersionDateReformat | src/main/java/io/slingr/endpoints/jira/converters/TimeUtils.java:36-42 | every valid `dd/MMM/yy` release date is re-emitted as the same day in `yyyy-MM-dd` |
| TimeUtils.VersionDateExample | src/main/java/io/slingr/endpoints/jira/converters/TimeUtils.java:36-42 | `05/Jun/15` becomes `2015-06-05` |
| TimeUtils.SlashDateIsNoStamp | src/main/java/io/slingr/endpoints/jira/converters/TimeUtils.java:17-26 | any text whose first separator, within its first four characters, is a slash (a `dd/MMM/yy` release date) reads as a null timestamp |
| TimeUtils.DashDateIsNoRelease | src/main/java/io/slingr/endpoints/jira/converters/TimeUtils.java:36-42 | any text that starts with digits followed by a dash (a `yyyy-MM-dd` date or a timestamp) fails as a release date with a parse failure, rather than giving null |
| TimeUtils.MonthOfAbbrev | src/main/java/io/slingr/endpoints/jira/converters/TimeUtils.java:14 | each English month abbreviation is read back as its month (specifies `MonthOf`) |
| TimeUtils.MonthOf | src/main/java/io/slingr/endpoints/jira/converters/TimeUtils.java:14 | an `MMM` field read ignoring case names a month from 1 to 12, or none |
| TextConverter.ConvertWikiToText | src/main/java/io/slingr/endpoints/jira/converters/TextConverter.java:34-41 | null exactly when the input is null; the text starts and ends with no character at or below a space (trimmed) |
| TextConverter.ConvertTextToWiki | src/main/java/io/slingr/endpoints/jira/converters/TextConverter.java:52-54 | the identity |
| TextConverter.ConvertHtmlToWiki | src/main/java/io/slingr/endpoints/jira/converters/TextConverter.java:66-69 | equal to convertHtmlToText of the same input |
| TextConverter.ConvertTextToHtml | src/main/java/io/slingr/endpoints/jira/converters/TextConverter.java:43-50 | null exactly when the input is null; the result holds no newline, or is the input returned by the fallback |
| TextConverter.ReplaceNewlines | src/main/java/io/slingr/endpoints/jira/converters/TextConverter.java:46 | no newline is left, and on text without `<` every `<` of the result starts a `<br>` |
| TextConverter.ReplaceNewlinesInverse | src/main/java/io/slingr/endpoints/jira/converters/TextConverter.java:46 | on text without `<`, turning each `<br>` back into a newline restores the text |
| TextConverter.BodyFramed | src/main/java/io/slingr/endpoints/jira/converters/TextConverter.java:22-28 | when `<body>` ends before the first `</body>`, the extracted body is exactly what the two tags enclose at the first `<body>` (specifies `ConvertWikiToHtml`'s slice `BodyOf`) |
| TextConverter.BodyHasNoClosingTag | src/main/java/io/slingr/endpoints/jira/converters/TextConverter.java:22-28 | the extracted body never contains `</body>`: it ends at the first one |
| TextConverter.WikiToHtmlFallback | src/main/java/io/slingr/endpoints/jira/converters/TextConverter.java:15-32 | when rendering fails or yields no slice, the original wiki text is returned (specifies `ConvertWikiToHtml`) |
| TextConverter.MisorderedBody | src/main/java/io/slingr/endpoints/jira/converters/TextConverter.java:22-28 | whenever the first `</body>` starts before the first `<body>` ends, the substring call throws, so there is no slice |
| TextConverter.MisorderedFallsBack | src/main/java/io/slingr/endpoints/jira/converters/TextConverter.java:15-32 | a rendered document with tags in that order makes convertWikiToHtml give back the wiki text |
| TextConverter.MisorderedExample | src/main/java/io/slingr/endpoints/jira/converters/TextConverter.java:22-28 | an example: `</body><body>` has no slice |
| TextConverter.ConvertHtmlToText | src/main/java/io/slingr/endpoints/jira/converters/TextConverter.java:56-64 | null exactly when the input is null; the renderer's text of the unescaped HTML when it succeeds; the HTML as given, entities included, when it fails |
| Strings.TrimIsSlice | src/main/java/io/slingr/endpoints/jira/converters/TextConverter.java:38 | String.trim keeps a contiguous slice and drops only characters at or below a space, from both ends |
| Strings.TrimIdempotent | src/main/java/io/slingr/endpoints/jira/converters/TextConverter.java:38 | trimming twice is trimming once |
| Strings.EqualsAsciiIgnoringCase | src/main/java/io/slingr/endpoints/jira/converters/IssueConverter.java:257 | against an ASCII string such as `html`, `equalsIgnoreCase` under any case tables that agree with Java's on and into ASCII is equality once the other string is folded onto ASCII (both argument orders) |
| Strings.SameAsAscii | src/main/java/io/slingr/endpoints/jira/converters/IssueConverter.java:257 | the same for one character: it matches an ASCII character ignoring case exactly when the two fold to the same ASCII character |
| Strings.IndexOf | src/main/java/io/slingr/endpoints/jira/converters/TextConverter.java:22-23 | String.indexOf: -1 exactly when the pattern occurs nowhere; otherwise the first position where it occurs |
| Fields.FieldsCache.constructor | src/main/java/io/slingr/endpoints/jira/services/FieldsCache.java:16-21 | both indexes start empty, over the tracker's field listing |
| Fields.FieldsCache.Refresh | src/main/java/io/slingr/endpoints/jira/services/FieldsCache.java:23-45 | the new state is the listing applied element by element to the old one; one fetch is made; the cache stays valid, and its state is the settled one |
| Fields.FieldsCache.Upsert | src/main/java/io/slingr/endpoints/jira/services/FieldsCache.java:26-43 | one listing element is applied to the state, with no fetch |
| Fields.ApplyListingGrows | src/main/java/io/slingr/endpoints/jira/services/FieldsCache.java:23-45 | refresh removes no entry from either index; every listed id ends up cached; no other id is added |
| Fields.KnownAfterRefresh | src/main/java/io/slingr/endpoints/jira/services/FieldsCache.java:23-45 | an id is cached after refresh exactly when it was cached before or is listed |
| Fields.LastListingWins | src/main/java/io/slingr/endpoints/jira/services/FieldsCache.java:27-43 | an id's entry is the one its last listing element leaves |
| Fields.SchemaHandling | src/main/java/io/slingr/endpoints/jira/services/FieldsCache.java:33-43 | id and name are always the listed ones; an `array` schema sets array and the item type; any other schema clears array and sets its type; no schema keeps the old flag and type, or none for a new id |
| Fields.NameIndexOnFirstSight | src/main/java/io/slingr/endpoints/jira/services/FieldsCache.java:27-32 | an id already cached leaves the name index unchanged, even when renamed; a new id is filed under its name |
| Fields.NewNamesOnlyForNewIds | src/main/java/io/slingr/endpoints/jira/services/FieldsCache.java:27-32 | every name that refresh adds points to an id that was not cached before |
| Fields.ApplyListingConsistent | src/main/java/io/slingr/endpoints/jira/services/FieldsCache.java:23-45 | refresh keeps the indexes consistent: every name points to a cached entry, each entry is filed under its own id, and no two names share one |
| Fields.RefreshIdempotent | src/main/java/io/slingr/endpoints/jira/services/FieldsCache.java:23-45 | applying the same listing twice is applying it once |
| Fields.RefreshSettles | src/main/java/io/slingr/endpoints/jira/services/FieldsCache.java:23-45 | after one refresh the indexes are consistent, and a second refresh changes nothing |
| Fields.SettledLookup | src/main/java/io/slingr/endpoints/jira/services/FieldsCache.java:79-89 | an id found without a refresh has the entry the settled cache holds for it |
| Fields.FieldsCache.GetFieldById | src/main/java/io/slingr/endpoints/jira/services/FieldsCache.java:79-89 | a cached id changes nothing and fetches nothing; an absent id refreshes exactly once; the result is the settled entry, or null if still absent |
| Fields.FieldsCache.GetCustomFieldType | src/main/java/io/slingr/endpoints/jira/services/FieldsCache.java:55-61 | the settled entry's type, or null; no refresh for a cached id |
| Fields.FieldsCache.GetCustomFieldName | src/main/java/io/slingr/endpoints/jira/services/FieldsCache.java:63-69 | the settled entry's name, or null; no refresh for a cached id |
| Fields.FieldsCache.IsCustomFieldArray | src/main/java/io/slingr/endpoints/jira/services/FieldsCache.java:71-77 | the settled entry's array flag; false for an unknown id; a failure when the entry has no flag (unboxing null) |
| Fields.FieldsCache.GetCustomFieldId | src/main/java/io/slingr/endpoints/jira/services/FieldsCache.java:47-53 | the id the name index holds, without any refresh and without changing the cache; that id names a cached entry filed under it |
| IssueValues.ValueTable | src/main/java/io/slingr/endpoints/jira/converters/IssueConverter.java:360-425 | null gives null in both directions; a non-null value with an unresolved (null) type fails; string, number, date and unknown types are the identity; named types go out as `{name: v}` and a project as `{key: v}` (specifies `ValueToApp` and `ValueToJira`) |
| IssueValues.NamedRoundTrip | src/main/java/io/slingr/endpoints/jira/converters/IssueConverter.java:373-414 | a name sent out as `{name: v}` for a named type is read back with the same name (specifies `ValueToApp` and `ValueToJira`) |
| IssueValues.DateTimeRoundTrip | src/main/java/io/slingr/endpoints/jira/converters/IssueConverter.java:370-371 | a datetime sent out and read back is the same milliseconds (specifies `ValueToApp` and `ValueToJira`) |
| IssueValues.DateTimeCase | src/main/java/io/slingr/endpoints/jira/converters/IssueConverter.java:370-371 | outbound a datetime must be a long and is formatted; inbound it must be a string and is parsed; anything else is a class-cast failure (specifies `ValueToApp` and `ValueToJira`) |
| IssueValues.ConvertEnum | src/main/java/io/slingr/endpoints/jira/converters/IssueConverter.java:427-440 | the loop over the extra fields builds the enum value |
| IssueValues.EnumShape | src/main/java/io/slingr/endpoints/jira/converters/IssueConverter.java:427-440 | `id` is present exactly when the source has one; `name` is always there; every extra field is copied; no other key appears |
| IssueValues.ApplyAll | src/main/java/io/slingr/endpoints/jira/converters/IssueConverter.java:322-358 | a list converts when every element converts, giving one converted element per element in order |
| IssueValues.ApplyAllFirstError | src/main/java/io/slingr/endpoints/jira/converters/IssueConverter.java:322-358 | a failed list conversion fails with the error of its first failing element |
| IssueValues.ApplyAllStopsAtFailure | src/main/java/io/slingr/endpoints/jira/converters/IssueConverter.java:322-358 | once a prefix fails, the rest of the list does not change the outcome |
| IssueValues.ConvertEach | src/main/java/io/slingr/endpoints/jira/converters/IssueConverter.java:328-333 | the push loop computes the element-wise conversion |
| IssueValues.ManyOnBareValue | src/main/java/io/slingr/endpoints/jira/converters/IssueConverter.java:335-357 | inbound, a bare value is wrapped into a one-element list; outbound, a non-list becomes an empty list (specifies `ManyToApp` and `ManyToJira`) |
| IssueValues.ManyOnList | src/main/java/io/slingr/endpoints/jira/converters/IssueConverter.java:322-358 | a list converts element by element, keeping length and order, in both directions (specifies `ManyToApp` and `ManyToJira`) |
| IssueValues.IssueRef | src/main/java/io/slingr/endpoints/jira/converters/IssueConverter.java:442-451 | null gives null; otherwise exactly `id`, `key` and `summary`, failing when `fields` is missing |
| IssueValues.IssueLink | src/main/java/io/slingr/endpoints/jira/converters/IssueConverter.java:465-468 | null gives null |
| IssueValues.ListOf | src/main/java/io/slingr/endpoints/jira/converters/IssueConverter.java:453-463 | `issueRefs` (and `issueLinks`, lines 484-494): a null list gives null; otherwise it converts exactly when every element does, giving one converted entry per element, in order |
| IssueValues.LinkRelationship | src/main/java/io/slingr/endpoints/jira/converters/IssueConverter.java:465-482 | with `outwardIssue` the link is that issue's reference plus `relationship` = `type.outward`; otherwise it is `inwardIssue`'s plus `type.inward` |
| IssueValues.CommentToApp | src/main/java/io/slingr/endpoints/jira/converters/IssueConverter.java:237-246 | a converted comment has exactly the keys id, author, created, bodyHtml, bodyText and bodyWiki |
| IssueValues.CommentBodies | src/main/java/io/slingr/endpoints/jira/converters/IssueConverter.java:237-246 | every non-null comment converts, with exactly its six keys; `id` is copied, `author` is the user conversion of the author, `created` the parsed date; `bodyWiki` is the raw body; `bodyText` is null exactly when the body is, and is trimmed |
| IssueValues.WorkLogFields | src/main/java/io/slingr/endpoints/jira/converters/IssueConverter.java:275-286 | every non-null work log converts, with exactly its eight keys; `id` is copied, `author` is the user conversion of the author, `created` and `started` the parsed dates; `timeSpent` is the seconds in milliseconds, 0 when missing; `commentWiki` is the raw comment; `commentText` is null exactly when the comment is, and is trimmed (specifies `WorkLogToApp`) |
| IssueValues.AttachmentFields | src/main/java/io/slingr/endpoints/jira/converters/IssueConverter.java:294-304 | every non-null attachment converts, with exactly its seven keys; `id`, `filename` and `mimeType` are copied, `author` is the user conversion of the author, `created` the parsed date; `size` and `contentUrl` keep a number, read a string as the integer it parses as (signed or not), and are null for a string that does not parse and for any other value (specifies `AttachmentToApp`) |
| IssueValues.AuthorConverts | src/main/java/io/slingr/endpoints/jira/converters/IssueConverter.java:240 | the author of a comment, work log or attachment always passes the user conversion, whatever the record holds |
| IssueValues.CommentBodyFormats | src/main/java/io/slingr/endpoints/jira/converters/IssueConverter.java:254-267 | `issueKey` is copied; an `html` body (ignoring case) is converted from HTML; any other body is sent as given (specifies `CommentToJira`) |
| IssueValues.ContentUrlIsLost | src/main/java/io/slingr/endpoints/jira/converters/IssueConverter.java:294-304 | every attachment whose `contentUrl` is a URL (any string with a scheme colon) converts, and with a null `contentUrl` (specifies `AttachmentToApp`) |
| IssueConversion.HeaderPart | src/main/java/io/slingr/endpoints/jira/converters/IssueConverter.java:50-59 | sets exactly id, key, issueType, subTask and project |
| IssueConversion.SubTaskFlag | src/main/java/io/slingr/endpoints/jira/converters/IssueConverter.java:54-58 | `subTask` is true exactly when `issuetype` is present and its `subtask` is true |
| IssueConversion.TimeSection | src/main/java/io/slingr/endpoints/jira/converters/IssueConverter.java:60-65 | time spent, estimate and original estimate are the source seconds × 1000, with 0 when missing |
| IssueConversion.TimeDefaults | src/main/java/io/slingr/endpoints/jira/converters/IssueConverter.java:66-99 | without `timetracking`, remainingEstimate is 0; without `progress` or `aggregateprogress`, that record is all zeros |
| IssueConversion.TimeMap | src/main/java/io/slingr/endpoints/jira/converters/IssueConverter.java:60-100 | the time section is exactly the nine time keys, each computed from its source field |
| IssueConversion.ProgressExact | src/main/java/io/slingr/endpoints/jira/converters/IssueConverter.java:71-78 | `percent` × 100 is exactly the source percentage, with 0 when missing; progress and total are seconds × 1000 |
| IssueConversion.ProgressRecord | src/main/java/io/slingr/endpoints/jira/converters/IssueConverter.java:86-93 | the same for any progress record, `aggregateprogress` included |
| IssueConversion.PlanPart | src/main/java/io/slingr/endpoints/jira/converters/IssueConverter.java:101-110 | sets exactly versions, fixVersions, status, created, updated, dueDate, resolution, resolutionDate, priority and labels |
| IssueConversion.PlanSection | src/main/java/io/slingr/endpoints/jira/converters/IssueConverter.java:101-110 | `created`, `updated` and `resolutionDate` are the parsed timestamps; `dueDate` and `labels` are copied; versions and fixVersions are the many-value conversions; status, resolution and priority are their value conversions (specifies `PlanPart`) |
| IssueConversion.TextPart | src/main/java/io/slingr/endpoints/jira/converters/IssueConverter.java:122-128 | sets exactly summary, descriptionHtml, descriptionText, descriptionWiki, parent, subTasks and customFields |
| IssueConversion.TextSection | src/main/java/io/slingr/endpoints/jira/converters/IssueConverter.java:122-128 | `customFields` is the outcome of getCustomFields; `summary` is copied; `descriptionWiki` is the raw description and `descriptionHtml`/`descriptionText` its renderings by the text converter; `parent` and `subTasks` are issue references (specifies `TextPart`) |
| IssueConversion.PeopleSection | src/main/java/io/slingr/endpoints/jira/converters/IssueConverter.java:114-121 | `votes` is 0 when absent; assignee is the converted user; reporter and creator equal the assignee |
| IssueConversion.ActivitySection | src/main/java/io/slingr/endpoints/jira/converters/IssueConverter.java:129-149 | `comments`, `workLogs` and `attachments` appear exactly when their source collection does; comments, work logs and attachments each hold one converted item per source item, in order |
| IssueConversion.WorkLogsPresent | src/main/java/io/slingr/endpoints/jira/converters/IssueConverter.java:136-142 | `workLogs` is set exactly when `worklog.worklogs` is present, and then holds one converted work log per source work log, in order |
| IssueConversion.ActivityFromJira | src/main/java/io/slingr/endpoints/jira/converters/IssueConverter.java:129-149 | the three push loops compute the activity section |
| IssueConversion.Assembled | src/main/java/io/slingr/endpoints/jira/converters/IssueConverter.java:48-151 | a converted issue holds each section's value under each of its keys, and the activity keys exactly when the activity section has them (specifies `IssueToApp`) |
| IssueConversion.HeaderKeysDisjoint | src/main/java/io/slingr/endpoints/jira/converters/IssueConverter.java:48-151 | no key of the issue is written by two sections, so no `set` overwrites another |
| IssueConversion.IssueConverter.constructor | src/main/java/io/slingr/endpoints/jira/JiraEndpoint.java:47-48 | a converter over the endpoint's field cache |
| IssueConversion.IssueConverter.GetCustomFields | src/main/java/io/slingr/endpoints/jira/converters/IssueConverter.java:306-320 | fails exactly when some `customfield_*` key fails to convert (with that key's error); otherwise every resolved name is a key, and every key is a name the cache gives to some custom field key, holding that field's value converted by its type and array flag |
| IssueConversion.IssueConverter.FromJiraToApp | src/main/java/io/slingr/endpoints/jira/converters/IssueConverter.java:48-151 | the issue conversion, with the custom fields as above, against the settled cache |
| IssueConversion.IssueConverter.SearchResultFromJiraToApp | src/main/java/io/slingr/endpoints/jira/converters/IssueConverter.java:27-39 | null gives null; otherwise `total` is copied and `items` holds one converted issue per `issues` element, in order; a failure is the first failing issue's |
| IssueConversion.PartialUpdate | src/main/java/io/slingr/endpoints/jira/converters/IssueConverter.java:162-214 | each built-in output field is written exactly when its input key is present, and nothing else is |
| IssueConversion.NamedLists | src/main/java/io/slingr/endpoints/jira/converters/IssueConverter.java:201-214 | `versions` and `components` map each name to `{name: s}`, keeping length and order |
| IssueConversion.NameList | src/main/java/io/slingr/endpoints/jira/converters/IssueConverter.java:203-205 | one `{name: s}` per input element, in order |
| IssueConversion.NamesToJira | src/main/java/io/slingr/endpoints/jira/converters/IssueConverter.java:202-206 | the push loop computes that list |
| IssueConversion.DescriptionOut | src/main/java/io/slingr/endpoints/jira/converters/IssueConverter.java:174-185 | `description` is written only when supplied, converted from HTML, kept as wiki, or taken as text by `descriptionFormat` |
| IssueConversion.BuiltinToJira | src/main/java/io/slingr/endpoints/jira/converters/IssueConverter.java:162-214 | computes the built-in outbound fields |
| IssueConversion.OutFieldsUnique | src/main/java/io/slingr/endpoints/jira/converters/IssueConverter.java:216-226 | the outbound fields do not depend on the order in which the input keys are visited |
| IssueConversion.IssueConverter.CustomFieldsToJira | src/main/java/io/slingr/endpoints/jira/converters/IssueConverter.java:216-226 | every input key the name index resolves writes its id's converted value (by that id's type and array flag); unresolved keys are dropped; nothing is refreshed; fails exactly when a resolved key fails |
| IssueConversion.IssueConverter.FromAppToJira | src/main/java/io/slingr/endpoints/jira/converters/IssueConverter.java:159-229 | `key` only when supplied; `fields` holds the built-in fields and the resolved custom fields; the cache is left unchanged |
| JiraEvents.DetectUser | src/main/java/io/slingr/endpoints/jira/services/JiraEvents.java:27-33 | `user.name` when `user` is present, `__system_user__` otherwise; fails on a null body |
| JiraEvents.DetectEvent | src/main/java/io/slingr/endpoints/jira/services/JiraEvents.java:35-56 | fails exactly when `webhookEvent` is missing (a switch on null) |
| JiraEvents.DetectEventTable | src/main/java/io/slingr/endpoints/jira/services/JiraEvents.java:35-56 | each known event gives its kind; an update is a new comment exactly when the body has `comment`; every other event is unknown |
| JiraEvents.NamesDistinct | src/main/java/io/slingr/endpoints/jira/services/JiraEvents.java:35-56 | the kinds have distinct names |
| JiraEvents.ModifiedNames | src/main/java/io/slingr/endpoints/jira/services/JiraEvents.java:67-73 | fails exactly when an item has no `field`; otherwise one entry per item, in order |
| JiraEvents.ModifiedFieldsOrder | src/main/java/io/slingr/endpoints/jira/services/JiraEvents.java:63-76 | `modifiedFields` matches `changelog.items` in length and order; plain names are kept verbatim, and `customfield_*` ones are replaced by the cache's name (specifies `ModifiedFields`) |
| JiraEvents.ModifiedFieldsAbsent | src/main/java/io/slingr/endpoints/jira/services/JiraEvents.java:65-75 | no `changelog`, or no `items`, gives an empty list (specifies `ModifiedFields`) |
| JiraEvents.UnknownCustomFieldIsNull | src/main/java/io/slingr/endpoints/jira/services/JiraEvents.java:69-72 | an unresolved `customfield_*` gives a null entry |
| JiraEvents.Events.ChangedFieldNames | src/main/java/io/slingr/endpoints/jira/services/JiraEvents.java:65-74 | the loop computes the modified field names against the settled cache |
| JiraEvents.Events.constructor | src/main/java/io/slingr/endpoints/jira/services/JiraEvents.java:21-25 | events over the endpoint's converter and cache |
| JiraEvents.Events.ConvertCreatedIssue | src/main/java/io/slingr/endpoints/jira/services/JiraEvents.java:58-61 | the issue conversion of `issue` |
| JiraEvents.Events.ConvertDeletedIssue | src/main/java/io/slingr/endpoints/jira/services/JiraEvents.java:79-82 | the issue conversion of `issue` |
| JiraEvents.Events.ConvertUpdatedIssue | src/main/java/io/slingr/endpoints/jira/services/JiraEvents.java:63-77 | the issue conversion of `issue` plus `modifiedFields` |
| JiraEvents.ConvertCreatedComment | src/main/java/io/slingr/endpoints/jira/services/JiraEvents.java:84-88 | succeeds exactly when the comment converts and `issue` is present |
| JiraEvents.CreatedCommentAddsKey | src/main/java/io/slingr/endpoints/jira/services/JiraEvents.java:84-88 | the event is the converted comment plus `issueKey` = `issue.key`, and nothing else changes |
| JiraEvents.ConvertReleasedVersion | src/main/java/io/slingr/endpoints/jira/services/JiraEvents.java:90-99 | a release event has exactly id, name, description, releaseDate and project |
| JiraEvents.ReleasedVersionSources | src/main/java/io/slingr/endpoints/jira/services/JiraEvents.java:90-99 | id comes from the body; name and description from `version`; releaseDate via the release-date parser (whose failure propagates); project is the looked-up project's key (a null project fails) |
| JiraApi.FindIssuesRequest | src/main/java/io/slingr/endpoints/jira/services/JiraApi.java:22-36 | a size over 1000 fails with "Size cannot be greater than 1,000" before any request; `jql` is the query; `startAt` and `maxResults` are set only from a non-empty offset and size |
| JiraApi.PageSizesAccepted | src/main/java/io/slingr/endpoints/jira/services/JiraApi.java:29-34 | every size up to 1000 is accepted and passed on as given |
| JiraApi.FirstMatch | src/main/java/io/slingr/endpoints/jira/services/JiraApi.java:87-94 | the position of the first transition whose id equals the request, or whose name equals it ignoring case under the given character case tables; none when none matches; a null transition before a match fails |
| JiraApi.SelectTransition | src/main/java/io/slingr/endpoints/jira/services/JiraApi.java:87-94 | the loop stops at the first match |
| JiraApi.TransitionChosen | src/main/java/io/slingr/endpoints/jira/services/JiraApi.java:67-97 | a successful transition has a key and a non-blank request; a non-empty transitionId wins over transitionName; the chosen id is that of the first match in list order (specifies `Transition`) |
| JiraApi.NoMatchRefused | src/main/java/io/slingr/endpoints/jira/services/JiraApi.java:95-97 | no match fails with an error naming the transition and the issue (specifies `Transition`) |
| JiraApi.DoTransition | src/main/java/io/slingr/endpoints/jira/services/JiraApi.java:67-97 | an empty issueKey fails before the transitions are fetched, and is the only check that precedes the fetch; then blank requests, missing transitions and unmatched requests are refused in that order |
| Endpoint.Topic | src/main/java/io/slingr/endpoints/jira/JiraEndpoint.java:149-197 | every kind except unknown is sent under its own event name |
| Endpoint.TopicsDistinct | src/main/java/io/slingr/endpoints/jira/JiraEndpoint.java:149-193 | different kinds are sent under different names |
| Endpoint.JiraEndpoint.constructor | src/main/java/io/slingr/endpoints/jira/JiraEndpoint.java:46-49 | an endpoint with its user name, converters and project lookup, and nothing sent yet |
| Endpoint.JiraEndpoint.Send | src/main/java/io/slingr/endpoints/jira/JiraEndpoint.java:154 | appends one event to those sent |
| Endpoint.JiraEndpoint.JiraWebhooks | src/main/java/io/slingr/endpoints/jira/JiraEndpoint.java:140-202 | only appends to the events sent; an event caused by the endpoint's own user sends nothing and is answered ok; otherwise the event is routed by kind; the cache stays settled |
| Endpoint.JiraEndpoint.Dispatch | src/main/java/io/slingr/endpoints/jira/JiraEndpoint.java:149-197 | each kind converts its event and sends it under its name; a version release that fails sends nothing; unknown sends nothing |
| Endpoint.JiraEndpoint.Deliver | src/main/java/io/slingr/endpoints/jira/JiraEndpoint.java:153-157 | a converted event is sent and answered ok; a failed conversion propagates and sends nothing |
| Endpoint.OneEventAtMost | src/main/java/io/slingr/endpoints/jira/JiraEndpoint.java:140-202 | at most one event is sent per webhook, under its kind's name and only for events of other users; every non-failing answer is `{status: "ok"}` |
| Endpoint.OnlyReleasesSwallowFailures | src/main/java/io/slingr/endpoints/jira/JiraEndpoint.java:183-194 | for every kind other than version-released and unknown, the answer is ok exactly when the event was sent |
| Endpoint.HandledShape | src/main/java/io/slingr/endpoints/jira/JiraEndpoint.java:149-201 | the same per kind: at most one event, under the kind's name, and an ok answer is `{status: "ok"}` |

## Left out

- **The Json helper** (`io.slingr.endpoints.utils.Json`) is not part of this model. Its
  behaviour is assumed:
  - `contains` and `isEmpty` treat a key holding null as absent;
  - a typed read of a value of another type gives null;
  - `integer` also reads a string of decimal digits;
  - the shape of an integer (int or long) and the scale of a `BigDecimal` are not kept. A
    decimal is an exact rational number.
- **HTTP and authentication** are not modelled. The tracker's answers are inputs:
  - the field listing is a constant of the cache, and is the same on every refresh;
  - `findProject` is a function parameter;
  - the valid transitions of `doTransition` come from a function parameter;
  - the GET of `findIssues` is not modelled: the model stops at the query it would send;
  - `doTransition` stops at the body it would POST. The POST, the error raised on a null
    answer and the final `findIssue` are left out.
- JiraEndpoint's function wrappers, `endpointStarted`, the retry settings, logging and the
  credentials are left out. None of them has logic beyond one call.
- JAX-RS drops a query parameter whose value is null. The model keeps a null `jql` as null.
- A null configured user name, on which `username.equals` would throw, is not modelled.
- **The markup libraries** (the mylyn Confluence parser, the jericho renderer, commons-lang
  `escapeHtml`) are uninterpreted functions. They are supplied in `Markup`, each with its
  failure as `None`.
- **TimeUtils:**
  - the JVM default zone is a fixed offset in minutes, given as a parameter. Daylight-saving
    rules are not modelled;
  - month names are the English ones, not locale-dependent;
  - `SimpleDateFormat` leniency is not modelled: only text in the exact layout parses;
  - the two-digit year `yy` is read as 20yy rather than by the 80/20 pivot;
  - the calendar is proleptic Gregorian, with no Julian cutover.
- TimeUtils.FormatParseRoundTrip: stated only for years 1 to 9999 and offsets under 24
  hours. Other years do not print as four digits.
- IssueConversion.IssueConverter.FromAppToJira: the `strings()` read of `labels`, `versions`
  and `components` turns a non-string element into its text. The model passes such an
  element through unchanged.
- Fields.FieldsCache.Refresh: a listing element without an id or a name, and a custom field
  whose name is null, are not modelled. Ids and names are strings.
- Concurrency is not modelled: the thread-unsafety of the shared `SimpleDateFormat` objects,
  and refreshes that race in FieldsCache.
- IssueValues.CommentToApp and IssueValues.WorkLogToApp: the HTML renderings (`bodyHtml`,
  `commentHtml`) are the markup library's output and are stated only by the definitions.
- IssueConversion.IssueConverter.GetCustomFields: for a custom field the cache cannot name, the
  Java code calls `Json.set` with a null key, whose effect belongs to the Json helper. The
  model files nothing for such a field.
- Strings.JavaCasesOnAscii: the facts it lists about Java's case tables come from the Unicode
  data and are taken as given, not derived.
- Strings.IsWhitespace follows the current Unicode data. Under Java 8 (Unicode 6.2) the
  Mongolian vowel separator U+180E is also whitespace; the model leaves it out.
- Strings.AllDigits: only ASCII digits count. `Integer.parseInt` and the numeric fields of
  `SimpleDateFormat` also accept the other Unicode decimal digits.
