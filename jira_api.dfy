/// JiraApi: the checks the REST client makes before it talks to the tracker. The HTTP calls
/// themselves are not modelled: a request is described by the value that would be sent, and
/// what the tracker answers is an input.
module JiraApi {
  import opened Base
  import opened Strings
  import opened JsonValues

  // ---------------------------------------------------------------------------------------
  // findIssues

  /** The largest page the search accepts. */
  const MaxPageSize: int := 1000
  const SizeTooLarge: string := "Size cannot be greater than 1,000"

  /** The query of GET /search: jql, and startAt and maxResults when set. */
  datatype SearchQuery = SearchQuery(jql: Json, startAt: Option<int>, maxResults: Option<int>)

  /** findIssues: the search request for the given parameters, or the failure raised before
      any request is made. A size over the limit fails; a size that is not a number fails when
      it is compared (unboxing null). Offset and size are passed on only when not empty. */
  function FindIssuesRequest(params: Json): (r: Result<SearchQuery>)
    ensures params != JNull && Int(params, "size").Some? && Int(params, "size").value > MaxPageSize ==>
      r == Err(IllegalArgument(SizeTooLarge))
    ensures r.Ok? ==> r.value.jql == Str(params, "query")
    ensures r.Ok? ==> (r.value.startAt.Some? ==> !IsEmpty(params, "offset")) &&
                      (!IsEmpty(params, "offset") ==> r.value.startAt == Int(params, "offset"))
    ensures r.Ok? ==> (r.value.maxResults.Some? <==> !IsEmpty(params, "size")) &&
                      (r.value.maxResults.Some? ==> r.value.maxResults == Int(params, "size") &&
                                                    r.value.maxResults.value <= MaxPageSize)
  {
    if params == JNull then Err(NullDeref)
    else
      var startAt := if IsEmpty(params, "offset") then None else Int(params, "offset");
      var maxResults :-
        if IsEmpty(params, "size") then Ok(None)
        else match Int(params, "size")
          case None => Err(NullDeref)
          case Some(n) => if n > MaxPageSize then Err(IllegalArgument(SizeTooLarge)) else Ok(Some(n));
      Ok(SearchQuery(Str(params, "query"), startAt, maxResults))
  }

  /** Every page size up to the limit is accepted and passed on as given. */
  lemma PageSizesAccepted(params: Json, n: int)
    requires params != JNull && Get(params, "size") == JInt(n) && n <= MaxPageSize
    ensures FindIssuesRequest(params).Ok? && FindIssuesRequest(params).value.maxResults == Some(n)
  {
    assert !IsEmpty(params, "size");
  }

  // ---------------------------------------------------------------------------------------
  // doTransition

  const NoIssueKey: string := "You need to specify issueKey"
  const NoTransition: string := "You have to specify either transitionId or transitionName"

  /** The body of POST /issue/{issueKey}/transitions: {transition: {id: transitionId}}. */
  datatype TransitionPost = TransitionPost(issueKey: Option<string>, transitionId: Option<string>)

  /** StringUtils.isBlank, where null is blank. */
  predicate Blank(s: Option<string>)
  {
    s.None? || IsBlank(s.value)
  }

  /** A nullable string as String.format's %s shows it. */
  function Shown(s: Option<string>): string
  {
    if s.Some? then s.value else "null"
  }

  /** The transition asked for: transitionId when not empty, otherwise transitionName. */
  function Requested(info: Json): Option<string>
  {
    if !IsEmpty(info, "transitionId") then AsString(Str(info, "transitionId"))
    else AsString(Str(info, "transitionName"))
  }

  /** A transition matches when its id equals the request, or its name equals it ignoring case
      under the JVM's case tables. */
  predicate Matches(cases: CaseMap, transition: string, t: Json)
  {
    AsString(Str(t, "id")) == Some(transition) ||
    (AsString(Str(t, "name")).Some? && EqualsIgnoreCase(cases, transition, AsString(Str(t, "name")).value))
  }

  /** The position of the first matching transition, None when none matches; reading a null
      transition before a match fails. */
  function FirstMatch(cases: CaseMap, transition: string, ts: seq<Json>): (r: Result<Option<nat>>)
    ensures r.Ok? && r.value.Some? ==>
      r.value.value < |ts| && Matches(cases, transition, ts[r.value.value]) &&
      forall j :: 0 <= j < r.value.value ==> ts[j] != JNull && !Matches(cases, transition, ts[j])
    ensures r == Ok(None) ==> forall j :: 0 <= j < |ts| ==> ts[j] != JNull && !Matches(cases, transition, ts[j])
    ensures r.Err? ==>
      r.error == NullDeref &&
      exists j :: 0 <= j < |ts| && ts[j] == JNull && forall i :: 0 <= i < j ==> !Matches(cases, transition, ts[i])
  {
    if |ts| == 0 then Ok(None)
    else if ts[0] == JNull then Err(NullDeref)
    else if Matches(cases, transition, ts[0]) then Ok(Some(0))
    else
      var rest :- FirstMatch(cases, transition, ts[1..]);
      if rest.None? then Ok(None) else Ok(Some(rest.value + 1))
  }

  /** doTransition up to the POST: which transition of the issue to perform, or the error
      raised instead. valid is what the tracker lists as the issue's transitions; cases are the
      JVM's character case mappings. */
  function Transition(cases: CaseMap, info: Json, valid: Json): Result<TransitionPost>
  {
    if info == JNull then Err(NullDeref)
    else if IsEmpty(info, "issueKey") then Err(IllegalArgument(NoIssueKey))
    else
      var key := AsString(Str(info, "issueKey"));
      var transition := Requested(info);
      if Blank(transition) then Err(IllegalArgument(NoTransition))
      else if valid == JNull || IsEmpty(valid, "transitions") then
        Err(IllegalArgument("There are no possible transitions for issue [" + Shown(key) + "]"))
      else match Items(valid, "transitions")
        case None => Err(NullDeref)
        case Some(ts) =>
          var found :- FirstMatch(cases, transition.value, ts);
          if found.None? then
            Err(IllegalArgument("Transition [" + transition.value + "] is not valid for issue [" + Shown(key) + "]"))
          else Ok(TransitionPost(key, AsString(Str(ts[found.value], "id"))))
  }

  /** The transition performed is the first one listed that matches what was asked for, with
      transitionId taking precedence over transitionName. */
  lemma TransitionChosen(cases: CaseMap, info: Json, valid: Json)
    requires Transition(cases, info, valid).Ok?
    ensures !IsEmpty(info, "issueKey") && !Blank(Requested(info))
    ensures !IsEmpty(info, "transitionId") ==> Requested(info) == AsString(Str(info, "transitionId"))
    ensures var ts := Items(valid, "transitions");
      ts.Some? &&
      exists i :: 0 <= i < |ts.value| && Matches(cases, Requested(info).value, ts.value[i]) &&
        Transition(cases, info, valid).value == TransitionPost(AsString(Str(info, "issueKey")), AsString(Str(ts.value[i], "id"))) &&
        forall j :: 0 <= j < i ==> !Matches(cases, Requested(info).value, ts.value[j])
  {
    var ts := Items(valid, "transitions").value;
    var i := FirstMatch(cases, Requested(info).value, ts).value.value;
    assert Matches(cases, Requested(info).value, ts[i]);
  }

  /** A request every listed transition fails to match is refused, naming the transition and
      the issue. */
  lemma NoMatchRefused(cases: CaseMap, info: Json, valid: Json, ts: seq<Json>)
    requires info != JNull && !IsEmpty(info, "issueKey") && !Blank(Requested(info))
    requires Get(valid, "transitions") == JList(ts) && ts != []
    requires forall j :: 0 <= j < |ts| ==> ts[j] != JNull && !Matches(cases, Requested(info).value, ts[j])
    ensures Transition(cases, info, valid) ==
      Err(IllegalArgument("Transition [" + Requested(info).value + "] is not valid for issue [" +
                          Shown(AsString(Str(info, "issueKey"))) + "]"))
  {
    var r := FirstMatch(cases, Requested(info).value, ts);
    assert r == Ok(None);
  }

  /** The loop of doTransition: the first transition that matches, stopping there. */
  method SelectTransition(cases: CaseMap, transition: string, ts: seq<Json>) returns (r: Result<Option<nat>>)
    ensures r == FirstMatch(cases, transition, ts)
  {
    var i := 0;
    while i < |ts|
      invariant 0 <= i <= |ts|
      invariant forall j :: 0 <= j < i ==> ts[j] != JNull && !Matches(cases, transition, ts[j])
    {
      if ts[i] == JNull {
        FirstMatchAt(cases, transition, ts, i);
        return Err(NullDeref);
      }
      if Matches(cases, transition, ts[i]) {
        FirstMatchAt(cases, transition, ts, i);
        return Ok(Some(i));
      }
      i := i + 1;
    }
    return Ok(None);
  }

  /** FirstMatch stops at the first null or matching transition. */
  lemma FirstMatchAt(cases: CaseMap, transition: string, ts: seq<Json>, i: nat)
    requires i < |ts| && (ts[i] == JNull || Matches(cases, transition, ts[i]))
    requires forall j :: 0 <= j < i ==> ts[j] != JNull && !Matches(cases, transition, ts[j])
    ensures FirstMatch(cases, transition, ts) == if ts[i] == JNull then Err(NullDeref) else Ok(Some(i))
  {
    var r := FirstMatch(cases, transition, ts);
    if r.Err? {
      var j :| 0 <= j < |ts| && ts[j] == JNull && forall k :: 0 <= k < j ==> !Matches(cases, transition, ts[k]);
      assert j >= i;
    }
  }

  /** doTransition up to the POST. The valid transitions are fetched (transitionsOf) only
      after the issue key has been checked: asked is the key they were fetched for, None when
      no request was made. */
  method DoTransition(cases: CaseMap, info: Json, transitionsOf: Option<string> -> Json)
    returns (r: Result<TransitionPost>, asked: Option<Option<string>>)
    ensures asked.None? <==> info == JNull || IsEmpty(info, "issueKey")
    ensures asked.Some? ==> asked.value == AsString(Str(info, "issueKey"))
    ensures r == Transition(cases, info, transitionsOf(AsString(Str(info, "issueKey"))))
  {
    if info == JNull {
      return Err(NullDeref), None;
    }
    if IsEmpty(info, "issueKey") {
      return Err(IllegalArgument(NoIssueKey)), None;
    }
    var key := AsString(Str(info, "issueKey"));
    var valid := transitionsOf(key);
    asked := Some(key);
    var transition := Requested(info);
    if Blank(transition) {
      return Err(IllegalArgument(NoTransition)), asked;
    }
    if valid == JNull || IsEmpty(valid, "transitions") {
      return Err(IllegalArgument("There are no possible transitions for issue [" + Shown(key) + "]")), asked;
    }
    var ts := Items(valid, "transitions");
    if ts.None? {
      return Err(NullDeref), asked;
    }
    var found := SelectTransition(cases, transition.value, ts.value);
    if found.Err? {
      return Err(found.error), asked;
    }
    if found.value.None? {
      return Err(IllegalArgument("Transition [" + transition.value + "] is not valid for issue [" + Shown(key) + "]")), asked;
    }
    return Ok(TransitionPost(key, AsString(Str(ts.value[found.value.value], "id")))), asked;
  }
}
