/// FieldsCache: the endpoint's cache of the tracker's field metadata, indexed by field id and
/// by display name. Both indexes share one entry per field, so the name index is kept here as
/// a map from name to id.
module Fields {
  import opened Base

  /** A field's schema as the field listing reports it. */
  datatype Schema = Schema(stype: Option<string>, items: Option<string>)

  /** One element of the field listing. */
  datatype FieldListing = FieldListing(id: string, name: string, schema: Option<Schema>)

  /** A cached entry; array and type stay unset until a listing with a schema is seen. */
  datatype FieldInfo = FieldInfo(id: string, name: string, isArray: Option<bool>, ftype: Option<string>)

  /** The two indexes. */
  datatype CacheState = CacheState(byId: map<string, FieldInfo>, byName: map<string, string>)

  function Lookup<K, V>(m: map<K, V>, k: K): (r: Option<V>)
    ensures r.Some? <==> k in m
    ensures r.Some? ==> r.value == m[k]
  {
    if k in m then Some(m[k]) else None
  }

  /** The name index points into the id index, every entry is filed under its own id, and no
      two names point to the same entry. */
  predicate Consistent(st: CacheState)
  {
    (forall n :: n in st.byName ==> st.byName[n] in st.byId) &&
    (forall k :: k in st.byId ==> st.byId[k].id == k) &&
    (forall n, m :: n in st.byName && m in st.byName && st.byName[n] == st.byName[m] ==> n == m)
  }

  /** The entry one listing element leaves for its id, given the entry found there. */
  function Touch(found: Option<FieldInfo>, f: FieldListing): FieldInfo
  {
    var base := if found.Some? then found.value else FieldInfo(f.id, f.name, None, None);
    match f.schema
    case None => base.(id := f.id, name := f.name)
    case Some(sc) =>
      if sc.stype == Some("array") then FieldInfo(f.id, f.name, Some(true), sc.items)
      else FieldInfo(f.id, f.name, Some(false), sc.stype)
  }

  /** One iteration of refresh: a new id is filed under both indexes, then the entry is updated. */
  function ApplyField(st: CacheState, f: FieldListing): CacheState
  {
    CacheState(
      st.byId[f.id := Touch(Lookup(st.byId, f.id), f)],
      if f.id in st.byId then st.byName else st.byName[f.name := f.id])
  }

  /** refresh: the listing applied element by element, in order. */
  function ApplyListing(st: CacheState, listing: seq<FieldListing>): CacheState
  {
    if |listing| == 0 then st
    else ApplyField(ApplyListing(st, listing[..|listing| - 1]), listing[|listing| - 1])
  }

  lemma ApplyListingStep(st: CacheState, listing: seq<FieldListing>, i: nat)
    requires i < |listing|
    ensures ApplyListing(st, listing[..i + 1]) == ApplyField(ApplyListing(st, listing[..i]), listing[i])
  {
    assert listing[..i + 1][..i] == listing[..i];
  }

  /** Schema handling of one listing element: an array schema sets the item type, any other
      schema its own type, and no schema keeps what the entry had. */
  lemma SchemaHandling(st: CacheState, f: FieldListing)
    ensures var e := ApplyField(st, f).byId[f.id];
      e.id == f.id && e.name == f.name &&
      (f.schema.Some? && f.schema.value.stype == Some("array") ==> e.isArray == Some(true) && e.ftype == f.schema.value.items) &&
      (f.schema.Some? && f.schema.value.stype != Some("array") ==> e.isArray == Some(false) && e.ftype == f.schema.value.stype) &&
      (f.schema.None? && f.id in st.byId ==> e.isArray == st.byId[f.id].isArray && e.ftype == st.byId[f.id].ftype) &&
      (f.schema.None? && f.id !in st.byId ==> e.isArray == None && e.ftype == None)
  {
  }

  /** An element whose id is already cached leaves the name index alone, even if its name
      changed; a new id is filed under its name, replacing whatever that name pointed to. */
  lemma NameIndexOnFirstSight(st: CacheState, f: FieldListing)
    ensures f.id in st.byId ==> ApplyField(st, f).byName == st.byName
    ensures f.id !in st.byId ==> ApplyField(st, f).byName == st.byName[f.name := f.id]
  {
  }

  lemma ApplyFieldConsistent(st: CacheState, f: FieldListing)
    requires Consistent(st)
    ensures Consistent(ApplyField(st, f))
  {
    var r := ApplyField(st, f);
    if f.id !in st.byId {
      forall n, m | n in r.byName && m in r.byName && r.byName[n] == r.byName[m]
        ensures n == m
      {
        if n != f.name && m != f.name {
          assert st.byName[n] == st.byName[m];
        }
      }
    }
  }

  /** refresh keeps the indexes consistent. */
  lemma {:induction false} ApplyListingConsistent(st: CacheState, listing: seq<FieldListing>)
    requires Consistent(st)
    ensures Consistent(ApplyListing(st, listing))
  {
    if |listing| > 0 {
      ApplyListingConsistent(st, listing[..|listing| - 1]);
      ApplyFieldConsistent(ApplyListing(st, listing[..|listing| - 1]), listing[|listing| - 1]);
    }
  }

  /** refresh never removes an entry from either index, every listed id ends up cached, and
      nothing else is added. */
  lemma ApplyListingGrows(st: CacheState, listing: seq<FieldListing>)
    ensures st.byId.Keys <= ApplyListing(st, listing).byId.Keys
    ensures st.byName.Keys <= ApplyListing(st, listing).byName.Keys
    ensures forall i :: 0 <= i < |listing| ==> listing[i].id in ApplyListing(st, listing).byId
    ensures forall k :: k in ApplyListing(st, listing).byId ==>
      k in st.byId || exists i :: 0 <= i < |listing| && listing[i].id == k
  {
    ApplyListingKeeps(st, listing);
    ApplyListingOnlyListed(st, listing);
  }

  lemma {:induction false} ApplyListingKeeps(st: CacheState, listing: seq<FieldListing>)
    ensures st.byId.Keys <= ApplyListing(st, listing).byId.Keys
    ensures st.byName.Keys <= ApplyListing(st, listing).byName.Keys
    ensures forall i :: 0 <= i < |listing| ==> listing[i].id in ApplyListing(st, listing).byId
  {
    if |listing| > 0 {
      var n := |listing| - 1;
      var p := listing[..n];
      ApplyListingKeeps(st, p);
      forall i | 0 <= i < |listing| ensures listing[i].id in ApplyListing(st, listing).byId {
        if i < n {
          assert p[i] == listing[i];
        }
      }
    }
  }

  lemma {:induction false} ApplyListingOnlyListed(st: CacheState, listing: seq<FieldListing>)
    ensures forall k :: k in ApplyListing(st, listing).byId ==>
      k in st.byId || exists i :: 0 <= i < |listing| && listing[i].id == k
  {
    if |listing| > 0 {
      var n := |listing| - 1;
      var p := listing[..n];
      ApplyListingOnlyListed(st, p);
      forall k | k in ApplyListing(st, listing).byId
        ensures k in st.byId || exists i :: 0 <= i < |listing| && listing[i].id == k
      {
        if k != listing[n].id {
          assert k in ApplyListing(st, p).byId;
          if k !in st.byId {
            var i :| 0 <= i < |p| && p[i].id == k;
            assert listing[i].id == k;
          }
        }
      }
    }
  }

  /** A name index entry that refresh adds always refers to an id that was not cached before:
      the name index is never re-keyed for a field it already holds. */
  lemma {:induction false} NewNamesOnlyForNewIds(st: CacheState, listing: seq<FieldListing>)
    requires Consistent(st)
    ensures var r := ApplyListing(st, listing);
      forall n :: n in r.byName && n !in st.byName ==> r.byName[n] !in st.byId
  {
    if |listing| > 0 {
      var n := |listing| - 1;
      var mid := ApplyListing(st, listing[..n]);
      NewNamesOnlyForNewIds(st, listing[..n]);
      ApplyListingGrows(st, listing[..n]);
      var r := ApplyListing(st, listing);
      forall nm | nm in r.byName && nm !in st.byName ensures r.byName[nm] !in st.byId {
        if listing[n].id !in mid.byId && nm == listing[n].name {
          assert r.byName[nm] == listing[n].id;
        } else {
          assert nm in mid.byName && r.byName[nm] == mid.byName[nm];
        }
      }
    }
  }

  /** The entry one id holds after a listing: the entries touched for that id, in order. */
  function EntryAfter(found: Option<FieldInfo>, listing: seq<FieldListing>, k: string): Option<FieldInfo>
  {
    if |listing| == 0 then found
    else
      var p := EntryAfter(found, listing[..|listing| - 1], k);
      if listing[|listing| - 1].id == k then Some(Touch(p, listing[|listing| - 1])) else p
  }

  lemma {:induction false} EntryAfterLookup(st: CacheState, listing: seq<FieldListing>, k: string)
    ensures Lookup(ApplyListing(st, listing).byId, k) == EntryAfter(Lookup(st.byId, k), listing, k)
  {
    if |listing| > 0 {
      EntryAfterLookup(st, listing[..|listing| - 1], k);
    }
  }

  /** The array flag and type of a possibly missing entry. */
  function Attrs(e: Option<FieldInfo>): (Option<bool>, Option<string>)
  {
    if e.Some? then (e.value.isArray, e.value.ftype) else (None, None)
  }

  lemma TouchAttrs(e: Option<FieldInfo>, f: FieldListing)
    ensures f.schema.None? ==> Attrs(Some(Touch(e, f))) == Attrs(e)
  {
  }

  lemma {:induction false} EntryAfterAttrs(a: Option<FieldInfo>, b: Option<FieldInfo>, listing: seq<FieldListing>, k: string)
    requires Attrs(a) == Attrs(b)
    ensures Attrs(EntryAfter(a, listing, k)) == Attrs(EntryAfter(b, listing, k))
  {
    if |listing| > 0 {
      EntryAfterAttrs(a, b, listing[..|listing| - 1], k);
      var f := listing[|listing| - 1];
      if f.id == k {
        TouchAttrs(EntryAfter(a, listing[..|listing| - 1], k), f);
        TouchAttrs(EntryAfter(b, listing[..|listing| - 1], k), f);
      }
    }
  }

  lemma {:induction false} EntryAfterIdempotent(e: Option<FieldInfo>, listing: seq<FieldListing>, k: string)
    ensures EntryAfter(EntryAfter(e, listing, k), listing, k) == EntryAfter(e, listing, k)
  {
    if |listing| > 0 {
      var n := |listing| - 1;
      var f := listing[n];
      var p := EntryAfter(e, listing[..n], k);
      EntryAfterIdempotent(e, listing[..n], k);
      if f.id == k {
        var x := Some(Touch(p, f));
        var q := EntryAfter(x, listing[..n], k);
        if f.schema.None? {
          TouchAttrs(p, f);
          EntryAfterAttrs(x, p, listing[..n], k);
          assert Attrs(q) == Attrs(p);
        }
        assert Touch(q, f) == Touch(p, f);
      }
    }
  }

  lemma {:induction false} ApplyListingKeepsNamesWhenCovered(st: CacheState, listing: seq<FieldListing>)
    requires forall i :: 0 <= i < |listing| ==> listing[i].id in st.byId
    ensures ApplyListing(st, listing).byName == st.byName
  {
    if |listing| > 0 {
      var n := |listing| - 1;
      ApplyListingKeepsNamesWhenCovered(st, listing[..n]);
      ApplyListingGrows(st, listing[..n]);
    }
  }

  /** Refreshing twice from the same listing is the same as refreshing once: after a refresh,
      another one changes nothing. */
  lemma RefreshIdempotent(st: CacheState, listing: seq<FieldListing>)
    ensures ApplyListing(ApplyListing(st, listing), listing) == ApplyListing(st, listing)
  {
    var t := ApplyListing(st, listing);
    var u := ApplyListing(t, listing);
    ApplyListingGrows(st, listing);
    ApplyListingKeepsNamesWhenCovered(t, listing);
    forall k ensures Lookup(u.byId, k) == Lookup(t.byId, k) {
      EntryAfterLookup(t, listing, k);
      EntryAfterLookup(st, listing, k);
      EntryAfterIdempotent(Lookup(st.byId, k), listing, k);
    }
    assert u.byId.Keys == t.byId.Keys by {
      forall k ensures k in u.byId <==> k in t.byId {
        assert Lookup(u.byId, k) == Lookup(t.byId, k);
      }
    }
    assert u.byId == t.byId by {
      forall k | k in u.byId ensures u.byId[k] == t.byId[k] {
        assert Lookup(u.byId, k) == Lookup(t.byId, k);
      }
    }
  }

  /** The entry left for the last listed element of an id holds that element's id and name. */
  lemma {:induction false} LastListingWins(st: CacheState, listing: seq<FieldListing>, i: nat)
    requires i < |listing|
    requires forall j :: i < j < |listing| ==> listing[j].id != listing[i].id
    ensures listing[i].id in ApplyListing(st, listing).byId
    ensures ApplyListing(st, listing).byId[listing[i].id]
         == Touch(Lookup(ApplyListing(st, listing[..i]).byId, listing[i].id), listing[i])
    decreases |listing|
  {
    var n := |listing| - 1;
    if i == n {
      assert listing[..n] == listing[..i];
    } else {
      assert listing[..n][i] == listing[i];
      assert listing[..n][..i] == listing[..i];
      LastListingWins(st, listing[..n], i);
    }
  }

  /** An empty cache. */
  const Empty: CacheState := CacheState(map[], map[])

  /** The endpoint's field cache. remote stands for what the field listing request returns;
      fetches counts those requests. */
  class FieldsCache {
    var byId: map<string, FieldInfo>
    var byName: map<string, string>
    const remote: seq<FieldListing>
    var fetches: nat

    function State(): CacheState
      reads this
    {
      CacheState(byId, byName)
    }

    /** The indexes are consistent, and the cache is either still empty or up to date with the
        listing (refreshing again would change nothing). */
    predicate Valid()
      reads this
    {
      Consistent(State()) && (State() == Empty || ApplyListing(State(), remote) == State())
    }

    /** What the cache holds once it has been refreshed: every id lookup is answered from here. */
    function Settled(): CacheState
      reads this
    {
      ApplyListing(State(), remote)
    }

    constructor (remote: seq<FieldListing>)
      ensures Valid()
      ensures State() == Empty && this.remote == remote && fetches == 0
    {
      byId := map[];
      byName := map[];
      this.remote := remote;
      fetches := 0;
    }

    /** refresh: one listing request, then every listed field upserted in order. */
    method Refresh()
      requires Valid()
      modifies this
      ensures State() == ApplyListing(old(State()), remote)
      ensures fetches == old(fetches) + 1
      ensures Valid() && State() == old(Settled()) && Settled() == old(Settled())
    {
      fetches := fetches + 1;
      var i := 0;
      while i < |remote|
        invariant 0 <= i <= |remote|
        invariant State() == ApplyListing(old(State()), remote[..i])
        invariant fetches == old(fetches) + 1
      {
        Upsert(remote[i]);
        ApplyListingStep(old(State()), remote, i);
        i := i + 1;
      }
      assert remote[..|remote|] == remote;
      RefreshSettles(old(State()), remote);
    }

    /** One iteration of refresh: a new id is filed under both indexes, then its entry takes
        the listed name and, when a schema is given, the schema's type. */
    method Upsert(f: FieldListing)
      modifies this
      ensures State() == ApplyField(old(State()), f)
      ensures fetches == old(fetches)
    {
      if f.id !in byId {
        byId := byId[f.id := FieldInfo(f.id, f.name, None, None)];
        byName := byName[f.name := f.id];
      }
      var entry := byId[f.id].(id := f.id, name := f.name);
      if f.schema.Some? {
        if f.schema.value.stype == Some("array") {
          entry := entry.(isArray := Some(true), ftype := f.schema.value.items);
        } else {
          entry := entry.(isArray := Some(false), ftype := f.schema.value.stype);
        }
      }
      byId := byId[f.id := entry];
    }

    /** getFieldById: a cached id is answered without a request; a missing one triggers exactly
        one refresh, after which it may still be missing. */
    method GetFieldById(id: string) returns (r: Option<FieldInfo>)
      requires Valid()
      modifies this
      ensures Valid() && Settled() == old(Settled())
      ensures id in old(byId) ==> State() == old(State()) && fetches == old(fetches)
      ensures id !in old(byId) ==> State() == old(Settled()) && fetches == old(fetches) + 1
      ensures r == Lookup(Settled().byId, id)
    {
      if id in byId {
        r := Some(byId[id]);
        SettledLookup(State(), remote, id);
      } else {
        Refresh();
        r := Lookup(byId, id);
      }
    }

    /** getCustomFieldType: the cached type, or null for an unknown id. */
    method GetCustomFieldType(id: string) returns (r: Option<string>)
      requires Valid()
      modifies this
      ensures Valid() && Settled() == old(Settled())
      ensures id in old(byId) ==> State() == old(State()) && fetches == old(fetches)
      ensures r == TypeOf(Lookup(Settled().byId, id))
    {
      var field := GetFieldById(id);
      r := if field.Some? then field.value.ftype else None;
    }

    /** getCustomFieldName: the cached display name, or null for an unknown id. */
    method GetCustomFieldName(id: string) returns (r: Option<string>)
      requires Valid()
      modifies this
      ensures Valid() && Settled() == old(Settled())
      ensures id in old(byId) ==> State() == old(State()) && fetches == old(fetches)
      ensures r == NameOf(Lookup(Settled().byId, id))
    {
      var field := GetFieldById(id);
      r := if field.Some? then Some(field.value.name) else None;
    }

    /** isCustomFieldArray: false for an unknown id; unboxing fails for a field whose listing
        never carried a schema. */
    method IsCustomFieldArray(id: string) returns (r: Result<bool>)
      requires Valid()
      modifies this
      ensures Valid() && Settled() == old(Settled())
      ensures id in old(byId) ==> State() == old(State()) && fetches == old(fetches)
      ensures r == ArrayOf(Lookup(Settled().byId, id))
    {
      var field := GetFieldById(id);
      if field.None? {
        r := Ok(false);
      } else if field.value.isArray.None? {
        r := Err(NullDeref);
      } else {
        r := Ok(field.value.isArray.value);
      }
    }

    /** getCustomFieldId: a name index lookup, never a refresh. */
    method GetCustomFieldId(name: string) returns (r: Option<string>)
      ensures r == Lookup(byName, name)
      ensures Valid() && r.Some? ==> r.value in byId && byId[r.value].id == r.value
    {
      r := if name in byName then Some(byName[name]) else None;
    }
  }

  function TypeOf(e: Option<FieldInfo>): Option<string>
  {
    if e.Some? then e.value.ftype else None
  }

  function NameOf(e: Option<FieldInfo>): Option<string>
  {
    if e.Some? then Some(e.value.name) else None
  }

  function ArrayOf(e: Option<FieldInfo>): Result<bool>
  {
    if e.None? then Ok(false)
    else if e.value.isArray.None? then Err(NullDeref)
    else Ok(e.value.isArray.value)
  }

  /** A refresh of a consistent cache leaves it consistent and up to date with the listing. */
  lemma RefreshSettles(st: CacheState, remote: seq<FieldListing>)
    requires Consistent(st)
    ensures Consistent(ApplyListing(st, remote))
    ensures ApplyListing(ApplyListing(st, remote), remote) == ApplyListing(st, remote)
  {
    ApplyListingConsistent(st, remote);
    RefreshIdempotent(st, remote);
  }

  /** On a valid cache a cached id reads the same before and after a refresh. */
  lemma SettledLookup(st: CacheState, remote: seq<FieldListing>, id: string)
    requires st == Empty || ApplyListing(st, remote) == st
    requires id in st.byId
    ensures Lookup(ApplyListing(st, remote).byId, id) == Some(st.byId[id])
  {
  }

  /** After a refresh, an id is known exactly when it was cached before or is listed. */
  lemma KnownAfterRefresh(st: CacheState, remote: seq<FieldListing>, id: string)
    ensures id in ApplyListing(st, remote).byId <==>
      id in st.byId || exists i :: 0 <= i < |remote| && remote[i].id == id
  {
    ApplyListingGrows(st, remote);
  }
}
