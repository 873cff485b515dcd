/**
  maproulette_metrics/get_user_ids.py: resolving usernames to numeric user IDs
  through a persistent cache and a per-user lookup against the server.

  The cache file, its YAML encoding and the HTTP request are not modelled: the
  loaded cache is a parameter (`None` when reading it raised `OSError`), the
  single-user lookup is a function parameter, and the cache write is an
  output that records what `save_user_ids` would be handed.
 */
module UserIds {
  import opened Wrappers

  /** A YAML scalar as the cache or the server may hold it for an ID. */
  datatype IdValue = Num(n: int) | Text(s: string) | Null

  /** Python truthiness of such a value: only `0`, `""` and `None` are falsy. */
  predicate Truthy(v: IdValue): (b: bool)
    ensures b <==> v != Num(0) && v != Text("") && v != Null
  {
    match v
    case Num(n) => n != 0
    case Text(s) => s != ""
    case Null => false
  }

  function DigitChar(d: nat): (c: char)
    requires d < 10
    ensures '0' <= c <= '9'
  {
    ('0' as int + d) as char
  }

  /** The digits of `n` in base 10, most significant first, with no leading zero. */
  function Decimal(n: nat): (r: string)
    ensures |r| > 0 && AllDigits(r)
    ensures r[0] == '0' ==> n == 0
  {
    if n < 10 then [DigitChar(n)] else Decimal(n / 10) + [DigitChar(n % 10)]
  }

  predicate AllDigits(s: string) {
    forall i :: 0 <= i < |s| ==> '0' <= s[i] <= '9'
  }

  /** The number a string of decimal digits denotes, read independently of `Decimal`. */
  function DigitsValue(s: string): nat
    requires AllDigits(s)
  {
    if s == [] then 0 else DigitsValue(s[..|s| - 1]) * 10 + (s[|s| - 1] as int - '0' as int)
  }

  /** Reading back the digits `Decimal` writes gives the number: `int(str(n)) == n`. */
  lemma {:induction false} DecimalValue(n: nat)
    ensures DigitsValue(Decimal(n)) == n
  {
    if n >= 10 {
      DecimalValue(n / 10);
      var r := Decimal(n);
      assert r[..|r| - 1] == Decimal(n / 10);
    }
  }

  /** `str()` of an integer: a leading `-` exactly for a negative one, then the digits of its magnitude. */
  function Str(v: IdValue): (r: string)
    ensures v.Num? ==> |r| > 0 && (r[0] == '-' <==> v.n < 0)
  {
    match v
    case Num(n) => if n < 0 then "-" + Decimal(-n) else Decimal(n)
    case Text(s) => s
    case Null => "None"
  }

  /** The text of a negative integer is `-` followed by the digits of its magnitude. */
  lemma NegativeStr(a: int)
    requires a < 0
    ensures Str(Num(a))[1..] == Decimal(-a)
  {
    var d := Decimal(-a);
    var t := Str(Num(a));
    assert t == "-" + d;
    assert t[1..] == d by {
      assert |t[1..]| == |d|;
      assert forall i :: 0 <= i < |d| ==> t[1..][i] == d[i];
    }
  }

  /** Python's `int()` on the text of an integer: an optional leading `-`, then decimal digits. */
  function IntValue(t: string): int {
    if |t| > 0 && t[0] == '-' && AllDigits(t[1..]) then -(DigitsValue(t[1..]) as int)
    else if AllDigits(t) then DigitsValue(t)
    else 0
  }

  /** Reading back the text of an integer ID gives the ID: `int(str(n)) == n`. */
  lemma StrValue(a: int)
    ensures IntValue(Str(Num(a))) == a
  {
    if a < 0 {
      NegativeStr(a);
      DecimalValue(-a);
    } else {
      DecimalValue(a);
    }
  }

  /** Different integer IDs have different texts, so cleaning the cache merges no two IDs. */
  lemma StrNumInjective(a: int, b: int)
    requires Str(Num(a)) == Str(Num(b))
    ensures a == b
  {
    StrValue(a);
    StrValue(b);
  }

  /** username -> ID. */
  type IdMap = map<string, IdValue>

  /** `get_single_user_id_from_api`: the first matching record's ID, `None` when the server returns no record. */
  type Lookup = string -> Option<IdValue>

  /** The loaded cache: `OSError` while opening or reading it leaves an empty cache (lines 65-69). */
  function LoadCache(file: Option<IdMap>): (c: IdMap)
    ensures file.None? ==> c == map[]
    ensures file.Some? ==> c == file.value
  {
    file.GetOr(map[])
  }

  /**
    Line 72: keeps the entries whose ID is truthy and converts their IDs to
    strings. This is the only place an entry is dropped.
   */
  function CleanCache(raw: IdMap): (c: IdMap)
    ensures forall u :: u in c <==> u in raw && Truthy(raw[u])
    ensures forall u :: u in c ==> c[u] == Text(Str(raw[u]))
  {
    map u | u in raw && Truthy(raw[u]) :: Text(Str(raw[u]))
  }

  /** Every ID left in a cleaned cache is a non-empty string. */
  lemma CleanCacheValues(raw: IdMap)
    ensures forall u :: u in CleanCache(raw) ==> CleanCache(raw)[u].Text? && Truthy(CleanCache(raw)[u])
  {
    forall u | u in CleanCache(raw)
      ensures Truthy(CleanCache(raw)[u])
    {
      match raw[u]
      case Num(n) =>
      case Text(s) =>
      case Null =>
    }
  }

  /** Cleaning a cleaned cache changes nothing. */
  lemma CleanCacheIdempotent(raw: IdMap)
    ensures CleanCache(CleanCache(raw)) == CleanCache(raw)
  {
    CleanCacheValues(raw);
  }

  /** The IDs the lookups find: a user whose lookup gives nothing or a falsy ID is left out. */
  function FoundIds(users: set<string>, lookup: Lookup): (ids: IdMap)
    ensures ids.Keys <= users
    ensures forall u :: u in users ==>
      (u in ids <==> lookup(u).Some? && Truthy(lookup(u).value))
    ensures forall u :: u in ids ==> ids[u] == lookup(u).value
  {
    map u | u in users && lookup(u).Some? && Truthy(lookup(u).value) :: lookup(u).value
  }

  /**
    `get_user_ids_from_api`: looks every user up once, in an order the model
    leaves open (the iteration order of a Python set), and keeps the users
    whose lookup gave a truthy ID. `calls` is the sequence of lookups made.
   */
  method GetUserIdsFromApi(users: set<string>, lookup: Lookup) returns (ids: IdMap, ghost calls: seq<string>)
    ensures ids == FoundIds(users, lookup)
    ensures |calls| == |users|
    ensures forall u :: u in calls <==> u in users
    ensures forall i, j :: 0 <= i < j < |calls| ==> calls[i] != calls[j]
  {
    ids := map[];
    calls := [];
    var remaining := users;
    while remaining != {}
      invariant remaining <= users
      invariant forall u :: u in calls <==> u in users && u !in remaining
      invariant |calls| + |remaining| == |users|
      invariant forall i, j :: 0 <= i < j < |calls| ==> calls[i] != calls[j]
      invariant ids == FoundIds(users - remaining, lookup)
      decreases |remaining|
    {
      var user :| user in remaining;
      var userId := lookup(user);
      calls := calls + [user];
      if userId.Some? && Truthy(userId.value) {
        ids := ids[user := userId.value];
      }
      remaining := remaining - {user};
    }
  }

  /** What one call of `get_user_ids_with_caching` computes. */
  datatype Resolution = Resolution(
    ids: IdMap,             // the returned combined IDs
    missing: set<string>,   // the users it looks up
    found: IdMap,           // what those lookups found
    written: Option<IdMap>) // what it hands to `save_user_ids`, if it saves

  /** `get_user_ids_with_caching(users, save)` as a function of the loaded cache and the lookup. */
  function Resolve(users: set<string>, file: Option<IdMap>, save: bool, lookup: Lookup): (r: Resolution)
    ensures r.missing <= users && r.found.Keys <= r.missing
    ensures forall u :: u in r.missing ==> u !in CleanCache(LoadCache(file))
    ensures r.written.Some? ==> save && r.written.value == r.ids
  {
    var cached := CleanCache(LoadCache(file));
    var missing := users - cached.Keys;
    var found := FoundIds(missing, lookup);
    var combined := cached + found;
    Resolution(combined, missing, found, if save && found != map[] then Some(combined) else None)
  }

  /**
    `get_user_ids_with_caching`: the cleaned cache, completed by lookups of the
    requested users it lacks, is returned, and also written back when `save`
    holds and a lookup found something new.
   */
  method GetUserIdsWithCaching(users: set<string>, file: Option<IdMap>, save: bool, lookup: Lookup)
    returns (combined: IdMap, written: Option<IdMap>, ghost calls: seq<string>)
    ensures combined == Resolve(users, file, save, lookup).ids
    ensures written == Resolve(users, file, save, lookup).written
    ensures forall u :: u in calls <==> u in Resolve(users, file, save, lookup).missing
    ensures forall i, j :: 0 <= i < j < |calls| ==> calls[i] != calls[j]
  {
    var cachedIds := CleanCache(LoadCache(file));
    var notPresent := users - cachedIds.Keys;
    var apiIds;
    apiIds, calls := GetUserIdsFromApi(notPresent, lookup);
    combined := cachedIds + apiIds;
    written := None;
    if save && apiIds != map[] {
      written := Some(combined);
    }
  }

  // ---------------------------------------------------------------------------
  // Properties of the resolution.

  /**
    Exactly the requested users missing from the cleaned cache are looked up;
    the result is the cleaned cache plus what they found, on disjoint keys, so
    no cached ID is overwritten; and a cached user appears whether requested or
    not.
   */
  lemma ResolveContents(users: set<string>, file: Option<IdMap>, save: bool, lookup: Lookup)
    ensures var r, cached := Resolve(users, file, save, lookup), CleanCache(LoadCache(file));
      && (forall u :: u in r.missing <==> u in users && u !in cached)
      && r.found.Keys !! cached.Keys
      && r.ids.Keys == cached.Keys + r.found.Keys
      && (forall u :: u in cached ==> r.ids[u] == cached[u])
      && (forall u :: u in r.found ==> r.ids[u] == lookup(u).value && Truthy(r.ids[u]))
  {
  }

  /**
    A requested user is absent from the result exactly when it is not in the
    cleaned cache and its lookup gave no record or a falsy ID: such a user is
    dropped, with no error.
   */
  lemma ResolveDropsUnknown(users: set<string>, file: Option<IdMap>, save: bool, lookup: Lookup, u: string)
    requires u in users
    ensures var r, cached := Resolve(users, file, save, lookup), CleanCache(LoadCache(file));
      u !in r.ids <==> u !in cached && (lookup(u).None? || !Truthy(lookup(u).value))
  {
  }

  /** Every ID in the result is truthy. */
  lemma ResolveTruthy(users: set<string>, file: Option<IdMap>, save: bool, lookup: Lookup)
    ensures var r := Resolve(users, file, save, lookup);
      forall u :: u in r.ids ==> Truthy(r.ids[u])
  {
    CleanCacheValues(LoadCache(file));
  }

  /** The cache is written exactly when saving is on and something new was found, and it is written with the result. */
  lemma ResolveWrites(users: set<string>, file: Option<IdMap>, save: bool, lookup: Lookup)
    ensures var r := Resolve(users, file, save, lookup);
      && (r.written.Some? <==> save && exists u :: u in r.missing && lookup(u).Some? && Truthy(lookup(u).value))
      && (r.written.Some? ==> r.written.value == r.ids)
  {
    var r := Resolve(users, file, save, lookup);
    if exists u :: u in r.missing && lookup(u).Some? && Truthy(lookup(u).value) {
      var u :| u in r.missing && lookup(u).Some? && Truthy(lookup(u).value);
      assert u in r.found;
    }
  }

  /** When every requested user is already cached, nothing is looked up and nothing is written. */
  lemma ResolveAllCached(users: set<string>, file: Option<IdMap>, save: bool, lookup: Lookup)
    requires forall u :: u in users ==> u in CleanCache(LoadCache(file))
    ensures Resolve(users, file, save, lookup).missing == {}
    ensures Resolve(users, file, save, lookup).written == None
  {
    assert FoundIds({}, lookup) == map[];
  }

  /** A cache that could not be read behaves as an empty one. */
  lemma ResolveUnreadableCache(users: set<string>, save: bool, lookup: Lookup)
    ensures Resolve(users, None, save, lookup) == Resolve(users, Some(map[]), save, lookup)
    ensures Resolve(users, None, save, lookup).ids == FoundIds(users, lookup)
  {
    assert CleanCache(map[]) == map[];
  }

  /**
    A second identical call, against the cache a first call wrote, writes
    nothing. It looks up only the users the first call could not resolve (none
    when the first call resolved all of them), and returns the first result
    with every ID in string form.
   */
  lemma ResolveTwice(users: set<string>, file: Option<IdMap>, save: bool, lookup: Lookup)
    requires Resolve(users, file, save, lookup).written.Some?
    ensures var first := Resolve(users, file, save, lookup);
      var second := Resolve(users, first.written, save, lookup);
      && second.written == None
      && second.missing == first.missing - first.found.Keys
      && second.ids == CleanCache(first.ids)
      && (users <= first.ids.Keys ==> second.missing == {})
  {
    var first := Resolve(users, file, save, lookup);
    var recached := CleanCache(first.ids);
    ResolveTruthy(users, file, save, lookup);
    assert LoadCache(first.written) == first.ids;
    assert recached.Keys == first.ids.Keys;
    var missing2 := users - recached.Keys;
    assert missing2 == first.missing - first.found.Keys;
    assert FoundIds(missing2, lookup) == map[] by {
      forall u | u in missing2
        ensures !(lookup(u).Some? && Truthy(lookup(u).value))
      {
        assert u in first.missing && u !in first.found;
      }
    }
    assert recached + map[] == recached;
  }
}
