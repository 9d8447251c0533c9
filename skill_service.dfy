/**
 * The mobile app's skill catalog client (`SkillService`): the catalog fetched from the backend
 * is cached for five minutes, and the type, category and category-list queries read the cache.
 *
 * The clock (`now`) and the outcome of the request to `/skills` are parameters; `requested`
 * tells whether the request was made.
 */
module SkillCatalog {
  import opened Wrappers
  import opened Records

  /** `CACHE_DURATION`: five minutes, in milliseconds. */
  const CacheDuration: int := 5 * 60 * 1000

  /** The cache may be served: the caller does not force a refresh, a list is cached (an empty
      list counts) and it is younger than `CACHE_DURATION`. */
  predicate IsFresh(cache: Option<seq<Skill>>, cacheTimestamp: int, now: int, forceRefresh: bool) {
    !forceRefresh && cache.Some? && now - cacheTimestamp < CacheDuration
  }

  /** A cleared cache is never served, whatever the clock says. */
  lemma {:induction false} ClearedCacheIsStale(now: int, forceRefresh: bool)
    ensures !IsFresh(None, 0, now, forceRefresh)
  {
  }

  /** `skill.type === type`. */
  function OfType(skillType: string): Skill -> bool {
    (s: Skill) => s.skillType == skillType
  }

  /** `skill.category === category`; a skill without a category is in none. */
  function InCategory(category: string): Skill -> bool {
    (s: Skill) => s.category == Some(category)
  }

  /** The skills that satisfy `keep`, in their order. */
  function Keep(skills: seq<Skill>, keep: Skill -> bool): (r: seq<Skill>)
    ensures |r| <= |skills|
    ensures forall s :: s in r <==> s in skills && keep(s)
  {
    if skills == [] then []
    else
      var s := skills[|skills| - 1];
      var rest := Keep(skills[..|skills| - 1], keep);
      assert skills == skills[..|skills| - 1] + [s];
      if keep(s) then rest + [s] else rest
  }

  /** The filter keeps order: what it keeps from an earlier part comes before what it keeps
      from a later part. */
  lemma {:induction false} KeepConcat(a: seq<Skill>, b: seq<Skill>, keep: Skill -> bool)
    ensures Keep(a + b, keep) == Keep(a, keep) + Keep(b, keep)
    decreases |b|
  {
    if b == [] {
      assert a + b == a;
    } else {
      assert (a + b)[..|a + b| - 1] == a + b[..|b| - 1];
      KeepConcat(a, b[..|b| - 1], keep);
    }
  }

  /** A list all of whose skills are kept is kept whole. */
  lemma {:induction false} KeepAll(skills: seq<Skill>, keep: Skill -> bool)
    requires forall k :: 0 <= k < |skills| ==> keep(skills[k])
    ensures Keep(skills, keep) == skills
  {
    if skills != [] {
      KeepAll(skills[..|skills| - 1], keep);
      assert skills == skills[..|skills| - 1] + [skills[|skills| - 1]];
    }
  }

  // ---------------------------------------------------------------------------
  // Ordering of strings, as `Array.prototype.sort` compares them
  // ---------------------------------------------------------------------------

  /** `a` sorts before `b`: a proper prefix sorts first, otherwise the first differing
      character decides. */
  predicate Less(a: string, b: string)
    decreases |a|
  {
    if a == [] then b != []
    else if b == [] then false
    else if a[0] != b[0] then a[0] < b[0]
    else Less(a[1..], b[1..])
  }

  lemma {:induction false} LessIrreflexive(a: string)
    ensures !Less(a, a)
    decreases |a|
  {
    if a != [] {
      LessIrreflexive(a[1..]);
    }
  }

  lemma {:induction false} LessTransitive(a: string, b: string, c: string)
    requires Less(a, b) && Less(b, c)
    ensures Less(a, c)
    decreases |a|
  {
    if a != [] && b != [] && c != [] && a[0] == b[0] && b[0] == c[0] {
      LessTransitive(a[1..], b[1..], c[1..]);
    }
  }

  lemma {:induction false} LessTotal(a: string, b: string)
    ensures a == b || Less(a, b) || Less(b, a)
    decreases |a|
  {
    if a != [] && b != [] && a[0] == b[0] {
      LessTotal(a[1..], b[1..]);
      if a[1..] == b[1..] {
        assert a == [a[0]] + a[1..] && b == [b[0]] + b[1..];
      }
    }
  }

  lemma {:induction false} LessAsymmetric(a: string, b: string)
    requires Less(a, b)
    ensures !Less(b, a)
  {
    if Less(b, a) {
      LessTransitive(a, b, a);
      LessIrreflexive(a);
    }
  }

  /** Strictly increasing, hence without repeats. */
  predicate StrictlySorted(s: seq<string>) {
    forall i, j :: 0 <= i < j < |s| ==> Less(s[i], s[j])
  }

  /** `s` with `x` added in its place, unless it is there already (the `Set`). */
  function Insert(x: string, s: seq<string>): (r: seq<string>)
    requires StrictlySorted(s)
    ensures StrictlySorted(r)
    ensures forall y :: y in r <==> y == x || y in s
  {
    if s == [] then [x]
    else if s[0] == x then s
    else if Less(x, s[0]) then
      assert StrictlySorted([x] + s) by {
        forall i, j | 0 <= i < j < |[x] + s| ensures Less(([x] + s)[i], ([x] + s)[j]) {
          if i == 0 && j > 1 {
            LessTransitive(x, s[0], s[j - 1]);
          }
        }
      }
      [x] + s
    else
      var rest := Insert(x, s[1..]);
      LessTotal(x, s[0]);
      assert StrictlySorted([s[0]] + rest) by {
        forall i, j | 0 <= i < j < |[s[0]] + rest| ensures Less(([s[0]] + rest)[i], ([s[0]] + rest)[j]) {
          if i == 0 {
            var y := rest[j - 1];
            assert y in rest;
            if y != x {
              assert y in s[1..];
              var m :| 0 <= m < |s[1..]| && s[1..][m] == y;
              assert s[m + 1] == y;
            }
          }
        }
      }
      assert s == [s[0]] + s[1..];
      [s[0]] + rest
  }

  /** Two strictly sorted lists with the same elements are the same list: the sorted category
      list is determined by the set of categories. */
  lemma {:induction false} SortedUnique(a: seq<string>, b: seq<string>)
    requires StrictlySorted(a) && StrictlySorted(b)
    requires forall y :: y in a <==> y in b
    ensures a == b
    decreases |a|
  {
    assert a != [] ==> a[0] in b;
    assert b != [] ==> b[0] in a;
    if a != [] && b != [] {
      if a[0] != b[0] {
        var i :| 0 <= i < |b| && b[i] == a[0];
        var j :| 0 <= j < |a| && a[j] == b[0];
        assert Less(b[0], a[0]);
        assert Less(a[0], b[0]);
        LessAsymmetric(a[0], b[0]);
      }
      forall y ensures y in a[1..] <==> y in b[1..] {
        if y in a[1..] {
          var m :| 0 <= m < |a[1..]| && a[1..][m] == y;
          assert Less(a[0], y);
          LessIrreflexive(y);
          assert y in b;
        }
        if y in b[1..] {
          var m :| 0 <= m < |b[1..]| && b[1..][m] == y;
          assert Less(b[0], y);
          LessIrreflexive(y);
          assert y in a;
        }
      }
      SortedUnique(a[1..], b[1..]);
      assert a == [a[0]] + a[1..] && b == [b[0]] + b[1..];
    }
  }

  /** `Array.from(new Set(categories filtered by !!cat)).sort()`. */
  function SortedCategories(skills: seq<Skill>): (r: seq<string>)
    ensures StrictlySorted(r)
    ensures forall c :: c in r <==> c != "" && exists k :: 0 <= k < |skills| && skills[k].category == Some(c)
  {
    if skills == [] then []
    else
      var last := skills[|skills| - 1];
      var init := skills[..|skills| - 1];
      var rest := SortedCategories(init);
      var r := match last.category
               case Some(c) => if c != "" then Insert(c, rest) else rest
               case None => rest;
      assert forall c :: (exists k :: 0 <= k < |skills| && skills[k].category == Some(c)) <==>
               (last.category == Some(c) || exists k :: 0 <= k < |init| && init[k].category == Some(c));
      r
  }

  /** The category list is the only strictly sorted list of the skills' non-empty categories. */
  lemma {:induction false} CategoriesAreTheSortedSet(skills: seq<Skill>, other: seq<string>)
    requires StrictlySorted(other)
    requires forall c :: c in other <==> c != "" && exists k :: 0 <= k < |skills| && skills[k].category == Some(c)
    ensures other == SortedCategories(skills)
  {
    SortedUnique(other, SortedCategories(skills));
  }

  class SkillService {
    /** The cached catalog; `None` before the first successful fetch and after `clearCache`. */
    var cache: Option<seq<Skill>>
    /** When the cache was filled, in milliseconds. */
    var cacheTimestamp: int

    constructor ()
      ensures cache == None && cacheTimestamp == 0
    {
      cache := None;
      cacheTimestamp := 0;
    }

    /**
     * `getAllSkills`. A fresh cache is returned without a request. Otherwise `/skills` is
     * requested: `fetched` is its data, `None` when the response failed or the call threw. A
     * success replaces the cache and stamps it with `now`; a failure returns the old cache, or
     * `[]`, and changes nothing.
     */
    method GetAllSkills(forceRefresh: bool, now: int, fetched: Option<seq<Skill>>)
      returns (skills: seq<Skill>, requested: bool)
      modifies this
      ensures requested <==> !IsFresh(old(cache), old(cacheTimestamp), now, forceRefresh)
      ensures !requested ==> skills == old(cache).value && cache == old(cache) && cacheTimestamp == old(cacheTimestamp)
      ensures requested && fetched.Some? ==> skills == fetched.value && cache == fetched && cacheTimestamp == now
      ensures requested && fetched.None? ==>
                skills == old(cache).GetOr([]) && cache == old(cache) && cacheTimestamp == old(cacheTimestamp)
    {
      if !forceRefresh && cache.Some? && now - cacheTimestamp < CacheDuration {
        return cache.value, false;
      }
      requested := true;
      if fetched.None? {
        skills := cache.GetOr([]);
        return;
      }
      cache := fetched;
      cacheTimestamp := now;
      skills := cache.value;
    }

    /** `getSkillsByType`: `[]` without a cache, else the cached skills of that type, in order. */
    function GetSkillsByType(skillType: string): (r: seq<Skill>)
      reads this
      ensures cache.None? ==> r == []
      ensures cache.Some? ==> forall s :: s in r <==> s in cache.value && s.skillType == skillType
    {
      match cache
      case None => []
      case Some(list) => Keep(list, OfType(skillType))
    }

    /** `getSkillsByCategory`: `[]` without a cache, else the cached skills of that category, in
        order; a skill without a category is in none. */
    function GetSkillsByCategory(category: string): (r: seq<Skill>)
      reads this
      ensures cache.None? ==> r == []
      ensures cache.Some? ==> forall s :: s in r <==> s in cache.value && s.category == Some(category)
    {
      match cache
      case None => []
      case Some(list) => Keep(list, InCategory(category))
    }

    /** `getAllCategories`: `[]` without a cache, else each non-empty category once, sorted. */
    function GetAllCategories(): (r: seq<string>)
      reads this
      ensures cache.None? ==> r == []
      ensures StrictlySorted(r)
      ensures cache.Some? ==> forall c :: c in r <==>
                c != "" && exists k :: 0 <= k < |cache.value| && cache.value[k].category == Some(c)
    {
      match cache
      case None => []
      case Some(list) => SortedCategories(list)
    }

    /** `clearCache`: no cache and a zero timestamp, so the next `getAllSkills` requests. */
    method ClearCache()
      modifies this
      ensures cache == None && cacheTimestamp == 0
    {
      cache := None;
      cacheTimestamp := 0;
    }
  }

  /** The type filter and the category filter each keep a cached list whole when every skill
      matches, and split over concatenation, so the cached order is kept. */
  lemma {:induction false} FiltersKeepOrder(a: seq<Skill>, b: seq<Skill>, skillType: string, category: string)
    ensures Keep(a + b, OfType(skillType)) ==
              Keep(a, OfType(skillType)) + Keep(b, OfType(skillType))
    ensures Keep(a + b, InCategory(category)) ==
              Keep(a, InCategory(category)) + Keep(b, InCategory(category))
  {
    KeepConcat(a, b, OfType(skillType));
    KeepConcat(a, b, InCategory(category));
  }
}
