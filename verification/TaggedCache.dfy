/** The server's cache: one registry of tagged entries, and dict-like views of the entries that share some tags. */
module TaggedCache {
  import opened Common
  import opened Ordering

  type Tag = string
  type Key = set<Tag>

  datatype KeyError = KeyError

  /** The entries an expiry removes: all of them without tags, one exact tag set, or all supersets of the tags. */
  predicate Matches(tags: set<Tag>, exact: bool, key: Key)
  {
    if tags == {} then true else if exact then key == tags else tags <= key
  }

  function Removed<V>(cache: map<Key, V>, tags: set<Tag>, exact: bool): set<Key>
  {
    set s | s in cache && Matches(tags, exact, s)
  }

  /** The tags that occur in a cache. */
  function TagsOf<V>(cache: map<Key, V>): set<Tag>
  {
    set s, t | s in cache && t in s :: t
  }

  /** The plain map that a view on some tags stands for: the entries with exactly one tag more. */
  function ViewOf<V>(cache: map<Key, V>, tags: set<Tag>): (view: map<Tag, V>)
    ensures forall k :: k in view <==> k !in tags && tags + {k} in cache
    ensures forall k :: k in view ==> view[k] == cache[tags + {k}]
  {
    map k | k in TagsOf(cache) && k !in tags && tags + {k} in cache :: cache[tags + {k}]
  }

  /** A tag set belongs to a view if it is the view's tags and exactly one more. */
  predicate InView(tags: set<Tag>, s: Key)
  {
    tags <= s && |s - tags| == 1
  }

  lemma InViewMeansOneMore(tags: set<Tag>, s: Key)
    ensures InView(tags, s) <==> exists k :: k !in tags && s == tags + {k}
  {
    if InView(tags, s) {
      var k :| k in s - tags;
      assert |s - tags - {k}| == 0;
      assert s - tags == {k};
      assert s == tags + {k};
    }
    if k :| k !in tags && s == tags + {k} {
      assert s - tags == {k};
    }
  }

  /** Writing or deleting one entry changes no view except those one tag short of it. */
  lemma OtherViewsUntouched<V>(cache: map<Key, V>, cache': map<Key, V>, s: Key, tags: set<Tag>)
    requires cache - {s} == cache' - {s} && !InView(tags, s)
    ensures ViewOf(cache, tags) == ViewOf(cache', tags)
  {
    InViewMeansOneMore(tags, s);
    forall k | k !in tags
      ensures k in ViewOf(cache, tags) <==> k in ViewOf(cache', tags)
      ensures k in ViewOf(cache, tags) ==> ViewOf(cache, tags)[k] == ViewOf(cache', tags)[k]
    {
      assert tags + {k} != s;
      assert tags + {k} in cache <==> tags + {k} in cache - {s};
      assert tags + {k} in cache' <==> tags + {k} in cache' - {s};
      if tags + {k} in cache { assert (cache - {s})[tags + {k}] == (cache' - {s})[tags + {k}]; }
    }
  }

  lemma {:induction false} DistinctLength<T(!new)>(s: seq<T>, elements: set<T>)
    requires Distinct(s) && forall x :: x in s <==> x in elements
    ensures |s| == |elements|
  {
    if s == [] {
      assert elements == {};
    } else {
      var front, last := s[..|s| - 1], s[|s| - 1];
      assert s == front + [last] && last !in front;
      DistinctLength(front, elements - {last});
    }
  }

  /** The unified backend. `events` is what the expiry hooks have been called with. */
  class Registry<V> {
    var cache: map<Key, V>
    ghost var events: seq<(set<Tag>, bool, nat)>

    constructor ()
      ensures cache == map[] && events == []
    {
      cache, events := map[], [];
    }

    /** `list(self.keys())`: a dict lists its keys in an order of its own. */
    method ListKeys() returns (r: seq<Key>)
      ensures Distinct(r) && forall s :: s in r <==> s in cache
    {
      r := [];
      var rest := cache.Keys;
      while rest != {}
        invariant Distinct(r) && rest <= cache.Keys && forall s :: s in r <==> s in cache && s !in rest
        decreases rest
      {
        var s :| s in rest;
        rest, r := rest - {s}, r + [s];
      }
    }

    /** The tag sets of a view, each once. */
    method Iterate(tags: set<Tag>) returns (r: seq<Key>)
      ensures Distinct(r) && forall s :: s in r <==> s in cache && InView(tags, s)
    {
      var keys := ListKeys();
      r := [];
      for i := 0 to |keys|
        invariant Distinct(r)
        invariant forall s :: s in r <==> s in keys[..i] && InView(tags, s)
      {
        if tags <= keys[i] && |keys[i] - tags| == 1 {
          assert keys[i] !in keys[..i];
          r := r + [keys[i]];
        }
      }
      assert keys[..|keys|] == keys;
    }

    /** Removes what the tags match, tells the hooks, and returns how much it was. */
    method Expire(tags: set<Tag>, exact: bool) returns (count: nat)
      modifies this
      ensures cache == old(cache) - Removed(old(cache), tags, exact)
      ensures count == |Removed(old(cache), tags, exact)|
      ensures exact && tags != {} ==> count <= 1
      ensures events == old(events) + [(tags, exact, count)]
    {
      count := 0;
      ghost var all := Removed(cache, tags, exact);
      if tags == {} {
        count := |cache|;
        assert all == cache.Keys;
        cache := map[];
      } else if exact {
        if tags in cache {
          count := 1;
          cache := cache - {tags};
          assert all == {tags};
        } else {
          assert all == {};
        }
      } else {
        count := ExpireSupersets(tags);
      }
      events := events + [(tags, exact, count)];
    }

    /** The loop over `iter_all`, which counts and deletes. */
    method ExpireSupersets(tags: set<Tag>) returns (count: nat)
      requires tags != {}
      modifies this`cache
      ensures cache == old(cache) - Removed(old(cache), tags, false)
      ensures count == |Removed(old(cache), tags, false)|
    {
      hide Superset, Distinct;
      count := 0;
      var keys := ListKeys();
      SupersetEnds(cache, keys, tags);
      ghost var gone: set<Key> := {};
      for i := 0 to |keys|
        invariant gone == Superset(keys[..i], tags)
        invariant cache == old(cache) - gone && count == |gone|
      {
        SupersetGrows(keys, i, tags);
        if tags <= keys[i] {
          count := count + 1;
          cache := cache - {keys[i]};
          gone := gone + {keys[i]};
        }
      }
      assert keys[..|keys|] == keys;
    }
  }

  ghost function Superset(keys: seq<Key>, tags: set<Tag>): set<Key>
  {
    set s | s in keys && tags <= s
  }

  lemma SupersetEnds<V>(cache: map<Key, V>, keys: seq<Key>, tags: set<Tag>)
    requires tags != {} && forall s :: s in keys <==> s in cache
    ensures Superset(keys[..0], tags) == {} && Superset(keys, tags) == Removed(cache, tags, false)
  {
  }

  lemma SupersetGrows(keys: seq<Key>, i: nat, tags: set<Tag>)
    requires Distinct(keys) && i < |keys|
    ensures keys[i] !in Superset(keys[..i], tags)
    ensures Superset(keys[..i + 1], tags) == Superset(keys[..i], tags) + if tags <= keys[i] then {keys[i]} else {}
  {
    assert keys[..i + 1] == keys[..i] + [keys[i]];
  }

  /** `Cache(*tags)`. For keys outside its tags it behaves like the plain map View(). */
  class Cache<V> {
    const registry: Registry<V>
    const tags: set<Tag>

    constructor (registry: Registry<V>, tags: set<Tag>)
      ensures this.registry == registry && this.tags == tags
    {
      this.registry, this.tags := registry, tags;
    }

    ghost function View(): map<Tag, V>
      reads registry
    {
      ViewOf(registry.cache, tags)
    }

    method Get(key: Tag) returns (r: Result<V, KeyError>)
      ensures key !in tags ==> r == if key in View() then Ok(View()[key]) else Err(KeyError)
      ensures key in tags ==> r == if tags in registry.cache then Ok(registry.cache[tags]) else Err(KeyError)
    {
      var s := tags + {key};
      if key in tags { assert s == tags; }
      r := if s in registry.cache then Ok(registry.cache[s]) else Err(KeyError);
    }

    method Set(key: Tag, value: V)
      modifies registry
      ensures registry.cache == old(registry.cache)[tags + {key} := value] && registry.events == old(registry.events)
      ensures key !in tags ==> View() == old(View())[key := value]
    {
      registry.cache := registry.cache[tags + {key} := value];
      SetInView(old(registry.cache), tags, key, value);
    }

    method Delete(key: Tag) returns (r: Result<(), KeyError>)
      modifies registry
      ensures r.Ok? <==> tags + {key} in old(registry.cache)
      ensures registry.cache == old(registry.cache) - {tags + {key}} && registry.events == old(registry.events)
      ensures key !in tags ==> (r.Ok? <==> key in old(View())) && View() == old(View()) - {key}
    {
      var s := tags + {key};
      DeleteInView(registry.cache, tags, key);
      if s !in registry.cache {
        assert registry.cache - {s} == registry.cache;
        return Err(KeyError);
      }
      registry.cache := registry.cache - {s};
      return Ok(());
    }

    /** `list(iter(self))` */
    method Keys() returns (r: seq<Tag>)
      ensures Distinct(r) && forall k :: k in r <==> k in View()
    {
      var items := registry.Iterate(tags);
      r := [];
      for i := 0 to |items|
        invariant Distinct(r)
        invariant forall k :: k in r <==> k !in tags && tags + {k} in items[..i]
      {
        InViewMeansOneMore(tags, items[i]);
        assert items[i] in items;
        var k :| k in items[i] - tags;
        assert items[i] == tags + {k};
        assert items[i] !in items[..i];
        assert forall k' :: k' !in tags && tags + {k'} == tags + {k} ==> k' in tags + {k};
        r := r + [k];
      }
      assert items[..|items|] == items;
      forall k | k !in tags ensures InView(tags, tags + {k}) { InViewMeansOneMore(tags, tags + {k}); }
    }

    method Length() returns (n: nat)
      ensures n == |View()|
    {
      var keys := Keys();
      n := |keys|;
      DistinctLength(keys, View().Keys);
    }

    /** Without a key everything with the view's tags goes; with one, at most that entry. */
    method Expire(key: Option<Tag>) returns (count: nat)
      modifies registry
      ensures key.None? ==> registry.cache == old(registry.cache) - Removed(old(registry.cache), tags, false)
      ensures key.None? ==> View() == map[]
      ensures key.Some? ==> registry.cache == old(registry.cache) - {tags + {key.value}}
      ensures key.Some? && key.value !in tags ==> View() == old(View()) - {key.value}
      ensures count == |old(registry.cache)| - |registry.cache|
    {
      hide Removed, ViewOf;
      ghost var before := registry.cache;
      match key {
        case None =>
          count := registry.Expire(tags, false);
          NothingInView(before, tags);
        case Some(k) =>
          count := registry.Expire(tags + {k}, true);
          RemovedExactly(before, tags + {k}, k);
          DeleteInView(before, tags, k);
      }
    }
  }

  lemma NothingInView<V>(cache: map<Key, V>, tags: set<Tag>)
    ensures ViewOf(cache - Removed(cache, tags, false), tags) == map[]
    ensures |Removed(cache, tags, false)| == |cache| - |cache - Removed(cache, tags, false)|
  {
    CountRemoved(cache, Removed(cache, tags, false));
    assert forall k :: k !in ViewOf(cache - Removed(cache, tags, false), tags);
  }

  lemma RemovedExactly<V>(cache: map<Key, V>, tags: set<Tag>, tag: Tag)
    requires tag in tags
    ensures cache - Removed(cache, tags, true) == cache - {tags}
    ensures |Removed(cache, tags, true)| == |cache| - |cache - {tags}|
  {
    CountRemoved(cache, Removed(cache, tags, true));
    assert cache - Removed(cache, tags, true) == cache - {tags};
  }

  lemma SetInView<V>(cache: map<Key, V>, tags: set<Tag>, key: Tag, value: V)
    ensures key !in tags ==> ViewOf(cache[tags + {key} := value], tags) == ViewOf(cache, tags)[key := value]
  {
    forall k | k !in tags && k != key ensures tags + {k} != tags + {key} {
      assert k in tags + {k} && k !in tags + {key};
    }
  }

  lemma DeleteInView<V>(cache: map<Key, V>, tags: set<Tag>, key: Tag)
    ensures key !in tags ==> ViewOf(cache - {tags + {key}}, tags) == ViewOf(cache, tags) - {key}
  {
    forall k | k !in tags && k != key ensures tags + {k} != tags + {key} {
      assert k in tags + {k} && k !in tags + {key};
    }
  }

  lemma CountRemoved<V>(cache: map<Key, V>, gone: set<Key>)
    requires gone <= cache.Keys
    ensures |gone| == |cache| - |cache - gone|
  {
    assert (cache - gone).Keys == cache.Keys - gone;
    assert |cache.Keys - gone| == |cache.Keys| - |gone|;
  }

  /** Non-exact expiry spares exactly the entries that lack one of the tags; exact expiry spares every other entry. */
  lemma ExpirySpares<V>(cache: map<Key, V>, tags: set<Tag>, exact: bool, s: Key)
    requires s in cache && tags != {}
    ensures s in cache - Removed(cache, tags, exact) <==> if exact then s != tags else exists t :: t in tags && t !in s
    ensures exact ==> |Removed(cache, tags, exact)| <= 1
  {
    if exact { assert Removed(cache, tags, exact) <= {tags}; SubsetIsSmaller(Removed(cache, tags, exact), {tags}); }
  }

  /** What the documentation of `exact` promises to remove: the one item that has exactly the tags, if there is one. */
  function Documented<V>(cache: map<Key, V>, tags: set<Tag>): set<Key>
  {
    if tags in cache then {tags} else {}
  }

  /**
   Exact expiry does what is documented unless no tag is named: then that holds only where
   nothing else can be removed.
   */
  lemma ExactIsAsDocumentedExactly<V>(cache: map<Key, V>, tags: set<Tag>)
    ensures Removed(cache, tags, true) == Documented(cache, tags) <==>
      tags != {} || forall key :: key in cache ==> key == {}
  {
    if tags == {} {
      ExactWithoutTagsRemovesAll(cache);
      assert Removed(cache, tags, true) == cache.Keys;
    } else {
      assert Removed(cache, tags, true) == Documented(cache, tags);
    }
  }

  /** Asking for an exact match without naming a tag empties the cache, whatever is in it. */
  lemma ExactWithoutTagsRemovesAll<V>(cache: map<Key, V>)
    ensures cache - Removed(cache, {}, true) == map[]
  {
    assert Removed(cache, {}, true) == cache.Keys;
  }
}
