/**
 * What the accessors generated by `ssdb_attr` and the three synchronisation
 * operations compute, as functions of the cached value, the store's contents
 * and the declaration; the methods of module Attr are proved against these.
 */
module AttrSpec {
  import opened Results
  import opened RubyValues
  import opened Typecast
  import opened Keys
  import opened StoreOps

  /** What a generated accessor captured from its `ssdb_attr` call: the type and `options[:default]`. */
  datatype Decl = Decl(ty: AttrType, default: Val)

  /** One entry of `previous_changes`: the value before and after the commit. */
  datatype Change = Change(was: Val, now: Val)

  /** A store answer as a Ruby value: a String, or nil for an absent key. */
  function AsVal(stored: Option<string>): Val
  {
    match stored
    case Some(s) => VStr(s)
    case None => VNil
  }

  /**
   * The value the getter leaves in `@name`: the cached value when it is not
   * nil, else the stored value, else the declared default (which may be nil).
   */
  function Fill(cached: Val, stored: Option<string>, default: Val): Val
  {
    if cached != VNil then cached
    else match stored
      case Some(s) => VStr(s)
      case None => default
  }

  /**
   * What the getter returns: the filled value cast to the declared type, so
   * always a value of that type, and one that casting again leaves unchanged.
   */
  function Read(d: Decl, cached: Val, stored: Option<string>): (r: Val)
    ensures r.VStr? <==> d.ty == StringType
    ensures r.VInt? <==> d.ty == IntegerType
    ensures Cast(r, d.ty) == r
  {
    CastIdempotent(Fill(cached, stored, d.default), d.ty);
    Cast(Fill(cached, stored, d.default), d.ty)
  }

  /**
   * Whether the setter invokes `<name>_will_change!`: the cast new value
   * differs from the current one. Writing back a value that casts like a
   * value of the type already held never fires.
   */
  predicate Fires(d: Decl, v: Val, current: Val): (b: bool)
    ensures Cast(current, d.ty) == current && Cast(v, d.ty) == Cast(current, d.ty) ==> !b
    ensures current.VStr? != (d.ty == StringType) ==> b
  {
    Cast(v, d.ty) != current
  }

  /** With nothing cached, nothing stored and no default, a string reads "" and an integer 0. */
  lemma ReadZeroValue(d: Decl)
    requires d.default == VNil
    ensures d.ty == StringType ==> Read(d, VNil, None) == VStr("")
    ensures d.ty == IntegerType ==> Read(d, VNil, None) == VInt(0)
  {
  }

  /** With nothing cached and nothing stored, the getter returns the declared default, cast. */
  lemma ReadDefault(d: Decl)
    ensures Read(d, VNil, None) == Cast(d.default, d.ty)
  {
  }

  /** A stored value takes precedence over the default, however the default is set. */
  lemma ReadStoredBeatsDefault(d: Decl, s: string)
    ensures Read(d, VNil, Some(s)) == Cast(VStr(s), d.ty)
  {
  }

  /** After the setter caches a non-nil `v`, the getter returns `v` cast, whatever the store holds. */
  lemma ReadAfterSet(d: Decl, v: Val, stored: Option<string>)
    requires v != VNil
    ensures Read(d, v, stored) == Cast(v, d.ty)
  {
  }

  /** Setting the same non-nil value twice: the second set does not invoke `<name>_will_change!`. */
  lemma SecondSetSilent(d: Decl, v: Val, stored: Option<string>)
    requires v != VNil
    ensures !Fires(d, v, Read(d, v, stored))
  {
    CastIdempotent(v, d.ty);
  }

  /** The comparison is made after casting: "4" written to an integer attribute that holds 4 is no change. */
  lemma CastEqualWriteSilent(stored: Option<string>)
    ensures !Fires(Decl(IntegerType, VNil), VStr("4"), Read(Decl(IntegerType, VNil), VInt(4), stored))
  {
    ParseFour();
  }

  /** `previous_changes` is a Hash: each attribute name appears once. */
  predicate DistinctNames(changes: seq<(string, Change)>)
  {
    forall i, j :: 0 <= i < j < |changes| ==> changes[i].0 != changes[j].0
  }

  /**
   * The key/value pairs `save_ssdb_attrs` hands to MSET: for every entry of
   * `changes` whose name is declared, in the order of `changes`, the key of
   * the name and the new value as the client sends it (`to_s`).
   */
  function SaveParams(changes: seq<(string, Change)>, names: seq<string>, table: string, id: string)
    : (ps: seq<(string, string)>)
    ensures |ps| <= |changes|
    ensures ps == [] <==> forall i :: 0 <= i < |changes| ==> changes[i].0 !in names
    decreases |changes|
  {
    if changes == [] then []
    else
      var n := |changes| - 1;
      var prior := SaveParams(changes[..n], names, table, id);
      if changes[n].0 in names then prior + [(Key(table, id, changes[n].0), ToS(changes[n].1.now))]
      else prior
  }

  /** `k` is the key of a declared attribute that appears in `changes`. */
  predicate Written(k: string, changes: seq<(string, Change)>, names: seq<string>, table: string, id: string)
  {
    exists i :: 0 <= i < |changes| && changes[i].0 in names && k == Key(table, id, changes[i].0)
  }

  /** The MSET of the save parameters of `changes` is the MSET for its prefix, then at most one more pair. */
  lemma SaveParamsLast(data: map<string, string>, changes: seq<(string, Change)>,
                       names: seq<string>, table: string, id: string)
    requires changes != []
    ensures var n := |changes| - 1;
      var r0 := ApplyMSet(data, SaveParams(changes[..n], names, table, id));
      var r := ApplyMSet(data, SaveParams(changes, names, table, id));
      r == if changes[n].0 in names then r0[Key(table, id, changes[n].0) := ToS(changes[n].1.now)] else r0
  {
    var n := |changes| - 1;
    var prior := SaveParams(changes[..n], names, table, id);
    if changes[n].0 in names {
      var p := (Key(table, id, changes[n].0), ToS(changes[n].1.now));
      assert (prior + [p])[..|prior|] == prior;
    }
  }

  /** Storing the save parameters writes the new value of every declared, changed attribute under its key. */
  lemma {:induction false} SaveWritesChanged(data: map<string, string>, changes: seq<(string, Change)>,
                                             names: seq<string>, table: string, id: string)
    requires DistinctNames(changes)
    ensures var r := ApplyMSet(data, SaveParams(changes, names, table, id));
      forall i :: 0 <= i < |changes| && changes[i].0 in names ==>
        Key(table, id, changes[i].0) in r && r[Key(table, id, changes[i].0)] == ToS(changes[i].1.now)
  {
    if changes != [] {
      var n := |changes| - 1;
      var prefix := changes[..n];
      SaveWritesChanged(data, prefix, names, table, id);
      SaveParamsLast(data, changes, names, table, id);
      var r := ApplyMSet(data, SaveParams(changes, names, table, id));
      forall i | 0 <= i < n && changes[i].0 in names
        ensures Key(table, id, changes[i].0) in r && r[Key(table, id, changes[i].0)] == ToS(changes[i].1.now)
      {
        assert prefix[i] == changes[i];
        KeyInjective(table, id, changes[i].0, changes[n].0);
      }
    }
  }

  /** Storing the save parameters leaves every key that is not written as it was. */
  lemma {:induction false} SaveKeepsOthers(data: map<string, string>, changes: seq<(string, Change)>,
                                           names: seq<string>, table: string, id: string, k: string)
    requires !Written(k, changes, names, table, id)
    ensures var r := ApplyMSet(data, SaveParams(changes, names, table, id));
      (k in r <==> k in data) && (k in data ==> r[k] == data[k])
  {
    if changes != [] {
      var n := |changes| - 1;
      var prefix := changes[..n];
      forall i | 0 <= i < n
        ensures !(prefix[i].0 in names && k == Key(table, id, prefix[i].0))
      {
        assert prefix[i] == changes[i];
      }
      SaveKeepsOthers(data, prefix, names, table, id, k);
      SaveParamsLast(data, changes, names, table, id);
      var r0 := ApplyMSet(data, SaveParams(prefix, names, table, id));
      var r := ApplyMSet(data, SaveParams(changes, names, table, id));
      if changes[n].0 in names {
        assert k != Key(table, id, changes[n].0);
        assert r == r0[Key(table, id, changes[n].0) := ToS(changes[n].1.now)];
      } else {
        assert r == r0;
      }
    }
  }

  /**
   * Storing the save parameters writes the new value of every declared,
   * changed attribute under its key, and leaves every other key as it was.
   */
  lemma SaveEffect(data: map<string, string>, changes: seq<(string, Change)>,
                   names: seq<string>, table: string, id: string)
    requires DistinctNames(changes)
    ensures var r := ApplyMSet(data, SaveParams(changes, names, table, id));
      && (forall i :: 0 <= i < |changes| && changes[i].0 in names ==>
            Key(table, id, changes[i].0) in r && r[Key(table, id, changes[i].0)] == ToS(changes[i].1.now))
      && (forall k :: !Written(k, changes, names, table, id) ==>
            (k in r <==> k in data) && (k in data ==> r[k] == data[k]))
  {
    SaveWritesChanged(data, changes, names, table, id);
    forall k | !Written(k, changes, names, table, id)
      ensures var r := ApplyMSet(data, SaveParams(changes, names, table, id));
        (k in r <==> k in data) && (k in data ==> r[k] == data[k])
    {
      SaveKeepsOthers(data, changes, names, table, id, k);
    }
  }

  /**
   * The cache after `reload_ssdb_attrs`: each name, in declaration order, is
   * given the fetched value at the same position (nil for an absent key).
   */
  function ReloadedCache(cache: map<string, Val>, names: seq<string>, fetched: seq<Option<string>>)
    : (r: map<string, Val>)
    requires |fetched| == |names|
    ensures forall a :: a in r <==> a in cache || a in names
    decreases |names|
  {
    if names == [] then cache
    else
      var n := |names| - 1;
      ReloadedCache(cache, names[..n], fetched[..n])[names[n] := AsVal(fetched[n])]
  }

  /** One more name reloaded: its fetched value is cached over the reload of the names before it. */
  lemma ReloadedCacheStep(cache: map<string, Val>, names: seq<string>, fetched: seq<Option<string>>, i: nat)
    requires |fetched| == |names| && i < |names|
    ensures ReloadedCache(cache, names[..i + 1], fetched[..i + 1])
      == ReloadedCache(cache, names[..i], fetched[..i])[names[i] := AsVal(fetched[i])]
  {
    assert names[..i + 1][..i] == names[..i];
    assert fetched[..i + 1][..i] == fetched[..i];
  }

  /** A name that occurs twice in `names` was fetched the same both times. */
  predicate SameForSameName(names: seq<string>, fetched: seq<Option<string>>)
    requires |fetched| == |names|
  {
    forall i, j :: 0 <= i < |names| && 0 <= j < |names| && names[i] == names[j] ==> fetched[i] == fetched[j]
  }

  /** Reload overwrites the cached value of every listed name and keeps every other entry. */
  lemma {:induction false} ReloadedCacheAt(cache: map<string, Val>, names: seq<string>, fetched: seq<Option<string>>)
    requires |fetched| == |names| && SameForSameName(names, fetched)
    ensures var r := ReloadedCache(cache, names, fetched);
      && (forall i :: 0 <= i < |names| ==> names[i] in r && r[names[i]] == AsVal(fetched[i]))
      && (forall a :: a !in names ==> (a in r <==> a in cache) && (a in cache ==> r[a] == cache[a]))
  {
    if names != [] {
      var n := |names| - 1;
      assert SameForSameName(names[..n], fetched[..n]) by {
        forall i, j | 0 <= i < n && 0 <= j < n && names[..n][i] == names[..n][j]
          ensures fetched[..n][i] == fetched[..n][j]
        {
          assert names[i] == names[j];
        }
      }
      ReloadedCacheAt(cache, names[..n], fetched[..n]);
      var r0 := ReloadedCache(cache, names[..n], fetched[..n]);
      var r := ReloadedCache(cache, names, fetched);
      assert r == r0[names[n] := AsVal(fetched[n])];
      forall i | 0 <= i < |names|
        ensures names[i] in r && r[names[i]] == AsVal(fetched[i])
      {
        if names[i] == names[n] {
          assert fetched[i] == fetched[n];
        } else {
          assert names[..n][i] == names[i] && fetched[..n][i] == fetched[i];
        }
      }
      forall a | a !in names
        ensures (a in r <==> a in cache) && (a in cache ==> r[a] == cache[a])
      {
        assert a != names[n];
        assert a !in names[..n];
      }
    }
  }

  /**
   * `reload_ssdb_attrs` as written asks MGET for the bare attribute names,
   * so each declared name is cached with whatever the store holds under
   * that bare name.
   */
  lemma ReloadReadsBareNames(cache: map<string, Val>, names: seq<string>, data: map<string, string>)
    ensures var r := ReloadedCache(cache, names, MGetValues(data, names));
      forall a :: a in names ==> a in r && r[a] == AsVal(Lookup(data, a))
  {
    ReloadedCacheAt(cache, names, MGetValues(data, names));
  }

  /** The keyed reload caches, under each declared name, what the store holds under its key. */
  lemma ReloadByKeyCaches(cache: map<string, Val>, names: seq<string>, data: map<string, string>,
                          table: string, id: string)
    ensures var r := ReloadedCache(cache, names, MGetValues(data, KeysFor(table, id, names)));
      forall a :: a in names ==> a in r && r[a] == AsVal(Lookup(data, Key(table, id, a)))
  {
    var fetched := MGetValues(data, KeysFor(table, id, names));
    ReloadedCacheAt(cache, names, fetched);
  }

  /**
   * When the store holds nothing under the bare name, the as-written reload
   * leaves the cache nil, and the next read fetches the value under the
   * attribute's real key (or the default): the reload still discards the
   * unsaved edit.
   */
  lemma ReloadThenReadWhenBareKeyAbsent(d: Decl, cache: map<string, Val>, names: seq<string>,
                                        data: map<string, string>, table: string, id: string, a: string)
    requires a in names && a !in data
    ensures var r := ReloadedCache(cache, names, MGetValues(data, names));
      a in r && Read(d, r[a], Lookup(data, Key(table, id, a))) == Read(d, VNil, Lookup(data, Key(table, id, a)))
  {
    ReloadReadsBareNames(cache, names, data);
  }

  /**
   * A store that holds a value under the bare name "title" makes the
   * as-written reload return that value instead of the one saved under
   * "posts:1:title".
   */
  lemma BareReloadMisreads()
    ensures var d := Decl(StringType, VNil);
      var data := map["title" := "stale", "posts:1:title" := "foobar"];
      var r := ReloadedCache(map["title" := VStr("fizzbuzz")], ["title"], MGetValues(data, ["title"]));
      && "title" in r
      && Read(d, r["title"], Lookup(data, Key("posts", "1", "title"))) == VStr("stale")
      && Read(d, VNil, Lookup(data, Key("posts", "1", "title"))) == VStr("foobar")
  {
    var data := map["title" := "stale", "posts:1:title" := "foobar"];
    ReloadReadsBareNames(map["title" := VStr("fizzbuzz")], ["title"], data);
    assert Key("posts", "1", "title") == "posts:1:title";
  }

  /**
   * The corrected reload asks MGET for the attributes' keys; the next read
   * of every declared attribute then returns exactly what the store holds
   * under its key (or the default when the key is absent), whatever was
   * cached or stored under the bare name.
   */
  lemma ReloadByKeyThenRead(d: Decl, cache: map<string, Val>, names: seq<string>,
                            data: map<string, string>, table: string, id: string, a: string)
    requires a in names
    ensures var r := ReloadedCache(cache, names, MGetValues(data, KeysFor(table, id, names)));
      a in r && Read(d, r[a], Lookup(data, Key(table, id, a))) == Read(d, VNil, Lookup(data, Key(table, id, a)))
  {
    var fetched := MGetValues(data, KeysFor(table, id, names));
    ReloadedCacheAt(cache, names, fetched);
    var i :| 0 <= i < |names| && names[i] == a;
  }
}
