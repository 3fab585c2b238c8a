/**
 * The engine itself: the store the records talk to, the per-class
 * declarations made by `ssdb_attr` and `ssdb_attr_id`, and the per-record
 * accessors and synchronisation operations.
 */
module Attr {
  import opened Results
  import opened RubyValues
  import opened Typecast
  import opened Keys
  import opened StoreOps
  import opened AttrSpec

  /** The key-value server: its contents, and every command it has received, in order. */
  class Store {
    var data: map<string, string>
    var calls: seq<Call>

    constructor (initial: map<string, string>)
      ensures data == initial && calls == []
    {
      data := initial;
      calls := [];
    }

    method Get(key: string) returns (r: Option<string>)
      modifies this
      ensures data == old(data) && calls == old(calls) + [GetCall(key)]
      ensures r == Lookup(data, key)
    {
      r := Lookup(data, key);
      calls := calls + [GetCall(key)];
    }

    method MGet(keys: seq<string>) returns (rs: seq<Option<string>>)
      modifies this
      ensures data == old(data) && calls == old(calls) + [MGetCall(keys)]
      ensures rs == MGetValues(data, keys)
    {
      rs := MGetValues(data, keys);
      calls := calls + [MGetCall(keys)];
    }

    /** MSET; the server refuses one without pairs, so callers never send it. */
    method MSet(pairs: seq<(string, string)>)
      requires pairs != []
      modifies this
      ensures data == ApplyMSet(old(data), pairs) && calls == old(calls) + [MSetCall(pairs)]
    {
      data := ApplyMSet(data, pairs);
      calls := calls + [MSetCall(pairs)];
    }

    method Del(key: string)
      modifies this
      ensures data == old(data) - {key} && calls == old(calls) + [DelCall(key)]
    {
      data := data - {key};
      calls := calls + [DelCall(key)];
    }
  }

  /**
   * What a class that includes the engine holds: its table name, the names
   * declared with `ssdb_attr` in declaration order, the type and default the
   * accessors of each name were generated with, and the `ssdb_attr_id` field.
   */
  class Binding {
    const table: string
    var names: seq<string>
    var decls: map<string, Decl>
    var idField: Option<string>

    /** Every declared name has accessors. */
    ghost predicate Valid()
      reads this
    {
      forall i :: 0 <= i < |names| ==> names[i] in decls
    }

    /** The state `included` sets up: no names declared yet. */
    constructor (table: string)
      ensures this.table == table && names == [] && decls == map[] && idField == None
      ensures Valid()
    {
      this.table := table;
      names := [];
      decls := map[];
      idField := None;
    }

    /**
     * `ssdb_attr(name, type, default: ...)`: an unsupported type raises and
     * changes nothing; otherwise the name is appended (again, if it was
     * declared before) and its accessors are generated, replacing earlier ones.
     */
    method Declare(name: string, ty: string, default: Val) returns (r: Outcome<Error>)
      requires Valid()
      modifies this
      ensures Valid() && idField == old(idField)
      ensures r.Fail? <==> ty != "string" && ty != "integer"
      ensures r.Fail? ==> r.error == TypeNotSupported(ty) && names == old(names) && decls == old(decls)
      ensures r.Pass? ==> names == old(names) + [name]
      ensures r.Pass? ==> decls == old(decls)[name := Decl(if ty == "string" then StringType else IntegerType, default)]
    {
      match ParseType(ty) {
        case None =>
          r := Fail(TypeNotSupported(ty));
        case Some(t) =>
          names := names + [name];
          decls := decls[name := Decl(t, default)];
          r := Pass;
      }
    }

    /** `ssdb_attr_id(field_name)`: nil raises; otherwise the field is recorded. */
    method SetIdField(field: Option<string>) returns (r: Outcome<Error>)
      modifies this
      ensures names == old(names) && decls == old(decls)
      ensures field.None? ==> r == Fail(NilIdField) && idField == old(idField)
      ensures field.Some? ==> r == Pass && idField == field
    {
      if field.None? {
        r := Fail(NilIdField);
      } else {
        idField := field;
        r := Pass;
      }
    }
  }

  /**
   * One record of a class that includes the engine: its own attributes (the
   * id among them), the `@name` instance variables that cache declared
   * attributes (an entry that is missing reads as nil), and the names whose
   * `<name>_will_change!` has been invoked.
   */
  class Record {
    const binding: Binding
    const store: Store
    const host: map<string, Val>
    var ivars: map<string, Val>
    var willChange: seq<string>

    constructor (binding: Binding, store: Store, host: map<string, Val>)
      ensures this.binding == binding && this.store == store && this.host == host
      ensures ivars == map[] && willChange == []
    {
      this.binding := binding;
      this.store := store;
      this.host := host;
      ivars := map[];
      willChange := [];
    }

    /** `@name`, nil when never set. */
    function Cached(name: string): Val
      reads this
    {
      if name in ivars then ivars[name] else VNil
    }

    /** `ssdb_attr_id`: the value of the id field, nil when the record has none yet. */
    function Id(): Val
      reads binding
    {
      var f := IdFieldName(binding.idField);
      if f in host then host[f] else VNil
    }

    /** `ssdb_attr_key(name)`. */
    function KeyOf(name: string): string
      reads binding
    {
      Key(binding.table, ToS(Id()), name)
    }

    /**
     * The generated getter: a non-nil `@name` is used as it is; otherwise the
     * store is read and, when the key is absent, the default is taken, and
     * the result (nil included) is cached. The result is cast to the type.
     */
    method Get(name: string) returns (v: Val)
      requires binding.Valid() && name in binding.names
      modifies this`ivars, store
      ensures store.data == old(store.data)
      ensures v == Read(binding.decls[name], old(Cached(name)), Lookup(store.data, KeyOf(name)))
      ensures old(Cached(name)) != VNil ==> ivars == old(ivars) && store.calls == old(store.calls)
      ensures old(Cached(name)) == VNil ==>
        && ivars == old(ivars)[name := Fill(VNil, Lookup(store.data, KeyOf(name)), binding.decls[name].default)]
        && store.calls == old(store.calls) + [GetCall(KeyOf(name))]
    {
      var d := binding.decls[name];
      if Cached(name) == VNil {
        var stored := store.Get(KeyOf(name));
        var val := if stored.Some? then VStr(stored.value) else d.default;
        ivars := ivars[name := val];
      }
      v := Cast(Cached(name), d.ty);
    }

    /**
     * The generated setter: invokes `<name>_will_change!` unless the new
     * value, cast, equals what the getter returns; then caches the new value
     * as given. The store is only read, never written.
     */
    method Set(name: string, v: Val)
      requires binding.Valid() && name in binding.names
      modifies this`ivars, this`willChange, store
      ensures store.data == old(store.data)
      ensures var d := binding.decls[name];
        willChange == old(willChange) +
          if Fires(d, v, Read(d, old(Cached(name)), Lookup(store.data, KeyOf(name)))) then [name] else []
      ensures ivars == old(ivars)[name := v]
      ensures store.calls == old(store.calls) + if old(Cached(name)) == VNil then [GetCall(KeyOf(name))] else []
    {
      var d := binding.decls[name];
      var cast := Cast(v, d.ty);
      ghost var stored := Lookup(store.data, KeyOf(name));
      ghost var fires := Fires(d, v, Read(d, Cached(name), stored));
      var current := Get(name);
      assert current == Read(d, old(Cached(name)), stored);
      assert fires <==> cast != current;
      if cast != current {
        willChange := willChange + [name];
      }
      ivars := ivars[name := v];
    }

    /**
     * `save_ssdb_attrs`: one MSET of the new values of the declared
     * attributes named in `previousChanges`, and no command at all when there
     * are none.
     */
    method Save(previousChanges: seq<(string, Change)>)
      requires DistinctNames(previousChanges)
      modifies store
      ensures var ps := SaveParams(previousChanges, binding.names, binding.table, ToS(Id()));
        && (ps == [] ==> store.data == old(store.data) && store.calls == old(store.calls))
        && (ps != [] ==> store.data == ApplyMSet(old(store.data), ps) && store.calls == old(store.calls) + [MSetCall(ps)])
      ensures forall i :: 0 <= i < |previousChanges| && previousChanges[i].0 in binding.names ==>
        KeyOf(previousChanges[i].0) in store.data && store.data[KeyOf(previousChanges[i].0)] == ToS(previousChanges[i].1.now)
      ensures forall k :: !Written(k, previousChanges, binding.names, binding.table, ToS(Id())) ==>
        (k in store.data <==> k in old(store.data)) && (k in store.data ==> store.data[k] == old(store.data)[k])
    {
      var params := SaveParams(previousChanges, binding.names, binding.table, ToS(Id()));
      if |params| > 0 {
        store.MSet(params);
      }
      SaveEffect(old(store.data), previousChanges, binding.names, binding.table, ToS(Id()));
    }

    /** `clear_ssdb_attrs`: a DEL of the key of every declared name, in declaration order. */
    method Clear()
      modifies store
      ensures store.data == old(store.data) - (set a | a in binding.names :: KeyOf(a))
      ensures store.calls == old(store.calls) + DelCalls(KeysFor(binding.table, ToS(Id()), binding.names))
    {
      var names := binding.names;
      var keys := KeysFor(binding.table, ToS(Id()), names);
      var i := 0;
      while i < |names|
        invariant 0 <= i <= |names|
        invariant store.data == DelAll(old(store.data), keys[..i])
        invariant store.calls == old(store.calls) + DelCalls(keys[..i])
        modifies store
      {
        assert keys[i] == KeyOf(names[i]);
        store.Del(keys[i]);
        DelStep(old(store.data), keys, i);
        i := i + 1;
      }
      assert keys[..i] == keys;
      DelAllIsDifference(old(store.data), keys);
      KeysForSet(binding.table, ToS(Id()), names);
      assert (set a | a in names :: KeyOf(a)) == (set a | a in names :: Key(binding.table, ToS(Id()), a));
    }

    /**
     * `reload_ssdb_attrs` as written: one MGET of the bare declared names
     * (not their keys), each answer cached under the name at the same
     * position, unsaved edits included.
     */
    method Reload()
      modifies this`ivars, store
      ensures store.data == old(store.data)
      ensures store.calls == old(store.calls) + [MGetCall(binding.names)]
      ensures ivars == ReloadedCache(old(ivars), binding.names, MGetValues(store.data, binding.names))
      ensures forall a :: a in binding.names ==> Cached(a) == AsVal(Lookup(store.data, a))
    {
      var names := binding.names;
      var values := store.MGet(names);
      var i := 0;
      while i < |names|
        invariant 0 <= i <= |names|
        invariant ivars == ReloadedCache(old(ivars), names[..i], values[..i])
        modifies this`ivars
      {
        ivars := ivars[names[i] := AsVal(values[i])];
        ReloadedCacheStep(old(ivars), names, values, i);
        i := i + 1;
      }
      assert names[..i] == names && values[..i] == values;
      ReloadReadsBareNames(old(ivars), names, store.data);
    }

    /**
     * The reload `reload_ssdb_attrs` evidently intends: one MGET of the keys
     * of the declared names, so every cached value becomes what the store
     * holds under the attribute's key.
     */
    method ReloadByKey()
      modifies this`ivars, store
      ensures store.data == old(store.data)
      ensures store.calls == old(store.calls) + [MGetCall(KeysFor(binding.table, ToS(Id()), binding.names))]
      ensures ivars == ReloadedCache(old(ivars), binding.names, MGetValues(store.data, KeysFor(binding.table, ToS(Id()), binding.names)))
      ensures forall a :: a in binding.names ==> Cached(a) == AsVal(Lookup(store.data, KeyOf(a)))
    {
      var names := binding.names;
      var keys := KeysFor(binding.table, ToS(Id()), names);
      var values := store.MGet(keys);
      var i := 0;
      while i < |names|
        invariant 0 <= i <= |names|
        invariant ivars == ReloadedCache(old(ivars), names[..i], values[..i])
        modifies this`ivars
      {
        ivars := ivars[names[i] := AsVal(values[i])];
        ReloadedCacheStep(old(ivars), names, values, i);
        i := i + 1;
      }
      assert names[..i] == names && values[..i] == values;
      ReloadByKeyCaches(old(ivars), names, store.data, binding.table, ToS(Id()));
    }
  }

  /** The keys of one record's attributes are distinct exactly when the names are. */
  lemma KeyOfInjective(r: Record, a: string, b: string)
    ensures r.KeyOf(a) == r.KeyOf(b) <==> a == b
  {
    KeyInjective(r.binding.table, ToS(r.Id()), a, b);
  }

  /**
   * Two records of one class whose ids print differently, and without ':'
   * (an Integer id never has one), never share a key, whatever their
   * attribute names.
   */
  lemma DistinctIdsDistinctKeys(r1: Record, r2: Record, a: string, b: string)
    requires r1.binding == r2.binding
    requires ToS(r1.Id()) != ToS(r2.Id()) && NoColon(ToS(r1.Id())) && NoColon(ToS(r2.Id()))
    ensures r1.KeyOf(a) != r2.KeyOf(b)
  {
    if r1.KeyOf(a) == r2.KeyOf(b) {
      KeyDeterminesIdAndName(r1.binding.table, ToS(r1.Id()), ToS(r2.Id()), a, b);
    }
  }
}
