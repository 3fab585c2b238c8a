/** How the engine names an attribute in the store: `table:id:name`. */
module Keys {
  import opened Results
  import opened RubyValues

  predicate NoColon(s: string) { forall i :: 0 <= i < |s| ==> s[i] != ':' }

  /** `ssdb_attr_key`: the table name, the record's id and the attribute name, joined by ':'. */
  function Key(table: string, id: string, name: string): string
  {
    table + ":" + id + ":" + name
  }

  /** Each part of a key can be read back at its position. */
  lemma KeyParts(table: string, id: string, name: string)
    ensures var k := Key(table, id, name);
      && |k| == |table| + |id| + |name| + 2
      && k[..|table|] == table && k[|table|] == ':'
      && k[|table| + 1..|table| + 1 + |id|] == id && k[|table| + 1 + |id|] == ':'
      && k[|table| + |id| + 2..] == name
  {
  }

  /** The record attribute that holds the id: the `ssdb_attr_id` field if set, else `id`. */
  function IdFieldName(idField: Option<string>): (f: string)
    ensures idField.Some? ==> f == idField.value
    ensures f == "id" <==> idField == None || idField == Some("id")
  {
    match idField
    case Some(f) => f
    case None => "id"
  }

  /** The keys of `names`, in order. */
  function KeysFor(table: string, id: string, names: seq<string>): seq<string>
  {
    seq(|names|, i requires 0 <= i < |names| => Key(table, id, names[i]))
  }

  /** The set of keys of `names`. */
  lemma KeysForSet(table: string, id: string, names: seq<string>)
    ensures (set k | k in KeysFor(table, id, names)) == (set a | a in names :: Key(table, id, a))
  {
    var ks := KeysFor(table, id, names);
    forall k | k in ks
      ensures k in (set a | a in names :: Key(table, id, a))
    {
      var j :| 0 <= j < |ks| && ks[j] == k;
      assert ks[j] == Key(table, id, names[j]);
      assert names[j] in names;
    }
    forall a | a in names
      ensures Key(table, id, a) in ks
    {
      var j :| 0 <= j < |names| && names[j] == a;
      assert ks[j] == Key(table, id, a);
    }
  }

  /** For a fixed table and id, distinct attribute names have distinct keys. */
  lemma KeyInjective(table: string, id: string, a: string, b: string)
    ensures Key(table, id, a) == Key(table, id, b) <==> a == b
  {
    KeyParts(table, id, a);
    KeyParts(table, id, b);
  }

  /**
   * When the ids contain no ':' (an integer id never does), a key determines
   * both the id and the attribute name: two records of a table with
   * different ids never share a key.
   */
  lemma KeyDeterminesIdAndName(table: string, id1: string, id2: string, a: string, b: string)
    requires NoColon(id1) && NoColon(id2)
    requires Key(table, id1, a) == Key(table, id2, b)
    ensures id1 == id2 && a == b
  {
    KeyParts(table, id1, a);
    KeyParts(table, id2, b);
  }

  /** The keys of a post with id 1. */
  lemma PostKeyExample()
    ensures Key("posts", ToS(VInt(1)), "name") == "posts:1:name"
    ensures Key("posts", "1", "title") == "posts:1:title"
    ensures Key("posts", "1", "version") == "posts:1:version"
  {
  }

  lemma CustomIdKeyExample()
    ensures Key("custom_id_fields", ToS(VInt(123)), "content") == "custom_id_fields:123:content"
  {
    assert NatToString(12) == "12";
    assert NatToString(123) == "123";
  }
}
