/**
 * Client code that replays the library's own test cases, plus four cases of
 * the code's behaviour no library test covers (an unsupported type, a nil
 * set twice, and the reload of a value stored under a bare name, as written
 * and as corrected), against the contracts of module Attr and a few example
 * lemmas.
 */
module AttrScenarios {
  import opened Results
  import opened RubyValues
  import opened Typecast
  import opened Keys
  import opened StoreOps
  import opened AttrSpec
  import opened Attr

  /** Four of class Post's declarations and a record with id 1. */
  method DeclarePost(store: Store) returns (post: Binding, rec: Record)
    ensures fresh(post) && fresh(rec)
    ensures rec.binding == post && rec.store == store && rec.ivars == map[] && rec.willChange == []
    ensures post.Valid() && post.names == ["int_version", "default_title", "title", "version"]
    ensures "int_version" in post.decls && post.decls["int_version"] == Decl(IntegerType, VNil)
    ensures "default_title" in post.decls && post.decls["default_title"] == Decl(StringType, VStr("Untitled"))
    ensures "title" in post.decls && post.decls["title"] == Decl(StringType, VNil)
    ensures "version" in post.decls && post.decls["version"] == Decl(IntegerType, VInt(1))
    ensures rec.KeyOf("title") == "posts:1:title" && rec.KeyOf("version") == "posts:1:version"
  {
    post := new Binding("posts");
    var r := post.Declare("int_version", "integer", VNil);
    assert post.decls == map["int_version" := Decl(IntegerType, VNil)];
    r := post.Declare("default_title", "string", VStr("Untitled"));
    r := post.Declare("title", "string", VNil);
    assert post.decls == map["int_version" := Decl(IntegerType, VNil), "default_title" := Decl(StringType, VStr("Untitled")),
                             "title" := Decl(StringType, VNil)];
    r := post.Declare("version", "integer", VInt(1));
    assert post.names == ["int_version", "default_title", "title", "version"];
    rec := new Record(post, store, map["id" := VInt(1)]);
    assert ToS(rec.Id()) == "1";
    PostKeyExample();
  }

  /** Declaring an attribute of a type other than string and integer is refused. */
  method UnsupportedTypeScenario() returns (r: Outcome<Error>, names: seq<string>)
    ensures r == Fail(TypeNotSupported("float")) && names == ["title"]
  {
    var post := new Binding("posts");
    r := post.Declare("title", "string", VNil);
    r := post.Declare("price", "float", VNil);
    names := post.names;
  }

  /** Without a default, an unset string attribute reads "". */
  method StringDefaultScenario()
  {
    var store := new Store(map[]);
    var post, rec := DeclarePost(store);
    assert Lookup(store.data, rec.KeyOf("title")) == None;
    var t := rec.Get("title");
    assert t == Cast(VNil, StringType) == VStr("");
  }

  /** Without a default, an unset integer attribute reads 0. */
  method IntegerDefaultScenario()
  {
    var store := new Store(map[]);
    var post, rec := DeclarePost(store);
    assert Lookup(store.data, rec.KeyOf("int_version")) == None;
    var iv := rec.Get("int_version");
    assert iv == Cast(VNil, IntegerType) == VInt(0);
  }

  /** With a default, an unset attribute reads the default. */
  method DeclaredDefaultScenario()
  {
    var store := new Store(map[]);
    var post, rec := DeclarePost(store);
    assert Lookup(store.data, rec.KeyOf("default_title")) == None;
    var dt := rec.Get("default_title");
    assert dt == Cast(VStr("Untitled"), StringType) == VStr("Untitled");
  }

  /** The setter tracks changes against the value read, and leaves the store alone. */
  method SetScenario()
  {
    var store := new Store(map[]);
    var post, rec := DeclarePost(store);
    ghost var d := post.decls["title"];
    assert Lookup(store.data, rec.KeyOf("title")) == None;
    assert !Fires(d, VStr(""), Read(d, VNil, None));
    rec.Set("title", VStr(""));
    assert rec.willChange == [] && rec.Cached("title") == VStr("");
    assert Fires(d, VStr("foobar"), Read(d, VStr(""), None));
    rec.Set("title", VStr("foobar"));
    assert rec.willChange == ["title"] && rec.Cached("title") == VStr("foobar");
    var t := rec.Get("title");
    assert t == Cast(VStr("foobar"), StringType) == VStr("foobar");
    assert store.data == map[];
  }

  /** Save writes the changed title under its key; clear deletes it again. */
  method SaveClearScenario()
  {
    var store := new Store(map[]);
    var post, rec := DeclarePost(store);
    rec.Save([("title", Change(VStr(""), VStr("foobar2")))]);
    assert store.data["posts:1:title"] == "foobar2";
    rec.Clear();
    assert "posts:1:title" !in store.data;
  }

  /** Reload discards an unsaved title; the saved one comes back from its key. */
  method ReloadTitleScenario()
  {
    var store := new Store(map["posts:1:title" := "foobar", "posts:1:version" := "4"]);
    ghost var data := store.data;
    assert Lookup(data, "title") == None && Lookup(data, "posts:1:title") == Some("foobar");
    var post, rec := DeclarePost(store);
    rec.Set("title", VStr("fizzbuzz"));
    assert store.data == data && rec.KeyOf("title") == "posts:1:title";
    rec.Reload();
    assert "title" in post.names && store.data == data;
    assert rec.Cached("title") == VNil && rec.KeyOf("title") == "posts:1:title";
    var t := rec.Get("title");
    assert t == Cast(VStr("foobar"), StringType) == VStr("foobar");
  }

  /** Reload discards an unsaved version; the saved "4" comes back as 4. */
  method ReloadVersionScenario()
  {
    var store := new Store(map["posts:1:title" := "foobar", "posts:1:version" := "4"]);
    ghost var data := store.data;
    assert Lookup(data, "version") == None && Lookup(data, "posts:1:version") == Some("4");
    var post, rec := DeclarePost(store);
    rec.Set("version", VInt(3));
    assert store.data == data && rec.KeyOf("version") == "posts:1:version";
    rec.Reload();
    assert "version" in post.names && store.data == data;
    assert rec.Cached("version") == VNil && rec.KeyOf("version") == "posts:1:version";
    var v := rec.Get("version");
    assert v == Cast(VStr("4"), IntegerType);
    CastFour(v);
  }

  /** With a value under the bare name "title", the keyed reload brings back the saved title. */
  method ReloadByKeyScenario()
  {
    var store := new Store(map["title" := "stale", "posts:1:title" := "foobar"]);
    ghost var data := store.data;
    assert Lookup(data, "posts:1:title") == Some("foobar");
    var post, rec := DeclarePost(store);
    rec.Set("title", VStr("fizzbuzz"));
    assert store.data == data && rec.KeyOf("title") == "posts:1:title";
    rec.ReloadByKey();
    assert "title" in post.names && store.data == data;
    assert rec.Cached("title") == VStr("foobar");
    var t := rec.Get("title");
    assert t == Cast(VStr("foobar"), StringType) == VStr("foobar");
  }

  /** With a value under the bare name "title", the reload as written reads that value instead. */
  method BareReloadScenario()
  {
    var store := new Store(map["title" := "stale", "posts:1:title" := "foobar"]);
    ghost var data := store.data;
    assert Lookup(data, "title") == Some("stale");
    var post, rec := DeclarePost(store);
    rec.Set("title", VStr("fizzbuzz"));
    assert store.data == data;
    rec.Reload();
    assert "title" in post.names && store.data == data;
    assert rec.Cached("title") == VStr("stale");
    var t := rec.Get("title");
    assert t == Cast(VStr("stale"), StringType) == VStr("stale");
  }

  /**
   * Setting nil over a stored "abc": nil stays in the cache, so each read
   * goes back to the store and each nil set invokes `title_will_change!`.
   */
  method NilSetTwiceScenario() returns (fired: seq<string>)
    ensures fired == ["title", "title"]
  {
    var store := new Store(map["posts:1:title" := "abc"]);
    var post, rec := DeclarePost(store);
    ghost var d := post.decls["title"];
    assert Lookup(store.data, rec.KeyOf("title")) == Some("abc");
    assert Read(d, VNil, Some("abc")) == VStr("abc");
    assert Fires(d, VNil, VStr("abc"));
    rec.Set("title", VNil);
    assert rec.willChange == ["title"] && rec.Cached("title") == VNil;
    assert Lookup(store.data, rec.KeyOf("title")) == Some("abc");
    rec.Set("title", VNil);
    assert rec.willChange == ["title"] + ["title"];
    fired := rec.willChange;
  }

  /** A class whose id comes from the `uuid` field: the key uses the uuid, not the id. */
  method CustomIdScenario() returns (key: string)
    ensures key == "custom_id_fields:123:content"
  {
    var b := new Binding("custom_id_fields");
    var r := b.SetIdField(Some("uuid"));
    r := b.Declare("content", "string", VNil);
    var store := new Store(map[]);
    var rec := new Record(b, store, map["id" := VInt(7), "uuid" := VInt(123)]);
    CustomIdKeyExample();
    key := rec.KeyOf("content");
  }
}
