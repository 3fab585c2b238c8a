# ssdb-attr attribute engine, modelled in Dafny

`SSDB::Attr` lets an ActiveRecord class keep some of its attributes in an
SSDB (Redis-protocol) key-value store instead of its own table. A class
declares such attributes with `ssdb_attr name, :string | :integer,
default: ...`. Each record then reads them lazily from the store under the key
`table:id:name`, caches them in instance variables, and reports changes
through `<name>_will_change!`. After a commit it writes the changed attributes
back with one MSET. After a destroy it deletes every declared key. On reload
it overwrites the cache.

This project models that engine (`lib/ssdb/attr.rb`):

- `ruby_values.dfy` (module `RubyValues`): the values the engine handles
  (nil, String, Integer) and Ruby's `to_s` and `to_i` on them.
- `typecast.dfy` (`Typecast`): the two attribute types and `typecaster`.
- `keys.dfy` (`Keys`): `ssdb_attr_key`, and how the id field is chosen.
- `store_ops.dfy` (`StoreOps`): the store commands the engine sends (GET,
  MGET, MSET, DEL) as functions on the store's contents, plus the log entry
  each command leaves.
- `attr_spec.dfy` (`AttrSpec`): what the generated getter and setter and
  the save, clear and reload operations compute, as functions. It also holds
  the lemmas about them.
- `attr.dfy` (`Attr`): the stateful engine.
  - `Store` is the server: its contents and the commands it received.
  - `Binding` is the class-level state that `ssdb_attr` and `ssdb_attr_id`
    update: the declared names in order, the type and default each accessor
    was generated with, and the id field.
  - `Record` is one record: its own attributes, the `@name` cache, and the
    log of `<name>_will_change!` calls. Its methods are the getter, the
    setter, `save_ssdb_attrs`, `clear_ssdb_attrs` and `reload_ssdb_attrs`.
    Each method's postcondition gives the new cache, the new store contents
    and the exact commands sent, in terms of the `AttrSpec` functions.
- `attr_scenarios.dfy` (`AttrScenarios`): client methods that replay the
  library's tests (`spec/ssdb/attr_spec.rb`), plus four cases of the code's
  behaviour that no library test covers: `UnsupportedTypeScenario`,
  `NilSetTwiceScenario`, `BareReloadScenario` and `ReloadByKeyScenario`.
  They use the contracts above and a few example lemmas (`PostKeyExample`,
  `CustomIdKeyExample`, `CastFour`).

Modelling choices:

- The store holds strings, since Redis does. A written value is stored as
  its `to_s`, because the client sends each argument's `to_s`.
- A cache entry that is missing and one that holds nil mean the same thing,
  as an unset Ruby instance variable reads nil.
- The table name (`self.class.name.tableize`) is a given string.

Behaviour of the code worth knowing (the model follows `lib/ssdb/attr.rb`
as written):

- **Declaring a name twice lists it twice.** Line 54 appends the name
  whatever the list holds, and the second `define_method` replaces the first
  accessors, so the last declaration's type and default win
  (`Attr.Binding.Declare`).
- **A record without an id still gets a key.** Line 136 interpolates
  whatever `ssdb_attr_id` returns, so a nil id gives the key
  `"posts::title"`.
- **A cached nil means "not loaded".** Line 57 falls through to the store
  whenever `@name` is nil. When the key is absent and there is no default,
  nil is cached, so every later get reads the store again
  (`Attr.Record.Get`).
- **Setting nil twice can fire `<name>_will_change!` twice.** Lines 64-66
  compare the cast new value with a fresh call of the getter and then cache
  the value as given. After a nil set the cache is nil again, so the second
  nil set reads the store again and fires again
  (`AttrScenarios.NilSetTwiceScenario`). For every non-nil value, the second
  set is silent (`AttrSpec.SecondSetSilent`).
- **Reload does not read the attributes' keys.** Line 176 asks MGET for the
  bare attribute names (see Findings).

## Model

| member | source | states |
|---|---|---|
| `RubyValues.IntToStringRoundTrip` | lib/ssdb/attr.rb:114-121 | `to_i` of the decimal form that `to_s` gives an Integer is that Integer, negative numbers included |
| `Typecast.Cast` | lib/ssdb/attr.rb:114-121 | casting to `:string` always gives a String and casting to `:integer` always gives an Integer, whatever the input, nil included |
| `Typecast.ParseType` | lib/ssdb/attr.rb:50-52 | exactly the symbols `:string` and `:integer` name a type, and the type found is the one the symbol names; `typecaster`'s `case` (lines 115-119) knows the same two and no others |
| `Typecast.TypecasterIdempotent` | lib/ssdb/attr.rb:114-121 | `typecaster` succeeds exactly for `:string` and `:integer`, fails with the "don't know this type" error otherwise, and casting its result again with the same type gives the same result |
| `Typecast.TypecasterNil` | lib/ssdb/attr.rb:114-121 | `typecaster(nil, :string)` is "" and `typecaster(nil, :integer)` is 0 |
| `Typecast.CastIdempotent` | lib/ssdb/attr.rb:114-121 | casting an already-cast value to the same type returns it unchanged |
| `Typecast.CastNil` | lib/ssdb/attr.rb:114-121 | nil casts to "" for strings and to 0 for integers |
| `Typecast.CastThroughString` | lib/ssdb/attr.rb:114-121 | an Integer cast to a string and back to an integer is unchanged |
| `Keys.KeyParts` | lib/ssdb/attr.rb:135-137 | the key is the table name, ':', the id, ':', and the attribute name, and each part can be read back from its position |
| `Keys.KeyInjective` | lib/ssdb/attr.rb:135-137 | for a fixed table and id, two keys are equal exactly when the attribute names are equal |
| `Keys.KeyDeterminesIdAndName` | lib/ssdb/attr.rb:135-137 | when the ids contain no ':' (an integer id never does), equal keys mean equal ids and equal names, so two records with different ids never share a key |
| `Keys.PostKeyExample` | spec/ssdb/attr_spec.rb:128-131 | a Post with id 1 keys `name` as `posts:1:name` |
| `Keys.CustomIdKeyExample` | spec/ssdb/attr_spec.rb:205-208 | a record whose id field holds 123 keys `content` as `custom_id_fields:123:content` |
| `AttrScenarios.CustomIdScenario` | spec/ssdb/attr_spec.rb:205-208 | a class whose id field is `uuid` keys a record with uuid 123 and id 7 by 123 |
| `Keys.IdFieldName` | lib/ssdb/attr.rb:123-125 | the id is read from the `ssdb_attr_id` field when one was set, and the field used is `id` exactly when none was set or `id` was set |
| `Attr.KeyOfInjective` | lib/ssdb/attr.rb:135-137 | the keys of one record's attributes are equal exactly when the attribute names are |
| `Attr.DistinctIdsDistinctKeys` | lib/ssdb/attr.rb:123-137 | two records of one class whose ids print differently, without ':', never share a key, whatever their attribute names |
| `Attr.Binding.constructor` | lib/ssdb/attr.rb:5-6 | a class starts with no declared names, no accessors and no id field |
| `Attr.Binding.Declare` | lib/ssdb/attr.rb:49-54 | a type other than `:string`/`:integer` raises and leaves the names and accessors unchanged; otherwise the name is appended at the end (earlier names unchanged, even when it repeats one) and its accessors take the new type and default |
| `AttrScenarios.UnsupportedTypeScenario` | lib/ssdb/attr.rb:50-52 | declaring a `:float` attribute is refused with the unsupported-type error and leaves the declared names as they were |
| `Attr.Binding.SetIdField` | lib/ssdb/attr.rb:24-27 | a nil field name raises and changes nothing; otherwise it becomes the id field; the declarations are unchanged either way |
| `AttrSpec.Read` | lib/ssdb/attr.rb:57-61 | the getter always returns a value of the declared type, one that casting again leaves unchanged |
| `AttrSpec.ReadZeroValue` | spec/ssdb/attr_spec.rb:134-152 | with no cache, no stored value and no default, a string attribute reads "" and an integer one 0 |
| `AttrSpec.ReadDefault` | spec/ssdb/attr_spec.rb:144-156 | with no cache and no stored value, the getter returns the declared default cast to the type |
| `AttrSpec.ReadStoredBeatsDefault` | lib/ssdb/attr.rb:58 | a value in the store, "" included, is read, cast, in preference to any default |
| `Attr.Record.Get` | lib/ssdb/attr.rb:56-62 | returns the type cast of the cached value if that is non-nil, with no store command sent; otherwise sends one GET for the key, caches the stored value (or the default, or nil) and returns its cast; the store's contents never change |
| `Attr.Record.Set` | lib/ssdb/attr.rb:64-67 | logs `<name>_will_change!` exactly when the cast new value differs from what the getter returns; caches the new value as given; sends at most the getter's GET and never writes the store |
| `AttrSpec.ReadAfterSet` | spec/ssdb/attr_spec.rb:81-84 | after a non-nil value is cached, the getter returns its cast whatever the store holds |
| `AttrSpec.Fires` | lib/ssdb/attr.rb:65 | writing back a value that casts like the value of the declared type already held never invokes `<name>_will_change!` |
| `AttrSpec.SecondSetSilent` | lib/ssdb/attr.rb:64-67 | setting the same non-nil value a second time does not fire `<name>_will_change!` |
| `AttrScenarios.NilSetTwiceScenario` | lib/ssdb/attr.rb:57-66 | with "abc" stored under `posts:1:title`, setting title to nil twice invokes `title_will_change!` twice |
| `AttrSpec.CastEqualWriteSilent` | lib/ssdb/attr.rb:65 | the comparison is made after casting: writing "4" to an integer attribute holding 4 fires nothing |
| `AttrSpec.SaveParams` | lib/ssdb/attr.rb:158-160 | at most one pair per change entry, and no pairs at all exactly when no changed name is declared |
| `AttrSpec.SaveWritesChanged` | lib/ssdb/attr.rb:157-165 | after the MSET, the key of each declared, changed attribute holds the `to_s` of its new value |
| `AttrSpec.SaveKeepsOthers` | lib/ssdb/attr.rb:157-165 | after the MSET, every key that is not the key of a declared, changed attribute is as before (present or absent, same value) |
| `AttrSpec.SaveEffect` | lib/ssdb/attr.rb:157-165 | the two facts above together: exactly the declared, changed attributes are written |
| `Attr.Record.Save` | lib/ssdb/attr.rb:157-165 | when no changed name is declared, sends no command and leaves the store unchanged; otherwise sends one MSET of the save pairs; either way, each declared changed attribute's key then holds its new value and every other key is unchanged |
| `StoreOps.DelAllIsDifference` | lib/ssdb/attr.rb:145-149 | deleting keys one by one removes exactly those keys and keeps every other entry |
| `StoreOps.DelAllIdempotent` | lib/ssdb/attr.rb:145-149 | running the deletions a second time gives the same store as running them once |
| `Attr.Record.Clear` | lib/ssdb/attr.rb:145-149 | the store afterwards is the old store without the key of every declared name; one DEL is sent per declared name, in declaration order |
| `AttrSpec.ReloadedCache` | lib/ssdb/attr.rb:178-180 | after the reload loop the cache holds an entry for exactly the names it held before and the reloaded names |
| `AttrSpec.ReloadedCacheAt` | lib/ssdb/attr.rb:178-180 | each declared name's cache entry becomes the answer at its position, and entries of other names are unchanged |
| `AttrSpec.ReloadReadsBareNames` | lib/ssdb/attr.rb:176-180 | as written, each declared name is cached with what the store holds under the bare name |
| `AttrSpec.ReloadThenReadWhenBareKeyAbsent` | lib/ssdb/attr.rb:175-181 | when nothing is stored under the bare name, the next read after reload gives what is stored under the attribute's key (or the default), discarding the unsaved edit |
| `Attr.Record.Reload` | lib/ssdb/attr.rb:175-181 | sends one MGET of the bare declared names; the store is unchanged; every declared name's cache entry is overwritten with the answer for it, unsaved edits included |
| `AttrSpec.BareReloadMisreads` | lib/ssdb/attr.rb:176 | when "title" => "stale" is stored beside "posts:1:title" => "foobar", reading title after the as-written reload gives "stale", not "foobar" |
| `AttrSpec.ReloadByKeyThenRead` | lib/ssdb/attr.rb:175-181 | with MGET of the attributes' keys, the next read of every declared attribute gives exactly what is stored under its key (or the default), whatever was cached |
| `Attr.Record.ReloadByKey` | lib/ssdb/attr.rb:175-181 | the corrected reload: one MGET of the declared keys, after which every declared name's cache entry is what the store holds under its key and every other cache entry is kept, as `ReloadedCache` gives it |
| `AttrSpec.ReloadByKeyCaches` | lib/ssdb/attr.rb:175-181 | with MGET of the attributes' keys, each declared name is cached with what the store holds under its key |

## Left out

- `lib/ssdb-attr.rb` (`setup`, `disconnect!`) only builds a connection pool of
  Redis clients, and `disconnect!` is empty. This is I/O plumbing.
- Pool selection (`ssdb_attr_pool`, lib/ssdb/attr.rb:36-38 and 102-104) and
  `ConnectionPool#with` are left out. Each store command acts directly on
  `Store`, with no timeout or capacity limit.
- Network and pool failures are not modelled: every store command succeeds.
- `<name>_was`, `<name>_change`, `<name>_changed?`, `restore_<name>!` and the
  body of `<name>_will_change!` (lib/ssdb/attr.rb:69-77) delegate to
  ActiveModel::Dirty, which is not part of this model. The model only records
  that `<name>_will_change!` was invoked. `previous_changes` is a parameter of
  `Save`.
- The host framework's wiring is not part of this model: the `after_commit`
  registrations (lib/ssdb/attr.rb:8-9), the `reload` override that calls
  `super` (lib/ssdb/attr.rb:88-92), and validation. Save, clear and reload
  are invoked directly.
- Host attributes are a map, and a missing one reads as nil. The
  NoMethodError that `send` raises for an id field that does not exist is not
  modelled.
- `tableize` pluralisation is not modelled: the table name is a given string.
- `RubyValues.ParseInt` models `String#to_i` as: leading whitespace, an
  optional sign, then the longest run of decimal digits, else 0. Underscores
  between digits are not accepted.
- Ruby `false` is not among the modelled values. The getter's `||` therefore
  treats only nil as missing.
- Type arguments are modelled by their symbol names. `typecaster`'s `to_sym`,
  which would also accept a String, is not distinguished.
- An MGET with no keys (a reload with no declared names) is modelled as
  returning no values. The server's answer to that command is not part of
  this model.

## Findings

| source | as written | input that shows it | evidently intended | confidence | as-written member | corrected member |
|---|---|---|---|---|---|---|
| lib/ssdb/attr.rb:176 | `reload_ssdb_attrs` sends MGET for the bare attribute names | a store holding "title" => "stale" and "posts:1:title" => "foobar": after reload, `title` reads "stale" | MGET for `ssdb_attr_key(name)` of each declared name, so every attribute is reloaded from its own key | high that the lookup uses the wrong keys; not executed | `AttrSpec.BareReloadMisreads` | `Attr.Record.ReloadByKey` |

The library's reload test (spec/ssdb/attr_spec.rb:98-106) can pass with the
code as written only because the bare names are absent. The reload then
caches nil, and the getter fetches from the real key
(`AttrSpec.ReloadThenReadWhenBareKeyAbsent`). `AttrScenarios.ReloadTitleScenario`
and `AttrScenarios.ReloadVersionScenario` replay that test against
`Attr.Record.Reload`. `AttrScenarios.ReloadByKeyScenario` and
`AttrScenarios.BareReloadScenario` show `Attr.Record.ReloadByKey` returning
the saved title where `Attr.Record.Reload` returns the stale one.
