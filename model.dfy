/**
 * Model.ts: an active record whose fields live on the object itself. Here
 * the fields are an ordered dictionary `props` (own keys in enumeration
 * order), next to `$Errors` (`errors`) and `$originalValues` (`originals`).
 * What a concrete model class supplies (its name, date columns, URLs,
 * relation factories, `IsNew`) is a `Schema`; factories and the date parser
 * are opaque functions.
 */
module Models {
  import opened Wrappers
  import opened Dicts
  import opened JsValues
  import Strings
  import ApiDriver

  /** The abstract members of a concrete model class, and its `$factories`. */
  datatype Schema = Schema(
    modelName: string,
    dateColumns: seq<string>,
    createUrl: string,
    editUrl: string,
    /** `$factories[field].FromData` for the fields that have a factory. */
    factories: map<string, Value -> Value>,
    /** `Date.fromUsDateString` */
    fromUsDateString: Value -> Value,
    /** `FromData` of the factory of the nested repository with the given identity. */
    repositoryFactory: (Ref, Value) -> Value,
    /** `IsNew()`, as a function of the fields. */
    isNew: Dict<Value> -> bool)

  /** The state `Load` changes: the fields and `$Errors`. */
  datatype Fields = Fields(props: Dict<Value>, errors: Dict<Value>)

  /** What `Load` leaves behind, and whether it ran to the end or threw. */
  datatype Loaded = Loaded(fields: Fields, ok: bool)

  /** A request handed to the driver. */
  datatype Call = Call(verb: ApiDriver.Verb, url: string, params: Dict<Value>)

  // ---------------------------------------------------------------------------
  // Reading fields.

  /** `GetPropertyValue`: `this[prop] || undefined`. */
  function Current(props: Dict<Value>, prop: string): (r: Value)
    ensures r == Undefined || Truthy(r)
    ensures Truthy(At(props, prop)) <==> r == At(props, prop) && r != Undefined
  {
    OrUndefined(At(props, prop))
  }

  /** `HasPropertyChanged`: `GetPropertyValue(prop) !== GetOriginalValue(prop)`. */
  predicate Changed(props: Dict<Value>, originals: Dict<Value>, prop: string)
  {
    !StrictEquals(Current(props, prop), Current(originals, prop))
  }

  /** `HasFactory`: a factory is registered for the field. */
  predicate HasFactory(s: Schema, field: string)
  {
    field in s.factories
  }

  /** Whether `GetOwnPropertyNames` lists a key holding `v`. */
  predicate Listed(s: Schema, key: string, v: Value)
  {
    key in s.dateColumns || !(Strings.StartsWith(key, "$") || IsModel(v))
  }

  /**
   * Whether `GetOwnPropertyNames` throws at a key holding `v`. For a key that
   * is neither a date column nor `$`-prefixed it evaluates `Object.isModel(v)`,
   * and since `typeof null` is `"object"`, `Object.isModel(null)` reaches
   * `Object.keys(null)`, which throws a TypeError.
   */
  predicate ListingThrows(s: Schema, key: string, v: Value)
  {
    key !in s.dateColumns && !Strings.StartsWith(key, "$") && v == Null
  }

  /**
   * `GetOwnPropertyNames`: the listed own keys, in enumeration order, or
   * `None` when the `forEach` throws.
   */
  function OwnPropertyNames(s: Schema, props: Dict<Value>): (r: Option<seq<string>>)
    ensures r.Some? ==> |r.value| <= |props|
  {
    if props == [] then Some([])
    else
      var last := props[|props| - 1];
      match OwnPropertyNames(s, props[..|props| - 1])
      case None => None
      case Some(names) =>
        if ListingThrows(s, last.0, last.1) then None
        else if Listed(s, last.0, last.1) then Some(names + [last.0])
        else Some(names)
  }

  /** `GetOwnPropertyNames` throws exactly when some own key that reaches `Object.isModel` holds `null`. */
  lemma {:induction false} OwnPropertyNamesThrows(s: Schema, props: Dict<Value>)
    ensures OwnPropertyNames(s, props).None? <==>
              exists i :: 0 <= i < |props| && ListingThrows(s, props[i].0, props[i].1)
  {
    if props != [] {
      var init := props[..|props| - 1];
      OwnPropertyNamesThrows(s, init);
      assert forall i :: 0 <= i < |init| ==> props[i] == init[i];
    }
  }

  /** When it does not throw, a key is listed exactly when some own entry under it passes the filter. */
  lemma {:induction false} OwnPropertyNamesMembers(s: Schema, props: Dict<Value>, k: string)
    requires OwnPropertyNames(s, props).Some?
    ensures k in OwnPropertyNames(s, props).value <==>
              exists i :: 0 <= i < |props| && props[i].0 == k && Listed(s, k, props[i].1)
  {
    if props != [] {
      var init := props[..|props| - 1];
      OwnPropertyNamesMembers(s, init, k);
      assert forall i :: 0 <= i < |init| ==> props[i] == init[i];
    }
  }

  // ---------------------------------------------------------------------------
  // Load.

  /**
   * The items `HandleRepository` pushes into the repository `ref`, one push
   * per array element: the item at each position is the factory's output for
   * the element at the same position.
   */
  function RepositoryItems(s: Schema, ref: Ref, elems: seq<Value>): (r: seq<Value>)
    ensures |r| == |elems| && forall i :: 0 <= i < |elems| ==> r[i] == s.repositoryFactory(ref, elems[i])
  {
    if elems == [] then []
    else RepositoryItems(s, ref, elems[..|elems| - 1]) + [s.repositoryFactory(ref, elems[|elems| - 1])]
  }

  /** One `forEach` step of `Load`, for a key already converted to CamelCase. */
  function LoadEntry(s: Schema, f: Fields, key: string, v: Value): Fields
  {
    var current := Current(f.props, key);
    if v == Null then f
    else if IsRepository(current) then
      if v.Arr? then Fields(Put(f.props, key, RepoRef(current.ref, RepositoryItems(s, current.ref, v.elems))), f.errors)
      else f
    else if IsModel(current) then
      if HasFactory(s, key) then Fields(Put(f.props, key, s.factories[key](v)), Put(f.errors, key, Str("")))
      else f
    else
      var value := if key in s.dateColumns then s.fromUsDateString(v) else v;
      Fields(Put(f.props, key, value), Put(f.errors, key, Str("")))
  }

  /**
   * What one step of `Load` does to the fields and their errors.
   * The handling is chosen by what the field holds now, not by the incoming
   * value: a `null` value is skipped; a nested repository takes the elements
   * of an array and ignores anything else, its error untouched; a nested
   * model is replaced by its factory's output, or left alone without a
   * factory; any other field is assigned (a date column through the date
   * parser) and its error set to `''`. No other key changes.
   */
  lemma LoadEntryEffect(s: Schema, f: Fields, key: string, v: Value)
    ensures var r := LoadEntry(s, f, key, v);
            v == Null ==> r == f
    ensures var r := LoadEntry(s, f, key, v);
            forall k :: k != key ==> Lookup(r.props, k) == Lookup(f.props, k) && Lookup(r.errors, k) == Lookup(f.errors, k)
    ensures var r := LoadEntry(s, f, key, v);
            v != Null && IsRepository(Current(f.props, key)) ==>
              r.errors == f.errors &&
              if v.Arr? then
                var ref := Current(f.props, key).ref;
                Lookup(r.props, key) == Some(RepoRef(ref, RepositoryItems(s, ref, v.elems)))
              else r == f
    ensures var r := LoadEntry(s, f, key, v);
            v != Null && IsModel(Current(f.props, key)) ==>
              if HasFactory(s, key) then
                Lookup(r.props, key) == Some(s.factories[key](v)) && Lookup(r.errors, key) == Some(Str(""))
              else r == f
    ensures var r := LoadEntry(s, f, key, v);
            v != Null && !IsRepository(Current(f.props, key)) && !IsModel(Current(f.props, key)) ==>
              Lookup(r.props, key) == Some(if key in s.dateColumns then s.fromUsDateString(v) else v) &&
              Lookup(r.errors, key) == Some(Str(""))
    ensures var r := LoadEntry(s, f, key, v);
            DistinctKeys(f.props) ==> DistinctKeys(r.props)
    ensures var r := LoadEntry(s, f, key, v);
            DistinctKeys(f.errors) ==> DistinctKeys(r.errors)
  {
    var current := Current(f.props, key);
    if v != Null {
      if IsRepository(current) {
        if v.Arr? {
          var value := RepoRef(current.ref, RepositoryItems(s, current.ref, v.elems));
          PutLookup(f.props, key, value);
          PutKeys(f.props, key, value);
        }
      } else {
        var value :=
          if IsModel(current) then (if HasFactory(s, key) then s.factories[key](v) else v)
          else if key in s.dateColumns then s.fromUsDateString(v) else v;
        PutLookup(f.props, key, value);
        PutKeys(f.props, key, value);
        PutLookup(f.errors, key, Str(""));
        PutKeys(f.errors, key, Str(""));
      }
    }
  }

  /**
   * `Load` over the own entries of a data bag, first to last. An empty key
   * makes `snakeCaseToCamelCase` throw: the entries before it have been
   * applied and the rest are not.
   */
  function LoadEntries(s: Schema, f: Fields, es: Dict<Value>): Loaded
  {
    if es == [] then Loaded(f, true)
    else
      var prev := LoadEntries(s, f, es[..|es| - 1]);
      var last := es[|es| - 1];
      if !prev.ok then prev
      else if last.0 == "" then Loaded(prev.fields, false)
      else Loaded(LoadEntry(s, prev.fields, Strings.SnakeCaseToCamelCase(last.0), last.1), true)
  }

  /**
   * `Load(data)`: `Object.keys` throws on `undefined` and `null` before
   * anything changes; otherwise it runs to the end exactly when no data key is
   * empty.
   */
  function LoadValue(s: Schema, f: Fields, data: Value): (r: Loaded)
    ensures data == Undefined || data == Null ==> r == Loaded(f, false)
    ensures r.ok <==> OwnEntries(data).Some? && forall i :: 0 <= i < |OwnEntries(data).value| ==> OwnEntries(data).value[i].0 != ""
  {
    match OwnEntries(data)
    case None => Loaded(f, false)
    case Some(es) =>
      LoadCompletes(s, f, es);
      LoadEntries(s, f, es)
  }

  /** The key `Load` writes for a data key, when it does not throw. */
  predicate ConvertsTo(dataKey: string, field: string)
  {
    dataKey != "" && Strings.SnakeCaseToCamelCase(dataKey) == field
  }

  /** `Load` runs to the end exactly when no data key is empty. */
  lemma {:induction false} LoadCompletes(s: Schema, f: Fields, es: Dict<Value>)
    ensures LoadEntries(s, f, es).ok <==> forall i :: 0 <= i < |es| ==> es[i].0 != ""
  {
    if es != [] {
      var init := es[..|es| - 1];
      LoadCompletes(s, f, init);
      assert forall i :: 0 <= i < |init| ==> init[i] == es[i];
    }
  }

  /** `LoadEntries` of one more entry: the step the loop of `Load` takes. */
  lemma LoadEntriesSnoc(s: Schema, f: Fields, es: Dict<Value>, i: int)
    requires 0 <= i < |es|
    ensures var prev := LoadEntries(s, f, es[..i]);
            LoadEntries(s, f, es[..i + 1]) ==
              if !prev.ok then prev
              else if es[i].0 == "" then Loaded(prev.fields, false)
              else Loaded(LoadEntry(s, prev.fields, Strings.SnakeCaseToCamelCase(es[i].0), es[i].1), true)
  {
    assert es[..i + 1][..i] == es[..i];
  }

  /** Once `Load` has thrown, the remaining entries are not looked at. */
  lemma {:induction false} LoadStopsAtThrow(s: Schema, f: Fields, es: Dict<Value>, n: nat)
    requires n <= |es| && !LoadEntries(s, f, es[..n]).ok
    ensures LoadEntries(s, f, es) == LoadEntries(s, f, es[..n])
    decreases |es| - n
  {
    if n < |es| {
      assert es[..n + 1][..n] == es[..n];
      LoadStopsAtThrow(s, f, es, n + 1);
    } else {
      assert es[..n] == es;
    }
  }

  /** A field no data key converts to keeps its value and its error. */
  lemma {:induction false} LoadFrame(s: Schema, f: Fields, es: Dict<Value>, k: string)
    requires forall i :: 0 <= i < |es| ==> !ConvertsTo(es[i].0, k)
    ensures Lookup(LoadEntries(s, f, es).fields.props, k) == Lookup(f.props, k)
    ensures Lookup(LoadEntries(s, f, es).fields.errors, k) == Lookup(f.errors, k)
  {
    if es != [] {
      var init := es[..|es| - 1];
      assert forall i :: 0 <= i < |init| ==> init[i] == es[i];
      LoadFrame(s, f, init, k);
      var prev := LoadEntries(s, f, init);
      var last := es[|es| - 1];
      if prev.ok && last.0 != "" {
        LoadEntryEffect(s, prev.fields, Strings.SnakeCaseToCamelCase(last.0), last.1);
      }
    }
  }

  /** `Load` never duplicates a field: distinct own keys stay distinct. */
  lemma {:induction false} LoadKeepsKeysDistinct(s: Schema, f: Fields, es: Dict<Value>)
    requires DistinctKeys(f.props)
    ensures DistinctKeys(LoadEntries(s, f, es).fields.props)
  {
    if es != [] {
      LoadKeepsKeysDistinct(s, f, es[..|es| - 1]);
      var prev := LoadEntries(s, f, es[..|es| - 1]);
      var last := es[|es| - 1];
      if prev.ok && last.0 != "" {
        LoadEntryEffect(s, prev.fields, Strings.SnakeCaseToCamelCase(last.0), last.1);
      }
    }
  }

  // ---------------------------------------------------------------------------
  // Original values and changes.

  /** The entries `LoadOriginalValues` writes: each name with its current value. */
  function SnapshotEntries(props: Dict<Value>, names: seq<string>): (r: Dict<Value>)
    ensures Keys(r) == names
  {
    seq(|names|, i requires 0 <= i < |names| => (names[i], Current(props, names[i])))
  }

  /** The snapshot one name further on: the step the loop of `LoadOriginalValues` takes. */
  lemma SnapshotEntriesSnoc(props: Dict<Value>, names: seq<string>, i: int)
    requires 0 <= i < |names|
    ensures PutAll([], SnapshotEntries(props, names[..i + 1])) ==
              Put(PutAll([], SnapshotEntries(props, names[..i])), names[i], Current(props, names[i]))
  {
    assert SnapshotEntries(props, names[..i + 1]) == SnapshotEntries(props, names[..i]) + [(names[i], Current(props, names[i]))];
    PutAllSnoc([], SnapshotEntries(props, names[..i]), names[i], Current(props, names[i]));
  }

  /** `$originalValues` after `LoadOriginalValues`, or `None` when `GetOwnPropertyNames` throws. */
  function Snapshot(s: Schema, props: Dict<Value>): Option<Dict<Value>>
  {
    match OwnPropertyNames(s, props)
    case None => None
    case Some(names) => Some(PutAll([], SnapshotEntries(props, names)))
  }

  /** When every entry for `k` carries `v`, the last one does too. */
  lemma {:induction false} LastValueOfUniform(es: Dict<Value>, k: string, v: Value)
    requires forall i :: 0 <= i < |es| && es[i].0 == k ==> es[i].1 == v
    ensures k in Keys(es) ==> LastValue(es, k) == Some(v)
  {
    if es != [] && es[|es| - 1].0 != k {
      var init := es[..|es| - 1];
      assert forall i :: 0 <= i < |init| ==> init[i] == es[i];
      LastValueOfUniform(init, k, v);
      InKeys(es, k);
      InKeys(init, k);
    }
  }

  /**
   * Right after `LoadOriginalValues` the snapshot holds exactly the listed
   * properties, and none of them counts as changed.
   */
  lemma SnapshotClean(s: Schema, props: Dict<Value>, k: string)
    requires OwnPropertyNames(s, props).Some?
    ensures Snapshot(s, props).Some?
    ensures k in Keys(Snapshot(s, props).value) <==> k in OwnPropertyNames(s, props).value
    ensures k in OwnPropertyNames(s, props).value ==> !Changed(props, Snapshot(s, props).value, k)
  {
    var names := OwnPropertyNames(s, props).value;
    var es := SnapshotEntries(props, names);
    PutAllLookup([], es, k);
    LastValueOfUniform(es, k, Current(props, k));
    var o := Snapshot(s, props).value;
    assert k in Keys(o) <==> Lookup(o, k).Some? by {
      InKeys(o, k);
    }
    if k in names {
      assert At(o, k) == Current(props, k);
      StrictEqualsIsEquivalence(Current(props, k), Current(props, k), Current(props, k));
    }
  }

  /** Falsy values are all the same to `HasPropertyChanged`: each collapses to `undefined`. */
  lemma FalsyNeverChanged(props: Dict<Value>, originals: Dict<Value>, k: string)
    requires !Truthy(At(props, k)) && !Truthy(At(originals, k))
    ensures !Changed(props, originals, k)
  {
    assert Current(props, k) == Undefined == Current(originals, k);
  }

  /** A value that is not an object has changed exactly when its collapsed value differs. */
  lemma ChangedByValue(props: Dict<Value>, originals: Dict<Value>, k: string)
    requires !IsReference(At(props, k))
    ensures Changed(props, originals, k) <==> Current(props, k) != Current(originals, k)
  {
    StrictEqualsIsEquivalence(Current(props, k), Current(originals, k), Current(originals, k));
  }

  /** The value `GetChangedAttributes` reports for a changed field; `None` where `toDateString` throws. */
  function Attribute(s: Schema, props: Dict<Value>, k: string): Option<Value>
  {
    var v := Current(props, k);
    if k !in s.dateColumns then Some(v)
    else if v.Date? then Some(Str(v.dateText))
    else None
  }

  /** `GetChangedAttributes` over `names`, first to last; `None` when it throws. */
  function CollectChanged(s: Schema, props: Dict<Value>, originals: Dict<Value>, names: seq<string>): Option<Dict<Value>>
  {
    if names == [] then Some([])
    else
      var k := names[|names| - 1];
      match CollectChanged(s, props, originals, names[..|names| - 1])
      case None => None
      case Some(d) =>
        if !Changed(props, originals, k) then Some(d)
        else match Attribute(s, props, k)
          case None => None
          case Some(v) => Some(Put(d, Strings.CamelCaseToSnakeCase(k), v))
  }

  /** `GetChangedAttributes()`: `None` when `GetOwnPropertyNames` or a date conversion throws. */
  function ChangedAttributes(s: Schema, props: Dict<Value>, originals: Dict<Value>): Option<Dict<Value>>
  {
    match OwnPropertyNames(s, props)
    case None => None
    case Some(names) => CollectChanged(s, props, originals, names)
  }

  /**
   * `GetChangedAttributes()` throws exactly when a field that reaches
   * `Object.isModel` holds `null`, or a listed, changed date column holds
   * something other than a Date.
   */
  lemma ChangedAttributesThrows(s: Schema, props: Dict<Value>, originals: Dict<Value>)
    ensures ChangedAttributes(s, props, originals).None? <==>
              (exists i :: 0 <= i < |props| && ListingThrows(s, props[i].0, props[i].1)) ||
              (exists i :: 0 <= i < |props| && Listed(s, props[i].0, props[i].1) &&
                 Changed(props, originals, props[i].0) && Attribute(s, props, props[i].0).None?)
  {
    OwnPropertyNamesThrows(s, props);
    if OwnPropertyNames(s, props).Some? {
      var names := OwnPropertyNames(s, props).value;
      CollectChangedThrows(s, props, originals, names);
      if exists j :: 0 <= j < |names| && Changed(props, originals, names[j]) && Attribute(s, props, names[j]).None? {
        var j :| 0 <= j < |names| && Changed(props, originals, names[j]) && Attribute(s, props, names[j]).None?;
        OwnPropertyNamesMembers(s, props, names[j]);
      }
      if exists i :: 0 <= i < |props| && Listed(s, props[i].0, props[i].1) &&
                     Changed(props, originals, props[i].0) && Attribute(s, props, props[i].0).None? {
        var i :| 0 <= i < |props| && Listed(s, props[i].0, props[i].1) &&
                 Changed(props, originals, props[i].0) && Attribute(s, props, props[i].0).None?;
        OwnPropertyNamesMembers(s, props, props[i].0);
        var j :| 0 <= j < |names| && names[j] == props[i].0;
      }
    }
  }

  /** It throws exactly when some changed date column holds something other than a Date. */
  lemma {:induction false} CollectChangedThrows(s: Schema, props: Dict<Value>, originals: Dict<Value>, names: seq<string>)
    ensures CollectChanged(s, props, originals, names).None? <==>
              exists i :: 0 <= i < |names| && Changed(props, originals, names[i]) && Attribute(s, props, names[i]).None?
  {
    if names != [] {
      var init := names[..|names| - 1];
      CollectChangedThrows(s, props, originals, init);
      assert forall i :: 0 <= i < |init| ==> init[i] == names[i];
    }
  }

  /** The reported keys are the snake_case names of the changed fields, and nothing else. */
  lemma {:induction false} CollectChangedKeys(s: Schema, props: Dict<Value>, originals: Dict<Value>, names: seq<string>, key: string)
    requires CollectChanged(s, props, originals, names).Some?
    ensures key in Keys(CollectChanged(s, props, originals, names).value) <==>
              exists i :: 0 <= i < |names| && Changed(props, originals, names[i]) && Strings.CamelCaseToSnakeCase(names[i]) == key
  {
    if names != [] {
      var init, k := names[..|names| - 1], names[|names| - 1];
      assert names == init + [k];
      CollectChangedSnoc(s, props, originals, init, k);
      CollectChangedKeys(s, props, originals, init, key);
      ReportedSnoc(props, originals, init, k, key);
      if Changed(props, originals, k) {
        var d := CollectChanged(s, props, originals, init).value;
        PutInKeys(d, Strings.CamelCaseToSnakeCase(k), Attribute(s, props, k).value, key);
      }
    }
  }

  /** One more name: its change, if any, is written over what the earlier names reported. */
  lemma CollectChangedSnoc(s: Schema, props: Dict<Value>, originals: Dict<Value>, names: seq<string>, k: string)
    requires CollectChanged(s, props, originals, names + [k]).Some?
    ensures CollectChanged(s, props, originals, names).Some?
    ensures !Changed(props, originals, k) ==>
              CollectChanged(s, props, originals, names + [k]) == CollectChanged(s, props, originals, names)
    ensures Changed(props, originals, k) ==>
              Attribute(s, props, k).Some? &&
              CollectChanged(s, props, originals, names + [k]).value ==
                Put(CollectChanged(s, props, originals, names).value, Strings.CamelCaseToSnakeCase(k), Attribute(s, props, k).value)
  {
    assert (names + [k])[..|names|] == names;
  }

  /** A name reported among `names + [k]` is reported among `names` or is `k` itself. */
  lemma ReportedSnoc(props: Dict<Value>, originals: Dict<Value>, names: seq<string>, k: string, key: string)
    ensures (exists i :: 0 <= i < |names + [k]| && Changed(props, originals, (names + [k])[i]) && Strings.CamelCaseToSnakeCase((names + [k])[i]) == key) <==>
              (exists i :: 0 <= i < |names| && Changed(props, originals, names[i]) && Strings.CamelCaseToSnakeCase(names[i]) == key) ||
              (Changed(props, originals, k) && Strings.CamelCaseToSnakeCase(k) == key)
  {
    var all := names + [k];
    if exists i :: 0 <= i < |all| && Changed(props, originals, all[i]) && Strings.CamelCaseToSnakeCase(all[i]) == key {
      var i :| 0 <= i < |all| && Changed(props, originals, all[i]) && Strings.CamelCaseToSnakeCase(all[i]) == key;
      if i < |names| {
        assert all[i] == names[i];
      }
    }
    if exists i :: 0 <= i < |names| && Changed(props, originals, names[i]) && Strings.CamelCaseToSnakeCase(names[i]) == key {
      var i :| 0 <= i < |names| && Changed(props, originals, names[i]) && Strings.CamelCaseToSnakeCase(names[i]) == key;
      assert all[i] == names[i];
    }
    if Changed(props, originals, k) && Strings.CamelCaseToSnakeCase(k) == key {
      assert all[|names|] == k;
    }
  }

  /**
   * When no two names share a snake_case form, each changed field is
   * reported under its snake_case name with its value (a date column as its
   * `toDateString()` text).
   */
  lemma {:induction false} CollectChangedValue(s: Schema, props: Dict<Value>, originals: Dict<Value>, names: seq<string>, i: int)
    requires CollectChanged(s, props, originals, names).Some?
    requires forall a, b :: 0 <= a < b < |names| ==> Strings.CamelCaseToSnakeCase(names[a]) != Strings.CamelCaseToSnakeCase(names[b])
    requires 0 <= i < |names| && Changed(props, originals, names[i])
    ensures Lookup(CollectChanged(s, props, originals, names).value, Strings.CamelCaseToSnakeCase(names[i])) == Attribute(s, props, names[i])
  {
    var init := names[..|names| - 1];
    assert forall j :: 0 <= j < |init| ==> init[j] == names[j];
    if i < |names| - 1 {
      CollectChangedValue(s, props, originals, init, i);
    }
    var k := names[|names| - 1];
    var d := CollectChanged(s, props, originals, init).value;
    if Changed(props, originals, k) {
      PutLookup(d, Strings.CamelCaseToSnakeCase(k), Attribute(s, props, k).value);
    }
  }

  /**
   * Two fields can share a snake_case form (`userId` and `UserId` both give
   * `user_id`). Then the later write wins: a changed field's value is the one
   * reported under its snake_case name when no changed field after it has the
   * same snake_case form.
   */
  lemma {:induction false} CollectChangedLastWins(s: Schema, props: Dict<Value>, originals: Dict<Value>, names: seq<string>, i: int)
    requires CollectChanged(s, props, originals, names).Some?
    requires 0 <= i < |names| && Changed(props, originals, names[i])
    requires forall j :: i < j < |names| && Changed(props, originals, names[j]) ==>
               Strings.CamelCaseToSnakeCase(names[j]) != Strings.CamelCaseToSnakeCase(names[i])
    ensures Lookup(CollectChanged(s, props, originals, names).value, Strings.CamelCaseToSnakeCase(names[i])) == Attribute(s, props, names[i])
  {
    var init, k := names[..|names| - 1], names[|names| - 1];
    assert names == init + [k];
    CollectChangedSnoc(s, props, originals, init, k);
    var d := CollectChanged(s, props, originals, init).value;
    if i < |names| - 1 {
      assert forall j :: 0 <= j < |init| ==> init[j] == names[j];
      CollectChangedLastWins(s, props, originals, init, i);
    }
    if Changed(props, originals, k) {
      PutLookup(d, Strings.CamelCaseToSnakeCase(k), Attribute(s, props, k).value);
    }
  }

  // ---------------------------------------------------------------------------
  // Save and GetInfo.

  /** The `{key}` placeholder of a field. */
  function Placeholder(key: string): string
  {
    "{" + key + "}"
  }

  /** `url.replace('{key}', this[key])` for every own key, first to last. */
  function Substitute(template: string, props: Dict<Value>): string
  {
    if props == [] then template
    else
      var last := props[|props| - 1];
      Strings.ReplaceFirst(Substitute(template, props[..|props| - 1]), Placeholder(last.0), Display(last.1))
  }

  /** A URL without placeholders is sent as it is. */
  lemma {:induction false} SubstituteNoBraces(template: string, props: Dict<Value>)
    requires '{' !in template
    ensures Substitute(template, props) == template
  {
    if props != [] {
      SubstituteNoBraces(template, props[..|props| - 1]);
      var p := Placeholder(props[|props| - 1].0);
      assert p[0] == '{';
    }
  }

  /** Only the first occurrence of a placeholder is filled in; later ones stay. */
  lemma SubstituteFirstOnly(template: string, key: string, v: Value, i: nat)
    requires Strings.OccursAt(template, Placeholder(key), i)
    requires forall j :: 0 <= j < i ==> !Strings.OccursAt(template, Placeholder(key), j)
    ensures Substitute(template, [(key, v)]) == template[..i] + Display(v) + template[i + |Placeholder(key)|..]
  {
    assert [(key, v)][..0] == [];
    Strings.ReplaceFirstOnlyFirst(template, Placeholder(key), Display(v), i);
  }

  /**
   * The request `Save(extra)` sends, or `None` when `GetChangedAttributes`
   * throws. A new model is POSTed to the create URL, any other PATCHed to the
   * edit URL; the body is the changed attributes overlaid by `extra`.
   */
  function SaveCall(s: Schema, props: Dict<Value>, originals: Dict<Value>, extra: Dict<Value>): (r: Option<Call>)
    ensures r.Some? <==> ChangedAttributes(s, props, originals).Some?
    ensures r.Some? ==> (r.value.verb == ApiDriver.Post <==> s.isNew(props))
    ensures r.Some? ==> (r.value.verb == ApiDriver.Post || r.value.verb == ApiDriver.Patch)
    ensures r.Some? ==> r.value.url == Substitute(if s.isNew(props) then s.createUrl else s.editUrl, props)
  {
    match ChangedAttributes(s, props, originals)
    case None => None
    case Some(changed) =>
      var isNew := s.isNew(props);
      Some(Call(if isNew then ApiDriver.Post else ApiDriver.Patch,
                Substitute(if isNew then s.createUrl else s.editUrl, props),
                PutAll(changed, extra)))
  }

  /** In the body of `Save`, a key of `extra` wins over a changed attribute. */
  lemma SaveBodyOverlay(s: Schema, props: Dict<Value>, originals: Dict<Value>, extra: Dict<Value>, k: string)
    requires SaveCall(s, props, originals, extra).Some?
    ensures var changed := ChangedAttributes(s, props, originals).value;
            Lookup(SaveCall(s, props, originals, extra).value.params, k) ==
              if k in Keys(extra) then LastValue(extra, k) else Lookup(changed, k)
  {
    PutAllLookup(ChangedAttributes(s, props, originals).value, extra, k);
  }

  /** The request `GetInfo()` sends: a GET of the edit URL with its placeholders filled, and no body. */
  function GetInfoCall(s: Schema, props: Dict<Value>): (r: Call)
    ensures r.verb == ApiDriver.Get && r.params == []
    ensures r.url == Substitute(s.editUrl, props)
    ensures '{' !in s.editUrl ==> r.url == s.editUrl
  {
    var url := Substitute(s.editUrl, props);
    assert '{' !in s.editUrl ==> url == s.editUrl by {
      if '{' !in s.editUrl {
        SubstituteNoBraces(s.editUrl, props);
      }
    }
    Call(ApiDriver.Get, url, [])
  }

  // ---------------------------------------------------------------------------
  // The class.

  class Model {
    var props: Dict<Value>
    var errors: Dict<Value>
    var originals: Dict<Value>
    const schema: Schema

    /** A model whose class declares the fields `fields`; `data` is ignored, as in the source. */
    constructor (fields: Dict<Value>, schema: Schema, data: Value)
      ensures props == fields && errors == [] && originals == []
      ensures this.schema == schema
    {
      props, errors, originals := fields, [], [];
      this.schema := schema;
    }

    method SetPropertyValue(prop: string, value: Value)
      modifies this`props, this`errors
      ensures errors == Put(old(errors), prop, Str(""))
      ensures props == Put(old(props), prop, value)
    {
      errors := Put(errors, prop, Str(""));
      props := Put(props, prop, value);
    }

    /** Refills the repository held in `key` from an array; anything else is ignored. */
    method HandleRepository(key: string, repository: Value, passed: Value)
      requires repository.RepoRef?
      modifies this`props
      ensures props == if passed.Arr? then Put(old(props), key, RepoRef(repository.ref, RepositoryItems(schema, repository.ref, passed.elems)))
                       else old(props)
    {
      if !passed.Arr? {
        return;
      }
      var items: seq<Value> := [];
      var i := 0;
      while i < |passed.elems|
        invariant 0 <= i <= |passed.elems|
        invariant items == RepositoryItems(schema, repository.ref, passed.elems[..i])
      {
        items := items + [schema.repositoryFactory(repository.ref, passed.elems[i])];
        assert passed.elems[..i + 1][..i] == passed.elems[..i];
        i := i + 1;
      }
      assert passed.elems[..i] == passed.elems;
      props := Put(props, key, RepoRef(repository.ref, items));
    }

    method HandleModel(key: string, passed: Value)
      modifies this`props, this`errors
      ensures HasFactory(schema, key) ==>
                props == Put(old(props), key, schema.factories[key](passed)) && errors == Put(old(errors), key, Str(""))
      ensures !HasFactory(schema, key) ==> props == old(props) && errors == old(errors)
    {
      if !HasFactory(schema, key) {
        return;
      }
      SetPropertyValue(key, schema.factories[key](passed));
    }

    /** The body of `Load`'s `forEach`, after the key has been converted. */
    method LoadField(key: string, passed: Value)
      modifies this`props, this`errors
      ensures Fields(props, errors) == LoadEntry(schema, old(Fields(props, errors)), key, passed)
    {
      var current := Current(props, key);
      if passed == Null {
        return;
      }
      if IsRepository(current) {
        HandleRepository(key, current, passed);
      } else if IsModel(current) {
        HandleModel(key, passed);
      } else {
        var value := passed;
        if key in schema.dateColumns {
          value := schema.fromUsDateString(passed);
        }
        SetPropertyValue(key, value);
      }
    }

    /** `Load(data)`; `ok` is false where the source throws. */
    method Load(data: Value) returns (ok: bool)
      modifies this`props, this`errors
      ensures LoadValue(schema, old(Fields(props, errors)), data) == Loaded(Fields(props, errors), ok)
    {
      var entries := OwnEntries(data);
      if entries.None? {
        return false;
      }
      var es := entries.value;
      ghost var f0 := Fields(props, errors);
      var i := 0;
      while i < |es|
        invariant 0 <= i <= |es|
        invariant LoadEntries(schema, f0, es[..i]) == Loaded(Fields(props, errors), true)
      {
        var key := es[i].0;
        var passed := es[i].1;
        LoadEntriesSnoc(schema, f0, es, i);
        if key == "" {
          LoadStopsAtThrow(schema, f0, es, i + 1);
          return false;
        }
        LoadField(Strings.SnakeCaseToCamelCase(key), passed);
        i := i + 1;
      }
      assert es[..i] == es;
      return true;
    }

    /**
     * Rebuilds `$originalValues` from the listed properties. It is reset to
     * `{}` first, so when `GetOwnPropertyNames` throws (`ok` false) it is
     * left empty.
     */
    method LoadOriginalValues() returns (ok: bool)
      modifies this`originals
      ensures ok <==> Snapshot(schema, props).Some?
      ensures originals == if ok then Snapshot(schema, props).value else []
    {
      originals := [];
      var listed := OwnPropertyNames(schema, props);
      if listed.None? {
        return false;
      }
      var names := listed.value;
      var i := 0;
      while i < |names|
        invariant 0 <= i <= |names|
        invariant originals == PutAll([], SnapshotEntries(props, names[..i]))
      {
        SnapshotEntriesSnoc(props, names, i);
        originals := Put(originals, names[i], Current(props, names[i]));
        i := i + 1;
      }
      assert names[..i] == names;
      ok := true;
    }

    /** The URL with each `{key}` placeholder filled from the fields. */
    method SubstituteUrl(template: string) returns (url: string)
      ensures url == Substitute(template, props)
    {
      url := template;
      var i := 0;
      while i < |props|
        invariant 0 <= i <= |props|
        invariant url == Substitute(template, props[..i])
      {
        assert props[..i + 1][..i] == props[..i];
        url := Strings.ReplaceFirst(url, Placeholder(props[i].0), Display(props[i].1));
        i := i + 1;
      }
      assert props[..i] == props;
    }

    /** The request half of `Save(extra)`; `None` when it throws before sending. */
    method SaveRequest(extra: Dict<Value>) returns (call: Option<Call>)
      ensures call == SaveCall(schema, props, originals, extra)
    {
      var changed := ChangedAttributes(schema, props, originals);
      if changed.None? {
        return None;
      }
      var isNew := schema.isNew(props);
      var url := SubstituteUrl(if isNew then schema.createUrl else schema.editUrl);
      call := Some(Call(if isNew then ApiDriver.Post else ApiDriver.Patch, url, PutAll(changed.value, extra)));
    }

    /** The request half of `GetInfo()`. */
    method GetInfoRequest() returns (call: Call)
      ensures call == GetInfoCall(schema, props)
    {
      var url := SubstituteUrl(schema.editUrl);
      call := Call(ApiDriver.Get, url, []);
    }

    /**
     * The response half shared by `Save` and `GetInfo`. An unsuccessful
     * response changes nothing and is passed on. A successful one reloads
     * the model from the data named after it and re-snapshots the original
     * values. The promise rejects when `GetData` throws (a `null` data bag,
     * nothing changed), when `Load` throws (the fields loaded so far kept,
     * the snapshot untouched), or when `LoadOriginalValues` throws (the
     * snapshot left empty).
     */
    method AcceptResponse(r: ApiDriver.ApiResponse) returns (result: Settled<ApiDriver.ApiResponse>)
      modifies this`props, this`errors, this`originals
      ensures !r.IsSuccessful() || r.GetData(schema.modelName).None? ==>
                props == old(props) && errors == old(errors) && originals == old(originals)
      ensures !r.IsSuccessful() ==> result == Resolved(r)
      ensures r.IsSuccessful() && r.GetData(schema.modelName).None? ==> result == Rejected
      ensures r.IsSuccessful() && r.GetData(schema.modelName).Some? ==>
                var loaded := LoadValue(schema, old(Fields(props, errors)), r.GetData(schema.modelName).value);
                Fields(props, errors) == loaded.fields &&
                (!loaded.ok ==> result == Rejected && originals == old(originals)) &&
                (loaded.ok && Snapshot(schema, props).Some? ==> result == Resolved(r) && originals == Snapshot(schema, props).value) &&
                (loaded.ok && Snapshot(schema, props).None? ==> result == Rejected && originals == [])
    {
      if !r.IsSuccessful() {
        return Resolved(r);
      }
      var data := r.GetData(schema.modelName);
      if data.None? {
        return Rejected;
      }
      var loaded := Load(data.value);
      if !loaded {
        return Rejected;
      }
      var snapshotted := LoadOriginalValues();
      if !snapshotted {
        return Rejected;
      }
      result := Resolved(r);
    }

    method SetErrors(e: Dict<Value>)
      modifies this`errors
      ensures errors == e
    {
      errors := e;
    }
  }
}
