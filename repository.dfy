/**
 * Repository.ts: an ordered collection of records with a filter dictionary
 * built by fluent `Where…` calls. `Get` is split at its `await`: `BeginGet`
 * takes the filters and marks the repository loading, `CompleteGet` handles
 * the driver's response.
 */
module Repositories {
  import opened Wrappers
  import opened Dicts
  import opened JsValues
  import ApiDriver

  /** The filter builders, by the suffix they append to the field name. */
  datatype Operator =
    | Equals | NotEquals | GreaterThan | GreaterThanOrEquals | LessThan | LessThanOrEquals
    | IsNull | IsNotNull | Between | NotBetween | In | NotIn | StartsWith | EndsWith | Contains

  function Suffix(op: Operator): string
  {
    match op
    case Equals => ""
    case NotEquals => "-NOTEQ"
    case GreaterThan => "-GT"
    case GreaterThanOrEquals => "-GTE"
    case LessThan => "-LTE"
    case LessThanOrEquals => "-LTE"
    case IsNull => "-ISNULL"
    case IsNotNull => "-ISNOTNULL"
    case Between => "-BETWEEN"
    case NotBetween => "-NOTBETWEEN"
    case In => "-IN"
    case NotIn => "-NOTIN"
    case StartsWith => "-STARTSWITH"
    case EndsWith => "-ENDSWITH"
    case Contains => "-CONTAINS"
  }

  /** The filter key a builder writes for `field`. */
  function FilterKey(field: string, op: Operator): string
  {
    field + Suffix(op)
  }

  /**
   * On one field, two builders write the same key only when they are the same
   * builder, or are `WhereLessThan` and `WhereLessThanOrEquals`, which both
   * write `field-LTE`.
   */
  lemma FilterKeyCollisions(field: string, a: Operator, b: Operator)
    ensures FilterKey(field, a) == FilterKey(field, b) <==>
              a == b || ((a == LessThan || a == LessThanOrEquals) && (b == LessThan || b == LessThanOrEquals))
  {
    if FilterKey(field, a) == FilterKey(field, b) {
      assert Suffix(a) == FilterKey(field, a)[|field|..];
      assert Suffix(b) == FilterKey(field, b)[|field|..];
    }
  }

  /** `if (value) filters[key] = value`: a falsy value leaves the filters as they are. */
  function SetIfTruthy(filters: Dict<Value>, key: string, value: Value): (r: Dict<Value>)
    ensures !Truthy(value) ==> r == filters
    ensures Truthy(value) ==> Lookup(r, key) == Some(value)
    ensures forall k :: k != key ==> Lookup(r, k) == Lookup(filters, k)
    ensures DistinctKeys(filters) ==> DistinctKeys(r)
  {
    if Truthy(value) then
      PutLookup(filters, key, value);
      PutKeys(filters, key, value);
      Put(filters, key, value)
    else filters
  }

  /** `count` blank records. */
  function Blank<T>(make: () -> T, count: int): (r: seq<T>)
    ensures |r| == if count <= 0 then 0 else count
    ensures forall i :: 0 <= i < |r| ==> r[i] == make()
  {
    if count <= 0 then [] else Blank(make, count - 1) + [make()]
  }

  class Repository<T> {
    var filters: Dict<Value>
    var items: seq<T>
    var loading: bool

    /** `GetFactory().Make()` */
    const make: () -> T
    /** `GetFactory().FromData(data)` */
    const fromData: Value -> T
    /** `GetApiEndpoint()` */
    const endpoint: string
    /** `GetResponseFieldName()` */
    const responseFieldName: string

    /** A repository pre-seeded with `count` blank records; none when `count <= 0`. */
    constructor (count: int, make: () -> T, fromData: Value -> T, endpoint: string, responseFieldName: string)
      ensures filters == [] && !loading
      ensures items == Blank(make, count)
      ensures this.make == make && this.fromData == fromData
      ensures this.endpoint == endpoint && this.responseFieldName == responseFieldName
    {
      filters, items, loading := [], [], false;
      this.make, this.fromData := make, fromData;
      this.endpoint, this.responseFieldName := endpoint, responseFieldName;
      new;
      if count > 0 {
        SetItemsCount(count);
      }
    }

    method WhereEquals(field: string, value: Value)
      modifies this`filters
      ensures filters == SetIfTruthy(old(filters), FilterKey(field, Equals), value)
    {
      if Truthy(value) {
        filters := Put(filters, FilterKey(field, Equals), value);
      }
    }

    method WhereNotEquals(field: string, value: Value)
      modifies this`filters
      ensures filters == SetIfTruthy(old(filters), FilterKey(field, NotEquals), value)
    {
      if Truthy(value) {
        filters := Put(filters, FilterKey(field, NotEquals), value);
      }
    }

    method WhereGreaterThan(field: string, value: Value)
      modifies this`filters
      ensures filters == SetIfTruthy(old(filters), FilterKey(field, GreaterThan), value)
    {
      if Truthy(value) {
        filters := Put(filters, FilterKey(field, GreaterThan), value);
      }
    }

    method WhereGreaterThanOrEquals(field: string, value: Value)
      modifies this`filters
      ensures filters == SetIfTruthy(old(filters), FilterKey(field, GreaterThanOrEquals), value)
    {
      if Truthy(value) {
        filters := Put(filters, FilterKey(field, GreaterThanOrEquals), value);
      }
    }

    method WhereLessThan(field: string, value: Value)
      modifies this`filters
      ensures filters == SetIfTruthy(old(filters), FilterKey(field, LessThan), value)
    {
      if Truthy(value) {
        filters := Put(filters, FilterKey(field, LessThan), value);
      }
    }

    method WhereLessThanOrEquals(field: string, value: Value)
      modifies this`filters
      ensures filters == SetIfTruthy(old(filters), FilterKey(field, LessThanOrEquals), value)
    {
      if Truthy(value) {
        filters := Put(filters, FilterKey(field, LessThanOrEquals), value);
      }
    }

    method WhereIsNull(field: string)
      modifies this`filters
      ensures filters == Put(old(filters), FilterKey(field, IsNull), Str("null"))
    {
      filters := Put(filters, FilterKey(field, IsNull), Str("null"));
    }

    method WhereIsNotNull(field: string)
      modifies this`filters
      ensures filters == Put(old(filters), FilterKey(field, IsNotNull), Str("null"))
    {
      filters := Put(filters, FilterKey(field, IsNotNull), Str("null"));
    }

    method WhereBetween(field: string, value: seq<Value>)
      modifies this`filters
      ensures filters == Put(old(filters), FilterKey(field, Between), Str(JoinValues(value)))
    {
      filters := Put(filters, FilterKey(field, Between), Str(JoinValues(value)));
    }

    method WhereNotBetween(field: string, value: seq<Value>)
      modifies this`filters
      ensures filters == Put(old(filters), FilterKey(field, NotBetween), Str(JoinValues(value)))
    {
      filters := Put(filters, FilterKey(field, NotBetween), Str(JoinValues(value)));
    }

    method WhereIn(field: string, value: seq<Value>)
      modifies this`filters
      ensures filters == Put(old(filters), FilterKey(field, In), Str(JoinValues(value)))
    {
      filters := Put(filters, FilterKey(field, In), Str(JoinValues(value)));
    }

    method WhereNotIn(field: string, value: seq<Value>)
      modifies this`filters
      ensures filters == Put(old(filters), FilterKey(field, NotIn), Str(JoinValues(value)))
    {
      filters := Put(filters, FilterKey(field, NotIn), Str(JoinValues(value)));
    }

    method WhereStartsWith(field: string, value: string)
      modifies this`filters
      ensures filters == Put(old(filters), FilterKey(field, StartsWith), Str(value))
    {
      filters := Put(filters, FilterKey(field, StartsWith), Str(value));
    }

    method WhereEndsWith(field: string, value: string)
      modifies this`filters
      ensures filters == Put(old(filters), FilterKey(field, EndsWith), Str(value))
    {
      filters := Put(filters, FilterKey(field, EndsWith), Str(value));
    }

    method WhereContains(field: string, value: string)
      modifies this`filters
      ensures filters == Put(old(filters), FilterKey(field, Contains), Str(value))
    {
      filters := Put(filters, FilterKey(field, Contains), Str(value));
    }

    function GetFilters(): Dict<Value>
      reads this
    {
      filters
    }

    method ResetFilters()
      modifies this`filters
      ensures filters == []
    {
      filters := [];
    }

    /** Appends `count` blank records after the existing ones (none when `count <= 0`). */
    method SetItemsCount(count: int)
      modifies this`items
      ensures items == old(items) + Blank(make, count)
    {
      var i := 0;
      while i < count
        invariant 0 <= i && (count > 0 ==> i <= count) && (count <= 0 ==> i == 0)
        invariant items == old(items) + Blank(make, i)
      {
        items := items + [make()];
        i := i + 1;
      }
    }

    method AddItem(item: T)
      modifies this`items
      ensures items == old(items) + [item]
    {
      items := items + [item];
    }

    method AddItemFromData(data: Value)
      modifies this`items
      ensures items == old(items) + [fromData(data)]
    {
      items := items + [fromData(data)];
    }

    method ResetItems()
      modifies this`items
      ensures items == []
    {
      items := [];
    }

    /**
     * The records pushed by `forEach(key => items.push(FromData(data[key])))`,
     * one push per entry: the record at each position is built from the entry
     * at the same position.
     */
    function Records(es: Dict<Value>): (r: seq<T>)
      ensures |r| == |es| && forall i :: 0 <= i < |es| ==> r[i] == fromData(es[i].1)
    {
      if es == [] then [] else Records(es[..|es| - 1]) + [fromData(es[|es| - 1].1)]
    }

    /**
     * The first half of `Get`: the query sent is the filters as they stood,
     * the filters are cleared, and the repository is loading.
     */
    method BeginGet() returns (query: Dict<Value>)
      modifies this`filters, this`loading
      ensures query == old(filters)
      ensures filters == [] && loading
    {
      query := GetFilters();
      ResetFilters();
      loading := true;
    }

    /**
     * The second half of `Get`, given the driver's response. `Items` is
     * replaced wholesale and `Loading` is cleared before anything can throw.
     * An unsuccessful response, or one without the named data, yields no
     * records. A successful response whose data bag is `null` makes `HasData`
     * throw, and the promise rejects. Otherwise the result and `Items` are the
     * same records, one per entry of the named data; a value that is present
     * but falsy is `undefined` after `|| undefined`, `Object.keys` throws on
     * it, and the promise rejects with `Items` empty.
     */
    method CompleteGet(r: ApiDriver.ApiResponse) returns (result: Settled<seq<T>>)
      modifies this`items, this`loading
      ensures !loading
      ensures !r.IsSuccessful() || r.HasData(responseFieldName) == Some(false) ==> result == Resolved([]) && items == []
      ensures r.IsSuccessful() && r.HasData(responseFieldName).None? ==> result == Rejected && items == []
      ensures r.IsSuccessful() && r.HasData(responseFieldName) == Some(true) ==>
                match OwnEntries(r.GetData(responseFieldName).value)
                case None => result == Rejected && items == []
                case Some(es) => result == Resolved(Records(es)) && items == Records(es)
    {
      var records: seq<T> := [];
      items := [];
      loading := false;
      if !r.IsSuccessful() {
        return Resolved(records);
      }
      var has := r.HasData(responseFieldName);
      if has.None? {
        return Rejected;
      }
      if !has.value {
        return Resolved(records);
      }
      var data := r.GetData(responseFieldName).value;
      var entries := OwnEntries(data);
      if entries.None? {
        return Rejected;
      }
      var es := entries.value;
      var i := 0;
      while i < |es|
        invariant 0 <= i <= |es|
        invariant records == items == Records(es[..i]) && !loading
      {
        var record := fromData(es[i].1);
        records := records + [record];
        items := items + [record];
        assert es[..i + 1][..i] == es[..i];
        i := i + 1;
      }
      assert es[..i] == es;
      result := Resolved(records);
    }
  }

}
