/** The backend property table (`Property` in backend/models/Property.js): the
    field rules of `validateData`, the stored records, and the store with its
    create / update / updateStatus / delete / lookup / listing / count operations.
    The MySQL table is an in-memory map from id to record; the UNIQUE index on
    `url` is a second map from url to id. */
module PropertyModel {
  import opened Wrappers
  import opened JsString

  const PENDING: string := "PENDING"
  const IN_PROGRESS: string := "IN_PROGRESS"
  const COMPLETED: string := "COMPLETED"
  const FAILED: string := "FAILED"

  /** `Property.STATUS`, in declaration order. */
  const STATUS: seq<string> := [PENDING, IN_PROGRESS, COMPLETED, FAILED]

  const LISTING_URL_PREFIX: string := "https://www.magicbricks.com/"

  /** JavaScript truthiness of a string-valued field: present and non-empty. */
  predicate Truthy(v: Option<string>) {
    v.Some? && v.value != ""
  }

  /** `v || fallback` for a string-valued field. */
  function OrElse(v: Option<string>, fallback: string): string {
    if Truthy(v) then v.value else fallback
  }

  // The three field rules of validateData; an absent or empty value always passes.

  predicate StatusRule(v: Option<string>) {
    !Truthy(v) || v.value in STATUS
  }

  predicate UrlRule(v: Option<string>) {
    !Truthy(v) || StartsWith(v.value, LISTING_URL_PREFIX)
  }

  predicate PriceRule(v: Option<string>) {
    !Truthy(v) || StartsWith(v.value, [RUPEE])
  }

  /** What each rule asks of a present, non-empty value: a status is one of
      the four enum values, a url begins with the MagicBricks prefix, and a
      price has the rupee sign as its first character. */
  lemma FieldRules(v: Option<string>)
    ensures StatusRule(v) <==> !Truthy(v) || v.value in {PENDING, IN_PROGRESS, COMPLETED, FAILED}
    ensures UrlRule(v) <==> (!Truthy(v) ||
      (|LISTING_URL_PREFIX| <= |v.value| && forall i :: 0 <= i < |LISTING_URL_PREFIX| ==> v.value[i] == LISTING_URL_PREFIX[i]))
    ensures PriceRule(v) <==> !Truthy(v) || v.value[0] == RUPEE
  {
  }

  /** One message of validateData; the text of the message is not modelled. */
  datatype FieldError = BadStatus | BadUrl | BadPrice

  /** The order in which validateData checks the fields. */
  function Rank(e: FieldError): nat {
    match e
    case BadStatus => 0
    case BadUrl => 1
    case BadPrice => 2
  }

  /** A `data` object handed to the store; `None` is a key that is undefined. */
  datatype PropertyData = PropertyData(
    title: Option<string>,
    location: Option<string>,
    price: Option<string>,
    imageUrl: Option<string>,
    status: Option<string>,
    url: Option<string>)

  predicate Passes(d: PropertyData) {
    StatusRule(d.status) && UrlRule(d.url) && PriceRule(d.price)
  }

  /** `validateData(data, isUpdate)`. Called without data only for an update
      (reading a field of undefined data would throw a TypeError). */
  function ValidateData(data: Option<PropertyData>, isUpdate: bool): (errors: seq<FieldError>)
    requires isUpdate || data.Some?
    ensures errors == [] <==> (isUpdate && data.None?) || (data.Some? && Passes(data.value))
    ensures data.Some? && !isUpdate ==> errors != [] || Passes(data.value)
    ensures data.Some? ==>
      && (BadStatus in errors <==> !StatusRule(data.value.status))
      && (BadUrl in errors <==> !UrlRule(data.value.url))
      && (BadPrice in errors <==> !PriceRule(data.value.price))
    ensures forall i, j :: 0 <= i < j < |errors| ==> Rank(errors[i]) < Rank(errors[j])
  {
    if isUpdate && data.None? then []
    else
      var d := data.value;
      (if StatusRule(d.status) then [] else [BadStatus])
      + (if UrlRule(d.url) then [] else [BadUrl])
      + (if PriceRule(d.price) then [] else [BadPrice])
  }

  /** A row of the `properties` table (timestamps are not modelled). */
  datatype Record = Record(
    id: nat,
    title: string,
    location: string,
    price: string,
    imageUrl: string,
    status: string,
    url: string)
  {
    function AsData(): PropertyData {
      PropertyData(Some(title), Some(location), Some(price), Some(imageUrl), Some(status), Some(url))
    }
  }

  /** A row that validateData accepts. */
  predicate Conforms(r: Record) {
    Passes(r.AsData())
  }

  /** The row `create` inserts: the defaults of its VALUES list. */
  function NewRecord(id: nat, d: PropertyData): (r: Record)
    requires Truthy(d.url)
    ensures r.id == id && r.url == d.url.value
    ensures ValidateData(Some(d), false) == [] ==> Conforms(r)
    ensures Truthy(d.status) ==> r.status == d.status.value
    ensures !Truthy(d.status) ==> r.status == PENDING
    ensures Truthy(d.title) ==> r.title == d.title.value
    ensures !Truthy(d.title) ==> r.title == ""
    ensures Truthy(d.location) ==> r.location == d.location.value
    ensures !Truthy(d.location) ==> r.location == ""
    ensures Truthy(d.price) ==> r.price == d.price.value
    ensures !Truthy(d.price) ==> r.price == ""
    ensures Truthy(d.imageUrl) ==> r.imageUrl == d.imageUrl.value
    ensures !Truthy(d.imageUrl) ==> r.imageUrl == ""
  {
    Record(id, OrElse(d.title, ""), OrElse(d.location, ""), OrElse(d.price, ""),
           OrElse(d.imageUrl, ""), OrElse(d.status, PENDING), d.url.value)
  }

  /** `data.f !== undefined ? data.f : current`. */
  function Overwrite(current: string, v: Option<string>): string {
    if v.Some? then v.value else current
  }

  /** The row after `update` writes the supplied fields of `d`. */
  function Apply(r: Record, d: PropertyData): (u: Record)
    ensures u.id == r.id && u.url == r.url
    ensures Conforms(r) && Passes(d) ==> Conforms(u)
    ensures d.title.None? && d.location.None? && d.price.None? && d.imageUrl.None? && d.status.None? ==> u == r
    ensures d.title.Some? ==> u.title == d.title.value
    ensures d.title.None? ==> u.title == r.title
    ensures d.location.Some? ==> u.location == d.location.value
    ensures d.location.None? ==> u.location == r.location
    ensures d.price.Some? ==> u.price == d.price.value
    ensures d.price.None? ==> u.price == r.price
    ensures d.imageUrl.Some? ==> u.imageUrl == d.imageUrl.value
    ensures d.imageUrl.None? ==> u.imageUrl == r.imageUrl
    ensures d.status.Some? ==> u.status == d.status.value
    ensures d.status.None? ==> u.status == r.status
  {
    r.(title := Overwrite(r.title, d.title),
       location := Overwrite(r.location, d.location),
       price := Overwrite(r.price, d.price),
       imageUrl := Overwrite(r.imageUrl, d.imageUrl),
       status := Overwrite(r.status, d.status))
  }

  /** Updating only the price leaves title, location, imageUrl and status as they were. */
  lemma PriceOnlyUpdate(r: Record, price: string)
    ensures var u := Apply(r, PropertyData(None, None, Some(price), None, None, None));
      u == r.(price := price)
  {
  }

  /** What `getAll` filters on: no (or an empty) status filter lets every row through. */
  predicate Matches(r: Record, status: Option<string>) {
    !Truthy(status) || r.status == status.value
  }

  predicate KeyedById(rows: map<nat, Record>) {
    forall id | id in rows :: rows[id].id == id
  }

  /** The rows with id below `n` that pass the status filter, oldest first. */
  function ListAscending(rows: map<nat, Record>, n: nat, status: Option<string>): (r: seq<Record>)
    requires KeyedById(rows)
    ensures forall i :: 0 <= i < |r| ==>
      r[i].id < n && r[i].id in rows && rows[r[i].id] == r[i] && Matches(r[i], status)
    ensures forall i, j :: 0 <= i < j < |r| ==> r[i].id < r[j].id
    ensures forall id | id in rows && id < n && Matches(rows[id], status) :: rows[id] in r
  {
    if n == 0 then []
    else
      ListAscending(rows, n - 1, status)
      + (if n - 1 in rows && Matches(rows[n - 1], status) then [rows[n - 1]] else [])
  }

  function MatchingIds(rows: map<nat, Record>, n: nat, status: Option<string>): set<nat> {
    set id | id in rows && id < n && Matches(rows[id], status)
  }

  lemma MatchingIdsStep(rows: map<nat, Record>, n: nat, status: Option<string>)
    requires 0 < n
    ensures MatchingIds(rows, n, status) ==
      MatchingIds(rows, n - 1, status) + (if n - 1 in rows && Matches(rows[n - 1], status) then {n - 1} else {})
  {
  }

  /** The listing holds one entry per matching row. */
  lemma {:induction false} ListingCount(rows: map<nat, Record>, n: nat, status: Option<string>)
    requires KeyedById(rows)
    ensures |ListAscending(rows, n, status)| == |MatchingIds(rows, n, status)|
  {
    if n == 0 {
      assert MatchingIds(rows, n, status) == {};
    } else {
      ListingCount(rows, n - 1, status);
      ListingCountStep(rows, n, status);
    }
  }

  lemma ListingCountStep(rows: map<nat, Record>, n: nat, status: Option<string>)
    requires KeyedById(rows) && 0 < n
    requires |ListAscending(rows, n - 1, status)| == |MatchingIds(rows, n - 1, status)|
    ensures |ListAscending(rows, n, status)| == |MatchingIds(rows, n, status)|
  {
    MatchingIdsStep(rows, n, status);
    var before := MatchingIds(rows, n - 1, status);
    assert n - 1 !in before;
    if n - 1 in rows && Matches(rows[n - 1], status) {
      assert |before + {n - 1}| == |before| + 1;
    }
  }

  /** Counting the matching rows gives the length of the listing of all ids. */
  lemma CountIsListingLength(rows: map<nat, Record>, n: nat, status: Option<string>)
    requires KeyedById(rows)
    requires forall id | id in rows :: id < n
    ensures |set id | id in rows && Matches(rows[id], status)| == |ListAscending(rows, n, status)|
  {
    ListingCount(rows, n, status);
    assert (set id | id in rows && Matches(rows[id], status)) == MatchingIds(rows, n, status);
  }

  function Reversed(s: seq<Record>): (r: seq<Record>)
    ensures |r| == |s|
    ensures forall i :: 0 <= i < |s| ==> r[i] == s[|s| - 1 - i]
  {
    if s == [] then [] else Reversed(s[1..]) + [s[0]]
  }

  /** `LIMIT limit OFFSET offset`. */
  function Page(s: seq<Record>, offset: nat, limit: nat): (r: seq<Record>)
    ensures |r| <= limit
    ensures forall i :: 0 <= i < |r| ==> offset + i < |s| && r[i] == s[offset + i]
    ensures |r| == if offset >= |s| then 0 else if |s| - offset < limit then |s| - offset else limit
  {
    var lo := if offset < |s| then offset else |s|;
    var hi := if offset + limit < |s| then offset + limit else |s|;
    s[lo..hi]
  }

  /** A `limit` or `offset` after `parseInt(_, 10)`. */
  datatype Parsed = Num(n: int) | NaN

  /** The `options` of `getAll`; `None` is an option left out. */
  datatype ListOptions = ListOptions(
    limit: Option<Parsed>,
    offset: Option<Parsed>,
    status: Option<string>,
    sortBy: Option<string>,
    sortOrder: Option<string>)

  const NO_OPTIONS: ListOptions := ListOptions(None, None, None, None, None)

  const DEFAULT_LIMIT: nat := 10

  datatype SortField = CreatedAt | UpdatedAt | Price | Title
  datatype SortOrder = Asc | Desc

  /** The allow-list of sort columns. */
  const SORT_FIELDS: seq<string> := ["created_at", "updated_at", "price", "title"]

  function Column(f: SortField): string {
    match f
    case CreatedAt => "created_at"
    case UpdatedAt => "updated_at"
    case Price => "price"
    case Title => "title"
  }

  /** The query `getAll` sends once its options are normalised. */
  datatype Query = Query(limit: nat, offset: nat, status: Option<string>, sortBy: SortField, order: SortOrder)

  /** A parsed count that `getAll` keeps: a number that is not negative. */
  predicate Usable(p: Option<Parsed>) {
    p.Some? && p.value.Num? && p.value.n >= 0
  }

  function CountOr(p: Option<Parsed>, fallback: nat): nat {
    if Usable(p) then p.value.n else fallback
  }

  function SortFieldNamed(name: Option<string>): SortField {
    if name == Some("updated_at") then UpdatedAt
    else if name == Some("price") then Price
    else if name == Some("title") then Title
    else CreatedAt
  }

  /** The option handling of `getAll`, before the query runs. */
  function NormaliseOptions(o: ListOptions): (r: Result<Query, StoreError>)
    ensures r.Err? <==> !StatusRule(o.status)
    ensures r.Err? ==> r.error == InvalidStatusFilter
    ensures r.Ok? ==> Usable(o.limit) ==> r.value.limit == o.limit.value.n
    ensures r.Ok? ==> !Usable(o.limit) ==> r.value.limit == DEFAULT_LIMIT
    ensures r.Ok? ==> Usable(o.offset) ==> r.value.offset == o.offset.value.n
    ensures r.Ok? ==> !Usable(o.offset) ==> r.value.offset == 0
    ensures r.Ok? ==> o.sortBy.Some? && o.sortBy.value in SORT_FIELDS ==> Column(r.value.sortBy) == o.sortBy.value
    ensures r.Ok? ==> !(o.sortBy.Some? && o.sortBy.value in SORT_FIELDS) ==> r.value.sortBy == CreatedAt
    ensures r.Ok? ==> (r.value.order == Asc <==> o.sortOrder == Some("ASC"))
    ensures r.Ok? ==> (r.value.status.Some? <==> Truthy(o.status)) && (Truthy(o.status) ==> r.value.status == o.status)
  {
    if !StatusRule(o.status) then Err(InvalidStatusFilter)
    else
      Ok(Query(
        CountOr(o.limit, DEFAULT_LIMIT),
        CountOr(o.offset, 0),
        if Truthy(o.status) then o.status else None,
        SortFieldNamed(o.sortBy),
        if o.sortOrder == Some("ASC") then Asc else Desc))
  }

  /** The rows a query returns from a table: filtered, in id order, then paged. */
  function Listing(rows: map<nat, Record>, n: nat, q: Query): (r: seq<Record>)
    requires KeyedById(rows)
    ensures r == Page(if q.order == Asc then ListAscending(rows, n, q.status)
                      else Reversed(ListAscending(rows, n, q.status)), q.offset, q.limit)
    ensures |r| <= q.limit
    ensures forall i :: 0 <= i < |r| ==> r[i].id in rows && rows[r[i].id] == r[i] && Matches(r[i], q.status)
    ensures forall i, j :: 0 <= i < j < |r| ==>
      if q.order == Asc then r[i].id < r[j].id else r[i].id > r[j].id
  {
    var ascending := ListAscending(rows, n, q.status);
    var ordered := if q.order == Asc then ascending else Reversed(ascending);
    assert forall i, j :: 0 <= i < j < |ordered| ==>
      if q.order == Asc then ordered[i].id < ordered[j].id else ordered[i].id > ordered[j].id;
    Page(ordered, q.offset, q.limit)
  }

  /** The errors the store throws. */
  datatype StoreError =
    | IdRequired
    | UrlRequired
    | ValidationFailed(errors: seq<FieldError>)
    | DuplicateUrl
    | NotFound
    | InvalidStatus
    | InvalidStatusFilter
    | DataMissing     // a TypeError: a field read from undefined data

  predicate UniqueUrls(rows: map<nat, Record>) {
    forall i, j | i in rows && j in rows && rows[i].url == rows[j].url :: i == j
  }

  /** The table invariant: ids are AUTO_INCREMENT from 1, every row has a url
      and passes validateData, and the url index names exactly the rows. */
  ghost predicate TableInvariant(rows: map<nat, Record>, urlIndex: map<string, nat>, nextId: nat)
    ensures TableInvariant(rows, urlIndex, nextId) ==> KeyedById(rows) && UniqueUrls(rows)
  {
    && 1 <= nextId
    && (forall id | id in rows ::
          1 <= id < nextId && rows[id].id == id && rows[id].url != "" && Conforms(rows[id]))
    && (forall u | u in urlIndex :: urlIndex[u] in rows && rows[urlIndex[u]].url == u)
    && (forall id | id in rows :: rows[id].url in urlIndex && urlIndex[rows[id].url] == id)
  }

  /** Replacing a row by a valid row with the same id and url keeps the invariant. */
  lemma RowChangeKeepsInvariant(rows: map<nat, Record>, urlIndex: map<string, nat>, nextId: nat, r: Record)
    requires TableInvariant(rows, urlIndex, nextId)
    requires r.id in rows && rows[r.id].url == r.url && Conforms(r)
    ensures TableInvariant(rows[r.id := r], urlIndex, nextId)
  {
  }

  lemma SameRowUpdate(rows: map<nat, Record>, id: nat)
    requires id in rows
    ensures rows[id := rows[id]] == rows
  {
  }

  /** The `properties` table. An id argument of `None` is a falsy id. */
  class PropertyStore {
    var rows: map<nat, Record>
    var urlIndex: map<string, nat>
    var nextId: nat

    ghost predicate Valid()
      reads this
      ensures Valid() ==> KeyedById(rows) && UniqueUrls(rows)
    {
      TableInvariant(rows, urlIndex, nextId)
    }

    constructor ()
      ensures Valid() && rows == map[] && nextId == 1
    {
      rows := map[];
      urlIndex := map[];
      nextId := 1;
    }

    /** The row whose url is `url`, through the unique index. */
    function RecordWithUrl(url: string): (r: Option<Record>)
      reads this
      requires Valid()
      ensures r.Some? ==> r.value.id in rows && rows[r.value.id] == r.value && r.value.url == url
      ensures r.None? ==> forall id | id in rows :: rows[id].url != url
    {
      if url in urlIndex then Some(rows[urlIndex[url]]) else None
    }

    /** `getById(id)`: `null` when no row has that id. */
    function GetById(id: Option<nat>): (r: Result<Option<Record>, StoreError>)
      reads this
      ensures id.None? <==> r == Err(IdRequired)
      ensures id.Some? ==> r.Ok? && (r.value.Some? <==> id.value in rows)
      ensures id.Some? && id.value in rows ==> r.value == Some(rows[id.value])
    {
      if id.None? then Err(IdRequired)
      else if id.value in rows then Ok(Some(rows[id.value]))
      else Ok(None)
    }

    /** `getByUrl(url)`: the one row with that url, or `null`. */
    function GetByUrl(url: string): (r: Result<Option<Record>, StoreError>)
      reads this
      requires Valid()
      ensures url == "" <==> r == Err(UrlRequired)
      ensures url != "" ==> r.Ok? && r.value == RecordWithUrl(url)
      ensures r.Ok? && r.value.Some? ==> r.value.value.id in rows && rows[r.value.value.id] == r.value.value && r.value.value.url == url
      ensures r.Ok? && r.value.None? ==> forall id | id in rows :: rows[id].url != url
    {
      if url == "" then Err(UrlRequired) else Ok(RecordWithUrl(url))
    }

    /** `create(data)`: the id of the inserted row. */
    method Create(data: Option<PropertyData>) returns (r: Result<nat, StoreError>)
      requires Valid()
      modifies this
      ensures Valid()
      ensures r == Err(UrlRequired) <==> data.None? || !Truthy(data.value.url)
      ensures data.Some? && Truthy(data.value.url) && ValidateData(data, false) != [] ==>
        r == Err(ValidationFailed(ValidateData(data, false)))
      ensures (data.Some? && Truthy(data.value.url) && ValidateData(data, false) == []
               && old(RecordWithUrl(data.value.url.value)).Some?) ==> r == Err(DuplicateUrl)
      ensures r.Err? ==> rows == old(rows) && urlIndex == old(urlIndex) && nextId == old(nextId)
      ensures r.Ok? <==> (data.Some? && Truthy(data.value.url) && ValidateData(data, false) == []
                          && old(RecordWithUrl(data.value.url.value)).None?)
      ensures r.Ok? ==> (&& r.value == old(nextId) && r.value !in old(rows) && nextId == old(nextId) + 1
                         && rows == old(rows)[r.value := NewRecord(r.value, data.value)])
    {
      if data.None? || !Truthy(data.value.url) {
        return Err(UrlRequired);
      }
      var errors := ValidateData(data, false);
      if errors != [] {
        return Err(ValidationFailed(errors));
      }
      var d := data.value;
      var url := d.url.value;
      if url in urlIndex {
        return Err(DuplicateUrl);
      }
      var id := nextId;
      rows := rows[id := NewRecord(id, d)];
      urlIndex := urlIndex[url := id];
      nextId := nextId + 1;
      return Ok(id);
    }

    /** `update(id, data)`: writes the fields of `data` that are not undefined. */
    method Update(id: Option<nat>, data: Option<PropertyData>) returns (r: Result<bool, StoreError>)
      requires Valid()
      modifies this
      ensures Valid() && urlIndex == old(urlIndex) && nextId == old(nextId)
      ensures id.None? ==> r == Err(IdRequired)
      ensures id.Some? && ValidateData(data, true) != [] ==> r == Err(ValidationFailed(ValidateData(data, true)))
      ensures id.Some? && ValidateData(data, true) == [] && id.value !in old(rows) ==> r == Err(NotFound)
      ensures id.Some? && data.None? && id.value in old(rows) ==> r == Err(DataMissing)
      ensures r.Err? ==> rows == old(rows)
      ensures r.Ok? <==> id.Some? && data.Some? && Passes(data.value) && id.value in old(rows)
      ensures r.Ok? ==> r.value && rows == old(rows)[id.value := Apply(old(rows)[id.value], data.value)]
    {
      if id.None? {
        return Err(IdRequired);
      }
      var errors := ValidateData(data, true);
      if errors != [] {
        return Err(ValidationFailed(errors));
      }
      var existing := GetById(id);
      if existing.value.None? {
        return Err(NotFound);
      }
      if data.None? {
        return Err(DataMissing);
      }
      var d := data.value;
      if d.title.None? && d.location.None? && d.price.None? && d.imageUrl.None? && d.status.None? {
        SameRowUpdate(rows, id.value);
        return Ok(true);
      }
      var key := id.value;
      RowChangeKeepsInvariant(rows, urlIndex, nextId, Apply(rows[key], d));
      rows := rows[key := Apply(rows[key], d)];
      return Ok(true);
    }

    /** `updateStatus(id, status)`. */
    method UpdateStatus(id: Option<nat>, status: string) returns (r: Result<bool, StoreError>)
      requires Valid()
      modifies this
      ensures Valid() && urlIndex == old(urlIndex) && nextId == old(nextId)
      ensures id.None? ==> r == Err(IdRequired)
      ensures id.Some? && status !in STATUS ==> r == Err(InvalidStatus)
      ensures id.Some? && status in STATUS && id.value !in old(rows) ==> r == Err(NotFound)
      ensures r.Err? ==> rows == old(rows)
      ensures r.Ok? <==> id.Some? && status in STATUS && id.value in old(rows)
      ensures r.Ok? ==> r.value && rows == old(rows)[id.value := old(rows)[id.value].(status := status)]
    {
      if id.None? {
        return Err(IdRequired);
      }
      if status !in STATUS {
        return Err(InvalidStatus);
      }
      var key := id.value;
      if key !in rows {
        return Err(NotFound);
      }
      RowChangeKeepsInvariant(rows, urlIndex, nextId, rows[key].(status := status));
      rows := rows[key := rows[key].(status := status)];
      return Ok(true);
    }

    /** `delete(id)`. */
    method Delete(id: Option<nat>) returns (r: Result<bool, StoreError>)
      requires Valid()
      modifies this
      ensures Valid() && nextId == old(nextId)
      ensures id.None? ==> r == Err(IdRequired)
      ensures id.Some? && id.value !in old(rows) ==> r == Err(NotFound)
      ensures r.Err? ==> rows == old(rows)
      ensures r.Ok? <==> id.Some? && id.value in old(rows)
      ensures r.Ok? ==> r.value && rows == old(rows) - {id.value}
    {
      if id.None? {
        return Err(IdRequired);
      }
      var key := id.value;
      if key !in rows {
        return Err(NotFound);
      }
      urlIndex := urlIndex - {rows[key].url};
      rows := rows - {key};
      return Ok(true);
    }

    /** `getAll(options)`. Rows come in id (creation) order, ascending or descending. */
    function GetAll(options: ListOptions): (r: Result<seq<Record>, StoreError>)
      reads this
      requires Valid()
      ensures r.Err? <==> !StatusRule(options.status)
      ensures r.Ok? ==>
        var q := NormaliseOptions(options).value;
        && |r.value| <= q.limit
        && (forall i :: 0 <= i < |r.value| ==>
              r.value[i].id in rows && rows[r.value[i].id] == r.value[i] && Matches(r.value[i], q.status))
    ensures r.Ok? && NormaliseOptions(options).value.sortBy == CreatedAt ==>
        var q := NormaliseOptions(options).value;
        && r.value == Listing(rows, nextId, q)
        && (forall i, j :: 0 <= i < j < |r.value| ==>
              if q.order == Asc then r.value[i].id < r.value[j].id else r.value[i].id > r.value[j].id)
    {
      match NormaliseOptions(options)
      case Err(e) => Err(e)
      case Ok(q) => Ok(Listing(rows, nextId, q))
    }

    /** `count(status)`: the number of rows the filter lets through. */
    function Count(status: Option<string>): (r: Result<nat, StoreError>)
      reads this
      requires Valid()
      ensures r.Err? <==> !StatusRule(status)
      ensures r.Ok? ==> r.value == |ListAscending(rows, nextId, status)|
    {
      if !StatusRule(status) then Err(InvalidStatusFilter)
      else
        var matching := set id | id in rows && Matches(rows[id], status);
        CountIsListingLength(rows, nextId, status);
        Ok(|matching|)
    }
  }

  /** The unfiltered listing has one entry per row. */
  lemma ListingOfAllRows(rows: map<nat, Record>, n: nat)
    requires KeyedById(rows)
    requires forall id | id in rows :: id < n
    ensures |ListAscending(rows, n, None)| == |rows|
  {
    ListingCount(rows, n, None);
    assert MatchingIds(rows, n, None) == rows.Keys by {
      forall id ensures id in MatchingIds(rows, n, None) <==> id in rows.Keys {
      }
    }
  }

  lemma InReversed(s: seq<Record>, x: Record)
    requires x in s
    ensures x in Reversed(s)
  {
    var i :| 0 <= i < |s| && s[i] == x;
    assert Reversed(s)[|s| - 1 - i] == x;
  }

  /** With no options and at most ten rows, the default listing returns every row. */
  lemma DefaultListingIsComplete(store: PropertyStore)
    requires store.Valid()
    requires |store.rows| <= DEFAULT_LIMIT
    ensures store.GetAll(NO_OPTIONS).Ok?
    ensures forall id | id in store.rows :: store.rows[id] in store.GetAll(NO_OPTIONS).value
  {
    var rows := store.rows;
    var q := Query(DEFAULT_LIMIT, 0, None, CreatedAt, Desc);
    assert NormaliseOptions(NO_OPTIONS) == Ok(q);
    assert store.GetAll(NO_OPTIONS) == Ok(Listing(rows, store.nextId, q));
    ListingHoldsAllRows(rows, store.nextId);
  }

  lemma ListingHoldsAllRows(rows: map<nat, Record>, n: nat)
    requires KeyedById(rows)
    requires forall id | id in rows :: id < n
    requires |rows| <= DEFAULT_LIMIT
    ensures forall id | id in rows :: rows[id] in Listing(rows, n, Query(DEFAULT_LIMIT, 0, None, CreatedAt, Desc))
  {
    var all := ListAscending(rows, n, None);
    var ordered := Reversed(all);
    ListingOfAllRows(rows, n);
    assert Listing(rows, n, Query(DEFAULT_LIMIT, 0, None, CreatedAt, Desc)) == Page(ordered, 0, DEFAULT_LIMIT) == ordered;
    forall id | id in rows ensures rows[id] in ordered {
      InReversed(all, rows[id]);
    }
  }

  /** `page` is the first `limit` rows of the table, newest first: rows of
      the table in descending id order, as many as there are up to `limit`,
      every row left out older than every row listed, and the whole table
      when it has no more than `limit` rows. */
  predicate NewestFirstPage(rows: map<nat, Record>, page: seq<Record>, limit: nat) {
    && (forall i :: 0 <= i < |page| ==> page[i].id in rows && rows[page[i].id] == page[i])
    && (forall i, j :: 0 <= i < j < |page| ==> page[i].id > page[j].id)
    && |page| == (if |rows| < limit then |rows| else limit)
    && (forall id, i | id in rows && rows[id] !in page && 0 <= i < |page| :: id < page[i].id)
    && (|rows| <= limit ==> forall id | id in rows :: rows[id] in page)
  }

  /** The default listing (ten rows, newest first) is that page. */
  lemma DefaultListingFacts(rows: map<nat, Record>, n: nat)
    requires KeyedById(rows)
    requires forall id | id in rows :: id < n
    ensures NewestFirstPage(rows, Listing(rows, n, Query(DEFAULT_LIMIT, 0, None, CreatedAt, Desc)), DEFAULT_LIMIT)
  {
    if |rows| <= DEFAULT_LIMIT {
      ListingHoldsAllRows(rows, n);
    }
    NewestRowsListed(rows, n, DEFAULT_LIMIT);
  }

  /** Newest first, a page from the start holds the `limit` rows with the
      highest ids: every row left out is older than every row listed. */
  lemma NewestRowsListed(rows: map<nat, Record>, n: nat, limit: nat)
    requires KeyedById(rows)
    requires forall id | id in rows :: id < n
    ensures var page := Listing(rows, n, Query(limit, 0, None, CreatedAt, Desc));
      && |page| == (if |rows| < limit then |rows| else limit)
      && forall id, i | id in rows && rows[id] !in page && 0 <= i < |page| :: id < page[i].id
  {
    var all := ListAscending(rows, n, None);
    var ordered := Reversed(all);
    assert Listing(rows, n, Query(limit, 0, None, CreatedAt, Desc)) == Page(ordered, 0, limit);
    ListingOfAllRows(rows, n);
    RowsInNewestFirst(rows, n);
    ReversedDescending(all);
    PageLeavesOutOlder(ordered, limit);
  }

  lemma RowsInNewestFirst(rows: map<nat, Record>, n: nat)
    requires KeyedById(rows)
    requires forall id | id in rows :: id < n
    ensures forall id | id in rows :: rows[id] in Reversed(ListAscending(rows, n, None))
  {
    forall id | id in rows ensures rows[id] in Reversed(ListAscending(rows, n, None)) {
      InReversed(ListAscending(rows, n, None), rows[id]);
    }
  }

  lemma ReversedDescending(s: seq<Record>)
    requires forall i, j :: 0 <= i < j < |s| ==> s[i].id < s[j].id
    ensures forall i, j :: 0 <= i < j < |s| ==> Reversed(s)[i].id > Reversed(s)[j].id
  {
    var r := Reversed(s);
    forall i, j | 0 <= i < j < |s| ensures r[i].id > r[j].id {
      assert r[i] == s[|s| - 1 - i] && r[j] == s[|s| - 1 - j];
    }
  }

  /** In a listing ordered newest first, a record beyond the first page is
      older than every record on it. */
  lemma PageLeavesOutOlder(ordered: seq<Record>, limit: nat)
    requires forall a, b :: 0 <= a < b < |ordered| ==> ordered[a].id > ordered[b].id
    ensures forall x, i | x in ordered && x !in Page(ordered, 0, limit) && 0 <= i < |Page(ordered, 0, limit)| ::
      x.id < Page(ordered, 0, limit)[i].id
  {
    var page := Page(ordered, 0, limit);
    forall x, i | x in ordered && x !in page && 0 <= i < |page| ensures x.id < page[i].id {
      var k :| 0 <= k < |ordered| && ordered[k] == x;
      assert page[i] == ordered[i];
    }
  }
}
