/** The request handlers of `PropertyController`
    (backend/controllers/scrapingController.js) as methods over the store. A
    reply is its HTTP status code and the record it carries; message text and
    the JSON envelope are not modelled. The scraper is a parameter: the outcome
    of `Scraper.scrapeProperty` for the url in question. */
module ScrapingController {
  import opened Wrappers
  import opened JsString
  import opened PropertyModel
  import opened Scraper

  datatype Reply = Reply(code: nat, property: Option<Record>)

  datatype StatusReply = StatusReply(code: nat, status: Option<string>, property: Option<Record>)

  datatype ListReply = ListReply(code: nat, count: nat, properties: seq<Record>)

  /** A url that `startScraping` accepts: exactly a non-empty url that also
      passes the store's url rule. */
  predicate IsListingUrl(url: Option<string>)
    ensures IsListingUrl(url) <==> Truthy(url) && UrlRule(url)
  {
    Truthy(url) && StartsWith(url.value, LISTING_URL_PREFIX)
  }

  /** The record a scrape works on once the handler has marked it
      IN_PROGRESS: the existing record with that status, or a new stub. */
  function Claimed(existing: Option<Record>, freshId: nat, url: string): (r: Record)
    ensures r.status == IN_PROGRESS
    ensures existing.Some? ==> r == existing.value.(status := IN_PROGRESS)
    ensures existing.None? ==> r.id == freshId && r.url == url
    ensures existing.None? ==> r.title == "" && r.location == "" && r.price == "" && r.imageUrl == ""
  {
    if existing.Some? then existing.value.(status := IN_PROGRESS)
    else Record(freshId, "", "", "", "", IN_PROGRESS, url)
  }

  /** The update the handler writes when the scraper returns data: it leaves
      the url alone, so only the scraped price can make it fail validation. */
  function CompletedUpdate(d: ScrapedData): (u: PropertyData)
    ensures u.url.None? && u.status == Some(COMPLETED)
    ensures u.title == Some(d.title) && u.location == Some(d.location)
    ensures u.price == Some(d.price) && u.imageUrl == Some(d.imageUrl)
    ensures Passes(u) <==> PriceRule(Some(d.price))
  {
    assert STATUS[2] == COMPLETED;
    PropertyData(Some(d.title), Some(d.location), Some(d.price), Some(d.imageUrl), Some(COMPLETED), None)
  }

  /** How a scraper outcome settles a claimed record, and the reply code. */
  function Resolve(claimed: Record, outcome: ScrapeOutcome): (res: (Record, nat))
    requires claimed.status == IN_PROGRESS
    ensures res.0.id == claimed.id && res.0.url == claimed.url
    ensures res.0.status == COMPLETED <==> outcome.Data? && PriceRule(Some(outcome.data.price))
    ensures res.0.status == FAILED <==> outcome.Falsy?
    ensures res.0.status == IN_PROGRESS <==> outcome.Throws? || (outcome.Data? && !PriceRule(Some(outcome.data.price)))
    ensures res.0.status == COMPLETED ==>
      && res.0.title == outcome.data.title && res.0.location == outcome.data.location
      && res.0.price == outcome.data.price && res.0.imageUrl == outcome.data.imageUrl
    ensures res.0.status != COMPLETED ==> res.0 == claimed.(status := res.0.status)
    ensures res.1 == 200 <==> res.0.status == COMPLETED
    ensures res.1 != 200 ==> res.1 == 500
    ensures Conforms(claimed) ==> Conforms(res.0)
  {
    match outcome
    case Falsy => (claimed.(status := FAILED), 500)
    case Throws => (claimed, 500)
    case Data(d) =>
      if ValidateData(Some(CompletedUpdate(d)), true) == [] then (Apply(claimed, CompletedUpdate(d)), 200)
      else (claimed, 500)
  }

  /** The scraper of backend/utils/scraper.js never yields a falsy value, so a
      scrape never settles a record as FAILED: the record ends COMPLETED or
      stays IN_PROGRESS. */
  lemma ScrapeNeverMarksFailed(claimed: Record, page: PageLoad)
    requires claimed.status == IN_PROGRESS
    ensures Resolve(claimed, ScrapeProperty(page)).0.status != FAILED
    ensures Resolve(claimed, ScrapeProperty(page)).0.status in {COMPLETED, IN_PROGRESS}
  {
  }

  /** Scraped data with a price that lacks the rupee sign leaves a claimed
      record exactly as it was, and the reply is 500. */
  lemma UnsignedPriceStaysInProgress(claimed: Record, outcome: ScrapeOutcome)
    requires claimed.status == IN_PROGRESS
    requires outcome.Data? && !PriceRule(Some(outcome.data.price))
    ensures Resolve(claimed, outcome) == (claimed, 500)
  {
  }

  /** A listing card whose price text has digits but no rupee sign scrapes
      successfully, yet the extracted price fails the store's price rule: the
      update throws, the reply is 500 and the record stays IN_PROGRESS. */
  lemma RupeelessPriceLeavesRecordInProgress(claimed: Record, card: Card)
    requires claimed.status == IN_PROGRESS
    requires TitleOf(card) != ""
    requires PRICE_SELECTOR in card.text && RUPEE !in card.text[PRICE_SELECTOR]
    requires exists i :: 0 <= i < |card.text[PRICE_SELECTOR]| && IsDigit(card.text[PRICE_SELECTOR][i])
    ensures ScrapeProperty(Loaded(Some(card))).Data?
    ensures Resolve(claimed, ScrapeProperty(Loaded(Some(card)))) == (claimed, 500)
  {
    var i :| 0 <= i < |card.text[PRICE_SELECTOR]| && IsDigit(card.text[PRICE_SELECTOR][i]);
    DigitSurvivesExtraction(card, i);
    ScrapedPrice(card);
    NoRupeeInExtractedPrice(card);
    UnsignedPriceRejected(ExtractPrice(card));
    UnsignedPriceStaysInProgress(claimed, ScrapeProperty(Loaded(Some(card))));
  }

  lemma UnsignedPriceRejected(price: string)
    requires price != "" && RUPEE !in price
    ensures !PriceRule(Some(price))
  {
    assert price[0] in price;
  }

  /** Lines 112-133 and 300-321: run the scraper outcome against a claimed
      record and reply. */
  method SettleScrape(store: PropertyStore, propertyId: nat, outcome: ScrapeOutcome) returns (reply: Reply)
    requires store.Valid()
    requires propertyId in store.rows && store.rows[propertyId].status == IN_PROGRESS
    modifies store
    ensures store.Valid() && store.nextId == old(store.nextId)
    ensures var res := Resolve(old(store.rows)[propertyId], outcome);
      && store.rows == old(store.rows)[propertyId := res.0]
      && reply == SettledReply(res)
  {
    match outcome {
      case Falsy =>
        var marked := store.UpdateStatus(Some(propertyId), FAILED);
        return Reply(500, None);
      case Throws =>
        return Reply(500, None);
      case Data(scraped) =>
        var updated := store.Update(Some(propertyId), Some(CompletedUpdate(scraped)));
        if updated.Err? {
          return Reply(500, None);
        }
        var fetched := store.GetById(Some(propertyId));
        return Reply(200, fetched.value);
    }
  }

  /** Lines 96-110 of `startScraping`: mark the row with this url IN_PROGRESS,
      or create one in that state. */
  method Claim(store: PropertyStore, url: string) returns (propertyId: nat)
    requires store.Valid() && StartsWith(url, LISTING_URL_PREFIX)
    modifies store
    ensures store.Valid()
    ensures var existing := old(store.RecordWithUrl(url));
      && propertyId == (if existing.Some? then existing.value.id else old(store.nextId))
      && (existing.None? ==> propertyId !in old(store.rows))
      && store.rows == old(store.rows)[propertyId := Claimed(existing, propertyId, url)]
      && store.nextId == (if existing.Some? then old(store.nextId) else old(store.nextId) + 1)
  {
    var lookup := store.GetByUrl(url);
    var existing := lookup.value;
    if existing.Some? {
      propertyId := existing.value.id;
      var marked := store.UpdateStatus(Some(propertyId), IN_PROGRESS);
    } else {
      var stub := PropertyData(Some(""), Some(""), Some(""), Some(""), Some(IN_PROGRESS), Some(url));
      assert STATUS[1] == IN_PROGRESS;
      assert ValidateData(Some(stub), false) == [];
      var created := store.Create(Some(stub));
      propertyId := created.value;
    }
  }

  lemma UpdateTwice(rows: map<nat, Record>, id: nat, first: Record, second: Record)
    ensures rows[id := first][id := second] == rows[id := second]
  {
  }

  /** The reply that carries a settled record: the record only on success. */
  function SettledReply(res: (Record, nat)): Reply {
    Reply(res.1, if res.1 == 200 then Some(res.0) else None)
  }

  /** Lines 96-133 of `startScraping` for a listing url whose row, if any,
      is not COMPLETED: claim the row, then settle the scrape. */
  method ScrapeUrl(store: PropertyStore, url: string, outcome: ScrapeOutcome) returns (reply: Reply)
    requires store.Valid() && StartsWith(url, LISTING_URL_PREFIX)
    modifies store
    ensures store.Valid()
    ensures var existing := old(store.RecordWithUrl(url));
      var id := if existing.Some? then existing.value.id else old(store.nextId);
      var res := Resolve(Claimed(existing, id, url), outcome);
      && (existing.None? ==> id !in old(store.rows))
      && store.rows == old(store.rows)[id := res.0]
      && store.nextId == (if existing.Some? then old(store.nextId) else old(store.nextId) + 1)
      && reply == SettledReply(res)
  {
    ghost var before := store.rows;
    var propertyId := Claim(store, url);
    ghost var claimed := store.rows[propertyId];
    reply := SettleScrape(store, propertyId, outcome);
    UpdateTwice(before, propertyId, claimed, Resolve(claimed, outcome).0);
  }

  /** `startScraping`: POST /scrape with body `{ url }`. */
  method StartScraping(store: PropertyStore, url: Option<string>, outcome: ScrapeOutcome) returns (reply: Reply)
    requires store.Valid()
    modifies store
    ensures store.Valid()
    ensures !IsListingUrl(url) ==>
      reply == Reply(400, None) && store.rows == old(store.rows) && store.nextId == old(store.nextId)
    ensures IsListingUrl(url) ==>
      var existing := old(store.RecordWithUrl(url.value));
      if existing.Some? && existing.value.status == COMPLETED then
        reply == Reply(200, existing) && store.rows == old(store.rows) && store.nextId == old(store.nextId)
      else
        var id := if existing.Some? then existing.value.id else old(store.nextId);
        var res := Resolve(Claimed(existing, id, url.value), outcome);
        && (existing.None? ==> id !in old(store.rows))
        && store.rows == old(store.rows)[id := res.0]
        && store.nextId == (if existing.Some? then old(store.nextId) else old(store.nextId) + 1)
        && reply == SettledReply(res)
  {
    if !Truthy(url) {
      return Reply(400, None);
    }
    if !StartsWith(url.value, LISTING_URL_PREFIX) {
      return Reply(400, None);
    }
    var lookup := store.GetByUrl(url.value);
    var existing := lookup.value;
    if existing.Some? && existing.value.status == COMPLETED {
      return Reply(200, existing);
    }
    reply := ScrapeUrl(store, url.value, outcome);
  }

  /** Lines 299-321 of `retryScraping` for a FAILED row: mark it IN_PROGRESS
      and settle the scrape. */
  method RetryFailed(store: PropertyStore, id: nat, outcome: ScrapeOutcome) returns (reply: Reply)
    requires store.Valid() && id in store.rows && store.rows[id].status == FAILED
    modifies store
    ensures store.Valid() && store.nextId == old(store.nextId)
    ensures var res := Resolve(old(store.rows)[id].(status := IN_PROGRESS), outcome);
      && store.rows == old(store.rows)[id := res.0]
      && reply == SettledReply(res)
  {
    ghost var before := store.rows;
    ghost var claimed := before[id].(status := IN_PROGRESS);
    assert STATUS[1] == IN_PROGRESS;
    var marked := store.UpdateStatus(Some(id), IN_PROGRESS);
    assert store.rows == before[id := claimed];
    reply := SettleScrape(store, id, outcome);
    UpdateTwice(before, id, claimed, Resolve(claimed, outcome).0);
  }

  /** `retryScraping`: POST /properties/:id/retry; `outcome` is the scraper's
      outcome for the stored url. */
  method RetryScraping(store: PropertyStore, id: nat, outcome: ScrapeOutcome) returns (reply: Reply)
    requires store.Valid()
    modifies store
    ensures store.Valid() && store.nextId == old(store.nextId)
    ensures id !in old(store.rows) ==> reply == Reply(404, None) && store.rows == old(store.rows)
    ensures id in old(store.rows) && old(store.rows)[id].status != FAILED ==>
      reply == Reply(400, None) && store.rows == old(store.rows)
    ensures id in old(store.rows) && old(store.rows)[id].status == FAILED ==>
      var res := Resolve(old(store.rows)[id].(status := IN_PROGRESS), outcome);
      && store.rows == old(store.rows)[id := res.0]
      && reply == SettledReply(res)
  {
    var lookup := store.GetById(Some(id));
    var property := lookup.value;
    if property.None? {
      return Reply(404, None);
    }
    if property.value.status != FAILED {
      return Reply(400, None);
    }
    reply := RetryFailed(store, id, outcome);
  }

  /** The `propertyData` that `createProperty` validates and creates: the
      client's status is ignored, so only url and price can fail validation. */
  function Submitted(body: PropertyData): (d: PropertyData)
    ensures d.title == body.title && d.location == body.location && d.price == body.price && d.url == body.url
    ensures d.imageUrl == Some(if Truthy(body.imageUrl) then body.imageUrl.value else "") && d.status == Some(PENDING)
    ensures Passes(d) <==> UrlRule(body.url) && PriceRule(body.price)
  {
    assert STATUS[0] == PENDING;
    PropertyData(body.title, body.location, body.price, Some(OrElse(body.imageUrl, "")), Some(PENDING), body.url)
  }

  /** The required-field check of `createProperty`: a body that passes it is
      stored with non-empty title, location, price and url. */
  predicate HasRequiredFields(body: PropertyData)
    ensures HasRequiredFields(body) ==> (Truthy(body.url) &&
      forall id: nat :: var r := NewRecord(id, Submitted(body));
        r.title != "" && r.location != "" && r.price != "" && r.url != "")
  {
    Truthy(body.title) && Truthy(body.location) && Truthy(body.price) && Truthy(body.url)
  }

  /** `createProperty`: POST /properties. */
  method CreateProperty(store: PropertyStore, body: PropertyData) returns (reply: Reply)
    requires store.Valid()
    modifies store
    ensures store.Valid()
    ensures reply.code != 201 ==> store.rows == old(store.rows) && store.nextId == old(store.nextId)
    ensures !HasRequiredFields(body) ==> reply == Reply(400, None)
    ensures HasRequiredFields(body) && !Passes(Submitted(body)) ==> reply == Reply(400, None)
    ensures HasRequiredFields(body) && Passes(Submitted(body)) && old(store.RecordWithUrl(body.url.value)).Some? ==>
      reply == Reply(409, old(store.RecordWithUrl(body.url.value)))
    ensures reply.code == 201 <==>
      HasRequiredFields(body) && Passes(Submitted(body)) && old(store.RecordWithUrl(body.url.value)).None?
    ensures reply.code == 201 ==>
      var id := old(store.nextId);
      var created := Record(id, body.title.value, body.location.value, body.price.value,
                            OrElse(body.imageUrl, ""), PENDING, body.url.value);
      && id !in old(store.rows)
      && store.rows == old(store.rows)[id := created] && store.nextId == id + 1
      && reply.property == Some(created)
  {
    if !Truthy(body.title) || !Truthy(body.location) || !Truthy(body.price) || !Truthy(body.url) {
      return Reply(400, None);
    }
    var propertyData := Submitted(body);
    var errors := ValidateData(Some(propertyData), false);
    if errors != [] {
      return Reply(400, None);
    }
    var lookup := store.GetByUrl(body.url.value);
    if lookup.value.Some? {
      return Reply(409, lookup.value);
    }
    var created := store.Create(Some(propertyData));
    var fetched := store.GetById(Some(created.value));
    return Reply(201, fetched.value);
  }

  /** `getProperty`: GET /properties/:id. */
  method GetProperty(store: PropertyStore, id: nat) returns (reply: Reply)
    requires store.Valid()
    ensures id in store.rows ==> reply == Reply(200, Some(store.rows[id]))
    ensures id !in store.rows ==> reply == Reply(404, None)
  {
    var lookup := store.GetById(Some(id));
    if lookup.value.None? {
      return Reply(404, None);
    }
    return Reply(200, lookup.value);
  }

  /** `getScrapingStatus`: GET /properties/:id/status. */
  method GetScrapingStatus(store: PropertyStore, id: nat) returns (reply: StatusReply)
    requires store.Valid()
    ensures id in store.rows ==> reply == StatusReply(200, Some(store.rows[id].status), Some(store.rows[id]))
    ensures id !in store.rows ==> reply == StatusReply(404, None, None)
  {
    var lookup := store.GetById(Some(id));
    if lookup.value.None? {
      return StatusReply(404, None, None);
    }
    var property := lookup.value.value;
    return StatusReply(200, Some(property.status), Some(property));
  }

  /** `updateProperty`: PUT /properties/:id with the body as the update data.
      A validation error surfaces as 500. */
  method UpdateProperty(store: PropertyStore, id: nat, body: PropertyData) returns (reply: Reply)
    requires store.Valid()
    modifies store
    ensures store.Valid() && store.nextId == old(store.nextId)
    ensures id !in old(store.rows) ==> reply == Reply(404, None) && store.rows == old(store.rows)
    ensures id in old(store.rows) && !Passes(body) ==> reply == Reply(500, None) && store.rows == old(store.rows)
    ensures id in old(store.rows) && Passes(body) ==>
      && store.rows == old(store.rows)[id := Apply(old(store.rows)[id], body)]
      && reply == Reply(200, Some(store.rows[id]))
  {
    var lookup := store.GetById(Some(id));
    if lookup.value.None? {
      return Reply(404, None);
    }
    var updated := store.Update(Some(id), Some(body));
    if updated.Err? {
      return Reply(500, None);
    }
    var fetched := store.GetById(Some(id));
    return Reply(200, fetched.value);
  }

  /** `deleteProperty`: DELETE /properties/:id. */
  method DeleteProperty(store: PropertyStore, id: nat) returns (reply: Reply)
    requires store.Valid()
    modifies store
    ensures store.Valid() && store.nextId == old(store.nextId)
    ensures id !in old(store.rows) ==> reply == Reply(404, None) && store.rows == old(store.rows)
    ensures id in old(store.rows) ==> reply == Reply(200, None) && store.rows == old(store.rows) - {id}
  {
    var lookup := store.GetById(Some(id));
    if lookup.value.None? {
      return Reply(404, None);
    }
    var deleted := store.Delete(Some(id));
    return Reply(200, None);
  }

  /** `getAllProperties`: GET /properties, which calls `getAll()` with no
      options: the ten newest rows, newest first. */
  method GetAllProperties(store: PropertyStore) returns (reply: ListReply)
    requires store.Valid()
    ensures reply.code == 200 && reply.count == |reply.properties|
    ensures NewestFirstPage(store.rows, reply.properties, DEFAULT_LIMIT)
  {
    var q := Query(DEFAULT_LIMIT, 0, None, CreatedAt, Desc);
    assert NormaliseOptions(NO_OPTIONS) == Ok(q);
    var properties := store.GetAll(NO_OPTIONS);
    assert properties.value == Listing(store.rows, store.nextId, q);
    DefaultListingFacts(store.rows, store.nextId);
    return ListReply(200, |properties.value|, properties.value);
  }

  /** Scraped data whose price passes the price rule completes the claimed
      record, new stub or existing row alike: it keeps its id and url and
      holds exactly the scraped values, and the reply is 200. */
  lemma ScrapedListingCompletes(existing: Option<Record>, id: nat, url: string, d: ScrapedData)
    requires PriceRule(Some(d.price))
    ensures var claimed := Claimed(existing, id, url);
      Resolve(claimed, Data(d))
        == (Record(claimed.id, d.title, d.location, d.price, d.imageUrl, COMPLETED, claimed.url), 200)
  {
  }

  /** For any listing url that has no COMPLETED row, a scrape that throws
      (navigation times out, no title) answers 500 and leaves the url's row
      IN_PROGRESS, not FAILED; `retryScraping` then refuses that row with 400,
      so no handler moves it on. */
  method ThrownScrapeIsNotRetryable(store: PropertyStore, url: string) returns (id: nat, first: Reply, retry: Reply)
    requires store.Valid() && StartsWith(url, LISTING_URL_PREFIX)
    requires store.RecordWithUrl(url).None? || store.RecordWithUrl(url).value.status != COMPLETED
    modifies store
    ensures store.Valid()
    ensures first == Reply(500, None) && retry == Reply(400, None)
    ensures id in store.rows && store.rows[id].status == IN_PROGRESS && store.rows[id].url == url
    ensures store.rows == old(store.rows)[id := Claimed(old(store.RecordWithUrl(url)), id, url)]
    ensures store.nextId == (if old(store.RecordWithUrl(url)).Some? then old(store.nextId) else old(store.nextId) + 1)
  {
    var lookup := store.GetByUrl(url);
    id := if lookup.value.Some? then lookup.value.value.id else store.nextId;
    first := ScrapeUrl(store, url, Throws);
    assert IN_PROGRESS[0] != FAILED[0];
    retry := RetryScraping(store, id, Throws);
  }
}
