/** The pure part of `Scraper.scrapeProperty` (backend/utils/scraper.js): the
    request filter installed on the page and the extraction run inside
    `page.evaluate` on the first listing card. The browser itself (launch,
    headers, navigation, waits, close) is represented only by whether the
    page loaded and which card it shows. */
module Scraper {
  import opened Wrappers
  import opened JsString

  const TITLE_SELECTOR: string := ".mb-srp__card--title"
  const TITLE_FALLBACK_SELECTOR: string := ".mb-srp__card__title"
  const ADDRESS_SELECTOR: string := ".mb-srp__card--addr"
  const ADDRESS_FALLBACK_SELECTOR: string := ".mb-srp__card__address"
  const PRICE_SELECTOR: string := ".mb-srp__card__price--amount"

  /** The resource types the request filter aborts. */
  const BLOCKED_RESOURCE_TYPES: set<string> := {"image", "stylesheet", "font"}

  datatype RequestAction = Abort | Continue

  /** The `request` handler: abort images, stylesheets and fonts, continue the rest. */
  function OnRequest(resourceType: string): (action: RequestAction)
    ensures action == Abort <==> resourceType in BLOCKED_RESOURCE_TYPES
    ensures action == Continue <==> resourceType !in BLOCKED_RESOURCE_TYPES
  {
    if resourceType == "image" || resourceType == "stylesheet" || resourceType == "font" then Abort
    else Continue
  }

  /** The `.mb-srp__card__photo` element: its `data-src` and `src` attributes
      (`None` where `getAttribute` gives `null`). */
  datatype Photo = Photo(dataSrc: Option<string>, src: Option<string>)

  /** The first listing card as the extraction queries it: `text` maps a
      selector to the `textContent` of the first element matching it (a
      selector that matches nothing is not a key); `photo` is the photo element. */
  datatype Card = Card(text: map<string, string>, photo: Option<Photo>)

  /** The object `page.evaluate` returns. */
  datatype ScrapedData = ScrapedData(title: string, location: string, price: string, imageUrl: string)

  /** `getTextContent(element, selector)`. */
  function GetTextContent(card: Card, selector: string): (r: string)
    ensures IsTrimmed(r)
    ensures selector !in card.text ==> r == ""
    ensures selector in card.text ==> r == Trim(card.text[selector])
    ensures selector in card.text ==> IsSubsequence(r, card.text[selector])
  {
    if selector in card.text then
      TrimIsSubsequence(card.text[selector]);
      Trim(card.text[selector])
    else ""
  }

  /** `getTextContent(card, primary) || getTextContent(card, fallback)`. */
  function FirstText(card: Card, primary: string, fallback: string): (r: string)
    ensures IsTrimmed(r)
    ensures GetTextContent(card, primary) != "" ==> r == GetTextContent(card, primary)
    ensures GetTextContent(card, primary) == "" ==> r == GetTextContent(card, fallback)
    ensures r == "" <==> GetTextContent(card, primary) == "" && GetTextContent(card, fallback) == ""
  {
    var first := GetTextContent(card, primary);
    if first != "" then first else GetTextContent(card, fallback)
  }

  /** The title: the text of `.mb-srp__card--title`, else of `.mb-srp__card__title`. */
  function TitleOf(card: Card): (r: string)
    ensures IsTrimmed(r)
    ensures GetTextContent(card, TITLE_SELECTOR) != "" ==> r == GetTextContent(card, TITLE_SELECTOR)
    ensures GetTextContent(card, TITLE_SELECTOR) == "" ==> r == GetTextContent(card, TITLE_FALLBACK_SELECTOR)
    ensures r == "" <==> GetTextContent(card, TITLE_SELECTOR) == "" && GetTextContent(card, TITLE_FALLBACK_SELECTOR) == ""
  {
    FirstText(card, TITLE_SELECTOR, TITLE_FALLBACK_SELECTOR)
  }

  /** The location: the text of `.mb-srp__card--addr`, else of `.mb-srp__card__address`. */
  function LocationOf(card: Card): (r: string)
    ensures IsTrimmed(r)
    ensures GetTextContent(card, ADDRESS_SELECTOR) != "" ==> r == GetTextContent(card, ADDRESS_SELECTOR)
    ensures GetTextContent(card, ADDRESS_SELECTOR) == "" ==> r == GetTextContent(card, ADDRESS_FALLBACK_SELECTOR)
    ensures r == "" <==> GetTextContent(card, ADDRESS_SELECTOR) == "" && GetTextContent(card, ADDRESS_FALLBACK_SELECTOR) == ""
  {
    FirstText(card, ADDRESS_SELECTOR, ADDRESS_FALLBACK_SELECTOR)
  }

  /** The characters `/[^\d.₹\s]/g` does not delete: digit separators such as
      `,` and every letter (`Lac`, `Cr`) are deleted. */
  predicate IsPriceChar(c: char)
    ensures IsDigit(c) || c == '.' || c == RUPEE ==> IsPriceChar(c)
    ensures c == ',' || 'A' <= c <= 'Z' || 'a' <= c <= 'z' ==> !IsPriceChar(c)
  {
    IsDigit(c) || c == '.' || c == RUPEE || IsWhitespace(c)
  }

  /** `price.replace(/[^\d.₹\s]/g, '').trim()` on the trimmed text of the price element. */
  function PriceText(text: string): (r: string)
    ensures IsTrimmed(r)
    ensures forall i :: 0 <= i < |r| ==> IsPriceChar(r[i])
    ensures forall c :: IsPriceChar(c) && !IsWhitespace(c) ==> multiset(r)[c] == multiset(text)[c]
  {
    var kept := Keep(Trim(text), IsPriceChar);
    forall c | IsPriceChar(c) && !IsWhitespace(c)
      ensures multiset(Trim(kept))[c] == multiset(text)[c]
    {
      TrimCounts(text, c);
      KeepCounts(Trim(text), IsPriceChar, c);
      TrimCounts(kept, c);
    }
    Trim(kept)
  }

  /** The price keeps characters of the trimmed text, in their original order. */
  lemma PriceTextIsSubsequence(text: string)
    ensures IsSubsequence(PriceText(text), Trim(text))
  {
    var kept := Keep(Trim(text), IsPriceChar);
    KeepIsSubsequence(Trim(text), IsPriceChar);
    TrimIsSubsequence(kept);
    SubsequenceTransitive(PriceText(text), kept, Trim(text));
  }

  /** Cleaning an already cleaned price changes nothing. */
  lemma PriceTextIdempotent(text: string)
    ensures PriceText(PriceText(text)) == PriceText(text)
  {
    var p := PriceText(text);
    TrimOfTrimmed(p);
    KeepAll(p, IsPriceChar);
    TrimOfTrimmed(p);
  }

  /** `extractPrice(element)`. */
  function ExtractPrice(card: Card): (r: string)
    ensures PRICE_SELECTOR !in card.text ==> r == ""
    ensures IsTrimmed(r)
    ensures forall i :: 0 <= i < |r| ==> IsPriceChar(r[i])
    ensures PRICE_SELECTOR in card.text ==>
      forall c :: IsPriceChar(c) && !IsWhitespace(c) ==> multiset(r)[c] == multiset(card.text[PRICE_SELECTOR])[c]
  {
    if PRICE_SELECTOR in card.text then PriceText(card.text[PRICE_SELECTOR]) else ""
  }

  /** Every character of the extracted price occurs in the price element's text. */
  lemma ExtractPriceCharsFromText(card: Card)
    requires PRICE_SELECTOR in card.text
    ensures forall i :: 0 <= i < |ExtractPrice(card)| ==> ExtractPrice(card)[i] in card.text[PRICE_SELECTOR]
  {
    var text := card.text[PRICE_SELECTOR];
    var price := PriceText(text);
    assert ExtractPrice(card) == price;
    PriceTextIsSubsequence(text);
    TrimIsSubsequence(text);
    SubsequenceTransitive(price, Trim(text), text);
    SubsequenceChars(price, text);
  }

  /** The cleaning adds no rupee sign: a price text without one gives a price
      without one. */
  lemma NoRupeeInExtractedPrice(card: Card)
    requires PRICE_SELECTOR in card.text && RUPEE !in card.text[PRICE_SELECTOR]
    ensures RUPEE !in ExtractPrice(card)
  {
    ExtractPriceCharsFromText(card);
  }

  /** A digit in the price element's text leaves a non-empty extracted price. */
  lemma DigitSurvivesExtraction(card: Card, i: nat)
    requires PRICE_SELECTOR in card.text
    requires i < |card.text[PRICE_SELECTOR]| && IsDigit(card.text[PRICE_SELECTOR][i])
    ensures ExtractPrice(card) != ""
  {
    var text := card.text[PRICE_SELECTOR];
    var d := text[i];
    assert IsPriceChar(d) && !IsWhitespace(d);
    assert d in multiset(text);
    var price := ExtractPrice(card);
    assert multiset(price)[d] == multiset(text)[d];
    assert d in multiset(price);
  }

  /** A successful scrape carries the card's extracted price. */
  lemma ScrapedPrice(card: Card)
    requires TitleOf(card) != ""
    ensures ScrapeProperty(Loaded(Some(card))) == Data(ExtractFields(card))
    ensures ScrapeProperty(Loaded(Some(card))).data.price == ExtractPrice(card)
  {
  }

  /** `imageEl ? (imageEl.getAttribute('data-src') || imageEl.getAttribute('src')) : ''`,
      then `|| ''`. */
  function ImageUrlOf(card: Card): (r: string)
    ensures card.photo.None? ==> r == ""
    ensures card.photo.Some? && card.photo.value.dataSrc.Some? && card.photo.value.dataSrc.value != "" ==>
      r == card.photo.value.dataSrc.value
    ensures r != "" ==> card.photo.Some? && (card.photo.value.dataSrc == Some(r) || card.photo.value.src == Some(r))
    ensures r == "" <==> card.photo.None? || (!NonEmpty(card.photo.value.dataSrc) && !NonEmpty(card.photo.value.src))
  {
    match card.photo
    case None => ""
    case Some(photo) =>
      if NonEmpty(photo.dataSrc) then photo.dataSrc.value
      else if NonEmpty(photo.src) then photo.src.value
      else ""
  }

  predicate NonEmpty(attribute: Option<string>) {
    attribute.Some? && attribute.value != ""
  }

  /** The object built from the first card: four strings, never null. */
  function ExtractFields(card: Card): (d: ScrapedData)
    ensures d.title == TitleOf(card) && d.location == LocationOf(card)
    ensures d.price == ExtractPrice(card) && d.imageUrl == ImageUrlOf(card)
  {
    ScrapedData(TitleOf(card), LocationOf(card), ExtractPrice(card), ImageUrlOf(card))
  }

  /** What the browser produced: either navigation or the wait for
      `.mb-srp__list` failed, or the page loaded and shows (or lacks) a first card. */
  datatype PageLoad = NavigationFailed | Loaded(firstCard: Option<Card>)

  /** The scraper as the controller sees it. `Falsy` is a resolved value that
      is not an object; `Throws` is a rejected promise. */
  datatype ScrapeOutcome = Data(data: ScrapedData) | Falsy | Throws

  /** `scrapeProperty(url)`, given what the browser produced for `url`. */
  function ScrapeProperty(page: PageLoad): (outcome: ScrapeOutcome)
    ensures !outcome.Falsy?
    ensures outcome.Data? <==> page.Loaded? && page.firstCard.Some? && TitleOf(page.firstCard.value) != ""
    ensures outcome.Data? ==> outcome.data == ExtractFields(page.firstCard.value) && outcome.data.title != ""
  {
    match page
    case NavigationFailed => Throws
    case Loaded(first) =>
      var data := if first.Some? then Some(ExtractFields(first.value)) else None;
      if data.None? || data.value.title == "" then Throws else Data(data.value)
  }
}
