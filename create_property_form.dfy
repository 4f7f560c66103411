/** The `CreatePropertyForm` component (frontend/src/components/CreatePropertyForm.js):
    its `formData`, `loading` and `error` state, the price normaliser in
    `handleChange`, and `handleSubmit` with the POST to /api/properties
    represented by its outcome. */
module CreatePropertyForm {
  import opened Wrappers
  import opened JsString
  import opened PropertyModel
  import opened ScrapingController

  /** The form's input names. */
  datatype Field = Title | Location | Price | ImageUrl | Url

  datatype FormData = FormData(title: string, location: string, price: string, imageUrl: string, url: string)
  {
    function Get(f: Field): string {
      match f
      case Title => title
      case Location => location
      case Price => price
      case ImageUrl => imageUrl
      case Url => url
    }

    /** `{ ...formData, [name]: value }`. */
    function With(f: Field, value: string): (r: FormData)
      ensures r.Get(f) == value
      ensures forall g :: g != f ==> r.Get(g) == Get(g)
    {
      match f
      case Title => this.(title := value)
      case Location => this.(location := value)
      case Price => this.(price := value)
      case ImageUrl => this.(imageUrl := value)
      case Url => this.(url := value)
    }
  }

  /** The initial `formData`, also the state after a successful submit. */
  const INITIAL_FORM: FormData := FormData("", "", [RUPEE, '0'], "", "")

  /** The message `handleSubmit` throws when the response is not ok. */
  const SUBMIT_FAILED: string := "Failed to create property"

  /** A rupee sign followed by ASCII digits only. */
  predicate PriceNormalised(p: string) {
    |p| >= 1 && p[0] == RUPEE && forall i :: 1 <= i < |p| ==> IsDigit(p[i])
  }

  /** `` `₹${value.replace(/[^\d]/g, '')}` ``: exactly the digits of the input,
      in input order, after a rupee sign. */
  function NormalisePrice(value: string): (r: string)
    ensures PriceNormalised(r)
    ensures PriceRule(Some(r))
    ensures IsSubsequence(r[1..], value)
    ensures forall c :: IsDigit(c) ==> multiset(r[1..])[c] == multiset(value)[c]
  {
    var digits := Keep(value, IsDigit);
    KeepIsSubsequence(value, IsDigit);
    forall c | IsDigit(c) ensures multiset(digits)[c] == multiset(value)[c] {
      KeepCounts(value, IsDigit, c);
    }
    assert ([RUPEE] + digits)[1..] == digits;
    [RUPEE] + digits
  }

  /** The normalised prices are exactly the fixed points of the normaliser,
      so feeding a stored price back through `handleChange` changes nothing. */
  lemma NormalisedIffFixed(p: string)
    ensures PriceNormalised(p) <==> NormalisePrice(p) == p
  {
    if PriceNormalised(p) {
      DigitsOfNormalised(p);
    }
  }

  /** The digits of a normalised price are everything after its rupee sign. */
  lemma DigitsOfNormalised(p: string)
    requires PriceNormalised(p)
    ensures Keep(p, IsDigit) == p[1..]
  {
    assert p == [RUPEE] + p[1..];
    KeepAppend([RUPEE], p[1..], IsDigit);
    assert Keep([RUPEE], IsDigit) == [];
    KeepAll(p[1..], IsDigit);
  }

  lemma NormaliseIdempotent(value: string)
    ensures NormalisePrice(NormalisePrice(value)) == NormalisePrice(value)
  {
    NormalisedIffFixed(NormalisePrice(value));
  }

  /** `JSON.stringify(formData)` as the body `createProperty` reads: every
      field present, no status. */
  function RequestBody(f: FormData): PropertyData {
    PropertyData(Some(f.title), Some(f.location), Some(f.price), Some(f.imageUrl), None, Some(f.url))
  }

  /** A form whose price went through the normaliser never trips the
      backend's required-price check or its price rule: the body is accepted
      by `createProperty`'s checks exactly when title, location and url are
      filled in and the url is a listing url. */
  lemma FormBodyAccepted(f: FormData)
    requires PriceNormalised(f.price)
    ensures HasRequiredFields(RequestBody(f)) <==> f.title != "" && f.location != "" && f.url != ""
    ensures Passes(Submitted(RequestBody(f))) <==> UrlRule(Some(f.url))
  {
    assert STATUS[0] == PENDING;
    assert f.price[..1] == [RUPEE];
  }

  /** How the POST ends: a 2xx response carrying the created property, a
      non-ok response, or a rejected `fetch`/`json()` with its message. */
  datatype SubmitOutcome = Created(property: Record) | NotOk | Failed(message: string)

  class PropertyForm {
    var formData: FormData
    var loading: bool
    var error: Option<string>

    /** The price field always holds a normalised price, so the form never
      submits a price the store's price rule rejects. */
    ghost predicate Valid()
      reads this
      ensures Valid() ==> PriceRule(Some(formData.price)) && formData.price != ""
    {
      PriceNormalised(formData.price)
    }

    constructor ()
      ensures Valid()
      ensures formData == INITIAL_FORM && !loading && error == None
    {
      formData := INITIAL_FORM;
      loading := false;
      error := None;
    }

    /** `handleChange`: the price is normalised, any other field is stored verbatim. */
    method HandleChange(name: Field, value: string)
      requires Valid()
      modifies this
      ensures Valid()
      ensures name == Field.Price ==> formData == old(formData).With(Field.Price, NormalisePrice(value))
      ensures name != Field.Price ==> formData == old(formData).With(name, value)
      ensures loading == old(loading) && error == old(error)
    {
      if name == Field.Price {
        formData := formData.With(Field.Price, NormalisePrice(value));
      } else {
        formData := formData.With(name, value);
      }
    }

    /** `handleSubmit`: returns the property handed to `onPropertyCreated`. */
    method HandleSubmit(outcome: SubmitOutcome) returns (created: Option<Record>)
      requires Valid()
      modifies this
      ensures Valid()
      ensures !loading
      ensures outcome.Created? ==> formData == INITIAL_FORM && error == None && created == Some(outcome.property)
      ensures outcome.NotOk? ==> formData == old(formData) && error == Some(SUBMIT_FAILED) && created == None
      ensures outcome.Failed? ==> formData == old(formData) && error == Some(outcome.message) && created == None
    {
      loading := true;
      error := None;
      match outcome {
        case Created(property) =>
          created := Some(property);
          formData := INITIAL_FORM;
        case NotOk =>
          created := None;
          error := Some(SUBMIT_FAILED);
        case Failed(message) =>
          created := None;
          error := Some(message);
      }
      loading := false;
    }
  }

  /** The state after a submit that succeeded is the initial state. */
  lemma InitialFormValid()
    ensures PriceNormalised(INITIAL_FORM.price)
    ensures forall f :: f != Field.Price ==> INITIAL_FORM.Get(f) == ""
    ensures NormalisePrice(INITIAL_FORM.price) == INITIAL_FORM.price
  {
    NormalisedIffFixed(INITIAL_FORM.price);
  }
}
