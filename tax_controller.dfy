/**
 * Tax creation and update (server/controllers/tax.controller.js). Creation
 * checks the required fields and the uniqueness of name and code before
 * saving; the update loads the tax, overwrites its fields one by one
 * (some only when the new value is truthy, some whenever it is not
 * null) and saves it.
 */
module TaxController {
  import opened Common
  import opened TaxModel

  /** The fixed creator every new tax records, in place of the caller's identity. */
  const PlaceholderCreator: Id := 0x6700f1b8b123456789abcd01

  /** The request body; an absent or null field is None. */
  datatype TaxInput = TaxInput(
    name: Option<string>,
    code: Option<string>,
    rate: Option<real>,
    description: Option<string>,
    applicableCategories: Option<seq<string>>,
    isActive: Option<bool>)

  /**
   * `Taxes.findOne({$or: [{name}, {code}]})` finds something; the query
   * values go through the same setters as stored values.
   */
  predicate NameOrCodeTaken(store: seq<Tax>, name: string, code: string) {
    exists i :: 0 <= i < |store| && (store[i].name == Trim(name) || store[i].code == ToUpper(Trim(code)))
  }

  /** No two stored taxes share a name or a code. */
  predicate UniqueTaxes(store: seq<Tax>) {
    forall i, j :: 0 <= i < j < |store| ==> store[i].name != store[j].name && store[i].code != store[j].code
  }

  predicate AllValid(store: seq<Tax>) {
    forall i :: 0 <= i < |store| ==> SchemaValid(store[i])
  }

  /** The document `Taxes.create` is given: absent optional fields take their defaults, `isActive ?? true`. */
  function Draft(body: TaxInput): Tax
    requires body.name.Some? && body.code.Some? && body.rate.Some?
  {
    Tax(body.name.value, body.code.value, body.rate.value, body.description.GetOr(DefaultDescription),
        body.applicableCategories.GetOr([]), body.isActive.GetOr(DefaultIsActive), Some(PlaceholderCreator), None)
  }

  datatype TaxCreated = TaxCreated(message: string, data: Tax)

  datatype TaxHandled = TaxHandled(resp: Response<TaxCreated>, store: seq<Tax>)

  /**
   * `newTax`: 400 without a truthy name and code or with a null rate (a
   * rate of 0 passes); 409 when the name or code is taken; 500 when the
   * schema refuses the document; otherwise the tax is appended (201).
   */
  function NewTax(store: seq<Tax>, body: TaxInput): (r: TaxHandled)
    ensures !Truthy(body.name) || !Truthy(body.code) || body.rate.None? ==>
              r == TaxHandled(Fail(400, "Name, code, and rate are required"), store)
    ensures Truthy(body.name) && Truthy(body.code) && body.rate.Some? && NameOrCodeTaken(store, body.name.value, body.code.value) ==>
              r == TaxHandled(Fail(409, "Tax with this name or code already exists"), store)
    ensures Truthy(body.name) && Truthy(body.code) && body.rate.Some? && !NameOrCodeTaken(store, body.name.value, body.code.value) ==>
              && (r.resp.Ok? <==> Cast(Draft(body)).Some?)
              && (r.resp.Fail? ==> r == TaxHandled(Fail(500, "Server error"), store))
    ensures r.resp.Fail? ==> r.store == store
    ensures r.resp.Ok? ==> && r.resp.code == 201
                           && r.store == store + [r.resp.body.data]
                           && Cast(Draft(body)) == Some(r.resp.body.data)
  {
    if !Truthy(body.name) || !Truthy(body.code) || body.rate.None? then
      TaxHandled(Fail(400, "Name, code, and rate are required"), store)
    else if NameOrCodeTaken(store, body.name.value, body.code.value) then
      TaxHandled(Fail(409, "Tax with this name or code already exists"), store)
    else
      match Cast(Draft(body))
      case None => TaxHandled(Fail(500, "Server error"), store)
      case Some(t) => TaxHandled(Ok(201, TaxCreated("Tax created successfully", t)), store + [t])
  }

  /** Creating a tax keeps every stored tax schema-valid. */
  lemma NewTaxKeepsValid(store: seq<Tax>, body: TaxInput)
    requires AllValid(store)
    ensures AllValid(NewTax(store, body).store)
  {
    var r := NewTax(store, body);
    if r.resp.Ok? {
      var t := r.resp.body.data;
      CastValid(Draft(body));
      AppendKeepsAll(store, t, SchemaValid);
    }
  }

  /** Appending an element that satisfies `p` to a list whose elements all do keeps them all doing so. */
  lemma AppendKeepsAll<T>(s: seq<T>, x: T, p: T -> bool)
    requires forall i :: 0 <= i < |s| ==> p(s[i])
    requires p(x)
    ensures forall i :: 0 <= i < |s + [x]| ==> p((s + [x])[i])
  {
  }

  /**
   * Creating a tax keeps names and codes unique, because the duplicate
   * check compares the values as the setters store them.
   */
  lemma NewTaxKeepsUnique(store: seq<Tax>, body: TaxInput)
    requires UniqueTaxes(store)
    ensures UniqueTaxes(NewTax(store, body).store)
  {
    var r := NewTax(store, body);
    if r.resp.Ok? {
      var t := r.resp.body.data;
      CastSetters(Draft(body));
      assert t.name == Trim(body.name.value) && t.code == ToUpper(Trim(body.code.value));
      assert !NameOrCodeTaken(store, body.name.value, body.code.value);
      AppendKeepsUniqueTaxes(store, t);
    }
  }

  lemma AppendKeepsUniqueTaxes(store: seq<Tax>, t: Tax)
    requires UniqueTaxes(store)
    requires forall i :: 0 <= i < |store| ==> store[i].name != t.name && store[i].code != t.code
    ensures UniqueTaxes(store + [t])
  {
    var u := store + [t];
    forall i, j | 0 <= i < j < |u| ensures u[i].name != u[j].name && u[i].code != u[j].code {
      assert u[i] == store[i];
      if j < |store| {
        assert u[j] == store[j];
      }
    }
  }

  /** A rate of 0 is a rate: with a free name and code, the tax is created with rate 0. */
  lemma NewTaxAcceptsZeroRate(store: seq<Tax>, body: TaxInput)
    requires Truthy(body.name) && Truthy(body.code) && body.rate == Some(0.0)
    requires !IsBlank(body.name.value) && !IsBlank(body.code.value)
    requires !NameOrCodeTaken(store, body.name.value, body.code.value)
    ensures NewTax(store, body).resp.Ok? && NewTax(store, body).resp.body.data.rate == 0.0
  {
  }

  /** `isActive ?? true`: only an absent value becomes true; false is kept. */
  lemma NewTaxActiveDefault(store: seq<Tax>, body: TaxInput)
    requires NewTax(store, body).resp.Ok?
    ensures NewTax(store, body).resp.body.data.isActive == (body.isActive != Some(false))
    ensures NewTax(store, body).resp.body.data.createdBy == Some(PlaceholderCreator)
  {
  }

  // ------------------------------------------------------------ update

  /** A loaded tax document, changed in place and saved. */
  class TaxDocument {
    var name: string
    var code: string
    var rate: real
    var description: string
    var applicableCategories: seq<string>
    var isActive: bool
    var createdBy: Option<Id>
    var updatedBy: Option<Id>

    function Value(): Tax
      reads this
    {
      Tax(name, code, rate, description, applicableCategories, isActive, createdBy, updatedBy)
    }

    /** The field-by-field overwrite of `updateTax`, with the values the setters produced. */
    method Assign(t: Tax)
      modifies this
      ensures Value() == t
    {
      name := t.name;
      code := t.code;
      rate := t.rate;
      description := t.description;
      applicableCategories := t.applicableCategories;
      isActive := t.isActive;
      createdBy := t.createdBy;
      updatedBy := t.updatedBy;
    }
  }

  /**
   * The field assignments of `updateTax`: name, code, description and
   * categories only when the new value is truthy (an empty string keeps
   * the old one, an empty list replaces it); rate and isActive whenever
   * they are not null, so 0 and false replace; the updater is the caller.
   */
  function Merge(t: Tax, body: TaxInput, actor: Id): (r: Tax)
    ensures r.createdBy == t.createdBy && r.updatedBy == Some(actor)
  {
    t.(name := if Truthy(body.name) then body.name.value else t.name,
       code := if Truthy(body.code) then body.code.value else t.code,
       rate := body.rate.GetOr(t.rate),
       description := if Truthy(body.description) then body.description.value else t.description,
       applicableCategories := body.applicableCategories.GetOr(t.applicableCategories),
       isActive := body.isActive.GetOr(t.isActive),
       updatedBy := Some(actor))
  }

  /** What the update keeps and what it replaces, field by field. */
  lemma MergeFields(t: Tax, body: TaxInput, actor: Id)
    ensures body.name == Some("") || body.name.None? ==> Merge(t, body, actor).name == t.name
    ensures body.code == Some("") || body.code.None? ==> Merge(t, body, actor).code == t.code
    ensures body.description == Some("") || body.description.None? ==> Merge(t, body, actor).description == t.description
    ensures Truthy(body.name) ==> Merge(t, body, actor).name == body.name.value
    ensures Truthy(body.code) ==> Merge(t, body, actor).code == body.code.value
    ensures Truthy(body.description) ==> Merge(t, body, actor).description == body.description.value
    ensures Merge(t, body, actor).applicableCategories == body.applicableCategories.GetOr(t.applicableCategories)
    ensures body.applicableCategories == Some([]) ==> Merge(t, body, actor).applicableCategories == []
    ensures body.rate.Some? ==> Merge(t, body, actor).rate == body.rate.value
    ensures body.isActive.Some? ==> Merge(t, body, actor).isActive == body.isActive.value
    ensures body.rate.None? ==> Merge(t, body, actor).rate == t.rate
    ensures body.isActive.None? ==> Merge(t, body, actor).isActive == t.isActive
  {
  }

  /** An update that sends nothing still records the updater, and changes no other field. */
  lemma MergeEmptyBody(t: Tax, actor: Id)
    ensures Merge(t, TaxInput(None, None, None, None, None, None), actor) == t.(updatedBy := Some(actor))
  {
  }

  datatype TaxUpdated = TaxUpdated(message: string, tax: TaxDocument)

  /** Some other stored tax already has this tax's name or code, which breaks a unique index on save. */
  predicate ClashesWith(others: seq<Tax>, t: Tax) {
    exists i :: 0 <= i < |others| && (others[i].name == t.name || others[i].code == t.code)
  }

  /**
   * `updateTax`: 404 for an unknown tax; without an authenticated caller
   * `req.user._id` throws (500) and nothing is saved; otherwise the merged
   * document is saved through the setters and validators, failing with
   * 500 when they refuse it or when another tax (`others`) has its name or
   * code.
   */
  method UpdateTax(found: TaxDocument?, others: seq<Tax>, body: TaxInput, actor: Option<Id>)
    returns (resp: Response<TaxUpdated>)
    modifies found
    ensures found == null ==> resp == Fail(404, "Tax not found")
    ensures found != null && actor.None? ==> resp == Fail(500, "Server error") && unchanged(found)
    ensures found != null && actor.Some? ==>
              var saved := Cast(Merge(old(found.Value()), body, actor.value));
              if saved.None? || ClashesWith(others, saved.value) then
                resp == Fail(500, "Server error") && unchanged(found)
              else
                resp == Ok(200, TaxUpdated("Tax updated successfully", found)) && found.Value() == saved.value
  {
    if found == null {
      return Fail(404, "Tax not found");
    }
    if actor.None? {
      return Fail(500, "Server error");
    }
    var merged := Merge(found.Value(), body, actor.value);
    var saved := Cast(merged);
    if saved.None? || ClashesWith(others, saved.value) {
      return Fail(500, "Server error");
    }
    found.Assign(saved.value);
    resp := Ok(200, TaxUpdated("Tax updated successfully", found));
  }

  /** A successful update leaves a schema-valid tax, so its rate stays between 0 and 100. */
  lemma UpdateKeepsValid(t: Tax, body: TaxInput, actor: Id)
    requires Cast(Merge(t, body, actor)).Some?
    ensures SchemaValid(Cast(Merge(t, body, actor)).value)
    ensures MinRate <= Cast(Merge(t, body, actor)).value.rate <= MaxRate
  {
    CastValid(Merge(t, body, actor));
  }
}
