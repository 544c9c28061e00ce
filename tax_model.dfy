/**
 * The tax schema (server/models/tax.model.js): name and code required and
 * unique, code stored upper-case, rate a percentage between 0 and 100,
 * description and each applicable category trimmed, `isActive` true by
 * default.
 */
module TaxModel {
  import opened Common

  datatype Tax = Tax(
    name: string,
    code: string,
    rate: real,
    description: string,
    applicableCategories: seq<string>,
    isActive: bool,
    createdBy: Option<Id>,
    updatedBy: Option<Id>)

  const DefaultIsActive: bool := true
  const DefaultDescription: string := ""
  const MinRate: real := 0.0
  const MaxRate: real := 100.0

  function TrimAll(s: seq<string>): (r: seq<string>)
    ensures |r| == |s| && forall i :: 0 <= i < |s| ==> r[i] == Trim(s[i])
  {
    seq(|s|, i requires 0 <= i < |s| => Trim(s[i]))
  }

  /** The setters: `trim` on name, code, description and every category, `uppercase` on code. */
  function Normalize(t: Tax): Tax {
    t.(name := Trim(t.name), code := ToUpper(Trim(t.code)), description := Trim(t.description),
       applicableCategories := TrimAll(t.applicableCategories))
  }

  /** What every stored tax satisfies. */
  predicate SchemaValid(t: Tax) {
    && t.name != "" && t.code != ""
    && MinRate <= t.rate <= MaxRate
    && Normalize(t) == t
  }

  /**
   * Saving a tax: the setters run, then the validators (required name and
   * code, `min: 0`, `max: 100`); None is a validation error.
   */
  function Cast(t: Tax): (r: Option<Tax>)
    ensures r.Some? <==> Trim(t.name) != "" && Trim(t.code) != "" && MinRate <= t.rate <= MaxRate
    ensures r.Some? ==> && r.value.rate == t.rate && r.value.isActive == t.isActive
                        && r.value.createdBy == t.createdBy && r.value.updatedBy == t.updatedBy
                        && |r.value.applicableCategories| == |t.applicableCategories|
  {
    var n := Normalize(t);
    if n.name == "" || n.code == "" || n.rate < MinRate || n.rate > MaxRate then None else Some(n)
  }

  /** What a save lets through is what every stored tax satisfies. */
  lemma CastValid(t: Tax)
    ensures Cast(t).Some? ==> SchemaValid(Cast(t).value)
  {
    if Cast(t).Some? {
      var n := Normalize(t);
      assert Cast(t) == Some(n);
      NormalizeIdempotent(t);
      assert Normalize(n) == n;
    }
  }

  /** A save stores the name trimmed and the code trimmed and upper-cased. */
  lemma CastSetters(t: Tax)
    requires Cast(t).Some?
    ensures Cast(t).value.name == Trim(t.name) && Cast(t).value.code == ToUpper(Trim(t.code))
  {
  }

  lemma UpperKeepsSpace(s: string)
    ensures forall i :: 0 <= i < |s| ==> (IsSpace(ToUpper(s)[i]) <==> IsSpace(s[i]))
  {
  }

  /** Upper-casing a trimmed string leaves it trimmed. */
  lemma TrimUpperTrimmed(s: string)
    requires Trim(s) == s
    ensures Trim(ToUpper(s)) == ToUpper(s)
  {
    var u := ToUpper(s);
    UpperKeepsSpace(s);
    if u != [] {
      assert TrimStart(u) == u;
      assert TrimEnd(u) == u;
    }
  }

  lemma {:induction false} UpperIdempotent(s: string)
    ensures ToUpper(ToUpper(s)) == ToUpper(s)
  {
  }

  lemma CodeSetterIdempotent(s: string)
    ensures ToUpper(Trim(ToUpper(Trim(s)))) == ToUpper(Trim(s))
  {
    TrimIdempotent(s);
    TrimUpperTrimmed(Trim(s));
    UpperIdempotent(Trim(s));
  }

  lemma TrimAllIdempotent(s: seq<string>)
    ensures TrimAll(TrimAll(s)) == TrimAll(s)
  {
    forall i | 0 <= i < |s| ensures Trim(Trim(s[i])) == Trim(s[i]) {
      TrimIdempotent(s[i]);
    }
  }

  lemma NormalizeIdempotent(t: Tax)
    ensures Normalize(Normalize(t)) == Normalize(t)
  {
    TrimIdempotent(t.name);
    TrimIdempotent(t.description);
    CodeSetterIdempotent(t.code);
    TrimAllIdempotent(t.applicableCategories);
  }

  /** Saving a stored tax again changes nothing. */
  lemma CastStoredIsIdentity(t: Tax)
    requires SchemaValid(t)
    ensures Cast(t) == Some(t)
  {
    assert Normalize(t) == t;
  }

  /** A stored rate is a percentage between 0 and 100. */
  lemma StoredRateInBounds(t: Tax)
    requires SchemaValid(t)
    ensures MinRate <= t.rate <= MaxRate
  {
  }

  /** The stored code never contains a lower-case ASCII letter. */
  lemma StoredCodeUpperCase(t: Tax)
    requires SchemaValid(t)
    ensures forall i :: 0 <= i < |t.code| ==> !('a' <= t.code[i] <= 'z')
  {
    var u := Trim(t.code);
    assert t.code == ToUpper(u) by { assert Normalize(t).code == t.code; }
    forall i | 0 <= i < |t.code| ensures !('a' <= t.code[i] <= 'z') {
      assert t.code[i] == UpperChar(u[i]);
      UpperCharNotLower(u[i]);
    }
  }

  lemma UpperCharNotLower(c: char)
    ensures !('a' <= UpperChar(c) <= 'z')
  {
    if 'a' <= c <= 'z' {
      assert UpperChar(c) as int == c as int - 32;
    }
  }

  /** Two taxes collide on the unique indexes on name and code. */
  predicate Clash(a: Tax, b: Tax) {
    a.name == b.name || a.code == b.code
  }

  predicate UniqueKeys(store: seq<Tax>) {
    forall i, j :: 0 <= i < j < |store| ==> !Clash(store[i], store[j])
  }
}
