/**
  The payload as it is checked and sent: after the recursive pruning, the
  customer is never empty (its marital status is always a string), so the
  "effectively empty" abort can never fire; the NID is the cleaned cedula
  exactly when one was submitted; the company is there exactly when its name
  is truthy; the loan details are the four constants that survive; terms is
  always a boolean.
 */
module Checks {
  import opened Options
  import opened Strings
  import opened Values
  import opened Transformers
  import opened FieldAccess
  import opened Pruning
  import opened Mapping

  /** empty($api_payload['customer']['NID']) */
  predicate NidMissing(p: Value)
    // a payload whose customer is empty has no NID
    ensures IsEmpty(At(p, ["customer"])) ==> NidMissing(p)
  {
    IsEmpty(At(p, ["customer", "NID"]))
  }

  /** !isset($p[$k]): absent or null. */
  predicate Unset(p: Value, k: string) {
    At(p, [k]) == Null
  }

  /** empty(customer) && empty(loanApplication) && !isset(terms) */
  predicate EffectivelyEmpty(p: Value)
    // the check at :532 can only fire where the NID guard already returned
    ensures EffectivelyEmpty(p) ==> NidMissing(p)
  {
    IsEmpty(At(p, ["customer"])) && IsEmpty(At(p, ["loanApplication"])) && Unset(p, "terms")
  }

  // ---------------------------------------------------------------------
  // Key uniqueness of the objects the mapper builds

  lemma BuildUnique(f: Fields)
    ensures KeysUnique(Build(f).entries)
  {
  }

  lemma CustomerUnique(f: Fields)
    ensures KeysUnique(Customer(f).entries)
  {
  }

  lemma DetailsUnique(f: Fields)
    ensures KeysUnique(CustomerDetails(f).entries)
  {
  }

  lemma UniqueAtMostOnce(es: seq<Entry>, k: Key)
    requires KeysUnique(es)
    ensures AtMostOnce(es, k)
  {
  }

  /** An object with unique keys keeps entry i, pruned, when that entry is
      kept; the object itself is then not empty. */
  lemma EntryKept(v: Value, i: int)
    requires v.Arr? && KeysUnique(v.entries) && 0 <= i < |v.entries|
    requires Kept(PruneValue(v.entries[i].val))
    ensures Get(Prune(v).entries, v.entries[i].key) == Some(PruneValue(v.entries[i].val))
    ensures Kept(Prune(v))
  {
    GetUnique(v.entries, i);
    UniqueAtMostOnce(v.entries, v.entries[i].key);
    PruneGet(v, v.entries[i].key);
  }

  /** An object with unique keys loses entry i when that entry, pruned, is
      not kept. */
  lemma EntryDropped(v: Value, i: int)
    requires v.Arr? && KeysUnique(v.entries) && 0 <= i < |v.entries|
    requires !Kept(PruneValue(v.entries[i].val))
    ensures Get(Prune(v).entries, v.entries[i].key) == None
  {
    GetUnique(v.entries, i);
    UniqueAtMostOnce(v.entries, v.entries[i].key);
    PruneGet(v, v.entries[i].key);
  }

  /** A non-null scalar is kept as it is. */
  lemma ScalarKept(x: Value)
    requires x != Null && !x.Arr?
    ensures Kept(PruneValue(x)) && PruneValue(x) == x
  {
  }

  // ---------------------------------------------------------------------
  // The pruned payload

  /** The customer object always survives pruning: the marital status is
      written as a string whatever was submitted. */
  lemma PrunedCustomer(f: Fields)
    ensures Get(Prune(Build(f)).entries, Name("customer")) == Some(Prune(Customer(f)))
    ensures Prune(Customer(f)).entries != []
  {
    var d := CustomerDetails(f);
    DetailsUnique(f);
    ScalarKept(d.entries[6].val);
    EntryKept(d, 6);
    var c := Customer(f);
    CustomerUnique(f);
    EntryKept(c, 0);
    BuildUnique(f);
    EntryKept(Build(f), 0);
  }

  /** The "effectively empty" abort never fires. */
  lemma NeverEffectivelyEmpty(f: Fields)
    ensures !EffectivelyEmpty(Prune(Build(f)))
  {
    PrunedCustomer(f);
    assert ["customer"][1..] == [];
  }

  /** After pruning, the NID is the value read for it, null when it was null. */
  lemma NidAfterPruning(f: Fields)
    requires !f.nid.Arr?
    ensures At(Prune(Build(f)), ["customer", "NID"]) == f.nid
  {
    PrunedCustomer(f);
    var c := Customer(f);
    CustomerUnique(f);
    var i := |c.entries| - 1;
    assert c.entries[i] == Pair("NID", f.nid);
    if f.nid == Null {
      EntryDropped(c, i);
    } else {
      ScalarKept(f.nid);
      EntryKept(c, i);
    }
    assert ["customer", "NID"][1..] == ["NID"];
    assert ["NID"][1..] == [];
  }

  /** The company object is in the pruned customer exactly when the company
      name is truthy. */
  lemma CompanyAfterPruning(f: Fields)
    requires !f.companyName.Arr?
    ensures Get(Prune(Customer(f)).entries, Name("company")).Some? <==> Truthy(f.companyName)
  {
    if Truthy(f.companyName) {
      CompanyNamed(f);
    } else {
      CompanyUnnamed(f);
    }
  }

  lemma CompanyNamed(f: Fields)
    requires !f.companyName.Arr? && Truthy(f.companyName)
    ensures Get(Prune(Customer(f)).entries, Name("company")).Some?
  {
    var co := Company(f);
    ScalarKept(f.companyName);
    assert KeysUnique(co.entries);
    EntryKept(co, 2);
    CustomerUnique(f);
    EntryKept(Customer(f), 2);
  }

  lemma CompanyUnnamed(f: Fields)
    requires !Truthy(f.companyName)
    ensures Get(Prune(Customer(f)).entries, Name("company")).None?
  {
    var c := Customer(f);
    CustomerUnique(f);
    UniqueAtMostOnce(c.entries, Name("company"));
    PruneGet(c, Name("company"));
    assert Get(c.entries, Name("company")) == None;
  }

  /** terms survives pruning as the boolean it was. */
  lemma TermsAfterPruning(f: Fields)
    requires f.terms.Bool?
    ensures Get(Prune(Build(f)).entries, Name("terms")) == Some(f.terms)
  {
    BuildUnique(f);
    ScalarKept(f.terms);
    EntryKept(Build(f), 2);
  }

  /** Of the loan details, amount, term, rate and frequency survive; the null
      purpose is dropped. */
  lemma LoanAfterPruning(f: Fields)
    ensures Get(Prune(Build(f)).entries, Name("details")) ==
      Some(Arr([Pair("amount", Int(0)), Pair("term", Int(0)), Pair("rate", Int(0)),
                Pair("frequency", Str("monthly"))]))
  {
    var l := LoanDetails();
    assert PruneFrom(l, 5) == [];
    assert PruneFrom(l, 4) == [];
    assert PruneFrom(l, 3) == [Pair("frequency", Str("monthly"))];
    assert PruneFrom(l, 2) == [Pair("rate", Int(0)), Pair("frequency", Str("monthly"))];
    assert PruneFrom(l, 1) == [Pair("term", Int(0)), Pair("rate", Int(0)), Pair("frequency", Str("monthly"))];
    assert PruneFrom(l, 0) == [Pair("amount", Int(0)), Pair("term", Int(0)), Pair("rate", Int(0)),
                               Pair("frequency", Str("monthly"))];
    BuildUnique(f);
    EntryKept(Build(f), 1);
  }

  /** The vehicle list is in the pruned customer exactly when one of the
      four vehicle fields was read as non-null. */
  lemma VehiclesAfterPruning(f: Fields)
    requires !f.owned.Arr? && !f.financed.Arr? && !f.brand.Arr? && !f.year.Arr?
    ensures Get(Prune(Customer(f)).entries, Name("vehicles")).Some? <==>
              f.owned != Null || f.financed != Null || f.brand != Null || f.year != Null
  {
    var c := Customer(f);
    CustomerUnique(f);
    var i := if Truthy(f.companyName) then 3 else 2;
    assert c.entries[i] == Pair("vehicles", Arr(Vehicles(f)));
    if f.owned != Null || f.financed != Null || f.brand != Null || f.year != Null {
      var v := Vehicle(f);
      assert KeysUnique(v.entries);
      var j := if f.owned != Null then 0 else if f.financed != Null then 1 else if f.brand != Null then 2 else 3;
      ScalarKept(v.entries[j].val);
      EntryKept(v, j);
      EntryKept(Arr(Vehicles(f)), 0);
      EntryKept(c, i);
    } else {
      assert PruneFrom(Arr(Vehicles(f)), 0) == [];
      EntryDropped(c, i);
    }
  }

  /** The phone list is in the pruned details exactly when the mobile or the
      home number, as cleaned, is truthy. */
  lemma PhonesAfterPruning(f: Fields)
    ensures Get(Prune(CustomerDetails(f)).entries, Name("phones")).Some? <==>
              Truthy(f.mobile) || Truthy(f.home)
  {
    var d := CustomerDetails(f);
    DetailsUnique(f);
    var phones := Arr(Phones(f));
    if Truthy(f.mobile) || Truthy(f.home) {
      var ph := Phones(f)[0].val;
      assert KeysUnique(ph.entries);
      ScalarKept(ph.entries[1].val);
      EntryKept(ph, 1);
      assert KeysUnique(phones.entries);
      EntryKept(phones, 0);
      EntryKept(d, 0);
    } else {
      assert PruneFrom(phones, 0) == [];
      EntryDropped(d, 0);
    }
  }

  // ---------------------------------------------------------------------
  // The same facts about a submission

  /** What the accessor reads for the checked fields: no field reads as an
      array, and terms always reads as a boolean. */
  lemma ReadFieldsShape(data: seq<Field>, san: Sanitizers)
    ensures var f := ReadFields(data, san);
      !f.nid.Arr? && !f.companyName.Arr? && f.terms.Bool?
      && !f.owned.Arr? && !f.financed.Arr? && !f.brand.Arr? && !f.year.Arr?
  {
    GetValueBoolDefaultFalse(data, "aceptacion-de-condiciones");
  }

  /** The NID guard over the fields read, for a cedula field read as the
      digit accessor reads it. */
  lemma NidGuardFields(f: Fields, raw: RawValue)
    requires f.nid == if Blank(raw) then Null else Str(DigitsOnly(raw))
    ensures NidMissing(Prune(Build(f))) <==> Blank(raw) || DigitsOnly(raw) in {"", "0"}
  {
    NidAfterPruning(f);
  }

  lemma ReadNid(data: seq<Field>, san: Sanitizers)
    ensures var raw := Lookup(data, "cedula");
      ReadFields(data, san).nid == if Blank(raw) then Null else Str(DigitsOnly(raw))
  {
    GetValueDigits(data, "cedula");
  }

  /** The NID guard aborts exactly when the cedula is missing or blank, or
      keeps no digit other than a lone "0" once everything but digits is
      removed. */
  lemma NidGuard(data: seq<Field>, san: Sanitizers)
    ensures NidMissing(Prune(Payload(data, san))) <==>
              Blank(Lookup(data, "cedula")) || DigitsOnly(Lookup(data, "cedula")) in {"", "0"}
  {
    ReadNid(data, san);
    NidGuardFields(ReadFields(data, san), Lookup(data, "cedula"));
  }

  /** The "effectively empty" abort never fires on any submission. */
  lemma SubmissionNeverEffectivelyEmpty(data: seq<Field>, san: Sanitizers)
    ensures !EffectivelyEmpty(Prune(Payload(data, san)))
  {
    NeverEffectivelyEmpty(ReadFields(data, san));
  }

  /** terms is set in the pruned payload whenever it was read as a boolean. */
  lemma TermsSet(f: Fields)
    requires f.terms.Bool?
    ensures At(Prune(Build(f)), ["terms"]).Bool?
  {
    TermsAfterPruning(f);
    assert ["terms"][1..] == [];
  }

  /** Every payload sent carries terms, as true or false. */
  lemma TermsAlwaysSent(data: seq<Field>, san: Sanitizers)
    ensures At(Prune(Payload(data, san)), ["terms"]).Bool?
  {
    ReadFieldsShape(data, san);
    TermsSet(ReadFields(data, san));
  }

  /** The company in the pruned payload, read by path. */
  lemma CompanyAt(f: Fields)
    requires !f.companyName.Arr?
    ensures At(Prune(Build(f)), ["customer", "company"]) != Null <==> Truthy(f.companyName)
  {
    PrunedCustomer(f);
    CompanyAfterPruning(f);
    var pc := Prune(Customer(f));
    assert ["customer", "company"][1..] == ["company"];
    assert ["company"][1..] == [];
    match Get(pc.entries, Name("company"))
    case None =>
    case Some(x) =>
      assert Entry(Name("company"), x) in pc.entries;
      PruneIsClean(Customer(f));
  }

  /** The company is sent exactly when the sanitized company name is truthy. */
  lemma CompanySent(data: seq<Field>, san: Sanitizers)
    ensures At(Prune(Payload(data, san)), ["customer", "company"]) != Null <==>
              Truthy(Plain(data, "nombre-empresa", san.text))
  {
    ReadFieldsShape(data, san);
    CompanyAt(ReadFields(data, san));
  }
}
