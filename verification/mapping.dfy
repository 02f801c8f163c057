/**
  The mapping from a raw form submission to the nested payload the remote
  API expects. `Payload` states what the payload is, section by section;
  `MapSubmission` builds it the way the plugin does, by writing fields into
  a skeleton one at a time, appending to the phone, address, vehicle and
  reference lists, and removing the company object when there is no company
  name. The lemmas describe the payload after pruning, which is what is
  checked and sent.
 */
module Mapping {
  import opened Options
  import opened Strings
  import opened Values
  import opened Transformers
  import opened FieldAccess
  import opened Pruning

  /** The two WordPress sanitizers the mapper uses (sanitize_text_field and
      sanitize_email), taken as given string functions. */
  datatype Sanitizers = Sanitizers(text: string -> string, email: string -> string)

  function Pair(k: string, v: Value): Entry {
    Entry(Name(k), v)
  }

  /** $list[] = $x on a list whose keys are 0 .. n-1. */
  function Push(list: seq<Entry>, x: Value): (r: seq<Entry>)
    // x goes last, and a list keyed 0 .. n-1 stays keyed by position
    ensures |r| == |list| + 1 && r[..|list|] == list && r[|list|].val == x
    ensures (forall i :: 0 <= i < |list| ==> list[i].key == Idx(i)) ==>
              forall i :: 0 <= i < |r| ==> r[i].key == Idx(i)
  {
    list + [Entry(Idx(|list|), x)]
  }

  // ---------------------------------------------------------------------
  // Enum tables

  /** $marital_status_map[$raw] ?? 'other' */
  function MaritalStatus(raw: Value): (r: string)
    ensures r in {"single", "married", "divorced", "widowed", "other"}
  {
    if raw == Str("soltero(a)") then "single"
    else if raw == Str("casado(a)") then "married"
    else if raw == Str("divorciado(a)") then "divorced"
    else if raw == Str("viudo(a)") then "widowed"
    else "other"
  }

  /** $housing_type_map[$raw] ?? 'other'; 'familiar' is listed as 'other'. */
  function HousingType(raw: Value): (r: string)
    ensures r in {"owned", "rented", "mortgaged", "other"}
  {
    if raw == Str("propia") then "owned"
    else if raw == Str("alquilada") then "rented"
    else if raw == Str("hipotecada") then "mortgaged"
    else "other"
  }

  /** Each API marital status other than 'other' comes from one form value. */
  lemma MaritalStatusOneToOne(a: Value, b: Value)
    requires MaritalStatus(a) == MaritalStatus(b) != "other"
    ensures a == b
  {
  }

  /** Each API housing type other than 'other' comes from one form value. */
  lemma HousingTypeOneToOne(a: Value, b: Value)
    requires HousingType(a) == HousingType(b) != "other"
    ensures a == b
  {
  }

  // ---------------------------------------------------------------------
  // The fields read from the submission

  /** Every $get_value call of the mapper, with its default and callbacks.
      The accessor is pure, so reading a field before or after the writes
      that precede it in the mapper makes no difference. */
  datatype Fields = Fields(
    firstName: Value, lastName: Value, nid: Value, birthday: Value, email: Value,
    marital: Value, nationality: Value, housing: Value, moveIn: Value,
    mobile: Value, home: Value, street: Value,
    owned: Value, financed: Value, brand: Value, year: Value,
    spouseName: Value, spousePhone: Value,
    ref1Name: Value, ref1Occupation: Value, ref1Relationship: Value,
    ref2Name: Value, ref2Occupation: Value, ref2Relationship: Value,
    selfEmployed: Value, role: Value, startDate: Value, salary: Value,
    otherIncomes: Value, otherIncomesSource: Value, supervisor: Value,
    companyName: Value, companyPhone: Value, companyStreet: Value,
    terms: Value)

  function ReadFields(data: seq<Field>, san: Sanitizers): (r: Fields)
    // the cedula and the two customer numbers read as null or as digits
    // only, and terms reads as a boolean
    ensures r.nid == Null || (r.nid.Str? && AllDigits(r.nid.s))
    ensures r.mobile == Null || (r.mobile.Str? && AllDigits(r.mobile.s))
    ensures r.home == Null || (r.home.Str? && AllDigits(r.home.s))
    ensures r.terms.Bool?
  {
    GetValueDigits(data, "cedula");
    GetValueDigits(data, "celular");
    GetValueDigits(data, "telefono-casa");
    GetValueBoolDefaultFalse(data, "aceptacion-de-condiciones");
    Fields(
      firstName := Plain(data, "mf-listing-fname", san.text),
      lastName := Plain(data, "apellido", san.text),
      nid := Transformed(data, "cedula", Digits),
      birthday := Transformed(data, "fecha-nacimiento", AsDate),
      email := GetValue(data, "mf-email", Null, Some(san.email), None),
      marital := Transformed(data, "estado-civil", Lowercase),
      nationality := Plain(data, "nacionalidad", san.text),
      housing := Transformed(data, "tipo-vivienda", Lowercase),
      moveIn := Transformed(data, "fecha-de-mudanza", AsDate),
      mobile := Transformed(data, "celular", Digits),
      home := Transformed(data, "telefono-casa", Digits),
      street := Plain(data, "direccion", san.text),
      owned := Transformed(data, "vehiculo-propio", AsBool),
      financed := Transformed(data, "vehiculo-financiado", AsBool),
      brand := Plain(data, "vehiculo-marca", san.text),
      year := Transformed(data, "vehiculo-anno", AsNumber),
      spouseName := Plain(data, "conyugue", san.text),
      spousePhone := Transformed(data, "celular-conyugue", Digits),
      ref1Name := Plain(data, "nombre-referencia-1", san.text),
      ref1Occupation := Plain(data, "ocupacion-referencia-1", san.text),
      ref1Relationship := Plain(data, "parentesco-referencia-1", san.text),
      ref2Name := Plain(data, "nombre-referencia-2", san.text),
      ref2Occupation := Plain(data, "ocupacion-referencia-2", san.text),
      ref2Relationship := Plain(data, "parentesco-referencia-2", san.text),
      selfEmployed := Transformed(data, "mf-switch", AsBool),
      role := Plain(data, "ocupacion", san.text),
      startDate := Transformed(data, "laborando-desde", AsDate),
      salary := Transformed(data, "sueldo-mensual", AsNumber),
      otherIncomes := Transformed(data, "otros-ingresos", AsNumber),
      otherIncomesSource := Plain(data, "descripcion-otros-ingresos", san.text),
      supervisor := Plain(data, "supervisor", san.text),
      companyName := Plain(data, "nombre-empresa", san.text),
      companyPhone := Transformed(data, "telefono-empresa", Digits),
      companyStreet := Plain(data, "direccion-empresa", san.text),
      terms := GetValue(data, "aceptacion-de-condiciones", Bool(false), None, Some(AsBool)))
  }

  /** The marital status is looked up lower-cased, so the table lookup
      ignores the case of the form value; a blank field reads as null, which
      the table does not list, so it maps to 'other'. */
  lemma MaritalRead(data: seq<Field>, san: Sanitizers)
    ensures var raw := Lookup(data, "estado-civil");
      ReadFields(data, san).marital == if Blank(raw) then Null else Str(LowerAscii(Text(raw)))
  {
    GetValueLowercase(data, "estado-civil");
  }

  /** The housing type is looked up lower-cased as well. */
  lemma HousingRead(data: seq<Field>, san: Sanitizers)
    ensures var raw := Lookup(data, "tipo-vivienda");
      ReadFields(data, san).housing == if Blank(raw) then Null else Str(LowerAscii(Text(raw)))
  {
    GetValueLowercase(data, "tipo-vivienda");
  }

  // ---------------------------------------------------------------------
  // The payload, section by section

  function Phone(number: Value, kind: string): Value {
    Arr([Pair("number", number), Pair("type", Str(kind))])
  }

  function Address(street: Value, kind: string): Value {
    Arr([Pair("street", street), Pair("type", Str(kind))])
  }

  /** Mobile then home number, each only when its cleaned digits are truthy. */
  function Phones(f: Fields): (r: seq<Entry>)
    // one phone per truthy number, keyed by position
    ensures |r| == (if Truthy(f.mobile) then 1 else 0) + (if Truthy(f.home) then 1 else 0)
    ensures forall i :: 0 <= i < |r| ==> r[i].key == Idx(i)
  {
    var l := if Truthy(f.mobile) then Push([], Phone(f.mobile, "mobile")) else [];
    if Truthy(f.home) then Push(l, Phone(f.home, "home")) else l
  }

  function Addresses(f: Fields): seq<Entry> {
    if Truthy(f.street) then Push([], Address(f.street, "home")) else []
  }

  /** The customer's own fields, in the order the mapper writes them. */
  function DetailFields(f: Fields): seq<Entry> {
    [
      Pair("first_name", f.firstName),
      Pair("last_name", f.lastName),
      Pair("birthday", f.birthday),
      Pair("email", f.email),
      Pair("marital_status", Str(MaritalStatus(f.marital))),
      Pair("nationality", f.nationality),
      Pair("housing_type", Str(HousingType(f.housing))),
      Pair("move_in_date", f.moveIn)
    ]
  }

  /** The skeleton's phone and address lists come first, then the fields. */
  function CustomerDetails(f: Fields): Value {
    Arr([Pair("phones", Arr(Phones(f))), Pair("addresses", Arr(Addresses(f)))] + DetailFields(f))
  }

  function Vehicle(f: Fields): Value {
    Arr([Pair("is_owned", f.owned), Pair("is_financed", f.financed),
         Pair("brand", f.brand), Pair("year", f.year)])
  }

  /** One vehicle, present when any of its four fields is non-null. */
  function Vehicles(f: Fields): seq<Entry> {
    if f.owned != Null || f.financed != Null || f.brand != Null || f.year != Null
    then Push([], Vehicle(f)) else []
  }

  function SpouseReference(f: Fields): Value {
    Arr([Pair("name", f.spouseName), Pair("phone_number", f.spousePhone),
         Pair("relationship", Str("spouse")), Pair("occupation", Null)])
  }

  function OtherReference(name: Value, occupation: Value, relationship: Value): Value {
    Arr([Pair("name", name), Pair("occupation", occupation),
         Pair("relationship", relationship), Pair("phone_number", Null)])
  }

  /** The spouse (when a name or a phone is given), then references 1 and 2
      (each when its name is given), in that order. */
  function References(f: Fields): (r: seq<Entry>)
    // one reference per person named (or, for the spouse, with a phone),
    // keyed by position
    ensures |r| == (if Truthy(f.spouseName) || Truthy(f.spousePhone) then 1 else 0)
                   + (if Truthy(f.ref1Name) then 1 else 0) + (if Truthy(f.ref2Name) then 1 else 0)
    ensures forall i :: 0 <= i < |r| ==> r[i].key == Idx(i)
  {
    var l0 := if Truthy(f.spouseName) || Truthy(f.spousePhone)
              then Push([], SpouseReference(f)) else [];
    var l1 := if Truthy(f.ref1Name)
              then Push(l0, OtherReference(f.ref1Name, f.ref1Occupation, f.ref1Relationship)) else l0;
    if Truthy(f.ref2Name)
    then Push(l1, OtherReference(f.ref2Name, f.ref2Occupation, f.ref2Relationship)) else l1
  }

  function JobInfo(f: Fields): Value {
    Arr([
      Pair("is_self_employed", f.selfEmployed),
      Pair("role", f.role),
      Pair("start_date", f.startDate),
      Pair("salary", f.salary),
      Pair("other_incomes", f.otherIncomes),
      Pair("other_incomes_source", f.otherIncomesSource),
      Pair("supervisor_name", f.supervisor)
    ])
  }

  /** The company object; it is written only when the company name is truthy. */
  function Company(f: Fields): Value {
    Arr([
      Pair("phones", Arr(if Truthy(f.companyPhone) then Push([], Phone(f.companyPhone, "work")) else [])),
      Pair("addresses", Arr(if Truthy(f.companyStreet) then Push([], Address(f.companyStreet, "work")) else [])),
      Pair("name", f.companyName)
    ])
  }

  function Customer(f: Fields): (r: Value)
    // six entries with a company, five without, the NID as read last
    ensures r.Arr? && |r.entries| == (if Truthy(f.companyName) then 6 else 5)
    ensures r.entries[|r.entries| - 1] == Pair("NID", f.nid)
  {
    Arr([Pair("details", CustomerDetails(f)), Pair("jobInfo", JobInfo(f))]
        + (if Truthy(f.companyName) then [Pair("company", Company(f))] else [])
        + [Pair("vehicles", Arr(Vehicles(f))),
           Pair("references", Arr(References(f))),
           Pair("NID", f.nid)])
  }

  /** The loan application details are constants: the form has no such fields. */
  function LoanDetails(): Value {
    Arr([Pair("amount", Int(0)), Pair("term", Int(0)), Pair("rate", Int(0)),
         Pair("frequency", Str("monthly")), Pair("purpose", Null)])
  }

  function Build(f: Fields): (r: Value)
    ensures r.Arr? && |r.entries| == 3 && KeysUnique(r.entries)
  {
    Arr([Pair("customer", Customer(f)), Pair("details", LoanDetails()), Pair("terms", f.terms)])
  }

  /** The payload before pruning. */
  function Payload(data: seq<Field>, san: Sanitizers): (r: Value)
    ensures r.Arr? && |r.entries| == 3 && KeysUnique(r.entries)
  {
    Build(ReadFields(data, san))
  }

  // ---------------------------------------------------------------------
  // The mapper, write by write

  /** The customer details: the skeleton's empty phone and address lists
      first, then each field in turn, then the two lists written over their
      placeholders when they have entries. */
  method MapCustomerDetails(f: Fields) returns (details: seq<Entry>)
    ensures Arr(details) == CustomerDetails(f)
  {
    var fields := MapDetailFields(f);
    details := [Pair("phones", Arr([])), Pair("addresses", Arr([]))] + fields;
    var phones := MapPhones(f);
    var addresses: seq<Entry> := [];
    if Truthy(f.street) {
      addresses := Push(addresses, Address(f.street, "home"));
    }
    details := WriteLists(details, phones, addresses);
  }

  method MapDetailFields(f: Fields) returns (fields: seq<Entry>)
    ensures fields == DetailFields(f)
  {
    fields := [];
    fields := fields + [Pair("first_name", f.firstName)];
    fields := fields + [Pair("last_name", f.lastName)];
    fields := fields + [Pair("birthday", f.birthday)];
    fields := fields + [Pair("email", f.email)];
    fields := fields + [Pair("marital_status", Str(MaritalStatus(f.marital)))];
    fields := fields + [Pair("nationality", f.nationality)];
    fields := fields + [Pair("housing_type", Str(HousingType(f.housing)))];
    fields := fields + [Pair("move_in_date", f.moveIn)];
  }

  /** The two list placeholders at the front are overwritten by lists that
      have entries; empty lists leave the (equal) placeholders. */
  method WriteLists(skeleton: seq<Entry>, phones: seq<Entry>, addresses: seq<Entry>)
      returns (details: seq<Entry>)
    requires |skeleton| >= 2
    requires skeleton[..2] == [Pair("phones", Arr([])), Pair("addresses", Arr([]))]
    ensures details == [Pair("phones", Arr(phones)), Pair("addresses", Arr(addresses))] + skeleton[2..]
  {
    details := skeleton;
    if phones != [] {
      details := details[0 := Pair("phones", Arr(phones))];
    }
    if addresses != [] {
      details := details[1 := Pair("addresses", Arr(addresses))];
    }
    assert details[0] == Pair("phones", Arr(phones)) && details[1] == Pair("addresses", Arr(addresses));
  }

  method MapPhones(f: Fields) returns (phones: seq<Entry>)
    ensures phones == Phones(f)
  {
    phones := [];
    if Truthy(f.mobile) {
      phones := Push(phones, Phone(f.mobile, "mobile"));
    }
    if Truthy(f.home) {
      phones := Push(phones, Phone(f.home, "home"));
    }
  }

  method MapReferences(f: Fields) returns (references: seq<Entry>)
    ensures references == References(f)
  {
    references := [];
    if Truthy(f.spouseName) || Truthy(f.spousePhone) {
      references := Push(references, SpouseReference(f));
    }
    if Truthy(f.ref1Name) {
      references := Push(references, OtherReference(f.ref1Name, f.ref1Occupation, f.ref1Relationship));
    }
    if Truthy(f.ref2Name) {
      references := Push(references, OtherReference(f.ref2Name, f.ref2Occupation, f.ref2Relationship));
    }
  }

  /** The company object, written only when the company name is truthy: the
      name after the skeleton's two placeholders, then the lists over them. */
  method MapCompany(f: Fields) returns (company: seq<Entry>)
    requires Truthy(f.companyName)
    ensures Arr(company) == Company(f)
  {
    company := [Pair("phones", Arr([])), Pair("addresses", Arr([]))];
    company := company + [Pair("name", f.companyName)];
    var phones: seq<Entry> := [];
    if Truthy(f.companyPhone) {
      phones := Push(phones, Phone(f.companyPhone, "work"));
    }
    if phones != [] {
      company := company[0 := Pair("phones", Arr(phones))];
    }
    var addresses: seq<Entry> := [];
    if Truthy(f.companyStreet) {
      addresses := Push(addresses, Address(f.companyStreet, "work"));
    }
    if addresses != [] {
      company := company[1 := Pair("addresses", Arr(addresses))];
    }
  }

  method MapJobInfo(f: Fields) returns (jobInfo: seq<Entry>)
    ensures Arr(jobInfo) == JobInfo(f)
  {
    jobInfo := [];
    jobInfo := jobInfo + [Pair("is_self_employed", f.selfEmployed)];
    jobInfo := jobInfo + [Pair("role", f.role)];
    jobInfo := jobInfo + [Pair("start_date", f.startDate)];
    jobInfo := jobInfo + [Pair("salary", f.salary)];
    jobInfo := jobInfo + [Pair("other_incomes", f.otherIncomes)];
    jobInfo := jobInfo + [Pair("other_incomes_source", f.otherIncomesSource)];
    jobInfo := jobInfo + [Pair("supervisor_name", f.supervisor)];
  }

  method MapLoanDetails() returns (loan: seq<Entry>)
    ensures Arr(loan) == LoanDetails()
  {
    loan := [];
    loan := loan + [Pair("amount", Int(0))];
    loan := loan + [Pair("term", Int(0))];
    loan := loan + [Pair("rate", Int(0))];
    loan := loan + [Pair("frequency", Str("monthly"))];
    loan := loan + [Pair("purpose", Null)];
  }

  /** The customer: details, job info, the company skeleton, vehicles,
      references and NID; the company is then filled in, or unset when
      there is no company name. */
  method MapCustomer(f: Fields) returns (customer: seq<Entry>)
    ensures Arr(customer) == Customer(f)
  {
    var details := MapCustomerDetails(f);
    var jobInfo := MapJobInfo(f);
    var vehicles: seq<Entry> := [];
    if f.owned != Null || f.financed != Null || f.brand != Null || f.year != Null {
      vehicles := Push(vehicles, Vehicle(f));
    }
    var references := MapReferences(f);
    var head := [Pair("details", Arr(details)), Pair("jobInfo", Arr(jobInfo))];
    var tail := [Pair("vehicles", Arr(vehicles)), Pair("references", Arr(references)), Pair("NID", f.nid)];
    var skeleton := head + [Pair("company", Arr([Pair("phones", Arr([])), Pair("addresses", Arr([]))]))] + tail;
    customer := FillCompany(skeleton, f);
    assert skeleton[..2] == head && skeleton[3..] == tail;
  }

  /** The company placeholder at position 2 is filled in when the company
      name is truthy and unset otherwise; the other entries stay. */
  method FillCompany(skeleton: seq<Entry>, f: Fields) returns (customer: seq<Entry>)
    requires |skeleton| > 2
    ensures customer == skeleton[..2]
                        + (if Truthy(f.companyName) then [Pair("company", Company(f))] else [])
                        + skeleton[3..]
  {
    if Truthy(f.companyName) {
      var company := MapCompany(f);
      customer := skeleton[2 := Pair("company", Arr(company))];
      assert customer == skeleton[..2] + [Pair("company", Arr(company))] + skeleton[3..];
    } else {
      customer := skeleton[..2] + skeleton[3..];
    }
  }

  /** The whole mapper over the fields read: the customer, the constant
      loan details, and terms. */
  method Assemble(f: Fields) returns (payload: Value)
    ensures payload == Build(f)
  {
    var customer := MapCustomer(f);
    var loan := MapLoanDetails();
    payload := Arr([Pair("customer", Arr(customer)), Pair("details", Arr(loan)), Pair("terms", f.terms)]);
  }

  /** Reading the fields, then writing them into the payload. */
  method MapSubmission(data: seq<Field>, san: Sanitizers) returns (payload: Value)
    ensures payload == Payload(data, san)
  {
    var f := ReadFields(data, san);
    payload := Assemble(f);
  }
}
