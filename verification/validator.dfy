/**
 * `makeClientFromData` and its helper `asString`: coerce a parsed request body into a client
 * draft, collect every validation error, and throw a 422 `ApiError` if there is any.
 */
module Validator {
  import opened Wrappers
  import opened JsValue
  import opened ApiErrors

  /** A contact; the contact objects' field `type` is called `kind` here (`type` is a Dafny keyword). */
  datatype Contact = Contact(kind: string, value: string)

  /** The object `makeClientFromData` returns: the client without id and timestamps. */
  datatype Draft = Draft(name: string, surname: string, lastName: string, contacts: seq<Contact>)

  const NAME_MISSING := FieldError("name", "Не указано имя")
  const SURNAME_MISSING := FieldError("surname", "Не указана фамилия")
  const CONTACTS_INCOMPLETE := FieldError("contacts", "Не все добавленные контакты полностью заполнены")

  /** `asString(v)`: `''` for a falsy value, otherwise `String(v)` with surrounding whitespace removed. */
  function AsString(v: Raw): (r: string)
    ensures Trimmed(r)
    ensures !Truthy(v) ==> r == ""
    ensures Truthy(v) ==> exists i :: StripsTo(ToJsString(v), i, r)
  {
    if Truthy(v) then Trim(ToJsString(v)) else ""
  }

  /** On a string, `asString` is `trim`; in particular it leaves an already trimmed string alone. */
  lemma AsStringText(s: string)
    ensures AsString(Text(s)) == Trim(s)
    ensures Trimmed(s) ==> AsString(Text(s)) == s
  {
    if Trimmed(s) {
      TrimOfTrimmed(s);
    }
  }

  predicate Incomplete(c: Contact) {
    c.kind == "" || c.value == ""
  }

  /** The rules `makeClientFromData` checks. */
  predicate IsValid(d: Draft) {
    && d.name != ""
    && d.surname != ""
    && forall c :: c in d.contacts ==> !Incomplete(c)
  }

  /** Every string field has been through `asString`. */
  predicate IsNormal(d: Draft) {
    && Trimmed(d.name) && Trimmed(d.surname) && Trimmed(d.lastName)
    && forall c :: c in d.contacts ==> Trimmed(c.kind) && Trimmed(c.value)
  }

  /** `contact => ({ type: asString(contact.type), value: asString(contact.value) })`. */
  function NormalizeContact(c: Raw): Result<Contact, Failure> {
    if Nullish(c) then Failure(Unexpected)
    else Success(Contact(AsString(Get(c, "type")), AsString(Get(c, "value"))))
  }

  /** `data.contacts.map(...)` on an array: position by position, throwing on a `null` entry. */
  function NormalizeContactList(items: seq<Raw>): (r: Result<seq<Contact>, Failure>)
    ensures r.Failure? <==> exists i :: 0 <= i < |items| && Nullish(items[i])
    ensures r.Failure? ==> r.error == Unexpected
    ensures r.Success? ==> |r.value| == |items|
    ensures r.Success? ==> forall i :: 0 <= i < |items| ==> NormalizeContact(items[i]) == Success(r.value[i])
  {
    if exists i :: 0 <= i < |items| && Nullish(items[i]) then
      Failure(Unexpected)
    else
      Success(seq(|items|, i requires 0 <= i < |items| => NormalizeContact(items[i]).value))
  }

  /** `Array.isArray(contacts) ? contacts.map(...) : []`. */
  function NormalizeContacts(v: Raw): (r: Result<seq<Contact>, Failure>)
    ensures !v.List? ==> r == Success([])
    ensures v.List? ==> r == NormalizeContactList(v.items)
  {
    if v.List? then NormalizeContactList(v.items) else Success([])
  }

  /** The object built at the start of `makeClientFromData`; reading a field of `null` throws. */
  function Normalize(data: Raw): (r: Result<Draft, Failure>)
    ensures r.Failure? <==> Nullish(data) || NormalizeContacts(Get(data, "contacts")).Failure?
    ensures r.Failure? ==> r.error == Unexpected
    ensures r.Success? ==> IsNormal(r.value)
  {
    if Nullish(data) then
      Failure(Unexpected)
    else
      match NormalizeContacts(Get(data, "contacts"))
      case Failure(e) => Failure(e)
      case Success(contacts) =>
        Success(Draft(AsString(Get(data, "name")), AsString(Get(data, "surname")),
                      AsString(Get(data, "lastName")), contacts))
  }

  /**
   * Each field of a normalised draft comes from the submitted object's field of the same name:
   * the three texts through `asString`, the contacts through the per-contact normalisation.
   */
  lemma NormalizedFields(data: Raw)
    requires Normalize(data).Success?
    ensures !Nullish(data)
    ensures
      var d := Normalize(data).value;
      && d.name == AsString(Get(data, "name"))
      && d.surname == AsString(Get(data, "surname"))
      && d.lastName == AsString(Get(data, "lastName"))
      && d.contacts == NormalizeContacts(Get(data, "contacts")).value
  {
  }

  /** Position of an entry in the fixed order of checks. */
  function Rank(e: FieldError): nat {
    if e == NAME_MISSING then 0 else if e == SURNAME_MISSING then 1 else 2
  }

  /**
   * The `errors` list: one entry per failed check, in the order name, surname, contacts, and a
   * single `contacts` entry however many contacts are incomplete.
   */
  function ValidationErrors(d: Draft): (errs: seq<FieldError>)
    ensures errs == [] <==> IsValid(d)
    ensures NAME_MISSING in errs <==> d.name == ""
    ensures SURNAME_MISSING in errs <==> d.surname == ""
    ensures CONTACTS_INCOMPLETE in errs <==> exists c :: c in d.contacts && Incomplete(c)
    ensures forall i :: 0 <= i < |errs| ==> errs[i] == NAME_MISSING || errs[i] == SURNAME_MISSING || errs[i] == CONTACTS_INCOMPLETE
    ensures forall i, j :: 0 <= i < j < |errs| ==> Rank(errs[i]) < Rank(errs[j])
  {
    var nameErrs := if d.name == "" then [NAME_MISSING] else [];
    var surnameErrs := if d.surname == "" then [SURNAME_MISSING] else [];
    var contactErrs := if exists c :: c in d.contacts && Incomplete(c) then [CONTACTS_INCOMPLETE] else [];
    assert Rank(NAME_MISSING) == 0 && Rank(SURNAME_MISSING) == 1 && Rank(CONTACTS_INCOMPLETE) == 2;
    assert forall e :: e in nameErrs + surnameErrs + contactErrs <==> e in nameErrs || e in surnameErrs || e in contactErrs;
    nameErrs + surnameErrs + contactErrs
  }

  /**
   * `makeClientFromData(data)`: the normalised draft when it is valid, a 422 `ApiError` listing
   * every failed check otherwise, and whatever `Normalize` threw if it threw.
   */
  function MakeClientFromData(data: Raw): (r: Result<Draft, Failure>)
    ensures r.Success? ==> IsValid(r.value) && IsNormal(r.value) && Normalize(data) == r
    ensures r.Success? <==> Normalize(data).Success? && IsValid(Normalize(data).value)
    ensures r.Failure? && r.error.ApiError? <==> Normalize(data).Success? && !IsValid(Normalize(data).value)
    ensures r.Failure? && r.error.ApiError? ==>
      r.error == ApiError(422, Errors(ValidationErrors(Normalize(data).value))) && r.error.data.errors != []
    ensures r.Failure? && !r.error.ApiError? ==> Normalize(data) == r
  {
    match Normalize(data)
    case Failure(e) => Failure(e)
    case Success(d) =>
      var errs := ValidationErrors(d);
      if |errs| > 0 then Failure(ApiError(422, Errors(errs))) else Success(d)
  }

  /** A non-array `contacts` is read as no contacts at all and never causes an error. */
  lemma NonArrayContactsAreEmpty(data: Raw)
    requires !Nullish(data) && !Get(data, "contacts").List?
    ensures Normalize(data).Success? && Normalize(data).value.contacts == []
    ensures !(CONTACTS_INCOMPLETE in ValidationErrors(Normalize(data).value))
  {
  }

  /** Once the input is normalised to `d`, the outcome depends on `d` alone. */
  lemma MakeFromNormalized(data: Raw, d: Draft)
    requires Normalize(data) == Success(d)
    ensures MakeClientFromData(data) ==
      if ValidationErrors(d) == [] then Success(d) else Failure(ApiError(422, Errors(ValidationErrors(d))))
  {
  }

  lemma AsStringOfB()
    ensures AsString(Text("B")) == "B"
  {
    assert Trimmed("B") by { assert "B"[0] == 'B'; }
    AsStringText("B");
  }

  lemma AsStringOfA()
    ensures AsString(Text("A")) == "A"
  {
    assert Trimmed("A") by { assert "A"[0] == 'A'; }
    AsStringText("A");
  }

  lemma AsStringOfPhone()
    ensures AsString(Text("phone")) == "phone"
  {
    assert Trimmed("phone") by { assert "phone"[0] == 'p' && "phone"[4] == 'e'; }
    AsStringText("phone");
  }

  lemma NormalizeEmptyName(data: Raw)
    requires data == Object(map["name" := Text(""), "surname" := Text("B")])
    ensures Normalize(data) == Success(Draft("", "B", "", []))
  {
    assert Get(data, "name") == Text("") && Get(data, "surname") == Text("B");
    assert Get(data, "lastName") == Missing && Get(data, "contacts") == Missing;
    assert AsString(Text("")) == "" && AsString(Missing) == "";
    assert NormalizeContacts(Missing) == Success([]);
    AsStringOfB();
  }

  /** `{ name: "", surname: "B" }` fails with a `name` entry and no `surname` entry. */
  lemma EmptyNameIsReported()
    ensures MakeClientFromData(Object(map["name" := Text(""), "surname" := Text("B")]))
         == Failure(ApiError(422, Errors([NAME_MISSING])))
  {
    var data := Object(map["name" := Text(""), "surname" := Text("B")]);
    var d := Draft("", "B", "", []);
    NormalizeEmptyName(data);
    OnlyNameMissing(d);
    MakeFromNormalized(data, d);
  }

  /** A draft with no contacts and a surname, but no name, fails exactly the name check. */
  lemma OnlyNameMissing(d: Draft)
    requires d.name == "" && d.surname != "" && d.contacts == []
    ensures ValidationErrors(d) == [NAME_MISSING]
  {
    assert !(exists c :: c in d.contacts && Incomplete(c));
  }

  lemma NormalizePhoneContact(contact: Raw)
    requires contact == Object(map["type" := Text("phone")])
    ensures NormalizeContact(contact) == Success(Contact("phone", ""))
  {
    var kind := Get(contact, "type");
    var value := Get(contact, "value");
    assert kind == Text("phone");
    assert value == Missing;
    assert AsString(value) == "";
    AsStringOfPhone();
    assert NormalizeContact(contact) == Success(Contact(AsString(kind), AsString(value)));
  }

  /** A one-entry contact list whose entry is not nullish normalises to that entry alone. */
  lemma SingleContactList(item: Raw)
    requires !Nullish(item)
    ensures NormalizeContactList([item]) == Success([NormalizeContact(item).value])
  {
    var items := [item];
    assert forall i :: 0 <= i < |items| ==> !Nullish(items[i]);
    var r := NormalizeContactList(items);
    assert r.Success? && |r.value| == 1;
    assert NormalizeContact(items[0]) == Success(r.value[0]);
    assert r.value == [r.value[0]];
  }

  lemma NormalizePhoneContacts(contact: Raw)
    requires contact == Object(map["type" := Text("phone")])
    ensures NormalizeContacts(List([contact])) == Success([Contact("phone", "")])
  {
    NormalizePhoneContact(contact);
    SingleContactList(contact);
  }

  lemma NormalizePhoneOnly(data: Raw, contact: Raw)
    requires contact == Object(map["type" := Text("phone")])
    requires data == Object(map["name" := Text("A"), "surname" := Text("B"), "contacts" := List([contact])])
    ensures Normalize(data) == Success(Draft("A", "B", "", [Contact("phone", "")]))
  {
    var name, surname, lastName := Get(data, "name"), Get(data, "surname"), Get(data, "lastName");
    var contacts := Get(data, "contacts");
    assert name == Text("A") && surname == Text("B");
    assert lastName == Missing && contacts == List([contact]);
    NormalizePhoneContacts(contact);
    AsStringOfA();
    AsStringOfB();
    assert AsString(lastName) == "";
    assert Normalize(data) == Success(Draft(AsString(name), AsString(surname), AsString(lastName), [Contact("phone", "")]));
  }

  /** `{ name: "A", surname: "B", contacts: [{ type: "phone" }] }` fails with exactly one `contacts` entry. */
  lemma IncompleteContactIsReportedOnce()
    ensures MakeClientFromData(Object(map["name" := Text("A"), "surname" := Text("B"),
                                          "contacts" := List([Object(map["type" := Text("phone")])])]))
         == Failure(ApiError(422, Errors([CONTACTS_INCOMPLETE])))
  {
    var contact := Object(map["type" := Text("phone")]);
    var data := Object(map["name" := Text("A"), "surname" := Text("B"), "contacts" := List([contact])]);
    var d := Draft("A", "B", "", [Contact("phone", "")]);
    NormalizePhoneOnly(data, contact);
    MakeFromNormalized(data, d);
    assert Incomplete(d.contacts[0]);
    assert ValidationErrors(d) == [CONTACTS_INCOMPLETE];
  }
}
