/**
 * The client repository: `getClientList`, `createClient`, `getClient`, `updateClient` and
 * `deleteClient`. The JSON file they read and rewrite whole is the sequence `clients`.
 * Each operation is first a function from the old sequence to its outcome and new sequence
 * (`Step`), about which the properties are proved; `ClientStore` then performs the same
 * operations in place on its `clients` field.
 */
module Repository {
  import opened Wrappers
  import opened JsValue
  import opened ApiErrors
  import opened Validator

  /** A stored client: the validated draft plus the id and timestamps the repository stamps on it. */
  datatype Client = Client(id: string, name: string, surname: string, lastName: string,
                           contacts: seq<Contact>, createdAt: string, updatedAt: string)

  const CLIENT_NOT_FOUND := ApiError(404, Message("Client Not Found"))

  /** What an operation returns or throws, together with the collection it leaves behind. */
  datatype Step<T> = Step(result: Result<T, Failure>, clients: seq<Client>)

  function DraftOf(c: Client): Draft {
    Draft(c.name, c.surname, c.lastName, c.contacts)
  }

  /** A record as `makeClientFromData` produces it: valid and already normalised. */
  predicate WellFormed(c: Client) {
    IsValid(DraftOf(c)) && IsNormal(DraftOf(c))
  }

  predicate AllWellFormed(clients: seq<Client>) {
    forall i :: 0 <= i < |clients| ==> WellFormed(clients[i])
  }

  /** `a` is `b` with some elements left out and the rest in their original order. */
  predicate IsSubsequence<T(==)>(a: seq<T>, b: seq<T>)
    decreases |b|
  {
    |a| == 0 || (|b| > 0 && ((a[0] == b[0] && IsSubsequence(a[1..], b[1..])) || IsSubsequence(a, b[1..])))
  }

  lemma {:induction false} SubsequenceOfItself<T>(s: seq<T>)
    ensures IsSubsequence(s, s)
    decreases |s|
  {
    if |s| > 0 {
      SubsequenceOfItself(s[1..]);
    }
  }

  /** Removing one element leaves a subsequence. */
  lemma {:induction false} RemoveAtIsSubsequence<T>(s: seq<T>, i: nat)
    requires i < |s|
    ensures IsSubsequence(s[..i] + s[i + 1..], s)
    decreases i
  {
    var a := s[..i] + s[i + 1..];
    if i == 0 {
      assert a == s[1..];
      SubsequenceOfItself(s[1..]);
    } else {
      RemoveAtIsSubsequence(s[1..], i - 1);
      assert a[0] == s[0];
      assert a[1..] == s[1..][..i - 1] + s[1..][i..];
    }
  }

  // ------------------------------------------------------------------ findIndex / find

  /** `clients.findIndex(({ id }) => id === itemId)`: the first index holding `itemId`, or -1. */
  function FindIndex(clients: seq<Client>, itemId: string): (r: int)
    ensures -1 <= r < |clients|
    ensures r == -1 <==> forall i :: 0 <= i < |clients| ==> clients[i].id != itemId
    ensures r >= 0 ==> clients[r].id == itemId && forall i :: 0 <= i < r ==> clients[i].id != itemId
    decreases |clients|
  {
    if |clients| == 0 then
      -1
    else if clients[0].id == itemId then
      0
    else
      var k := FindIndex(clients[1..], itemId);
      assert forall i :: 0 < i < |clients| ==> clients[1..][i - 1] == clients[i];
      if k == -1 then -1 else k + 1
  }

  /** `getClient(itemId)`: the first record with that id, or a 404 `ApiError`. */
  function GetClient(clients: seq<Client>, itemId: string): (r: Result<Client, Failure>)
    ensures r.Failure? <==> forall i :: 0 <= i < |clients| ==> clients[i].id != itemId
    ensures r.Failure? ==> r.error == CLIENT_NOT_FOUND
    ensures r.Success? ==>
      && r.value.id == itemId
      && exists i :: 0 <= i < |clients| && clients[i] == r.value && forall j :: 0 <= j < i ==> clients[j].id != itemId
  {
    var i := FindIndex(clients, itemId);
    if i == -1 then Failure(CLIENT_NOT_FOUND) else Success(clients[i])
  }

  // ------------------------------------------------------------------ getClientList

  /** The search test of `getClientList`: `term` occurs in a lower-cased name, surname, lastName or contact value. */
  predicate Matches(c: Client, term: string) {
    || Includes(Lower(c.name), term)
    || Includes(Lower(c.surname), term)
    || Includes(Lower(c.lastName), term)
    || exists k :: 0 <= k < |c.contacts| && Includes(Lower(c.contacts[k].value), term)
  }

  /** `clients.filter(...)` with the search test. */
  function Filter(clients: seq<Client>, term: string): seq<Client>
    decreases |clients|
  {
    if |clients| == 0 then []
    else if Matches(clients[0], term) then [clients[0]] + Filter(clients[1..], term)
    else Filter(clients[1..], term)
  }

  /** The filter keeps exactly the matching records, in their original order. */
  lemma {:induction false} FilterSelects(clients: seq<Client>, term: string)
    ensures IsSubsequence(Filter(clients, term), clients)
    ensures forall c :: c in Filter(clients, term) <==> c in clients && Matches(c, term)
    decreases |clients|
  {
    if |clients| > 0 {
      FilterSelects(clients[1..], term);
      var r := Filter(clients, term);
      var rest := Filter(clients[1..], term);
      assert clients == [clients[0]] + clients[1..];
      if Matches(clients[0], term) {
        assert r[0] == clients[0] && r[1..] == rest;
      }
    }
  }

  /** The filter keeps every copy of a matching record and none of a non-matching one. */
  lemma {:induction false} FilterCounts(clients: seq<Client>, term: string)
    ensures forall c :: multiset(Filter(clients, term))[c] == if Matches(c, term) then multiset(clients)[c] else 0
    decreases |clients|
  {
    if |clients| > 0 {
      FilterCounts(clients[1..], term);
      assert clients == [clients[0]] + clients[1..];
      assert multiset(clients) == multiset([clients[0]]) + multiset(clients[1..]);
    }
  }

  /** With the empty term every record matches, so the filter returns the collection unchanged. */
  lemma {:induction false} FilterEmptyTerm(clients: seq<Client>)
    ensures Filter(clients, "") == clients
    decreases |clients|
  {
    if |clients| > 0 {
      IncludesEmpty(Lower(clients[0].name));
      FilterEmptyTerm(clients[1..]);
    }
  }

  /** The term actually searched for: trimmed, then lower-cased. */
  function SearchTerm(search: string): string {
    Lower(Trim(search))
  }

  /**
   * `getClientList(params)`: with no `search`, an empty one, or one that is only whitespace, the
   * whole collection; otherwise the records that match the search term, in collection order.
   */
  function GetClientList(clients: seq<Client>, params: map<string, string>): (r: seq<Client>)
    ensures "search" !in params || Trim(params["search"]) == "" ==> r == clients
    ensures IsSubsequence(r, clients)
    ensures "search" in params && params["search"] != "" ==>
      forall c :: c in r <==> c in clients && Matches(c, SearchTerm(params["search"]))
    ensures "search" in params && params["search"] != "" ==>
      forall c :: multiset(r)[c] == if Matches(c, SearchTerm(params["search"])) then multiset(clients)[c] else 0
  {
    if "search" in params && params["search"] != "" then
      var term := SearchTerm(params["search"]);
      FilterSelects(clients, term);
      FilterCounts(clients, term);
      FilterEmptyTerm(clients);
      Filter(clients, term)
    else
      SubsequenceOfItself(clients);
      clients
  }

  /** The search is case-insensitive: two search strings equal up to case select the same records. */
  lemma SearchIgnoresCase(clients: seq<Client>, params: map<string, string>, a: string, b: string)
    requires Lower(a) == Lower(b)
    ensures GetClientList(clients, params["search" := a]) == GetClientList(clients, params["search" := b])
  {
    var pa := params["search" := a];
    var pb := params["search" := b];
    assert "search" in pa && pa["search"] == a;
    assert "search" in pb && pb["search"] == b;
    assert |a| == |Lower(a)| && |b| == |Lower(b)|;
    if a == "" {
      assert b == "";
    } else {
      assert b != "";
      LowerTrim(a);
      LowerTrim(b);
      assert SearchTerm(a) == SearchTerm(b);
    }
  }

  // ------------------------------------------------------------------ createClient

  /** The new record: the draft stamped with the id and with `createdAt = updatedAt = now`. */
  function NewClient(d: Draft, id: string, now: string): Client {
    Client(id, d.name, d.surname, d.lastName, d.contacts, now, now)
  }

  /**
   * `createClient(data)` with the clock readings `id` and `now` passed in: the collection grows by
   * the new record at its end and is otherwise untouched; a failed validation changes nothing.
   */
  function Create(clients: seq<Client>, data: Raw, id: string, now: string): (st: Step<Client>)
    ensures st.result.Success? <==> MakeClientFromData(data).Success?
    ensures st.result.Failure? ==> st.clients == clients && MakeClientFromData(data) == Failure(st.result.error)
    ensures st.result.Success? ==>
      && |st.clients| == |clients| + 1
      && st.clients[..|clients|] == clients
      && st.clients[|clients|] == st.result.value
      && st.result.value.id == id
      && st.result.value.createdAt == st.result.value.updatedAt == now
      && DraftOf(st.result.value) == MakeClientFromData(data).value
      && WellFormed(st.result.value)
  {
    match MakeClientFromData(data)
    case Failure(e) => Step(Failure(e), clients)
    case Success(d) =>
      var c := NewClient(d, id, now);
      assert (clients + [c])[..|clients|] == clients;
      Step(Success(c), clients + [c])
  }

  /** The record `Create` stores holds the submitted name, surname, lastName and contacts, normalised. */
  lemma CreateStoresSubmittedFields(clients: seq<Client>, data: Raw, id: string, now: string)
    requires Create(clients, data, id, now).result.Success?
    ensures !Nullish(data)
    ensures
      var c := Create(clients, data, id, now).clients[|clients|];
      && c.name == AsString(Get(data, "name"))
      && c.surname == AsString(Get(data, "surname"))
      && c.lastName == AsString(Get(data, "lastName"))
      && c.contacts == NormalizeContacts(Get(data, "contacts")).value
  {
    NormalizedFields(data);
  }

  // ------------------------------------------------------------------ updateClient

  function ContactToRaw(c: Contact): Raw {
    Object(map["type" := Text(c.kind), "value" := Text(c.value)])
  }

  function ContactsToRaw(contacts: seq<Contact>): seq<Raw> {
    seq(|contacts|, i requires 0 <= i < |contacts| => ContactToRaw(contacts[i]))
  }

  /** The stored record as the plain object that `{ ...clients[itemIndex] }` spreads. */
  function StoredFields(c: Client): map<string, Raw> {
    map["id" := Text(c.id), "name" := Text(c.name), "surname" := Text(c.surname),
        "lastName" := Text(c.lastName), "contacts" := List(ContactsToRaw(c.contacts)),
        "createdAt" := Text(c.createdAt), "updatedAt" := Text(c.updatedAt)]
  }

  /** The own properties `...data` spreads: an object's fields; nothing of `null` or of a number. */
  function PatchFields(data: Raw): map<string, Raw> {
    if data.Object? then data.fields else map[]
  }

  /** `{ ...clients[itemIndex], ...data }`: a patch field overrides the stored one. */
  function Merge(c: Client, data: Raw): Raw {
    Object(StoredFields(c) + PatchFields(data))
  }

  /** In `{ ...stored, ...data }` a key of the patch wins; other keys keep the stored value. */
  lemma MergeOverrides(c: Client, data: Raw, key: string)
    ensures Get(Merge(c, data), key) ==
      if key in PatchFields(data) then PatchFields(data)[key]
      else if key in StoredFields(c) then StoredFields(c)[key]
      else Missing
  {
  }

  /**
   * `Object.assign(record, makeClientFromData(merged))` followed by `record.updatedAt = now`:
   * the re-validated merge replaces the four data fields, `id` and `createdAt` stay.
   */
  function ApplyPatch(c: Client, data: Raw, now: string): (r: Result<Client, Failure>)
    ensures r.Success? ==> r.value.id == c.id && r.value.createdAt == c.createdAt && r.value.updatedAt == now
    ensures r.Success? ==> WellFormed(r.value)
    ensures r.Failure? <==> MakeClientFromData(Merge(c, data)).Failure?
    ensures r.Failure? ==> MakeClientFromData(Merge(c, data)) == Failure(r.error)
    ensures r.Failure? ==> r.error == Unexpected || r.error.statusCode == 422
    ensures r.Success? ==> DraftOf(r.value) == MakeClientFromData(Merge(c, data)).value
  {
    match MakeClientFromData(Merge(c, data))
    case Failure(e) => Failure(e)
    case Success(d) => Success(Client(c.id, d.name, d.surname, d.lastName, d.contacts, c.createdAt, now))
  }

  /**
   * `updateClient(itemId, data)`: 404 if no record has the id, the validation error if the merge
   * is invalid (the collection untouched in both cases), otherwise the first record with the id
   * replaced by its patched version and every other record as it was.
   */
  function Update(clients: seq<Client>, itemId: string, data: Raw, now: string): (st: Step<Client>)
    ensures FindIndex(clients, itemId) == -1 ==> st == Step(Failure(CLIENT_NOT_FOUND), clients)
    ensures FindIndex(clients, itemId) >= 0 ==> st.result == ApplyPatch(clients[FindIndex(clients, itemId)], data, now)
    ensures st.result.Failure? ==> st.clients == clients
    ensures st.result.Success? ==>
      var i := FindIndex(clients, itemId);
      && 0 <= i
      && |st.clients| == |clients|
      && st.clients[i] == st.result.value
      && forall j :: 0 <= j < |clients| && j != i ==> st.clients[j] == clients[j]
  {
    var i := FindIndex(clients, itemId);
    if i == -1 then
      Step(Failure(CLIENT_NOT_FOUND), clients)
    else
      match ApplyPatch(clients[i], data, now)
      case Failure(e) => Step(Failure(e), clients)
      case Success(c) => Step(Success(c), clients[i := c])
  }

  /** A field of the merge: the patch's value put through `asString` if the patch has the key, else the stored one. */
  function Pick(patch: map<string, Raw>, key: string, stored: string): string {
    if key in patch then AsString(patch[key]) else stored
  }

  /** A stored, normalised contact comes back unchanged from `makeClientFromData`. */
  lemma ContactRoundTrip(c: Contact)
    requires Trimmed(c.kind) && Trimmed(c.value)
    ensures NormalizeContact(ContactToRaw(c)) == Success(c)
  {
    assert Get(ContactToRaw(c), "type") == Text(c.kind);
    assert Get(ContactToRaw(c), "value") == Text(c.value);
    AsStringText(c.kind);
    AsStringText(c.value);
  }

  /** Stored, normalised contacts come back unchanged from `makeClientFromData`. */
  lemma ContactsRoundTrip(contacts: seq<Contact>)
    requires forall c :: c in contacts ==> Trimmed(c.kind) && Trimmed(c.value)
    ensures NormalizeContacts(List(ContactsToRaw(contacts))) == Success(contacts)
  {
    var raws := ContactsToRaw(contacts);
    var r := NormalizeContactList(raws);
    assert forall i :: 0 <= i < |raws| ==> !Nullish(raws[i]);
    assert r.Success? && |r.value| == |contacts|;
    forall i | 0 <= i < |contacts|
      ensures r.value[i] == contacts[i]
    {
      assert contacts[i] in contacts;
      ContactRoundTrip(contacts[i]);
      assert NormalizeContact(raws[i]) == Success(r.value[i]);
    }
    assert r.value == contacts;
  }

  /**
   * What `makeClientFromData({ ...record, ...data })` normalises to: each of name, surname and
   * lastName from the patch if it has the key, else the stored value; the patch's `contacts`
   * wholesale if it has that key, else the stored contacts.
   */
  lemma MergedDraft(c: Client, data: Raw)
    requires IsNormal(DraftOf(c))
    ensures
      var p := PatchFields(data);
      var contacts := if "contacts" in p then NormalizeContacts(p["contacts"]) else Success(c.contacts);
      Normalize(Merge(c, data)) ==
        if contacts.Failure? then Failure(Unexpected)
        else Success(Draft(Pick(p, "name", c.name), Pick(p, "surname", c.surname),
                           Pick(p, "lastName", c.lastName), contacts.value))
  {
    var p := PatchFields(data);
    var stored := StoredFields(c);
    var m := Merge(c, data);
    assert stored["name"] == Text(c.name) && stored["surname"] == Text(c.surname);
    assert stored["lastName"] == Text(c.lastName) && stored["contacts"] == List(ContactsToRaw(c.contacts));
    assert Get(m, "name") == if "name" in p then p["name"] else Text(c.name);
    assert Get(m, "surname") == if "surname" in p then p["surname"] else Text(c.surname);
    assert Get(m, "lastName") == if "lastName" in p then p["lastName"] else Text(c.lastName);
    assert Get(m, "contacts") == if "contacts" in p then p["contacts"] else List(ContactsToRaw(c.contacts));
    AsStringText(c.name);
    AsStringText(c.surname);
    AsStringText(c.lastName);
    ContactsRoundTrip(c.contacts);
  }

  /**
   * A successful patch: fields the patch names take the patch's normalised values, the others
   * keep the stored ones, `contacts` is replaced wholesale, `id` and `createdAt` stay and
   * `updatedAt` becomes `now`.
   */
  lemma PatchMerges(c: Client, data: Raw, now: string)
    requires IsNormal(DraftOf(c))
    requires ApplyPatch(c, data, now).Success?
    ensures
      var r := ApplyPatch(c, data, now).value;
      var p := PatchFields(data);
      && r.id == c.id && r.createdAt == c.createdAt && r.updatedAt == now
      && r.name == Pick(p, "name", c.name)
      && r.surname == Pick(p, "surname", c.surname)
      && r.lastName == Pick(p, "lastName", c.lastName)
      && r.contacts == (if "contacts" in p then NormalizeContacts(p["contacts"]).value else c.contacts)
  {
    MergedDraft(c, data);
  }

  /** A patch with no fields (`{}`, `null`, a number) only refreshes `updatedAt`. */
  lemma EmptyPatchTouchesOnlyUpdatedAt(c: Client, data: Raw, now: string)
    requires WellFormed(c)
    requires PatchFields(data) == map[]
    ensures ApplyPatch(c, data, now) == Success(c.(updatedAt := now))
  {
    MergedDraft(c, data);
    MakeFromNormalized(Merge(c, data), DraftOf(c));
  }

  /** `{ name: s }` merged into a well-formed record re-validates to the record with `name` trimmed. */
  lemma RenamedDraft(c: Client, s: string)
    requires WellFormed(c)
    requires Trim(s) != ""
    ensures MakeClientFromData(Merge(c, Object(map["name" := Text(s)]))) == Success(DraftOf(c).(name := Trim(s)))
  {
    var data := Object(map["name" := Text(s)]);
    var d := DraftOf(c).(name := Trim(s));
    var p := PatchFields(data);
    assert "name" in p && p["name"] == Text(s);
    assert "surname" !in p && "lastName" !in p && "contacts" !in p;
    AsStringText(s);
    MergedDraft(c, data);
    assert Normalize(Merge(c, data)) == Success(d);
    assert IsValid(d) by {
      assert d.surname == c.surname && d.contacts == c.contacts;
    }
    MakeFromNormalized(Merge(c, data), d);
  }

  /** `{ name: s }` on a well-formed record changes only `name` (to `s` trimmed) and `updatedAt`. */
  lemma RenameTouchesOnlyName(c: Client, s: string, now: string)
    requires WellFormed(c)
    requires Trim(s) != ""
    ensures ApplyPatch(c, Object(map["name" := Text(s)]), now) == Success(c.(name := Trim(s), updatedAt := now))
  {
    RenamedDraft(c, s);
  }

  /** The successful case of `Update`, spelled out for the in-place method. */
  lemma UpdateAt(clients: seq<Client>, itemId: string, data: Raw, now: string, i: int, d: Draft)
    requires i == FindIndex(clients, itemId) && i >= 0
    requires MakeClientFromData(Merge(clients[i], data)) == Success(d)
    ensures Update(clients, itemId, data, now) ==
      var c := Client(clients[i].id, d.name, d.surname, d.lastName, d.contacts, clients[i].createdAt, now);
      Step(Success(c), clients[i := c])
  {
  }

  /**
   * The three outcomes of patching a stored, normalised record: a patch whose contacts cannot be
   * read fails unexpectedly (500), a merge that normalises but is invalid is answered with 422
   * and that merge's validation errors, and a valid merge replaces exactly that record; the
   * collection is untouched in both failure cases.
   */
  lemma PatchOutcome(clients: seq<Client>, itemId: string, data: Raw, now: string, i: int)
    requires i == FindIndex(clients, itemId) && i >= 0
    requires IsNormal(DraftOf(clients[i]))
    ensures
      var c := clients[i];
      var p := PatchFields(data);
      var contacts := if "contacts" in p then NormalizeContacts(p["contacts"]) else Success(c.contacts);
      var st := Update(clients, itemId, data, now);
      if contacts.Failure? then st == Step(Failure(Unexpected), clients)
      else
        var d := Draft(Pick(p, "name", c.name), Pick(p, "surname", c.surname), Pick(p, "lastName", c.lastName), contacts.value);
        if !IsValid(d) then st == Step(Failure(ApiError(422, Errors(ValidationErrors(d)))), clients)
        else st.result.Success? && DraftOf(st.result.value) == d && st.clients == clients[i := st.result.value]
  {
    MergedDraft(clients[i], data);
  }

  // ------------------------------------------------------------------ deleteClient

  /**
   * `deleteClient(itemId)`: 404 if no record has the id; otherwise the first record with the id is
   * spliced out, the others keep their order, and the result is `{}`.
   */
  function Delete(clients: seq<Client>, itemId: string): (st: Step<()>)
    ensures st.result.Failure? <==> forall i :: 0 <= i < |clients| ==> clients[i].id != itemId
    ensures st.result.Failure? ==> st.result.error == CLIENT_NOT_FOUND && st.clients == clients
    ensures st.result.Success? ==>
      var i := FindIndex(clients, itemId);
      0 <= i && st.clients == clients[..i] + clients[i + 1..]
  {
    var i := FindIndex(clients, itemId);
    if i == -1 then
      Step(Failure(CLIENT_NOT_FOUND), clients)
    else
      Step(Success(()), clients[..i] + clients[i + 1..])
  }

  /**
   * A successful delete takes out exactly one record, the first with the id: the list is one
   * shorter, keeps the order of the others, and loses exactly that record from its multiset.
   */
  lemma DeleteRemovesOne(clients: seq<Client>, itemId: string)
    requires exists i :: 0 <= i < |clients| && clients[i].id == itemId
    ensures
      var st := Delete(clients, itemId);
      var i := FindIndex(clients, itemId);
      && st.result.Success?
      && |st.clients| == |clients| - 1
      && IsSubsequence(st.clients, clients)
      && multiset(clients) == multiset(st.clients) + multiset{clients[i]}
  {
    var i := FindIndex(clients, itemId);
    RemoveAtIsSubsequence(clients, i);
    RemoveAtMultiset(clients, i);
  }

  /** Removing the element at `i` takes exactly that element out of the multiset. */
  lemma RemoveAtMultiset<T>(s: seq<T>, i: int)
    requires 0 <= i < |s|
    ensures multiset(s) == multiset(s[..i] + s[i + 1..]) + multiset{s[i]}
  {
    assert s == s[..i] + [s[i]] + s[i + 1..];
  }

  // ------------------------------------------------------------------ operations together

  /** Appending a record leaves earlier matches of `findIndex` where they were. */
  lemma FindIndexAppend(clients: seq<Client>, c: Client, itemId: string)
    ensures FindIndex(clients + [c], itemId) ==
      if FindIndex(clients, itemId) >= 0 then FindIndex(clients, itemId)
      else if c.id == itemId then |clients| else -1
  {
    var s := clients + [c];
    var k := FindIndex(clients, itemId);
    var r := FindIndex(s, itemId);
    assert forall j :: 0 <= j < |clients| ==> s[j] == clients[j];
    if k >= 0 {
      assert s[k].id == itemId;
    } else if c.id == itemId {
      assert s[|clients|].id == itemId;
    }
  }

  /**
   * `getClient` with the id of a record just created returns that record, unless an earlier
   * record already carried the same id (ids come from a millisecond clock and are not checked).
   */
  lemma GetAfterCreate(clients: seq<Client>, data: Raw, id: string, now: string)
    requires Create(clients, data, id, now).result.Success?
    ensures
      var st := Create(clients, data, id, now);
      GetClient(st.clients, id) ==
        if forall i :: 0 <= i < |clients| ==> clients[i].id != id then st.result else GetClient(clients, id)
  {
    var st := Create(clients, data, id, now);
    assert st.clients == clients + [st.result.value];
    FindIndexAppend(clients, st.result.value, id);
  }

  /** No two records share an id. */
  predicate UniqueIds(clients: seq<Client>) {
    forall i, j :: 0 <= i < j < |clients| ==> clients[i].id != clients[j].id
  }

  /** With unique ids, no record left after a delete carries the deleted id. */
  lemma DeleteRemovesId(clients: seq<Client>, itemId: string)
    requires UniqueIds(clients)
    ensures forall j :: 0 <= j < |Delete(clients, itemId).clients| ==> Delete(clients, itemId).clients[j].id != itemId
  {
    var i := FindIndex(clients, itemId);
    var after := Delete(clients, itemId).clients;
    if i >= 0 {
      assert after == clients[..i] + clients[i + 1..];
      forall j | 0 <= j < |after|
        ensures after[j].id != itemId
      {
        if j < i {
          assert after[j] == clients[j];
        } else {
          assert after[j] == clients[j + 1];
          assert clients[i].id != clients[j + 1].id;
        }
      }
    }
  }

  /**
   * With unique ids, a deleted record is gone: `getClient` and a second `deleteClient` on its id
   * both fail with 404.
   */
  lemma DeleteThenGetFails(clients: seq<Client>, itemId: string)
    requires UniqueIds(clients)
    ensures GetClient(Delete(clients, itemId).clients, itemId) == Failure(CLIENT_NOT_FOUND)
    ensures Delete(Delete(clients, itemId).clients, itemId).result == Failure(CLIENT_NOT_FOUND)
  {
    DeleteRemovesId(clients, itemId);
  }

  /**
   * `updateClient(id, { name: s })` on a collection of well-formed records changes only the
   * first record with that id, and of it only `name` and `updatedAt`.
   */
  lemma RenameUpdatesOneRecord(clients: seq<Client>, itemId: string, s: string, now: string)
    requires AllWellFormed(clients)
    requires FindIndex(clients, itemId) >= 0
    requires Trim(s) != ""
    ensures
      var i := FindIndex(clients, itemId);
      Update(clients, itemId, Object(map["name" := Text(s)]), now) ==
        Step(Success(clients[i].(name := Trim(s), updatedAt := now)),
             clients[i := clients[i].(name := Trim(s), updatedAt := now)])
  {
    RenameTouchesOnlyName(clients[FindIndex(clients, itemId)], s, now);
  }

  // ------------------------------------------------------------------ the collection invariant

  /** Creating keeps the collection made of well-formed records. */
  lemma CreateKeepsWellFormed(clients: seq<Client>, data: Raw, id: string, now: string)
    requires AllWellFormed(clients)
    ensures AllWellFormed(Create(clients, data, id, now).clients)
  {
    var st := Create(clients, data, id, now);
    if st.result.Success? {
      var c := st.result.value;
      assert WellFormed(c);
      assert st.clients == clients + [c] by {
        assert st.clients == st.clients[..|clients|] + [st.clients[|clients|]];
      }
      AppendKeepsWellFormed(clients, c);
    }
  }

  lemma AppendKeepsWellFormed(clients: seq<Client>, c: Client)
    requires AllWellFormed(clients) && WellFormed(c)
    ensures AllWellFormed(clients + [c])
  {
    forall j | 0 <= j < |clients| + 1 ensures WellFormed((clients + [c])[j]) {
      if j < |clients| {
        assert (clients + [c])[j] == clients[j];
      }
    }
  }


  /** Updating keeps the collection made of well-formed records. */
  lemma UpdateKeepsWellFormed(clients: seq<Client>, itemId: string, data: Raw, now: string)
    requires AllWellFormed(clients)
    ensures AllWellFormed(Update(clients, itemId, data, now).clients)
  {
  }

  /** Deleting keeps the collection made of well-formed records. */
  lemma DeleteKeepsWellFormed(clients: seq<Client>, itemId: string)
    requires AllWellFormed(clients)
    ensures AllWellFormed(Delete(clients, itemId).clients)
  {
    var st := Delete(clients, itemId);
    if st.result.Success? {
      var i := FindIndex(clients, itemId);
      assert st.clients == clients[..i] + clients[i + 1..];
      forall j | 0 <= j < |st.clients| ensures WellFormed(st.clients[j]) {
        if j < i {
          assert st.clients[j] == clients[j];
        } else {
          assert st.clients[j] == clients[j + 1];
        }
      }
    }
  }

  // ------------------------------------------------------------------ the class holding the file

  /** The database file, read and rewritten whole by every operation. */
  class ClientStore {
    var clients: seq<Client>

    constructor (initial: seq<Client>)
      ensures clients == initial
    {
      clients := initial;
    }

    method CreateClient(data: Raw, id: string, now: string) returns (r: Result<Client, Failure>)
      modifies this
      ensures Step(r, clients) == Create(old(clients), data, id, now)
      ensures old(AllWellFormed(clients)) ==> AllWellFormed(clients)
    {
      var made := MakeClientFromData(data);
      if made.Failure? {
        return Failure(made.error);
      }
      var item := NewClient(made.value, id, now);
      ghost var before := clients;
      clients := clients + [item];
      r := Success(item);
      if AllWellFormed(before) {
        CreateKeepsWellFormed(before, data, id, now);
      }
    }

    method UpdateClient(itemId: string, data: Raw, now: string) returns (r: Result<Client, Failure>)
      modifies this
      ensures Step(r, clients) == Update(old(clients), itemId, data, now)
      ensures old(AllWellFormed(clients)) ==> AllWellFormed(clients)
    {
      var i := FindIndex(clients, itemId);
      if i == -1 {
        return Failure(CLIENT_NOT_FOUND);
      }
      var made := MakeClientFromData(Merge(clients[i], data));
      if made.Failure? {
        assert ApplyPatch(clients[i], data, now) == Failure(made.error);
        return Failure(made.error);
      }
      var d := made.value;
      ghost var before := clients;
      // Object.assign(clients[itemIndex], made), then clients[itemIndex].updatedAt = now
      var record := clients[i].(name := d.name, surname := d.surname, lastName := d.lastName, contacts := d.contacts);
      record := record.(updatedAt := now);
      UpdateAt(before, itemId, data, now, i, d);
      if AllWellFormed(before) {
        UpdateKeepsWellFormed(before, itemId, data, now);
      }
      clients := clients[i := record];
      r := Success(record);
    }

    method DeleteClient(itemId: string) returns (r: Result<(), Failure>)
      modifies this
      ensures Step(r, clients) == Delete(old(clients), itemId)
      ensures old(AllWellFormed(clients)) ==> AllWellFormed(clients)
    {
      var i := FindIndex(clients, itemId);
      if i == -1 {
        return Failure(CLIENT_NOT_FOUND);
      }
      ghost var before := clients;
      clients := clients[..i] + clients[i + 1..];
      r := Success(());
      if AllWellFormed(before) {
        DeleteKeepsWellFormed(before, itemId);
      }
    }
  }
}
