/**
 * The persisted contact store (store/useContactStore.ts): the user's name and the
 * ordered list of emergency contacts, with the actions that replace them.
 */
module UseContactStore {

  import opened Wrappers
  import opened JsStrings

  /** An emergency contact. `id` is optional in the record type, so a contact may lack one. */
  datatype Contact = Contact(id: Option<JsString>, name: JsString, phoneNumber: JsString, email: JsString)

  /** What `addContact` is given: a contact without its id. */
  datatype NewContact = NewContact(name: JsString, phoneNumber: JsString, email: JsString)

  /** The largest magnitude of an ECMAScript time value (milliseconds from the epoch). */
  const MaxTimeValue: int := 8_640_000_000_000_000

  /** A value `Date.now()` can return. */
  predicate IsTimeValue(now: int)
  {
    -MaxTimeValue <= now <= MaxTimeValue
  }

  /** The id `addContact` gives a contact created at time `now`: `now` in decimal. */
  function IdAt(now: int): (id: JsString)
    requires IsTimeValue(now)
    ensures id != [] && (id[0] == Unit('-') <==> now < 0)
    ensures var digits := if now < 0 then id[1..] else id;
      && AllAsciiDigits(digits) && ParseDecimal(digits) == (if now < 0 then -now else now)
      && (|digits| == 1 || digits[0] != DigitUnit(0))
  {
    NumberToString(now)
  }

  /** The contact `addContact` stores: the caller's fields plus the clock-derived id. */
  function Stamped(c: NewContact, now: int): (r: Contact)
    requires IsTimeValue(now)
    ensures r.id.Some? && r.id.value == IdAt(now)
    ensures r.name == c.name && r.phoneNumber == c.phoneNumber && r.email == c.email
  {
    Contact(Some(IdAt(now)), c.name, c.phoneNumber, c.email)
  }

  /** The list after `addContact(c)` at time `now`: one new contact at the end, the rest as they were. */
  function Appended(cs: seq<Contact>, c: NewContact, now: int): (r: seq<Contact>)
    requires IsTimeValue(now)
    ensures |r| == |cs| + 1
    ensures r[..|cs|] == cs
    ensures r[|cs|] == Stamped(c, now)
  {
    cs + [Stamped(c, now)]
  }

  /** `r` is `s` with some elements left out, the others in their order. */
  predicate IsSubsequence<T(==)>(r: seq<T>, s: seq<T>)
  {
    r == [] || (s != [] && ((r[0] == s[0] && IsSubsequence(r[1..], s[1..])) || IsSubsequence(r, s[1..])))
  }

  /**
   * The list after `removeContact(id)`: the contacts whose id is not `id`, in order.
   * A contact without an id is never equal to `id`, so it always stays.
   */
  function Without(cs: seq<Contact>, id: JsString): (r: seq<Contact>)
    ensures IsSubsequence(r, cs)
    ensures forall c :: c in r ==> c.id != Some(id)
    ensures forall c: Contact :: c.id != Some(id) ==> multiset(r)[c] == multiset(cs)[c]
  {
    if cs == [] then []
    else
      assert cs == [cs[0]] + cs[1..];
      if cs[0].id == Some(id) then Without(cs[1..], id) else [cs[0]] + Without(cs[1..], id)
  }

  /** Every contact without the id stays: in particular every contact without any id. */
  lemma {:induction false} WithoutKeeps(cs: seq<Contact>, id: JsString, c: Contact)
    requires c in cs && c.id != Some(id)
    ensures c in Without(cs, id)
  {
  }

  /** Removing an id no contact has changes nothing, and only then. */
  lemma {:induction false} WithoutAbsent(cs: seq<Contact>, id: JsString)
    ensures Without(cs, id) == cs <==> forall c :: c in cs ==> c.id != Some(id)
  {
    if cs != [] {
      WithoutAbsent(cs[1..], id);
      if cs[0].id == Some(id) {
        assert cs[0] in cs;
      }
    }
  }

  /** Removing the same id twice is removing it once. */
  lemma {:induction false} WithoutIdempotent(cs: seq<Contact>, id: JsString)
    ensures Without(Without(cs, id), id) == Without(cs, id)
  {
    WithoutAbsent(Without(cs, id), id);
  }

  /** Removal works element by element, so it distributes over concatenation. */
  lemma {:induction false} WithoutConcat(a: seq<Contact>, b: seq<Contact>, id: JsString)
    ensures Without(a + b, id) == Without(a, id) + Without(b, id)
  {
    if a != [] {
      assert (a + b)[0] == a[0] && (a + b)[1..] == a[1..] + b;
      WithoutConcat(a[1..], b, id);
    } else {
      assert a + b == b;
    }
  }

  /**
   * Adding a contact and then removing its id gives back the original list,
   * provided no contact already had that id (nothing checks this when adding).
   */
  lemma {:induction false} AddThenRemove(cs: seq<Contact>, c: NewContact, now: int)
    requires IsTimeValue(now)
    requires forall d :: d in cs ==> d.id != Some(IdAt(now))
    ensures Without(Appended(cs, c, now), IdAt(now)) == cs
  {
    WithoutConcat(cs, [Stamped(c, now)], IdAt(now));
    WithoutAbsent(cs, IdAt(now));
  }

  /** Two contacts added at the same instant share an id, and removing it removes both. */
  lemma {:induction false} SameInstantRemovedTogether(cs: seq<Contact>, c1: NewContact, c2: NewContact, now: int)
    requires IsTimeValue(now)
    ensures Appended(cs, c1, now)[|cs|].id == Appended(Appended(cs, c1, now), c2, now)[|cs| + 1].id
    ensures Without(Appended(Appended(cs, c1, now), c2, now), IdAt(now)) == Without(cs, IdAt(now))
  {
    var id := IdAt(now);
    WithoutConcat(cs, [Stamped(c1, now)], id);
    WithoutConcat(cs + [Stamped(c1, now)], [Stamped(c2, now)], id);
  }

  /** Contacts added at different instants get different ids. */
  lemma {:induction false} DistinctInstantsDistinctIds(t1: int, t2: int)
    requires IsTimeValue(t1) && IsTimeValue(t2)
    ensures IdAt(t1) == IdAt(t2) <==> t1 == t2
  {
    NumberToStringInjective(t1, t2);
  }

  /** The store object; `addContact`, `removeContact` and `setname` replace its fields. */
  class ContactsStore {
    var contacts: seq<Contact>
    var name: JsString

    constructor ()
      ensures contacts == [] && name == []
    {
      contacts := [];
      name := [];
    }

    /** `addContact`; `now` is the value of `Date.now()` at the call. */
    method AddContact(contact: NewContact, now: int)
      requires IsTimeValue(now)
      modifies this
      ensures contacts == Appended(old(contacts), contact, now)
      ensures name == old(name)
    {
      var newContact := Stamped(contact, now);
      contacts := contacts + [newContact];
    }

    method RemoveContact(id: JsString)
      modifies this
      ensures contacts == Without(old(contacts), id)
      ensures name == old(name)
    {
      contacts := Without(contacts, id);
    }

    method SetName(newName: JsString)
      modifies this
      ensures name == newName
      ensures contacts == old(contacts)
    {
      name := newName;
    }
  }
}
