/** The trusted-contacts list: adding a named phone number and deleting a contact by id. */
module Contacts {
  import JsText
  import Seqs

  datatype Contact = Contact(id: string, name: string, phone: string)

  /** `contacts.filter((c) => c.id !== id)` */
  function WithoutId(contacts: seq<Contact>, id: string): (r: seq<Contact>)
    ensures forall c :: c in r <==> c in contacts && c.id != id
    ensures forall c :: multiset(r)[c] == if c.id != id then multiset(contacts)[c] else 0
    ensures Seqs.IsSubsequence(r, contacts)
  {
    Seqs.Filter(contacts, (c: Contact) => c.id != id)
  }

  /** Deleting the id of a contact just added, when no other contact had it, restores the list. */
  lemma DeleteUndoesAdd(contacts: seq<Contact>, added: Contact)
    requires forall c :: c in contacts ==> c.id != added.id
    ensures WithoutId(contacts + [added], added.id) == contacts
  {
    var keep := (c: Contact) => c.id != added.id;
    Seqs.FilterConcat(contacts, [added], keep);
    Seqs.FilterKeepsAll(contacts, keep);
    assert Seqs.Filter([added], keep) == [];
  }

  class ContactsScreen {
    var contacts: seq<Contact>
    var name: string
    var phone: string

    constructor ()
      ensures contacts == [] && name == "" && phone == ""
    {
      contacts, name, phone := [], "", "";
    }

    /**
     * `addContact`: with a name and a phone, the contact (id = the time in ms as text) is
     * appended and both inputs are cleared; otherwise nothing changes.
     */
    method AddContact(now: int)
      modifies this
      ensures old(name) != "" && old(phone) != "" ==>
                contacts == old(contacts) + [Contact(JsText.IntToString(now), old(name), old(phone))] &&
                name == "" && phone == ""
      ensures old(name) == "" || old(phone) == "" ==> unchanged(this)
    {
      if name != "" && phone != "" {
        contacts := contacts + [Contact(JsText.IntToString(now), name, phone)];
        name := "";
        phone := "";
      }
    }

    /** `deleteContact(id)`: every contact with that id goes, the rest keep their order. */
    method DeleteContact(id: string)
      modifies this
      ensures contacts == WithoutId(old(contacts), id)
      ensures name == old(name) && phone == old(phone)
    {
      contacts := WithoutId(contacts, id);
    }
  }
}
