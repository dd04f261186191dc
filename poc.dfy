/**
 * `PointOfContactSerializer`: a company's contacts may not share an email
 * address (ignoring case) or a mobile number.
 */
module Poc {
  import opened Wrappers
  import opened Text

  const DuplicateEmailMessage := "A point of contact with this email address already exists for this company."
  const DuplicateMobileMessage := "A point of contact with this mobile number already exists for this company."

  /** A stored `POC` row. */
  datatype Contact = Contact(id: nat, company: nat, name: string, mobile: string, email: string)

  /** The validated fields `validate` sees; absent fields are None. */
  datatype ContactData = ContactData(company: Option<nat>, name: Option<string>, mobile: Option<string>, email: Option<string>)

  /** `POC.objects.filter(company=company)`, without `instance` when updating. */
  predicate InScope(c: Contact, company: Option<nat>, instance: Option<Contact>) {
    company == Some(c.company) && (instance.None? || c.id != instance.value.id)
  }

  predicate EmailTaken(rows: seq<Contact>, company: Option<nat>, instance: Option<Contact>, email: string) {
    exists i :: 0 <= i < |rows| && InScope(rows[i], company, instance) && IEquals(rows[i].email, email)
  }

  predicate MobileTaken(rows: seq<Contact>, company: Option<nat>, instance: Option<Contact>, mobile: string) {
    exists i :: 0 <= i < |rows| && InScope(rows[i], company, instance) && rows[i].mobile == mobile
  }

  /** `queryset.filter(poc_email__iexact=email).exists()` */
  function AnyEmail(rows: seq<Contact>, company: Option<nat>, instance: Option<Contact>, email: string): (r: bool)
    ensures r <==> EmailTaken(rows, company, instance, email)
  {
    if rows == [] then false
    else if InScope(rows[0], company, instance) && IEquals(rows[0].email, email) then true
    else
      var rest := AnyEmail(rows[1..], company, instance, email);
      assert forall i :: 1 <= i < |rows| ==> rows[i] == rows[1..][i - 1];
      assert EmailTaken(rows, company, instance, email) ==> EmailTaken(rows[1..], company, instance, email) by {
        if EmailTaken(rows, company, instance, email) {
          var i :| 0 <= i < |rows| && InScope(rows[i], company, instance) && IEquals(rows[i].email, email);
          assert rows[1..][i - 1] == rows[i];
        }
      }
      rest
  }

  /** `queryset.filter(poc_mobile=mobile).exists()` */
  function AnyMobile(rows: seq<Contact>, company: Option<nat>, instance: Option<Contact>, mobile: string): (r: bool)
    ensures r <==> MobileTaken(rows, company, instance, mobile)
  {
    if rows == [] then false
    else if InScope(rows[0], company, instance) && rows[0].mobile == mobile then true
    else
      var rest := AnyMobile(rows[1..], company, instance, mobile);
      assert forall i :: 1 <= i < |rows| ==> rows[i] == rows[1..][i - 1];
      assert MobileTaken(rows, company, instance, mobile) ==> MobileTaken(rows[1..], company, instance, mobile) by {
        if MobileTaken(rows, company, instance, mobile) {
          var i :| 0 <= i < |rows| && InScope(rows[i], company, instance) && rows[i].mobile == mobile;
          assert rows[1..][i - 1] == rows[i];
        }
      }
      rest
  }

  class ContactSerializer {
    /** The contact being updated; None when creating. */
    const instance: Option<Contact>
    /** `fields['company'].required` */
    var companyRequired: bool

    /** `__init__`: the company may be left out exactly when a contact is being updated. */
    constructor (instance: Option<Contact>)
      ensures this.instance == instance
      ensures companyRequired <==> instance.None?
    {
      this.instance := instance;
      companyRequired := instance.None?;
    }

    /** `data.get('company') or (self.instance and self.instance.company)` */
    function Company(data: ContactData): (r: Option<nat>)
      ensures data.company.Some? ==> r == data.company
      ensures data.company.None? && instance.Some? ==> r == Some(instance.value.company)
      ensures data.company.None? && instance.None? ==> r.None?
    {
      if data.company.Some? then data.company
      else if instance.Some? then Some(instance.value.company)
      else None
    }

    /**
     * `validate(data)`: a given email that another contact of the company
     * already has, ignoring case, is refused first; then a given mobile number
     * another contact of the company already has; otherwise the data is
     * returned unchanged. The contact being updated is not "another".
     */
    function Validate(rows: seq<Contact>, data: ContactData): (r: Result<ContactData, string>)
      ensures var company := Company(data);
              && (r == Failure(DuplicateEmailMessage) <==>
                    Given(data.email) && EmailTaken(rows, company, instance, data.email.value))
              && (r == Failure(DuplicateMobileMessage) <==>
                    !(Given(data.email) && EmailTaken(rows, company, instance, data.email.value))
                    && Given(data.mobile) && MobileTaken(rows, company, instance, data.mobile.value))
              && (r.Success? ==> r.value == data)
              && (r.Failure? ==> r.error in {DuplicateEmailMessage, DuplicateMobileMessage})
    {
      var company := Company(data);
      if Given(data.email) && AnyEmail(rows, company, instance, data.email.value) then Failure(DuplicateEmailMessage)
      else if Given(data.mobile) && AnyMobile(rows, company, instance, data.mobile.value) then Failure(DuplicateMobileMessage)
      else Success(data)
    }
  }

  /** An update that keeps the contact's own email and mobile clashes only with other contacts. */
  lemma KeepingOwnDetailsPasses(s: ContactSerializer, rows: seq<Contact>, data: ContactData)
    requires s.instance.Some? && data.company.None?
    requires data.email == Some(s.instance.value.email) && data.mobile == Some(s.instance.value.mobile)
    requires forall i :: 0 <= i < |rows| && rows[i].id != s.instance.value.id ==>
               rows[i].company != s.instance.value.company
    ensures s.Validate(rows, data) == Success(data)
  {
  }

  /** Contacts of other companies never clash. */
  lemma OtherCompaniesIgnored(s: ContactSerializer, rows: seq<Contact>, data: ContactData, c: Contact)
    requires Some(c.company) != s.Company(data)
    ensures s.Validate(rows + [c], data) == s.Validate(rows, data)
  {
    var company := s.Company(data);
    var all := rows + [c];
    assert forall i :: 0 <= i < |rows| ==> all[i] == rows[i];
    if Given(data.email) {
      assert EmailTaken(all, company, s.instance, data.email.value) == EmailTaken(rows, company, s.instance, data.email.value);
    }
    if Given(data.mobile) {
      assert MobileTaken(all, company, s.instance, data.mobile.value) == MobileTaken(rows, company, s.instance, data.mobile.value);
    }
  }

  /** The email test ignores case: "A@X.COM" clashes with a stored "a@x.com". */
  lemma EmailCaseIgnored(s: ContactSerializer, other: Contact)
    requires s.instance.None?
    ensures s.Validate([other], ContactData(Some(other.company), None, None, Some("A@X.COM")))
            == (if IEquals(other.email, "A@X.COM")
                then Failure(DuplicateEmailMessage)
                else Success(ContactData(Some(other.company), None, None, Some("A@X.COM"))))
  {
    var data := ContactData(Some(other.company), None, None, Some("A@X.COM"));
    assert InScope([other][0], s.Company(data), s.instance);
  }
}
