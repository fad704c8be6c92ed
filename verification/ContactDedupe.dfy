/** Finding or creating a person, and the company of a corporate address, without making duplicates: one tenant. */
module ContactDedupe {
  import opened Common
  import opened JsText

  datatype Person = Person(id: nat, primaryPhone: Option<string>, primaryEmail: Option<string>)

  datatype Company = Company(id: nat, domain: string)

  datatype Link = Link(personId: nat, companyId: nat)

  /** The tenant's live rows; identifiers number the rows. */
  datatype Crm = Crm(persons: seq<Person>, companies: seq<Company>, links: seq<Link>)

  datatype Contact = Contact(phone: Option<string>, email: Option<string>)

  /** Lower-casing and the regular expressions over addresses are given. */
  datatype Text = Text(lower: string -> string, domainOf: string -> Option<string>,
                       likelyCompany: string -> bool, nameFromDomain: string -> Option<string>)

  const EMPTY := Crm([], [], [])

  // ------------------------------------------------------------ normal forms

  /** `replace(/\D/g, '')`, and the same in the SQL of the lookup. */
  function Digits(s: string): string {
    if s == "" then "" else (if '0' <= s[0] <= '9' then [s[0]] else []) + Digits(s[1..])
  }

  function NormalizePhone(phone: Option<string>): string {
    if phone.Some? then Digits(phone.value) else ""
  }

  function NonEmpty(s: string): Option<string> {
    if s == "" then None else Some(s)
  }

  function NormalizeEmail(text: Text, email: Option<string>): Option<string> {
    if email.None? || email.value == "" then None else NonEmpty(text.lower(Trim(email.value)))
  }

  /** `input.phone?.trim() || null`. */
  function StoredPhone(phone: Option<string>): Option<string> {
    if phone.None? then None else NonEmpty(Trim(phone.value))
  }

  lemma {:induction false} DigitsAppend(a: string, b: string)
    ensures Digits(a + b) == Digits(a) + Digits(b)
  {
    if a == "" {
      assert a + b == b;
    } else {
      assert (a + b)[1..] == a[1..] + b;
      DigitsAppend(a[1..], b);
    }
  }

  /** Of single characters just the ten digits stay; with `DigitsAppend` this is all there is to say. */
  lemma DigitsOne(c: char)
    ensures Digits([c]) == if c in "0123456789" then [c] else ""
  {
    assert [c][1..] == "";
    assert c in "0123456789" <==> '0' <= c <= '9';
  }

  lemma {:induction false} TrimLeftKeepsDigits(s: string)
    ensures Digits(TrimLeft(s)) == Digits(s)
  {
    if s != "" && IsSpace(s[0]) { TrimLeftKeepsDigits(s[1..]); }
  }

  lemma {:induction false} TrimRightKeepsDigits(s: string)
    ensures Digits(TrimRight(s)) == Digits(s)
  {
    if s != "" && IsSpace(s[|s| - 1]) {
      var n := |s| - 1;
      TrimRightKeepsDigits(s[..n]);
      assert s == s[..n] + [s[n]];
      DigitsAppend(s[..n], [s[n]]);
      NoDigit(s[n]);
    }
  }

  lemma NoDigit(c: char)
    requires IsSpace(c)
    ensures Digits([c]) == ""
  {
    assert [c][1..] == "";
  }

  /** The stored phone has the digits it was searched by. */
  lemma StoredPhoneKeepsDigits(phone: Option<string>)
    ensures NormalizePhone(StoredPhone(phone)) == NormalizePhone(phone)
  {
    hide IsSpace;
    if phone.Some? {
      TrimLeftKeepsDigits(phone.value);
      TrimRightKeepsDigits(TrimLeft(phone.value));
    }
  }

  /**
   * A phone is stored without the white space around it, an address besides in lower case; a blank phone is not
   * stored, nor an address that is empty or has nothing left.
   */
  lemma StoredForms(text: Text, before: string, t: string, after: string)
    requires AllSpace(before) && AllSpace(after)
    requires t != "" ==> !IsSpace(t[0]) && !IsSpace(t[|t| - 1])
    ensures StoredPhone(None) == None && NormalizeEmail(text, None) == None && NormalizeEmail(text, Some("")) == None
    ensures StoredPhone(Some(before + t + after)) == if t == "" then None else Some(t)
    ensures before + t + after != "" ==>
              NormalizeEmail(text, Some(before + t + after))
              == if text.lower(t) == "" then None else Some(text.lower(t))
  {
    hide Trim, IsSpace, AllSpace;
    TrimOf(before, t, after);
  }

  // ------------------------------------------------------------ the reference

  predicate HasPhone(p: Person, norm: string) {
    p.primaryPhone.Some? && Digits(p.primaryPhone.value) == norm
  }

  function ByPhone(ps: seq<Person>, norm: string): Option<Person> {
    if ps == [] then None else if HasPhone(ps[0], norm) then Some(ps[0]) else ByPhone(ps[1..], norm)
  }

  function ByEmail(ps: seq<Person>, email: string): Option<Person> {
    if ps == [] then None else if ps[0].primaryEmail == Some(email) then Some(ps[0]) else ByEmail(ps[1..], email)
  }

  function ByDomain(cs: seq<Company>, domain: string): Option<Company> {
    if cs == [] then None else if cs[0].domain == domain then Some(cs[0]) else ByDomain(cs[1..], domain)
  }

  /** The person a contact already belongs to: by phone first, then by email. */
  function Known(text: Text, crm: Crm, c: Contact): Option<Person> {
    var byPhone := if NormalizePhone(c.phone) != "" then ByPhone(crm.persons, NormalizePhone(c.phone)) else None;
    if byPhone.Some? then byPhone
    else if NormalizeEmail(text, c.email).Some? then ByEmail(crm.persons, NormalizeEmail(text, c.email).value)
    else None
  }

  function NewPerson(text: Text, crm: Crm, c: Contact): Person {
    Person(|crm.persons|, StoredPhone(c.phone), NormalizeEmail(text, c.email))
  }

  /** The company of an address, created when its domain is new and yields a name. */
  function CompanyFor(text: Text, crm: Crm, email: string): (Crm, Option<Company>) {
    if text.domainOf(email).None? then (crm, None) else
      var domain := text.domainOf(email).value;
      if ByDomain(crm.companies, domain).Some? then (crm, ByDomain(crm.companies, domain))
      else if text.nameFromDomain(domain).None? then (crm, None)
      else
        var company := Company(|crm.companies|, domain);
        (crm.(companies := crm.companies + [company]), Some(company))
  }

  function Linked(crm: Crm, personId: nat, companyId: nat): Crm {
    var link := Link(personId, companyId);
    if link in crm.links then crm else crm.(links := crm.links + [link])
  }

  function AutoLinked(text: Text, crm: Crm, personId: nat, email: Option<string>): Crm {
    if email.None? || email.value == "" || !text.likelyCompany(email.value) then crm else
      var (crm', company) := CompanyFor(text, crm, email.value);
      if company.None? then crm' else Linked(crm', personId, company.value.id)
  }

  /** The rows after one call. */
  function After(text: Text, crm: Crm, c: Contact): Crm {
    if Known(text, crm, c).Some? then crm
    else AutoLinked(text, crm.(persons := crm.persons + [NewPerson(text, crm, c)]), |crm.persons|, c.email)
  }

  /** The person one call returns. */
  function Answer(text: Text, crm: Crm, c: Contact): Person {
    if Known(text, crm, c).Some? then Known(text, crm, c).value else NewPerson(text, crm, c)
  }

  function Run(text: Text, crm: Crm, cs: seq<Contact>): Crm {
    if cs == [] then crm else After(text, Run(text, crm, cs[..|cs| - 1]), cs[|cs| - 1])
  }

  // ------------------------------------------------------------ the services

  class CrmService {
    const text: Text
    var persons: seq<Person>
    var companies: seq<Company>
    var links: seq<Link>

    constructor (text: Text)
      ensures this.text == text && Rows() == EMPTY && NoDuplicates(Rows())
    {
      this.text := text;
      persons, companies, links := [], [], [];
    }

    function Rows(): Crm
      reads this
    {
      Crm(persons, companies, links)
    }

    method FindOrCreateByEmailDomain(email: string) returns (company: Option<Company>)
      requires NoDuplicates(Rows())
      modifies this
      ensures (Rows(), company) == CompanyFor(text, old(Rows()), email)
      ensures company.Some? ==> company.value in companies
      ensures NoDuplicates(Rows())
    {
      hide NoDuplicates;
      CompanyForKeeps(text, Rows(), email);
      var domain := text.domainOf(email);
      if domain.None? { return None; }
      var existing := ByDomain(companies, domain.value);
      if existing.Some? {
        ByDomainFinds(companies, domain.value);
        return existing;
      }
      if text.nameFromDomain(domain.value).None? { return None; }
      var created := Company(|companies|, domain.value);
      companies := companies + [created];
      return Some(created);
    }

    /** `ok` is false when the company is not there (the source throws). */
    method LinkPersonToCompany(personId: nat, companyId: nat) returns (ok: bool)
      modifies this
      ensures ok == exists c :: c in old(companies) && c.id == companyId
      ensures Rows() == if ok then Linked(old(Rows()), personId, companyId) else old(Rows())
      ensures old(NoDuplicates(Rows())) && personId < |persons| ==> NoDuplicates(Rows())
    {
      if NoDuplicates(Rows()) && personId < |persons| && exists c :: c in companies && c.id == companyId {
        CompanyIsNumbered(Rows(), companyId);
        LinkedKeeps(Rows(), personId, companyId);
      }
      hide NoDuplicates;
      ok := exists c :: c in companies && c.id == companyId;
      if ok && Link(personId, companyId) !in links {
        links := links + [Link(personId, companyId)];
      }
    }

    method AutoLinkCompany(personId: nat, email: Option<string>)
      requires NoDuplicates(Rows()) && personId < |persons|
      modifies this
      ensures Rows() == AutoLinked(text, old(Rows()), personId, email) && NoDuplicates(Rows())
    {
      hide NoDuplicates;
      if email.None? || email.value == "" || !text.likelyCompany(email.value) { return; }
      var company := FindOrCreateByEmailDomain(email.value);
      if company.None? { return; }
      var ok := LinkPersonToCompany(personId, company.value.id);
      assert ok;
    }

    method FindOrCreateByContact(c: Contact) returns (person: Person)
      requires NoDuplicates(Rows())
      modifies this
      ensures Rows() == After(text, old(Rows()), c) && NoDuplicates(Rows())
      ensures person == Answer(text, old(Rows()), c)
    {
      hide NormalizePhone, NormalizeEmail, ByPhone, ByEmail, AutoLinked, NoDuplicates;
      AfterKeeps(text, Rows(), c);
      if Known(text, Rows(), c).None? { AddedKeeps(text, Rows(), c); }
      var normPhone := NormalizePhone(c.phone);
      var normEmail := NormalizeEmail(text, c.email);
      if normPhone != "" {
        var byPhone := ByPhone(persons, normPhone);
        if byPhone.Some? { return byPhone.value; }
      }
      if normEmail.Some? {
        var byEmail := ByEmail(persons, normEmail.value);
        if byEmail.Some? { return byEmail.value; }
      }
      person := Person(|persons|, StoredPhone(c.phone), normEmail);
      persons := persons + [person];
      AutoLinkCompany(person.id, c.email);
    }
  }

  // ------------------------------------------------------------ finding

  lemma {:induction false} ByPhoneFinds(ps: seq<Person>, norm: string)
    ensures var p := ByPhone(ps, norm);
            if p.Some? then p.value in ps && HasPhone(p.value, norm) else forall q :: q in ps ==> !HasPhone(q, norm)
  {
    hide Digits;
    if ps != [] { ByPhoneFinds(ps[1..], norm); }
  }

  lemma {:induction false} ByEmailFinds(ps: seq<Person>, email: string)
    ensures var p := ByEmail(ps, email);
            if p.Some? then p.value in ps && p.value.primaryEmail == Some(email)
            else forall q :: q in ps ==> q.primaryEmail != Some(email)
  {
    if ps != [] { ByEmailFinds(ps[1..], email); }
  }

  lemma {:induction false} ByDomainFinds(cs: seq<Company>, domain: string)
    ensures var c := ByDomain(cs, domain);
            if c.Some? then c.value in cs && c.value.domain == domain else forall d :: d in cs ==> d.domain != domain
  {
    if cs != [] { ByDomainFinds(cs[1..], domain); }
  }

  // ------------------------------------------------------------ no duplicates, over every run

  /** The digits a person is found by; the empty string is no phone. */
  function PhoneOf(p: Person): string {
    NormalizePhone(p.primaryPhone)
  }

  ghost predicate PhonesDiffer(ps: seq<Person>) {
    forall i, j :: 0 <= i < j < |ps| && PhoneOf(ps[j]) != "" ==> PhoneOf(ps[i]) != PhoneOf(ps[j])
  }

  ghost predicate EmailsDiffer(ps: seq<Person>) {
    forall i, j :: 0 <= i < j < |ps| && ps[j].primaryEmail.Some? ==> ps[i].primaryEmail != ps[j].primaryEmail
  }

  ghost predicate DomainsDiffer(cs: seq<Company>) {
    forall i, j :: 0 <= i < j < |cs| ==> cs[i].domain != cs[j].domain
  }

  ghost predicate Numbered(crm: Crm) {
    && (forall i :: 0 <= i < |crm.persons| ==> crm.persons[i].id == i)
    && (forall i :: 0 <= i < |crm.companies| ==> crm.companies[i].id == i)
  }

  /** Every link joins rows that exist, and none is repeated. */
  ghost predicate LinksHold(crm: Crm) {
    && NoDup(crm.links)
    && (forall l :: l in crm.links ==> l.personId < |crm.persons| && l.companyId < |crm.companies|)
  }

  ghost predicate NoDuplicates(crm: Crm) {
    PhonesDiffer(crm.persons) && EmailsDiffer(crm.persons) && DomainsDiffer(crm.companies) && Numbered(crm)
      && LinksHold(crm)
  }

  lemma UnknownPhoneIsNew(text: Text, crm: Crm, c: Contact)
    requires PhonesDiffer(crm.persons) && Known(text, crm, c).None?
    ensures PhonesDiffer(crm.persons + [NewPerson(text, crm, c)])
  {
    hide Digits, NormalizeEmail, StoredPhone;
    var p := NewPerson(text, crm, c);
    StoredPhoneKeepsDigits(c.phone);
    assert PhoneOf(p) == NormalizePhone(c.phone);
    ByPhoneFinds(crm.persons, NormalizePhone(c.phone));
    forall i | 0 <= i < |crm.persons| && PhoneOf(p) != "" ensures PhoneOf(crm.persons[i]) != PhoneOf(p) {
      assert crm.persons[i] in crm.persons;
    }
  }

  lemma UnknownEmailIsNew(text: Text, crm: Crm, c: Contact)
    requires EmailsDiffer(crm.persons) && Known(text, crm, c).None?
    ensures EmailsDiffer(crm.persons + [NewPerson(text, crm, c)])
  {
    hide NormalizePhone, NormalizeEmail, StoredPhone;
    var p := NewPerson(text, crm, c);
    if p.primaryEmail.Some? {
      ByEmailFinds(crm.persons, p.primaryEmail.value);
      forall i | 0 <= i < |crm.persons| ensures crm.persons[i].primaryEmail != p.primaryEmail {
        assert crm.persons[i] in crm.persons;
      }
    }
  }

  lemma CompanyForKeeps(text: Text, crm: Crm, email: string)
    requires NoDuplicates(crm)
    ensures var (crm', company) := CompanyFor(text, crm, email);
            NoDuplicates(crm') && crm'.persons == crm.persons && (company.Some? ==> company.value.id < |crm'.companies|)
  {
    hide PhonesDiffer, EmailsDiffer;
    if text.domainOf(email).Some? {
      ByDomainFinds(crm.companies, text.domainOf(email).value);
    }
  }

  lemma LinkedKeeps(crm: Crm, personId: nat, companyId: nat)
    requires NoDuplicates(crm) && personId < |crm.persons| && companyId < |crm.companies|
    ensures NoDuplicates(Linked(crm, personId, companyId))
    ensures Linked(crm, personId, companyId).persons == crm.persons
  {
    hide PhonesDiffer, EmailsDiffer, DomainsDiffer, NoDup;
    NoDupStep(crm.links, Link(personId, companyId));
  }

  lemma AutoLinkedKeeps(text: Text, crm: Crm, personId: nat, email: Option<string>)
    requires NoDuplicates(crm) && personId < |crm.persons|
    ensures NoDuplicates(AutoLinked(text, crm, personId, email))
    ensures AutoLinked(text, crm, personId, email).persons == crm.persons
  {
    hide NoDuplicates, CompanyFor, Linked;
    if email.Some? {
      CompanyForKeeps(text, crm, email.value);
      var (crm', company) := CompanyFor(text, crm, email.value);
      if company.Some? { LinkedKeeps(crm', personId, company.value.id); }
    }
  }

  lemma CompanyIsNumbered(crm: Crm, companyId: nat)
    requires NoDuplicates(crm) && exists c :: c in crm.companies && c.id == companyId
    ensures companyId < |crm.companies|
  {
    hide PhonesDiffer, EmailsDiffer, DomainsDiffer, LinksHold;
  }

  lemma AddedKeeps(text: Text, crm: Crm, c: Contact)
    requires NoDuplicates(crm) && Known(text, crm, c).None?
    ensures NoDuplicates(crm.(persons := crm.persons + [NewPerson(text, crm, c)]))
  {
    hide Known, PhonesDiffer, EmailsDiffer, DomainsDiffer, NoDup, StoredPhone, NormalizeEmail;
    UnknownPhoneIsNew(text, crm, c);
    UnknownEmailIsNew(text, crm, c);
  }

  /** One call keeps the tenant free of duplicates. */
  lemma AfterKeeps(text: Text, crm: Crm, c: Contact)
    requires NoDuplicates(crm)
    ensures NoDuplicates(After(text, crm, c))
    ensures crm.persons <= After(text, crm, c).persons
  {
    hide Known, PhonesDiffer, EmailsDiffer, DomainsDiffer, AutoLinked, NoDup, StoredPhone, NormalizeEmail;
    if Known(text, crm, c).None? {
      var added := crm.(persons := crm.persons + [NewPerson(text, crm, c)]);
      AddedKeeps(text, crm, c);
      AutoLinkedKeeps(text, added, |crm.persons|, c.email);
    }
  }

  /** No run of calls makes two persons with one phone or one email, or two companies with one domain. */
  lemma {:induction false} RunKeeps(text: Text, crm: Crm, cs: seq<Contact>)
    requires NoDuplicates(crm)
    ensures NoDuplicates(Run(text, crm, cs))
    ensures crm.persons <= Run(text, crm, cs).persons
  {
    hide NoDuplicates, After;
    if cs != [] {
      RunKeeps(text, crm, cs[..|cs| - 1]);
      AfterKeeps(text, Run(text, crm, cs[..|cs| - 1]), cs[|cs| - 1]);
    }
  }

  lemma RunFromEmpty(text: Text, cs: seq<Contact>)
    ensures NoDuplicates(Run(text, EMPTY, cs))
  {
    assert NoDuplicates(EMPTY);
    RunKeeps(text, EMPTY, cs);
  }

  // ------------------------------------------------------------ what a new person brings

  /** The address is a likely company's, and its domain is known or yields a name. */
  predicate GetsCompany(text: Text, crm: Crm, email: Option<string>) {
    && email.Some? && email.value != "" && text.likelyCompany(email.value) && text.domainOf(email.value).Some?
    && ((exists c :: c in crm.companies && c.domain == text.domainOf(email.value).value)
        || text.nameFromDomain(text.domainOf(email.value).value).Some?)
  }

  /** The company of the address is there afterwards, made only if it was not, and the new link joins it. */
  ghost predicate JoinsCompany(crm: Crm, after: Crm, personId: nat, domain: string) {
    exists c ::
      && c in after.companies && c.domain == domain
      && after.links == crm.links + [Link(personId, c.id)]
      && (after.companies == crm.companies
          || (after.companies == crm.companies + [c] && forall d :: d in crm.companies ==> d.domain != domain))
  }

  /**
   * A contact nobody has becomes one new person with its digits and its address, joined to the company of the
   * address exactly when that is a likely company whose domain is known or yields a name.
   */
  lemma NewPersonJoins(text: Text, crm: Crm, c: Contact)
    requires NoDuplicates(crm) && Known(text, crm, c).None?
    ensures var after, r := After(text, crm, c), Answer(text, crm, c);
            && after.persons == crm.persons + [r] && r.id == |crm.persons|
            && r.primaryPhone == StoredPhone(c.phone) && PhoneOf(r) == NormalizePhone(c.phone)
            && r.primaryEmail == NormalizeEmail(text, c.email)
            && (GetsCompany(text, crm, c.email) ==> JoinsCompany(crm, after, r.id, text.domainOf(c.email.value).value))
            && (!GetsCompany(text, crm, c.email) ==> after.links == crm.links && after.companies == crm.companies)
  {
    hide Known, NormalizePhone, NormalizeEmail, StoredPhone, PhonesDiffer, EmailsDiffer, DomainsDiffer, NoDup, ByDomain;
    AnswerIsStored(text, crm, c);
    NewCarriesPhone(text, crm, c);
    var email, id := c.email, |crm.persons|;
    var added := crm.(persons := crm.persons + [NewPerson(text, crm, c)]);
    if email.Some? && text.domainOf(email.value).Some? {
      var domain := text.domainOf(email.value).value;
      ByDomainFinds(crm.companies, domain);
      if GetsCompany(text, crm, email) {
        var (crm', company) := CompanyFor(text, added, email.value);
        assert company.Some? && company.value in crm'.companies && company.value.domain == domain;
        assert Link(id, company.value.id) !in crm.links;
      }
    }
  }

  // ------------------------------------------------------------ calling again

  /** A phone is held by one person at most, so the lookup has one answer. */
  lemma OnlyByPhone(ps: seq<Person>, p: Person, norm: string)
    requires PhonesDiffer(ps) && p in ps && norm != "" && PhoneOf(p) == norm
    ensures ByPhone(ps, norm) == Some(p)
  {
    hide Digits;
    ByPhoneFinds(ps, norm);
    var found := ByPhone(ps, norm).value;
    var i :| 0 <= i < |ps| && ps[i] == p;
    var j :| 0 <= j < |ps| && ps[j] == found;
    assert PhoneOf(ps[i]) == norm && PhoneOf(ps[j]) == norm;
  }

  lemma OnlyByEmail(ps: seq<Person>, p: Person, email: string)
    requires EmailsDiffer(ps) && p in ps && p.primaryEmail == Some(email)
    ensures ByEmail(ps, email) == Some(p)
  {
    ByEmailFinds(ps, email);
    var found := ByEmail(ps, email).value;
    var i :| 0 <= i < |ps| && ps[i] == p;
    var j :| 0 <= j < |ps| && ps[j] == found;
    assert ps[i].primaryEmail == Some(email) && ps[j].primaryEmail == Some(email);
  }

  /** The contact can be looked up at all. */
  predicate Reachable(text: Text, c: Contact) {
    NormalizePhone(c.phone) != "" || NormalizeEmail(text, c.email).Some?
  }

  lemma AnswerIsStored(text: Text, crm: Crm, c: Contact)
    requires NoDuplicates(crm)
    ensures Answer(text, crm, c) in After(text, crm, c).persons
    ensures Known(text, crm, c).None? ==> After(text, crm, c).persons == crm.persons + [NewPerson(text, crm, c)]
  {
    hide NormalizePhone, NormalizeEmail, StoredPhone, NoDup, AutoLinked, PhonesDiffer, EmailsDiffer, DomainsDiffer;
    if Known(text, crm, c).Some? {
      ByPhoneFinds(crm.persons, NormalizePhone(c.phone));
      if NormalizeEmail(text, c.email).Some? { ByEmailFinds(crm.persons, NormalizeEmail(text, c.email).value); }
    } else {
      var added := crm.(persons := crm.persons + [NewPerson(text, crm, c)]);
      AddedKeeps(text, crm, c);
      AutoLinkedKeeps(text, added, |crm.persons|, c.email);
    }
  }

  /** The person returned has the contact's phone, or else its email. */
  lemma AnswerMatches(text: Text, crm: Crm, c: Contact)
    requires Reachable(text, c)
    ensures var r := Answer(text, crm, c);
            var email := NormalizeEmail(text, c.email);
            (NormalizePhone(c.phone) != "" && PhoneOf(r) == NormalizePhone(c.phone))
              || (email.Some? && r.primaryEmail == email)
  {
    hide Digits, NormalizeEmail, StoredPhone;
    StoredPhoneKeepsDigits(c.phone);
    ByPhoneFinds(crm.persons, NormalizePhone(c.phone));
    if NormalizeEmail(text, c.email).Some? { ByEmailFinds(crm.persons, NormalizeEmail(text, c.email).value); }
  }

  /** What a state with the answer's row in it answers to the same contact. */
  lemma SameAnswerIff(text: Text, later: Crm, c: Contact, r: Person)
    requires NoDuplicates(later) && r in later.persons && Reachable(text, c)
    requires (NormalizePhone(c.phone) != "" && PhoneOf(r) == NormalizePhone(c.phone)) ||
             (NormalizeEmail(text, c.email).Some? && r.primaryEmail == NormalizeEmail(text, c.email))
    ensures var norm := NormalizePhone(c.phone);
            Known(text, later, c) == Some(r) <==>
              (norm == "" || PhoneOf(r) == norm || forall p :: p in later.persons ==> PhoneOf(p) != norm)
  {
    hide Digits, NormalizeEmail, PhonesDiffer, EmailsDiffer, DomainsDiffer, Numbered, LinksHold;
    var norm := NormalizePhone(c.phone);
    if norm != "" && PhoneOf(r) == norm {
      OnlyByPhone(later.persons, r, norm);
    } else {
      OnlyByEmail(later.persons, r, NormalizeEmail(text, c.email).value);
      ByPhoneFinds(later.persons, norm);
      if norm != "" && exists p :: p in later.persons && PhoneOf(p) == norm {
        var p :| p in later.persons && PhoneOf(p) == norm;
        assert HasPhone(p, norm);
      }
    }
  }

  /** After any further calls the same contact gets the same person back, unless that person was found by email and
      somebody else has come to hold the phone. */
  lemma LaterRepeatIsSameIff(text: Text, crm: Crm, c: Contact, more: seq<Contact>)
    requires NoDuplicates(crm) && Reachable(text, c)
    ensures var r := Answer(text, crm, c);
            var later := Run(text, After(text, crm, c), more);
            var norm := NormalizePhone(c.phone);
            Answer(text, later, c) == r <==>
              (norm == "" || PhoneOf(r) == norm || forall p :: p in later.persons ==> PhoneOf(p) != norm)
  {
    hide NoDuplicates, After, Known, NewPerson, Run, NormalizePhone, NormalizeEmail, Reachable;
    var r := Answer(text, crm, c);
    var later := Run(text, After(text, crm, c), more);
    AfterKeeps(text, crm, c);
    RunKeeps(text, After(text, crm, c), more);
    AnswerIsStored(text, crm, c);
    AnswerMatches(text, crm, c);
    SameAnswerIff(text, later, c, r);
    NewIsNobody(text, later, c, r);
  }

  /** A person created now is none of those already there. */
  lemma NewIsNobody(text: Text, crm: Crm, c: Contact, r: Person)
    requires NoDuplicates(crm) && r in crm.persons
    ensures Answer(text, crm, c) == r <==> Known(text, crm, c) == Some(r)
  {
    hide Known, NormalizeEmail, StoredPhone, PhonesDiffer, EmailsDiffer, DomainsDiffer, LinksHold;
    var i :| 0 <= i < |crm.persons| && crm.persons[i] == r;
    assert r.id == i;
  }

  /** An immediately repeated call creates nothing exactly when the contact has digits in its phone or an email; it then
      returns the same person. */
  lemma RepeatIsSilentIff(text: Text, crm: Crm, c: Contact)
    requires NoDuplicates(crm)
    ensures var once := After(text, crm, c);
            && (After(text, once, c) == once <==> Reachable(text, c))
            && (Reachable(text, c) ==> Answer(text, once, c) == Answer(text, crm, c))
  {
    hide NoDuplicates, After, Known, NewPerson, NormalizePhone, NormalizeEmail, Reachable, Run;
    var once := After(text, crm, c);
    AfterKeeps(text, crm, c);
    AnswerIsStored(text, once, c);
    if Reachable(text, c) {
      ImmediateRepeat(text, crm, c);
    } else {
      Unreachable(text, once, c);
      assert |After(text, once, c).persons| == |once.persons| + 1;
    }
  }

  lemma Unreachable(text: Text, crm: Crm, c: Contact)
    requires !Reachable(text, c)
    ensures Known(text, crm, c).None?
  {
  }

  lemma ImmediateRepeat(text: Text, crm: Crm, c: Contact)
    requires NoDuplicates(crm) && Reachable(text, c)
    ensures var once := After(text, crm, c);
            Known(text, once, c) == Some(Answer(text, crm, c)) && After(text, once, c) == once
  {
    hide NoDuplicates, NormalizePhone, NormalizeEmail, StoredPhone, Reachable, AutoLinked, ByPhone, ByEmail;
    if Known(text, crm, c).None? {
      var once := After(text, crm, c);
      var r := Answer(text, crm, c);
      AfterKeeps(text, crm, c);
      AnswerIsStored(text, crm, c);
      AnswerMatches(text, crm, c);
      NewCarriesPhone(text, crm, c);
      SameAnswerIff(text, once, c, r);
    }
  }

  lemma NewCarriesPhone(text: Text, crm: Crm, c: Contact)
    ensures PhoneOf(NewPerson(text, crm, c)) == NormalizePhone(c.phone)
  {
    hide NormalizePhone, NormalizeEmail, StoredPhone;
    StoredPhoneKeepsDigits(c.phone);
  }

  lemma KnownAlone(text: Text, crm: Crm, p: Person, c: Contact)
    requires crm.persons == [p] && NormalizePhone(c.phone) != "" && PhoneOf(p) != NormalizePhone(c.phone)
    ensures var email := NormalizeEmail(text, c.email);
            Known(text, crm, c) == if email.Some? && p.primaryEmail == email then Some(p) else None
  {
    hide Digits, NormalizeEmail;
    ByPhoneFinds(crm.persons, NormalizePhone(c.phone));
    if NormalizeEmail(text, c.email).Some? { ByEmailFinds(crm.persons, NormalizeEmail(text, c.email).value); }
  }

  lemma KnownByPhone(text: Text, crm: Crm, p: Person, c: Contact)
    requires PhonesDiffer(crm.persons) && p in crm.persons
    requires NormalizePhone(c.phone) != "" && PhoneOf(p) == NormalizePhone(c.phone)
    ensures Answer(text, crm, c) == p
  {
    hide Digits, NormalizeEmail;
    OnlyByPhone(crm.persons, p, NormalizePhone(c.phone));
  }

  lemma RunThree(text: Text, a: Contact, b: Contact, d: Contact)
    ensures Run(text, EMPTY, [a]) == After(text, EMPTY, a)
    ensures Run(text, EMPTY, [a, b, d]) == After(text, After(text, After(text, EMPTY, a), b), d)
  {
    hide After;
    assert [a][..0] == [] && [a, b][..1] == [a] && [a, b, d][..2] == [a, b];
  }

  /**
   * The exception is real: a contact known by its email loses its person to a later one created for its phone alone.
   */
  lemma EmailMatchDrifts(text: Text, a: Contact, b: Contact)
    requires NormalizePhone(a.phone) != "" && NormalizePhone(b.phone) != ""
               && NormalizePhone(a.phone) != NormalizePhone(b.phone)
    requires a.email == b.email && NormalizeEmail(text, a.email).Some?
    ensures var first := Run(text, EMPTY, [a]);
            var last := Run(text, EMPTY, [a, b, Contact(b.phone, None)]);
            Answer(text, first, b).id == 0 && Answer(text, last, b).id == 1
  {
    hide NormalizePhone, NormalizeEmail, StoredPhone, AutoLinked, PhoneOf, Run, PhonesDiffer, EmailsDiffer,
         DomainsDiffer, LinksHold, Known;
    var phoneOnly := Contact(b.phone, None);
    RunThree(text, a, b, phoneOnly);
    EmptyHolds();
    NobodyKnown(text, a);
    var first := After(text, EMPTY, a);
    var p := NewPerson(text, EMPTY, a);
    AnswerIsStored(text, EMPTY, a);
    AfterKeeps(text, EMPTY, a);
    assert first.persons == [p];
    NewCarriesPhone(text, EMPTY, a);
    KnownAlone(text, first, p, b);
    NoEmail(text);
    KnownAlone(text, first, p, phoneOnly);
    AnswerIsStored(text, first, phoneOnly);
    AfterKeeps(text, first, phoneOnly);
    NewCarriesPhone(text, first, phoneOnly);
    KnownByPhone(text, After(text, first, phoneOnly), NewPerson(text, first, phoneOnly), b);
  }

  lemma NoEmail(text: Text)
    ensures NormalizeEmail(text, None) == None
  {
  }

  lemma NobodyKnown(text: Text, c: Contact)
    ensures Known(text, EMPTY, c) == None
  {
  }

  lemma EmptyHolds()
    ensures NoDuplicates(EMPTY)
  {
  }
}
