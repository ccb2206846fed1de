/** app/api/contact/route.ts: the public contact form (`POST`), which finds or
    creates the customer by email and records a contact inquiry, and the
    admin list of inquiries (`GET`). */
module ContactRoute {
  import opened Common
  import opened Pagination

  datatype Customer = Customer(id: string, email: string, firstName: string, lastName: string, phone: JsonValue)

  datatype ContactInquiry = ContactInquiry(
    id: string, customerId: string, name: string, email: string, message: string,
    phone: JsonValue, projectType: JsonValue, timeline: JsonValue, budget: JsonValue,
    status: string, priority: string)

  /** `201 { message, id }` or an error with its status. */
  datatype ContactResponse = Submitted(id: string) | Rejected(status: int, error: string)

  const RequiredMessage := "Name, email, and message are required"

  // ---------------------------------------------------------------------------
  // The name split

  /** `const [firstName, ...lastNameParts] = name.split(' ')` and
      `lastNameParts.join(' ') || ''`. */
  function SplitName(name: string): (r: (string, string))
    ensures ' ' !in r.0
    ensures ' ' !in name ==> r == (name, "")
    ensures ' ' in name ==> r.0 + " " + r.1 == name
  {
    SplitHead(name);
    var parts := Split(name);
    (parts[0], Join(parts[1..]))
  }

  /** The first name is the text before the first space, the last name the
      text after it. */
  lemma SplitNameAtFirstSpace(first: string, rest: string)
    requires ' ' !in first
    ensures SplitName(first + " " + rest) == (first, rest)
  {
    SplitAfterWord(first, rest);
    var parts := Split(first + " " + rest);
    assert parts[1..] == Split(rest);
    JoinSplit(rest);
  }

  // ---------------------------------------------------------------------------
  // POST

  /** `customer.findUnique({ where: { email } })` */
  function FindCustomer(customers: seq<Customer>, email: string): (r: Option<Customer>)
    ensures r.Some? ==> r.value in customers && r.value.email == email
    ensures r.None? ==> forall c :: c in customers ==> c.email != email
  {
    if customers == [] then None
    else if customers[0].email == email then Some(customers[0])
    else FindCustomer(customers[1..], email)
  }

  ghost predicate UniqueEmails(customers: seq<Customer>) {
    forall i, j :: 0 <= i < j < |customers| ==> customers[i].email != customers[j].email
  }

  /** A form field that is a non-empty string: the field passes the `!value`
      check, and the string methods and the store accept it. */
  predicate TextField(b: map<string, JsonValue>, key: string) {
    Field(b, key).Str? && Field(b, key).s != ""
  }

  /** What one submission does: its response, the customer it creates if
      any, and the inquiry it records if any. */
  datatype ContactOutcome = ContactOutcome(response: ContactResponse, newCustomer: Option<Customer>,
                                           inquiry: Option<ContactInquiry>)

  /** The customer created for an unknown email. */
  function NewCustomer(id: string, email: string, name: string, phone: JsonValue): (c: Customer)
    ensures c.email == email && c.id == id && c.phone == phone
    ensures (c.firstName, c.lastName) == SplitName(name)
  {
    Customer(id, email, SplitName(name).0, SplitName(name).1, phone)
  }

  /** A submission with body `body` against the customers `customers`; a new
      customer takes id `customerId`, a new inquiry `inquiryId`. The store
      refuses a value that is not a string where it expects one, and
      `name.split` needs a string; those throws, and an unreadable body, are
      answered 500 by the catch. A customer created before the inquiry fails
      stays created. */
  function Submit(customers: seq<Customer>, body: Option<map<string, JsonValue>>,
                  customerId: string, inquiryId: string): (o: ContactOutcome)
    ensures body.None? ==> o == ContactOutcome(Rejected(500, "Internal server error"), None, None)
    ensures body.Some? && !(Truthy(Field(body.value, "name")) && Truthy(Field(body.value, "email"))
                            && Truthy(Field(body.value, "message")))
            ==> o == ContactOutcome(Rejected(400, RequiredMessage), None, None)
    // a form whose three required fields are truthy but not all strings throws
    ensures body.Some? && Truthy(Field(body.value, "name")) && Truthy(Field(body.value, "email"))
            && Truthy(Field(body.value, "message"))
            && !(TextField(body.value, "name") && TextField(body.value, "email") && TextField(body.value, "message"))
            ==> o.response == Rejected(500, "Internal server error") && o.inquiry.None?
    // the submission succeeds exactly for a form with the three text fields
    ensures o.response.Submitted? <==>
              body.Some? && TextField(body.value, "name") && TextField(body.value, "email")
              && TextField(body.value, "message")
    // find-or-create: a customer is created exactly when the name and email
    // are text and no customer has the email
    ensures o.newCustomer.Some? <==>
              body.Some? && TextField(body.value, "name") && TextField(body.value, "email")
              && Truthy(Field(body.value, "message"))
              && FindCustomer(customers, Field(body.value, "email").s).None?
    ensures o.newCustomer.Some? && o.inquiry.Some? ==> o.inquiry.value.customerId == o.newCustomer.value.id
    ensures o.newCustomer.Some? ==>
              && Field(body.value, "email").Str? && Field(body.value, "name").Str?
              && FindCustomer(customers, Field(body.value, "email").s).None?
              && o.newCustomer.value
                 == NewCustomer(customerId, Field(body.value, "email").s, Field(body.value, "name").s,
                                Field(body.value, "phone"))
    // an inquiry is recorded exactly when the submission succeeds
    ensures o.response.Submitted? <==> o.inquiry.Some?
    ensures o.inquiry.Some? ==>
              && o.response.id == inquiryId == o.inquiry.value.id
              && o.inquiry.value.status == "NEW" && o.inquiry.value.priority == "NORMAL"
              && Str(o.inquiry.value.name) == Field(body.value, "name")
              && Str(o.inquiry.value.email) == Field(body.value, "email")
              && Str(o.inquiry.value.message) == Field(body.value, "message")
              && o.inquiry.value.customerId ==
                   match FindCustomer(customers, o.inquiry.value.email)
                   case Some(c) => c.id
                   case None => customerId
  {
    match body
    case None => ContactOutcome(Rejected(500, "Internal server error"), None, None)
    case Some(b) =>
      var name := Field(b, "name");
      var email := Field(b, "email");
      var message := Field(b, "message");
      if !Truthy(name) || !Truthy(email) || !Truthy(message) then
        ContactOutcome(Rejected(400, RequiredMessage), None, None)
      else if !email.Str? then ContactOutcome(Rejected(500, "Internal server error"), None, None)
      else
        var existing := FindCustomer(customers, email.s);
        if existing.None? && !name.Str? then ContactOutcome(Rejected(500, "Internal server error"), None, None)
        else
          var created := if existing.None? then Some(NewCustomer(customerId, email.s, name.s, Field(b, "phone")))
                         else None;
          var customer := if existing.Some? then existing.value else created.value;
          if !name.Str? || !message.Str? then ContactOutcome(Rejected(500, "Internal server error"), created, None)
          else
            ContactOutcome(Submitted(inquiryId), created,
                           Some(ContactInquiry(inquiryId, customer.id, name.s, email.s, message.s, Field(b, "phone"),
                                               Field(b, "projectType"), Field(b, "timeline"), Field(b, "budget"),
                                               "NEW", "NORMAL")))
  }

  function AsSeq<T>(o: Option<T>): (s: seq<T>)
    ensures o.None? ==> s == []
    ensures o.Some? ==> s == [o.value]
  {
    if o.Some? then [o.value] else []
  }

  /** A submission keeps customer emails unique. */
  lemma SubmitKeepsEmailsUnique(customers: seq<Customer>, body: Option<map<string, JsonValue>>,
                                customerId: string, inquiryId: string)
    requires UniqueEmails(customers)
    ensures UniqueEmails(customers + AsSeq(Submit(customers, body, customerId, inquiryId).newCustomer))
  {
    var o := Submit(customers, body, customerId, inquiryId);
    var after := customers + AsSeq(o.newCustomer);
    forall i, j | 0 <= i < j < |after| ensures after[i].email != after[j].email {
      assert after[i] == customers[i];
      if j == |customers| {
        assert customers[i] in customers;
      } else {
        assert after[j] == customers[j];
      }
    }
  }

  /** Find-or-create: a second submission with the same body creates no second
      customer, and its inquiry is linked to the customer the first created. */
  lemma ResubmitReusesCustomer(customers: seq<Customer>, body: Option<map<string, JsonValue>>,
                               id1: string, inquiry1: string, id2: string, inquiry2: string)
    requires Submit(customers, body, id1, inquiry1).newCustomer.Some?
    ensures var after := customers + [Submit(customers, body, id1, inquiry1).newCustomer.value];
            var second := Submit(after, body, id2, inquiry2);
            && second.newCustomer.None?
            && (second.inquiry.Some? ==> second.inquiry.value.customerId == id1)
  {
    var c := Submit(customers, body, id1, inquiry1).newCustomer.value;
    var after := customers + [c];
    FindAfterAppend(customers, c);
  }

  lemma {:induction false} FindAfterAppend(customers: seq<Customer>, c: Customer)
    requires FindCustomer(customers, c.email).None?
    ensures FindCustomer(customers + [c], c.email) == Some(c)
  {
    if customers != [] {
      assert (customers + [c])[1..] == customers[1..] + [c];
      FindAfterAppend(customers[1..], c);
    }
  }

  /** A known email reuses its customer: nothing is created, and the inquiry
      is linked to that customer. */
  lemma KnownEmailReusesCustomer(customers: seq<Customer>, body: Option<map<string, JsonValue>>,
                                 customerId: string, inquiryId: string, known: Customer)
    requires UniqueEmails(customers) && known in customers
    requires body.Some? && Field(body.value, "email") == Str(known.email)
    ensures Submit(customers, body, customerId, inquiryId).newCustomer.None?
    ensures var o := Submit(customers, body, customerId, inquiryId);
            o.inquiry.Some? ==> o.inquiry.value.customerId == known.id
  {
    FindUnique(customers, known);
  }

  lemma {:induction false} FindUnique(customers: seq<Customer>, c: Customer)
    requires UniqueEmails(customers) && c in customers
    ensures FindCustomer(customers, c.email) == Some(c)
  {
    var k :| 0 <= k < |customers| && customers[k] == c;
    if k > 0 {
      assert customers[0].email != c.email;
      assert customers[1..][k - 1] == c;
      assert UniqueEmails(customers[1..]) by {
        forall i, j | 0 <= i < j < |customers[1..]|
          ensures customers[1..][i].email != customers[1..][j].email
        {
          assert customers[1..][i] == customers[i + 1] && customers[1..][j] == customers[j + 1];
        }
      }
      FindUnique(customers[1..], c);
    }
  }

  /** The customer and inquiry store. */
  class ContactStore {
    var customers: seq<Customer>
    var inquiries: seq<ContactInquiry>

    ghost predicate Valid()
      reads this
    {
      UniqueEmails(customers)
    }

    constructor ()
      ensures Valid() && customers == [] && inquiries == []
    {
      customers := [];
      inquiries := [];
    }

    /** `POST /api/contact`, step by step: look the email up, create the
        customer if there is none, then record the inquiry. */
    method Post(body: Option<map<string, JsonValue>>, customerId: string, inquiryId: string)
      returns (r: ContactResponse)
      requires Valid()
      modifies this
      ensures Valid()
      ensures var o := Submit(old(customers), body, customerId, inquiryId);
              && r == o.response
              && customers == old(customers) + AsSeq(o.newCustomer)
              && inquiries == old(inquiries) + AsSeq(o.inquiry)
    {
      SubmitKeepsEmailsUnique(customers, body, customerId, inquiryId);
      if body.None? {
        return Rejected(500, "Internal server error");
      }
      var b := body.value;
      var name := Field(b, "name");
      var email := Field(b, "email");
      var message := Field(b, "message");
      if !Truthy(name) || !Truthy(email) || !Truthy(message) {
        return Rejected(400, RequiredMessage);
      }
      if !email.Str? {
        return Rejected(500, "Internal server error");
      }
      var customer := FindCustomer(customers, email.s);
      if customer.None? {
        if !name.Str? {
          return Rejected(500, "Internal server error");
        }
        var c := NewCustomer(customerId, email.s, name.s, Field(b, "phone"));
        customers := customers + [c];
        customer := Some(c);
      }
      if !name.Str? || !message.Str? {
        return Rejected(500, "Internal server error");
      }
      var inquiry := ContactInquiry(inquiryId, customer.value.id, name.s, email.s, message.s, Field(b, "phone"),
                                    Field(b, "projectType"), Field(b, "timeline"), Field(b, "budget"),
                                    "NEW", "NORMAL");
      inquiries := inquiries + [inquiry];
      r := Submitted(inquiryId);
    }
  }

  // ---------------------------------------------------------------------------
  // GET

  /** The `where` of the admin list: status and priority, each only when
      given and non-empty. */
  datatype InquiryWhere = InquiryWhere(status: Option<string>, priority: Option<string>)

  datatype ListQuery = ListQuery(where: InquiryWhere, paging: PageRequest)

  function ListWhere(query: map<string, string>): (w: InquiryWhere)
    ensures w.status.Some? <==> "status" in query && query["status"] != ""
    ensures w.priority.Some? <==> "priority" in query && query["priority"] != ""
    ensures w.status.Some? ==> w.status.value == query["status"]
    ensures w.priority.Some? ==> w.priority.value == query["priority"]
  {
    InquiryWhere(Filled(query, "status"), Filled(query, "priority"))
  }

  function ListRequest(query: map<string, string>): ListQuery {
    ListQuery(ListWhere(query), PageRequestOf(query))
  }
}
