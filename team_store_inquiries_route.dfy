/** app/api/team-store-inquiries/route.ts: the public team-store inquiry form
    (`POST`, multipart form data) and the inquiry list (`GET`). */
module TeamStoreInquiriesRoute {
  import opened Common
  import opened Numbers
  import opened Pagination

  /** A multipart form entry: a text value or an uploaded file (its name). */
  datatype FormValue = Text(s: string) | Upload(fileName: string)

  /** The form: `formData.get(key)` is `null` for a key it does not hold. */
  type Form = map<string, FormValue>

  /** `!!formData.get(key)`: present, and not the empty text (a file object
      is always truthy). */
  predicate Given(form: Form, key: string) {
    key in form && form[key] != Text("")
  }

  datatype TeamStoreInquiry = TeamStoreInquiry(
    id: string, name: string, email: string, phone: Option<string>, organization: string,
    website: Option<string>, description: string, logo: Option<string>, design: Option<string>,
    status: string, priority: string)

  datatype InquiryResponse = Accepted(inquiry: TeamStoreInquiry) | Failed(status: int, error: string)

  const LogoFolder := "/uploads/logos/"
  const DesignFolder := "/uploads/designs/"

  /** The URL recorded for an upload field, `stamp` standing for the
      `Date.now()` of the request: `null` when nothing was sent (or the empty
      text), `folder + stamp + '-' + file.name` for a file. A non-empty text
      is truthy too, and its `.name` reads as `undefined`. */
  function UploadUrl(form: Form, key: string, folder: string, stamp: nat): (url: Option<string>)
    ensures url.None? <==> !Given(form, key)
    ensures url.Some? ==> StartsWith(url.value, folder)
    ensures url.Some? && form[key].Upload? ==>
              |url.value| >= |form[key].fileName| && url.value[|url.value| - |form[key].fileName|..] == form[key].fileName
  {
    if !Given(form, key) then None
    else
      var name := match form[key] case Upload(n) => n case Text(_) => "undefined";
      var url := folder + NatToDecimal(stamp) + "-" + name;
      assert url[..|folder|] == folder;
      assert url[|url| - |name|..] == name;
      Some(url)
  }

  /** The file name in an upload URL: what follows the first `-` after the folder. */
  function FileNameOf(url: string, folder: string): string
    requires StartsWith(url, folder)
  {
    AfterFirstHyphen(url[|folder|..])
  }

  function AfterFirstHyphen(s: string): string {
    if s == [] then []
    else if s[0] == '-' then s[1..]
    else AfterFirstHyphen(s[1..])
  }

  lemma {:induction false} AfterDigits(digits: string, rest: string)
    requires forall i :: 0 <= i < |digits| ==> '0' <= digits[i] <= '9'
    ensures AfterFirstHyphen(digits + "-" + rest) == rest
  {
    if digits == [] {
      assert digits + "-" + rest == ['-'] + rest;
    } else {
      assert (digits + "-" + rest)[1..] == digits[1..] + "-" + rest;
      AfterDigits(digits[1..], rest);
    }
  }

  /** The uploaded file's name can be read back from the URL recorded for it:
      the time stamp is all digits, so the first `-` ends it. */
  lemma UploadUrlRoundTrip(form: Form, key: string, folder: string, stamp: nat)
    requires key in form && form[key].Upload?
    ensures UploadUrl(form, key, folder, stamp).Some?
    ensures FileNameOf(UploadUrl(form, key, folder, stamp).value, folder) == form[key].fileName
  {
    var url := UploadUrl(form, key, folder, stamp).value;
    var digits := NatToDecimal(stamp);
    assert url == folder + (digits + "-" + form[key].fileName);
    assert url[|folder|..] == digits + "-" + form[key].fileName;
    AfterDigits(digits, form[key].fileName);
  }

  /** `value || null` for an optional text field. */
  function TextOrNull(form: Form, key: string): (r: Option<string>)
    requires key in form ==> form[key].Text?
    ensures r.None? <==> !Given(form, key)
    ensures r.Some? ==> Text(r.value) == form[key]
  {
    if Given(form, key) then Some(form[key].s) else None
  }

  function TextOf(form: Form, key: string): string
    requires key in form && form[key].Text?
  {
    form[key].s
  }

  const Required: seq<string> := ["name", "email", "organization", "description"]
  const Optional: seq<string> := ["phone", "website"]

  /** `POST` with the form `form` (`None` when it cannot be read); the new row
      takes id `newId`, and the two upload stamps are the `Date.now()` values
      read for the logo and for the design. A file where the store expects
      text makes the insert throw, and the catch answers 500. */
  function Submit(form: Option<Form>, newId: string, logoStamp: nat, designStamp: nat): (r: InquiryResponse)
    ensures form.None? ==> r == Failed(500, "Failed to submit inquiry")
    ensures form.Some? && (exists k :: k in Required && !Given(form.value, k)) ==> r == Failed(400, "Missing required fields")
    ensures r.Accepted? <==>
              && form.Some?
              && (forall k :: k in Required ==> Given(form.value, k) && form.value[k].Text?)
              && (forall k :: k in Optional && k in form.value ==> form.value[k].Text?)
    ensures r.Accepted? ==>
              && r.inquiry.id == newId
              && r.inquiry.status == "NEW" && r.inquiry.priority == "NORMAL"
              && form.Some? && Given(form.value, "name") && Given(form.value, "email")
              && Given(form.value, "organization") && Given(form.value, "description")
              && Text(r.inquiry.name) == form.value["name"] && Text(r.inquiry.email) == form.value["email"]
              && Text(r.inquiry.organization) == form.value["organization"]
              && Text(r.inquiry.description) == form.value["description"]
              && (r.inquiry.phone.None? <==> !Given(form.value, "phone"))
              && (r.inquiry.phone.Some? ==> Text(r.inquiry.phone.value) == form.value["phone"])
              && (r.inquiry.website.None? <==> !Given(form.value, "website"))
              && (r.inquiry.website.Some? ==> Text(r.inquiry.website.value) == form.value["website"])
              && r.inquiry.logo == UploadUrl(form.value, "logo", LogoFolder, logoStamp)
              && r.inquiry.design == UploadUrl(form.value, "design", DesignFolder, designStamp)
  {
    match form
    case None => Failed(500, "Failed to submit inquiry")
    case Some(f) =>
      if !Given(f, "name") || !Given(f, "email") || !Given(f, "organization") || !Given(f, "description") then
        Failed(400, "Missing required fields")
      else if !f["name"].Text? || !f["email"].Text? || !f["organization"].Text? || !f["description"].Text?
              || ("phone" in f && !f["phone"].Text?) || ("website" in f && !f["website"].Text?) then
        Failed(500, "Failed to submit inquiry")
      else
        Accepted(TeamStoreInquiry(newId, TextOf(f, "name"), TextOf(f, "email"), TextOrNull(f, "phone"),
                                  TextOf(f, "organization"), TextOrNull(f, "website"), TextOf(f, "description"),
                                  UploadUrl(f, "logo", LogoFolder, logoStamp),
                                  UploadUrl(f, "design", DesignFolder, designStamp), "NEW", "NORMAL"))
  }

  /** An accepted inquiry with an empty phone or website stores null for it,
      and a logo sent as a file is recorded under the logo folder with its name. */
  lemma EmptyOptionalsAreNull(form: Form, newId: string, logoStamp: nat, designStamp: nat)
    requires Submit(Some(form), newId, logoStamp, designStamp).Accepted?
    requires "phone" in form && form["phone"] == Text("")
    requires "logo" in form && form["logo"].Upload?
    ensures var i := Submit(Some(form), newId, logoStamp, designStamp).inquiry;
            && i.phone.None?
            && i.logo.Some? && StartsWith(i.logo.value, LogoFolder)
            && FileNameOf(i.logo.value, LogoFolder) == form["logo"].fileName
  {
    UploadUrlRoundTrip(form, "logo", LogoFolder, logoStamp);
  }

  /** The inquiry store. */
  class InquiryTable {
    var rows: seq<TeamStoreInquiry>

    constructor ()
      ensures rows == []
    {
      rows := [];
    }

    /** `POST /api/team-store-inquiries`: an accepted inquiry is appended; any
        other outcome leaves the store as it was. */
    method Post(form: Option<Form>, newId: string, logoStamp: nat, designStamp: nat) returns (r: InquiryResponse)
      modifies this
      ensures r == Submit(form, newId, logoStamp, designStamp)
      ensures r.Accepted? ==> rows == old(rows) + [r.inquiry]
      ensures r.Failed? ==> rows == old(rows)
    {
      r := Submit(form, newId, logoStamp, designStamp);
      if r.Accepted? {
        rows := rows + [r.inquiry];
      }
    }
  }

  // ---------------------------------------------------------------------------
  // GET

  /** The `where` of the list: the search term (over name, email,
      organization and description), the status and the priority, each set
      only when its parameter is non-empty. */
  datatype InquiryWhere = InquiryWhere(search: Option<string>, status: Option<string>, priority: Option<string>)

  datatype ListQuery = ListQuery(where: InquiryWhere, paging: PageRequest)

  function ListWhere(query: map<string, string>): (w: InquiryWhere)
    ensures w.search.Some? <==> "search" in query && query["search"] != ""
    ensures w.status.Some? <==> "status" in query && query["status"] != ""
    ensures w.priority.Some? <==> "priority" in query && query["priority"] != ""
    ensures w.search.Some? ==> w.search.value == query["search"]
    ensures w.status.Some? ==> w.status.value == query["status"]
    ensures w.priority.Some? ==> w.priority.value == query["priority"]
  {
    var search := Param(query, "search", "");
    var status := Param(query, "status", "");
    var priority := Param(query, "priority", "");
    InquiryWhere(if search != "" then Some(search) else None,
                 if status != "" then Some(status) else None,
                 if priority != "" then Some(priority) else None)
  }

  function ListRequest(query: map<string, string>): ListQuery {
    ListQuery(ListWhere(query), PageRequestOf(query))
  }
}
