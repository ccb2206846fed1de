/** app/api/admin/team-stores/route.ts: the admin team-store list (`GET`) and
    team-store creation (`POST`) behind the ADMIN/SUPER_ADMIN role gate. A
    team store's slug must be unique; creation checks it first. */
module TeamStoresRoute {
  import opened Common
  import opened RoleGate
  import opened Pagination

  // ---------------------------------------------------------------------------
  // GET

  /** The `where` of the list query: the term to look for in the name, email,
      slug or description, and the status to match. */
  datatype StoreWhere = StoreWhere(search: Option<string>, status: Option<string>)

  datatype ListQuery = ListQuery(where: StoreWhere, paging: PageRequest)

  /** `where.OR` is set only for a non-empty search, `where.status` only for a
      non-empty status. */
  function ListWhere(query: map<string, string>): (w: StoreWhere)
    ensures w.search.Some? <==> "search" in query && query["search"] != ""
    ensures w.search.Some? ==> w.search.value == query["search"]
    ensures w.status.Some? <==> "status" in query && query["status"] != ""
    ensures w.status.Some? ==> w.status.value == query["status"]
  {
    var search := Param(query, "search", "");
    var status := Param(query, "status", "");
    StoreWhere(if search != "" then Some(search) else None, if status != "" then Some(status) else None)
  }

  /** What `GET` asks the store for; the response reports
      `TotalPages(total, limit)` as `pages`. */
  function ListRequest(query: map<string, string>): ListQuery {
    ListQuery(ListWhere(query), PageRequestOf(query))
  }

  // ---------------------------------------------------------------------------
  // POST

  /** The body fields stored as they are sent. */
  const PassedThrough: seq<string> := ["description", "logo", "banner", "website", "phone", "address"]

  const AdminUserId := "admin-user-id"

  datatype TeamStore = TeamStore(
    id: string, name: string, slug: string, email: string,
    status: JsonValue, isActive: JsonValue, details: map<string, JsonValue>, createdById: string)

  datatype PostOutcome = Created(store: TeamStore) | Failed(status: int, error: string)

  const ServerError := "Failed to create team store"

  ghost predicate UniqueSlugs(rows: seq<TeamStore>) {
    forall i, j :: 0 <= i < j < |rows| ==> rows[i].slug != rows[j].slug
  }

  function Details(body: map<string, JsonValue>): (d: map<string, JsonValue>)
    ensures forall k :: k in d <==> k in PassedThrough && k in body
    ensures forall k :: k in d ==> d[k] == body[k]
  {
    map k | k in body && k in PassedThrough :: body[k]
  }

  /** `findUnique({ where: { slug } })` */
  function SlugTaken(rows: seq<TeamStore>, slug: string): (b: bool)
    ensures b <==> exists i :: 0 <= i < |rows| && rows[i].slug == slug
  {
    if rows == [] then false
    else if rows[0].slug == slug then true
    else
      var b := SlugTaken(rows[1..], slug);
      assert b ==> exists i :: 0 <= i < |rows| && rows[i].slug == slug by {
        if b {
          var i :| 0 <= i < |rows[1..]| && rows[1..][i].slug == slug;
          assert rows[i + 1].slug == slug;
        }
      }
      b
  }

  /** The body `POST` can create a store from against the stores `rows`: it
      is readable, names a string name, slug and email, none of them empty,
      and the slug is not taken. */
  predicate Acceptable(rows: seq<TeamStore>, body: Option<map<string, JsonValue>>) {
    && body.Some?
    && Field(body.value, "name").Str? && Field(body.value, "slug").Str? && Field(body.value, "email").Str?
    && Truthy(Field(body.value, "name")) && Truthy(Field(body.value, "slug")) && Truthy(Field(body.value, "email"))
    && !SlugTaken(rows, Field(body.value, "slug").s)
  }

  /** The outcome of the `POST` handler's body against the stores `rows` and
      the stored admin-account ids `adminIds`, writing `creatorId` as the
      creator and giving the new row the id `newId`. A body that cannot be
      read, a name, slug or email that is truthy but not a string (the store
      refuses such a query), and a creator that is no stored account (the
      store's `createdBy` relation refuses the insert) make the handler
      throw, and the catch answers 500. */
  function CreateTeamStore(rows: seq<TeamStore>, adminIds: set<string>, body: Option<map<string, JsonValue>>,
                           newId: string, creatorId: string): (r: PostOutcome)
    ensures body.None? ==> r == Failed(500, ServerError)
    ensures body.Some? && !(Truthy(Field(body.value, "name")) && Truthy(Field(body.value, "slug"))
                            && Truthy(Field(body.value, "email")))
            ==> r == Failed(400, "Missing required fields")
    ensures body.Some? && Truthy(Field(body.value, "name")) && Field(body.value, "slug").Str?
            && Truthy(Field(body.value, "slug")) && Truthy(Field(body.value, "email"))
            && SlugTaken(rows, Field(body.value, "slug").s)
            ==> r == Failed(400, "Slug already exists")
    ensures Acceptable(rows, body) && creatorId !in adminIds ==> r == Failed(500, ServerError)
    ensures r.Created? <==> Acceptable(rows, body) && creatorId in adminIds
    ensures r.Created? ==>
              && r.store.id == newId
              && r.store.name == Field(body.value, "name").s
              && r.store.slug == Field(body.value, "slug").s
              && r.store.email == Field(body.value, "email").s
              && r.store.status == (if Truthy(Field(body.value, "status")) then Field(body.value, "status") else Str("PENDING"))
              && r.store.isActive == (if Truthy(Field(body.value, "isActive")) then Field(body.value, "isActive") else Bool(false))
              && r.store.details == Details(body.value)
              && r.store.createdById == creatorId
  {
    match body
    case None => Failed(500, ServerError)
    case Some(b) =>
      var name := Field(b, "name");
      var slug := Field(b, "slug");
      var email := Field(b, "email");
      if !Truthy(name) || !Truthy(slug) || !Truthy(email) then Failed(400, "Missing required fields")
      else if !slug.Str? then Failed(500, ServerError)
      else if SlugTaken(rows, slug.s) then Failed(400, "Slug already exists")
      else if !name.Str? || !email.Str? then Failed(500, ServerError)
      else if creatorId !in adminIds then Failed(500, ServerError)
      else
        Created(TeamStore(newId, name.s, slug.s, email.s,
                          OrElse(Field(b, "status"), Str("PENDING")), OrElse(Field(b, "isActive"), Bool(false)),
                          Details(b), creatorId))
  }

  /** `POST` as written: the creator recorded is the literal `AdminUserId`,
      whoever is signed in. */
  function CreateAsWritten(rows: seq<TeamStore>, adminIds: set<string>, request: Request, newId: string): PostOutcome {
    CreateTeamStore(rows, adminIds, request.body, newId, AdminUserId)
  }

  /** As written, the creator does not depend on who is signed in. */
  lemma CreatorIsFixed(rows: seq<TeamStore>, adminIds: set<string>, request1: Request, request2: Request, newId: string)
    requires request1.body == request2.body
    requires CreateAsWritten(rows, adminIds, request1, newId).Created?
    ensures CreateAsWritten(rows, adminIds, request2, newId).Created?
    ensures CreateAsWritten(rows, adminIds, request1, newId).store.createdById
            == CreateAsWritten(rows, adminIds, request2, newId).store.createdById
            == AdminUserId
  {
  }

  /** As written, unless some stored account happens to have the id
      `AdminUserId`, no `POST` ever creates a store: a body that passes every
      check of the handler is refused by the store, and the answer is 500. */
  lemma AsWrittenCreateRefused(rows: seq<TeamStore>, adminIds: set<string>, request: Request, newId: string)
    requires AdminUserId !in adminIds
    ensures !CreateAsWritten(rows, adminIds, request, newId).Created?
    ensures Acceptable(rows, request.body) ==> CreateAsWritten(rows, adminIds, request, newId) == Failed(500, ServerError)
  {
  }

  /** The evident intent, as the products route does it: the creator is the
      signed-in caller, `request.user.id` (a missing user throws, and the
      catch answers 500). Any stored account can then create a store. */
  function CreateAsCaller(rows: seq<TeamStore>, adminIds: set<string>, request: Request, newId: string): (r: PostOutcome)
    ensures request.user.None? ==> r == Failed(500, ServerError)
    ensures r.Created? <==> request.user.Some? && request.user.value.id in adminIds && Acceptable(rows, request.body)
    ensures r.Created? ==> r.store.createdById == request.user.value.id
  {
    if request.user.None? then Failed(500, ServerError)
    else CreateTeamStore(rows, adminIds, request.body, newId, request.user.value.id)
  }

  /** A created store never repeats a slug already in the store, so slugs stay
      unique across any sequence of creations. */
  lemma CreateKeepsSlugsUnique(rows: seq<TeamStore>, adminIds: set<string>, request: Request, newId: string)
    requires UniqueSlugs(rows)
    requires CreateAsCaller(rows, adminIds, request, newId).Created?
    ensures UniqueSlugs(rows + [CreateAsCaller(rows, adminIds, request, newId).store])
  {
    var s := CreateAsCaller(rows, adminIds, request, newId).store;
    var rows' := rows + [s];
    forall i, j | 0 <= i < j < |rows'| ensures rows'[i].slug != rows'[j].slug {
      if j == |rows| {
        assert rows'[i] == rows[i];
      } else {
        assert rows'[i] == rows[i] && rows'[j] == rows[j];
      }
    }
  }

  /** The team-store store. */
  class TeamStoreTable {
    var rows: seq<TeamStore>

    ghost predicate Valid()
      reads this
    {
      UniqueSlugs(rows)
    }

    constructor ()
      ensures Valid() && rows == []
    {
      rows := [];
    }

    /** `POST /api/admin/team-stores` from the signed-in caller of `request`,
        with the stored admin-account ids `adminIds`: on success exactly one
        store is appended; on any failure the store is unchanged. */
    method Post(request: Request, adminIds: set<string>, newId: string) returns (r: PostOutcome)
      requires Valid()
      modifies this
      ensures Valid()
      ensures r == CreateAsCaller(old(rows), adminIds, request, newId)
      ensures r.Created? ==> rows == old(rows) + [r.store]
      ensures r.Failed? ==> rows == old(rows)
    {
      r := CreateAsCaller(rows, adminIds, request, newId);
      if r.Created? {
        CreateKeepsSlugsUnique(rows, adminIds, request, newId);
        rows := rows + [r.store];
      }
    }
  }
}
