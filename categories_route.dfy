/** app/api/admin/categories/route.ts: category creation (`POST`) behind the
    ADMIN/SUPER_ADMIN role gate. The list (`GET`) is a plain store read and is
    not part of this model. */
module CategoriesRoute {
  import opened Common
  import opened RoleGate
  import opened Slug

  datatype Category = Category(id: string, name: string, slug: string, description: JsonValue, icon: JsonValue)

  datatype PostOutcome = Created(category: Category) | Failed(status: int, error: string)

  /** The outcome of `POST` for the gated request, the new row taking id
      `newId`. There is no validation: a name that is not a string, missing
      included, makes `name.toLowerCase` throw, and the catch answers 500. */
  function CreateCategory(request: Request, newId: string): (r: PostOutcome)
    ensures r.Created? <==> request.body.Some? && Field(request.body.value, "name").Str?
    ensures r.Failed? ==> r == Failed(500, "Internal server error")
    ensures r.Created? ==>
              && r.category.id == newId
              && r.category.name == Field(request.body.value, "name").s
              && r.category.slug == Slugify(r.category.name)
              && r.category.description == Field(request.body.value, "description")
              && r.category.icon == Field(request.body.value, "icon")
  {
    match request.body
    case None => Failed(500, "Internal server error")
    case Some(b) =>
      match Field(b, "name")
      case Str(name) => Created(Category(newId, name, Slugify(name), Field(b, "description"), Field(b, "icon")))
      case _ => Failed(500, "Internal server error")
  }

  /** A missing name is a server error, not a validation error. */
  lemma MissingNameIsServerError(request: Request, newId: string)
    requires request.body.Some? && "name" !in request.body.value
    ensures CreateCategory(request, newId) == Failed(500, "Internal server error")
  {
  }

  /** A name without letters or digits, the empty name included, is accepted
      and gets the empty slug. */
  lemma NameWithoutLettersGetsEmptySlug(request: Request, newId: string, name: string)
    requires request.body.Some? && Field(request.body.value, "name") == Str(name)
    requires forall i :: 0 <= i < |name| ==> !IsAlnum(LowerChar(name[i]))
    ensures CreateCategory(request, newId).Created?
    ensures CreateCategory(request, newId).category.slug == ""
  {
    SlugifyEmpty(name);
  }

  /** The category store. */
  class CategoryTable {
    var rows: seq<Category>

    constructor ()
      ensures rows == []
    {
      rows := [];
    }

    /** `POST /api/admin/categories`: a created category is appended; a
        failure leaves the store as it was. */
    method Post(request: Request, newId: string) returns (r: PostOutcome)
      modifies this
      ensures r == CreateCategory(request, newId)
      ensures r.Created? ==> rows == old(rows) + [r.category]
      ensures r.Failed? ==> rows == old(rows)
    {
      r := CreateCategory(request, newId);
      if r.Created? {
        rows := rows + [r.category];
      }
    }
  }
}
