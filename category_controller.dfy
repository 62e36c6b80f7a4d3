/** The category handlers (controllers/categoryController.js). The
    category schema file is not part of this model; the record holds the
    fields these handlers read and write. */
module CategoryController {
  import opened Common
  import opened CategoryModel
  import opened Db

  /** The `parentCategory` of a request body: absent, `null`, or an id. */
  datatype ParentInput = Undefined | Null | Ref(id: CategoryId)

  /** Every active category's parent, when it has one, is an active
      category. */
  predicate ParentsLive(categories: map<CategoryId, Category>)
  {
    forall c :: c in categories && categories[c].status == Active && categories[c].parentCategory.Some? ==>
      IsLiveCategory(categories, categories[c].parentCategory.value)
  }

  /** No two categories share a name. */
  predicate NamesUnique(categories: map<CategoryId, Category>)
  {
    forall a, b :: a in categories && b in categories && categories[a].name == categories[b].name ==> a == b
  }

  /** A given parent must be an active category. */
  predicate ParentOk(categories: map<CategoryId, Category>, parent: ParentInput)
  {
    parent.Ref? ==> IsLiveCategory(categories, parent.id)
  }

  /** The parent stored at creation: `parentCategory || null`. */
  function CreatedParent(parent: ParentInput): (r: Option<CategoryId>)
    ensures r.Some? <==> parent.Ref?
  {
    if parent.Ref? then Some(parent.id) else None
  }

  // ---------------------------------------------------------------------
  // Create
  // ---------------------------------------------------------------------

  /** createCategory's guards: 400 for a name any category (deleted ones
      included) already has, 404 for a parent that is missing or deleted. */
  function CreateGuard(categories: map<CategoryId, Category>, name: string, parent: ParentInput): (r: Status)
    ensures r in {Created, BadRequest, NotFound}
    ensures r == Created <==> !NameTaken(categories, name) && ParentOk(categories, parent)
    ensures NameTaken(categories, name) ==> r == BadRequest
  {
    if NameTaken(categories, name) then BadRequest
    else if !ParentOk(categories, parent) then NotFound
    else Created
  }

  /** createCategory: on success an active category with the name and
      parent is inserted. Both invariants are kept. */
  method CreateCategory(db: Store, name: string, parent: ParentInput, newId: CategoryId) returns (status: Status)
    requires newId !in db.categories
    modifies db`categories
    ensures status == CreateGuard(old(db.categories), name, parent)
    ensures status != Created ==> db.categories == old(db.categories)
    ensures status == Created ==>
      db.categories == old(db.categories)[newId := Category(name, CreatedParent(parent), Active)]
    ensures ParentsLive(old(db.categories)) ==> ParentsLive(db.categories)
    ensures NamesUnique(old(db.categories)) ==> NamesUnique(db.categories)
  {
    if NameTaken(db.categories, name) {
      return BadRequest;
    }
    if parent.Ref? {
      if !(parent.id in db.categories && db.categories[parent.id].status != Deleted) {
        return NotFound;
      }
    }
    db.categories := db.categories[newId := Category(name, if parent.Ref? then Some(parent.id) else None, Active)];
    status := Created;
  }

  // ---------------------------------------------------------------------
  // Update
  // ---------------------------------------------------------------------

  /** A rename is checked only when a truthy name different from the
      current one is given. */
  predicate Renames(c: Category, name: Option<string>)
  {
    Truthy(name) && name.value != c.name
  }

  /** updateCategory's guards in their order: 404 for a missing or deleted
      category, 400 for a rename to a taken name, 404 for a missing or
      deleted parent, 400 for the category itself as parent. Only the
      direct self-reference is refused. */
  function UpdateGuard(categories: map<CategoryId, Category>, id: CategoryId, name: Option<string>, parent: ParentInput): (r: Status)
    ensures r in {Ok, BadRequest, NotFound}
    ensures r == Ok <==>
      && IsLiveCategory(categories, id)
      && !(Renames(categories[id], name) && NameTaken(categories, name.value))
      && ParentOk(categories, parent)
      && parent != Ref(id)
    ensures !IsLiveCategory(categories, id) ==> r == NotFound
  {
    if !IsLiveCategory(categories, id) then NotFound
    else if Renames(categories[id], name) && NameTaken(categories, name.value) then BadRequest
    else if !ParentOk(categories, parent) then NotFound
    else if parent == Ref(id) then BadRequest
    else Ok
  }

  /** The updated record: `name || category.name`, and the parent replaced
      whenever the request has the key, `null` included. */
  function Updated(c: Category, name: Option<string>, parent: ParentInput): (r: Category)
    ensures r.name == if Truthy(name) then name.value else c.name
    ensures r.parentCategory == match parent
      case Undefined => c.parentCategory
      case Null => None
      case Ref(p) => Some(p)
    ensures r.status == c.status
  {
    Category(if Truthy(name) then name.value else c.name,
             match parent
             case Undefined => c.parentCategory
             case Null => None
             case Ref(p) => Some(p),
             c.status)
  }

  /** updateCategory: the answer is `UpdateGuard`'s; on success the
      category becomes `Updated`, and both invariants are kept. */
  method UpdateCategory(db: Store, id: CategoryId, name: Option<string>, parent: ParentInput) returns (status: Status)
    modifies db`categories
    ensures status == UpdateGuard(old(db.categories), id, name, parent)
    ensures status != Ok ==> db.categories == old(db.categories)
    ensures status == Ok ==> db.categories == old(db.categories)[id := Updated(old(db.categories)[id], name, parent)]
    ensures ParentsLive(old(db.categories)) ==> ParentsLive(db.categories)
    ensures NamesUnique(old(db.categories)) ==> NamesUnique(db.categories)
  {
    if !(id in db.categories && db.categories[id].status != Deleted) {
      return NotFound;
    }
    var category := db.categories[id];
    if Truthy(name) && name.value != category.name {
      if NameTaken(db.categories, name.value) {
        return BadRequest;
      }
    }
    if parent.Ref? {
      if !(parent.id in db.categories && db.categories[parent.id].status != Deleted) {
        return NotFound;
      }
      if parent.id == id {
        return BadRequest;
      }
    }
    db.categories := db.categories[id := Updated(category, name, parent)];
    status := Ok;
  }

  /** Only the direct self-parent is refused: with `a` a child of `b`,
      making `b` a child of `a` is accepted and leaves the two categories
      each other's parent. */
  lemma TwoCategoryCycleAccepted(categories: map<CategoryId, Category>, a: CategoryId, b: CategoryId)
    requires a != b && IsLiveCategory(categories, a) && IsLiveCategory(categories, b)
    requires categories[a].parentCategory == Some(b)
    ensures UpdateGuard(categories, b, None, Ref(a)) == Ok
    ensures var after := categories[b := Updated(categories[b], None, Ref(a))];
      after[a].parentCategory == Some(b) && after[b].parentCategory == Some(a)
  {
  }

  // ---------------------------------------------------------------------
  // Delete
  // ---------------------------------------------------------------------

  /** deleteCategory's guards: 404 for a missing category, 400 for one
      already deleted or with an active subcategory. */
  function DeleteGuard(categories: map<CategoryId, Category>, id: CategoryId): (r: Status)
    ensures r in {Ok, BadRequest, NotFound}
    ensures r == Ok <==> IsLiveCategory(categories, id) && !HasActiveChild(categories, id)
    ensures id !in categories ==> r == NotFound
  {
    if id !in categories then NotFound
    else if categories[id].status == Deleted then BadRequest
    else if HasActiveChild(categories, id) then BadRequest
    else Ok
  }

  /** deleteCategory: on success only the status changes, to "deleted".
      Since no active category has it as parent, every active category
      still has a live parent. */
  method DeleteCategory(db: Store, id: CategoryId) returns (status: Status)
    modifies db`categories
    ensures status == DeleteGuard(old(db.categories), id)
    ensures status != Ok ==> db.categories == old(db.categories)
    ensures status == Ok ==> db.categories == old(db.categories)[id := old(db.categories)[id].(status := Deleted)]
    ensures ParentsLive(old(db.categories)) ==> ParentsLive(db.categories)
    ensures NamesUnique(old(db.categories)) ==> NamesUnique(db.categories)
  {
    if id !in db.categories {
      return NotFound;
    }
    var category := db.categories[id];
    if category.status == Deleted {
      return BadRequest;
    }
    if exists c :: c in db.categories && db.categories[c].parentCategory == Some(id) && db.categories[c].status == Active {
      return BadRequest;
    }
    db.categories := db.categories[id := category.(status := Deleted)];
    status := Ok;
  }
}
