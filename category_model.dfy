/** The category record as the category handlers use it: a unique name, an
    optional parent and a soft-delete status. */
module CategoryModel {
  import opened Common

  datatype CategoryStatus = Active | Deleted

  datatype Category = Category(name: string, parentCategory: Option<CategoryId>, status: CategoryStatus)

  predicate NameTaken(categories: map<CategoryId, Category>, name: string)
  {
    exists id :: id in categories && categories[id].name == name
  }

  predicate IsLiveCategory(categories: map<CategoryId, Category>, id: CategoryId)
  {
    id in categories && categories[id].status == Active
  }

  /** `Category.find({ parentCategory: id, status: "active" })` is non-empty. */
  predicate HasActiveChild(categories: map<CategoryId, Category>, id: CategoryId)
  {
    exists c :: c in categories && categories[c].parentCategory == Some(id) && categories[c].status == Active
  }
}
