/** CategoryService: create, read, update and delete on the category table. */
module Categories {
  import opened Common
  import opened Entities
  import opened Tables

  class CategoryService {
    const categories: Table<Category>

    ghost predicate Valid()
      reads this, categories
    {
      categories.Valid() && Keyed(categories.rows, (c: Category) => c.id)
    }

    constructor (categories: Table<Category>)
      requires categories.Valid() && Keyed(categories.rows, (c: Category) => c.id)
      ensures Valid() && this.categories == categories
    {
      this.categories := categories;
    }

    /** getAllCategories: exactly the stored categories. */
    method GetAllCategories() returns (all: set<Category>)
      requires Valid()
      ensures forall c :: c in all <==> exists k :: k in categories.rows && categories.rows[k] == c
      ensures |all| == |categories.rows|
    {
      all := categories.FindAll();
      KeyedRecordsDistinct(categories.rows, (c: Category) => c.id);
    }

    /** getCategoryById: present exactly when the id is stored, and then the stored category. */
    method GetCategoryById(id: int) returns (r: Option<Category>)
      ensures r.Some? <==> id in categories.rows
      ensures r.Some? ==> r.value == categories.rows[id]
    {
      r := categories.FindById(id);
    }

    /** createCategory: one save, which keeps the category's own id or draws a fresh one, and
        answers with the saved category. */
    method CreateCategory(category: Category) returns (saved: Category)
      requires Valid()
      modifies categories
      ensures Valid()
      ensures saved.id.Some? && saved == category.(id := saved.id)
      ensures categories.rows == old(categories.rows)[saved.id.value := saved]
      ensures category.id.Some? ==> saved.id == category.id
      ensures category.id.None? ==> saved.id.value !in old(categories.rows)
    {
      var key := categories.KeyForSave(category.id);
      saved := category.(id := Some(key));
      categories.Put(key, saved);
    }

    /** updateCategory: overwrite an existing category, under the path id; unknown ids are
        refused. */
    method UpdateCategory(id: int, category: Category) returns (r: Result<Category>)
      requires Valid()
      modifies categories
      ensures Valid()
      ensures id !in old(categories.rows) ==>
        r == Failure(IllegalArgument("Category not found")) && categories.rows == old(categories.rows)
      ensures id in old(categories.rows) ==>
        && r == Success(category.(id := Some(id)))
        && categories.rows == old(categories.rows)[id := category.(id := Some(id))]
    {
      if categories.ExistsById(id) {
        var updated := category.(id := Some(id));
        categories.Put(id, updated);
        r := Success(updated);
      } else {
        r := Failure(IllegalArgument("Category not found"));
      }
    }

    /** deleteCategory: answers with what was stored under the id (possibly nothing) and removes
        it. The store's delete is called whether or not the id exists, so a failing store always
        surfaces as the call's failure. */
    method DeleteCategory(id: int, storeFails: bool) returns (r: Result<Option<Category>>)
      requires Valid()
      modifies categories
      ensures Valid()
      ensures storeFails ==> r == Failure(StoreFailure) && categories.rows == old(categories.rows)
      ensures !storeFails ==>
        && r == Success(if id in old(categories.rows) then Some(old(categories.rows)[id]) else None)
        && categories.rows == old(categories.rows) - {id}
    {
      var deleted := categories.FindById(id);
      var ok := categories.DeleteById(id, storeFails);
      if !ok {
        return Failure(StoreFailure);
      }
      r := Success(deleted);
    }
  }
}
