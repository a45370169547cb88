/** The admin server actions of src/app/admin/actions.ts: the access guard and
    the product store they read and change. The store is the products
    collection: documents by id, and the ids in insertion order (the natural
    order `find()` returns them in). */
module Admin {
  import opened Wrappers
  import opened Catalog
  import Enums
  import ProductSort
  import AdminConfig
  import Storefront

  /** The signed-in user of a session; the email may be absent. */
  datatype User = User(email: Option<string>)

  /** A session, which may lack a user. */
  datatype Session = Session(user: Option<User>)

  /** What `checkAdminAccess` does: return the session, or redirect. */
  datatype Access = Granted(session: Session) | RedirectToLogin | RedirectToHome

  /** `checkAdminAccess` on the session `getServerSession` returned. */
  function CheckAdminAccess(session: Option<Session>): (r: Access)
    ensures r == RedirectToLogin <==> session.None? || session.value.user.None?
    ensures r.Granted? <==> session.Some? && session.value.user.Some? && session.value.user.value.email.Some?
                            && AdminConfig.IsAdminEmail(session.value.user.value.email.value)
    ensures r.Granted? ==> r.session == session.value
  {
    if session.None? || session.value.user.None? then RedirectToLogin
    else
      var email := session.value.user.value.email;
      if email.None? || !AdminConfig.IsAdminEmail(email.value) then RedirectToHome
      else Granted(session.value)
  }

  /** A session whose user has no email is sent home, not to the login page. */
  lemma NoEmailGoesHome(session: Session)
    requires session.user.Some? && session.user.value.email.None?
    ensures CheckAdminAccess(Some(session)) == RedirectToHome
  {
  }

  /** The fields read from the product form, after `parseFloat` and `JSON.parse`.
      A missing status is `""`. */
  datatype ProductForm = ProductForm(
    name: string,
    description: string,
    price: real,
    category: string,
    status: string,
    sizes: seq<string>,
    images: seq<string>,
    variants: seq<Variant>)

  /** The status `createProduct` stores: the form's, or `HIDE` when it has none. */
  function CreateStatus(form: ProductForm): (s: string)
    ensures form.status == "" ==> s == Enums.Status.Hide.Value()
    ensures form.status != "" ==> s == form.status
  {
    if form.status != "" then form.status else Enums.Status.Hide.Value()
  }

  /** The document `createProduct` saves, with the store-assigned id and time stamp. */
  function NewProduct(form: ProductForm, id: string, now: int): (p: Product)
    ensures p.id == id && p.createdAt == now && p.status == CreateStatus(form)
    ensures p.name == form.name && p.description == form.description && p.price == form.price
    ensures p.category == form.category && p.sizes == form.sizes && p.images == form.images
    ensures p.variants == form.variants && p.discount == 0.0
  {
    Product(id, form.name, form.description, form.price, 0.0, form.category, CreateStatus(form),
            form.sizes, form.images, form.variants, now)
  }

  /** The document after `updateProduct`: every form field written, the status as
      the form has it, id, discount and time stamp kept. */
  function UpdatedProduct(p: Product, form: ProductForm): (q: Product)
    ensures q.id == p.id && q.createdAt == p.createdAt && q.discount == p.discount
    ensures q.name == form.name && q.description == form.description && q.price == form.price
    ensures q.category == form.category && q.status == form.status && q.sizes == form.sizes
    ensures q.images == form.images && q.variants == form.variants
  {
    p.(name := form.name, description := form.description, price := form.price,
       category := form.category, status := form.status, sizes := form.sizes,
       images := form.images, variants := form.variants)
  }

  /** The document after `deleteProduct`: only the status changes. */
  function SoftDeleted(p: Product): (q: Product)
    ensures q.status == Enums.Status.Deleted.Value()
    ensures q.(status := p.status) == p
  {
    p.(status := Enums.Status.Deleted.Value())
  }

  /** A product created without a status does not show in the shop. */
  lemma CreatedWithoutStatusIsHidden(form: ProductForm, id: string, now: int)
    requires form.status == ""
    ensures !Storefront.IsVisible(NewProduct(form, id, now))
  {
    assert "HIDE"[0] != "VISIBLE"[0];
  }

  /** A deleted product no longer shows in the shop, whatever its status was. */
  lemma DeletedIsHidden(p: Product)
    ensures !Storefront.IsVisible(SoftDeleted(p))
  {
    assert "DELETED"[0] != "VISIBLE"[0];
  }

  /** What the actions return to the admin pages. */
  datatype ActionResult =
    | Created(productId: string)          // { success: true, productId }
    | Updated(product: Product)           // { success: true, product }
    | Removed                             // { success: true }
    | Failed(error: string)               // { success: false, error }

  /** The products collection. */
  class ProductStore {
    var products: map<string, Product>
    var ids: seq<string>

    /** Every document is stored under its own id, and `ids` lists each id once. */
    ghost predicate Valid()
      reads this
    {
      && (forall id :: id in products ==> products[id].id == id)
      && (forall i :: 0 <= i < |ids| ==> ids[i] in products)
      && (forall id :: id in products ==> id in ids)
      && (forall i, j :: 0 <= i < j < |ids| ==> ids[i] != ids[j])
    }

    /** The documents in natural order. */
    function All(): (r: seq<Product>)
      requires Valid()
      reads this
      ensures |r| == |ids|
      ensures forall i :: 0 <= i < |r| ==> r[i] == products[ids[i]]
    {
      var docs, order := products, ids;
      seq(|order|, i requires 0 <= i < |order| && order[i] in docs => docs[order[i]])
    }

    /** An empty collection. */
    constructor ()
      ensures Valid() && products == map[] && ids == []
    {
      products := map[];
      ids := [];
    }

    /** `createProduct`. The new id comes from the database and is not in use. */
    method Create(session: Option<Session>, dbOk: bool, form: ProductForm, newId: string, now: int)
      returns (r: ActionResult)
      requires Valid() && newId !in products
      modifies this
      ensures Valid()
      ensures CheckAdminAccess(session).Granted? && dbOk ==>
        r == Created(newId) && products == old(products)[newId := NewProduct(form, newId, now)]
        && ids == old(ids) + [newId]
      ensures !(CheckAdminAccess(session).Granted? && dbOk) ==>
        r == Failed("Failed to create product") && products == old(products) && ids == old(ids)
    {
      if !CheckAdminAccess(session).Granted? || !dbOk {
        return Failed("Failed to create product");
      }
      products := products[newId := NewProduct(form, newId, now)];
      ids := ids + [newId];
      r := Created(newId);
    }

    /** `updateProduct`. */
    method Update(session: Option<Session>, dbOk: bool, id: string, form: ProductForm)
      returns (r: ActionResult)
      requires Valid()
      modifies this
      ensures Valid() && ids == old(ids)
      ensures !(CheckAdminAccess(session).Granted? && dbOk) ==>
        r == Failed("Failed to update product") && products == old(products)
      ensures CheckAdminAccess(session).Granted? && dbOk && id !in old(products) ==>
        r == Failed("Product not found") && products == old(products)
      ensures CheckAdminAccess(session).Granted? && dbOk && id in old(products) ==>
        products == old(products)[id := UpdatedProduct(old(products)[id], form)]
        && r == Updated(products[id])
    {
      if !CheckAdminAccess(session).Granted? || !dbOk {
        return Failed("Failed to update product");
      }
      if id !in products {
        return Failed("Product not found");
      }
      var updated := UpdatedProduct(products[id], form);
      products := products[id := updated];
      r := Updated(updated);
    }

    /** `deleteProduct`: a soft delete. */
    method Delete(session: Option<Session>, dbOk: bool, id: string) returns (r: ActionResult)
      requires Valid()
      modifies this
      ensures Valid() && ids == old(ids) && products.Keys == old(products).Keys
      ensures !(CheckAdminAccess(session).Granted? && dbOk) ==>
        r == Failed("Failed to delete product") && products == old(products)
      ensures CheckAdminAccess(session).Granted? && dbOk && id !in old(products) ==>
        r == Failed("Product not found") && products == old(products)
      ensures CheckAdminAccess(session).Granted? && dbOk && id in old(products) ==>
        r == Removed && products == old(products)[id := SoftDeleted(old(products)[id])]
    {
      if !CheckAdminAccess(session).Granted? || !dbOk {
        return Failed("Failed to delete product");
      }
      if id !in products {
        return Failed("Product not found");
      }
      products := products[id := SoftDeleted(products[id])];
      r := Removed;
    }

    /** `getAllProductsForAdmin`: every document whatever its status, newest first.
        The database leaves the order of equal `createdAt` open; the model keeps
        such documents in insertion order. */
    method GetAllForAdmin(session: Option<Session>, dbOk: bool) returns (r: Result<seq<Product>>)
      requires Valid()
      ensures CheckAdminAccess(session).Granted? && dbOk ==>
        r == Success(ProductSort.Sort(ProductSort.NewestFirst, All()))
      ensures !(CheckAdminAccess(session).Granted? && dbOk) ==> r == Failure("Failed to fetch products")
    {
      if !CheckAdminAccess(session).Granted? || !dbOk {
        return Failure("Failed to fetch products");
      }
      r := Success(ProductSort.Sort(ProductSort.NewestFirst, All()));
    }

    /** `getProductForAdmin`: `findById`, whatever the status; `null` when absent. */
    method GetForAdmin(session: Option<Session>, dbOk: bool, id: string) returns (r: Result<Option<Product>>)
      requires Valid()
      ensures CheckAdminAccess(session).Granted? && dbOk ==>
        r == Success(if id in products then Some(products[id]) else None)
      ensures !(CheckAdminAccess(session).Granted? && dbOk) ==> r == Failure("Failed to fetch product")
    {
      if !CheckAdminAccess(session).Granted? || !dbOk {
        return Failure("Failed to fetch product");
      }
      r := Success(if id in products then Some(products[id]) else None);
    }
  }

  /** The admin list holds every document once and is ordered newest first. */
  lemma AdminListing(all: seq<Product>)
    ensures multiset(ProductSort.Sort(ProductSort.NewestFirst, all)) == multiset(all)
    ensures forall i, j :: 0 <= i < j < |ProductSort.Sort(ProductSort.NewestFirst, all)| ==>
      ProductSort.Sort(ProductSort.NewestFirst, all)[i].createdAt
      >= ProductSort.Sort(ProductSort.NewestFirst, all)[j].createdAt
  {
    ProductSort.SortSorted(ProductSort.NewestFirst, all);
  }

  /** `getCategories`: `Object.values(ProductCategory)`. */
  function GetCategories(): (r: seq<string>)
    ensures |r| == 3 && forall c: Enums.Category :: c.Value() in r
  {
    Enums.ProductCategoryValues
  }

  /** `getStatuses`: `Object.values(ProductStatus)`. */
  function GetStatuses(): (r: seq<string>)
    ensures |r| == 3 && forall s: Enums.Status :: s.Value() in r
  {
    Enums.ProductStatusValues
  }
}
