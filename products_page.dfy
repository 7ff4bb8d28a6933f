/** The products page: the local product filter, the product and category
    forms, and the guards before saving them. */
module ProductsPage {
  import opened Wrappers
  import opened SeqUtil
  import opened Decimal
  import opened ApiCall
  import opened ProductsApi

  /** The value of both filter selects that means "no filter". */
  const All := "all"

  /** The product filter: a category other than "all" must equal the
      product's category id as text, and a tipo other than "all" must
      equal its conservation tipo's text. */
  predicate KeepProduct(p: Producto, filterCategoria: string, filterTipo: string) {
    (filterCategoria == All || IntToString(p.categoria) == filterCategoria) &&
    (filterTipo == All || ConservacionText(p.tipo_conservacion) == filterTipo)
  }

  function KeepPred(filterCategoria: string, filterTipo: string): Producto -> bool {
    p => KeepProduct(p, filterCategoria, filterTipo)
  }

  /** filteredProducts. */
  function FilteredProducts(productos: seq<Producto>, filterCategoria: string, filterTipo: string): seq<Producto> {
    Filter(productos, KeepPred(filterCategoria, filterTipo))
  }

  /** The filtered list is a subsequence of the products holding exactly
      those that pass both filters. */
  lemma FilteredProductsSpec(productos: seq<Producto>, filterCategoria: string, filterTipo: string)
    ensures IsSubseq(FilteredProducts(productos, filterCategoria, filterTipo), productos)
    ensures forall p :: p in FilteredProducts(productos, filterCategoria, filterTipo) <==>
      p in productos && KeepProduct(p, filterCategoria, filterTipo)
  {
    FilterIsSubseq(productos, KeepPred(filterCategoria, filterTipo));
    forall p ensures p in FilteredProducts(productos, filterCategoria, filterTipo) <==> p in productos && KeepProduct(p, filterCategoria, filterTipo) {
      FilterMembership(productos, KeepPred(filterCategoria, filterTipo), p);
    }
  }

  /** Both filters on "all" leave the list unchanged. */
  lemma FilteredProductsAll(productos: seq<Producto>)
    ensures FilteredProducts(productos, All, All) == productos
  {
    FilterAll(productos, KeepPred(All, All));
  }

  /** Selecting a category (its id as text) keeps exactly the products of
      that category, and selecting a tipo keeps exactly that tipo. */
  lemma FilteredProductsSelected(productos: seq<Producto>, categoria: int, tipo: Conservacion)
    ensures forall p :: p in FilteredProducts(productos, IntToString(categoria), ConservacionText(tipo)) <==>
      p in productos && p.categoria == categoria && p.tipo_conservacion == tipo
  {
    FilteredProductsSpec(productos, IntToString(categoria), ConservacionText(tipo));
    assert IntToString(categoria) != All by {
      assert IntToString(categoria)[0] == '-' || IsDigit(IntToString(categoria)[0]);
    }
    assert ConservacionText(tipo) != All;
    forall p | p in productos
      ensures KeepProduct(p, IntToString(categoria), ConservacionText(tipo)) <==> p.categoria == categoria && p.tipo_conservacion == tipo
    {
      if IntToString(p.categoria) == IntToString(categoria) {
        IntToStringInjective(p.categoria, categoria);
      }
      if ConservacionText(p.tipo_conservacion) == ConservacionText(tipo) {
        assert ParseConservacion(ConservacionText(p.tipo_conservacion)) == Some(p.tipo_conservacion);
      }
    }
  }

  // ---------------------------------------------------------------------------
  // The product form

  /** openProductForm: an edited product's fields, with a missing sku
      shown as "", or the defaults of a new product. */
  function FormFor(product: Option<Producto>, categorias: seq<Categoria>): (f: ProductoCreateUpdate)
    ensures product.Some? ==>
      var p := product.value;
      f.nombre == p.nombre && f.categoria == p.categoria && f.tipo_conservacion == p.tipo_conservacion &&
      f.precio_venta == p.precio_venta && f.costo_compra == p.costo_compra &&
      f.sku == Some(if p.sku.Some? then p.sku.value else "")
    ensures product.None? ==>
      f.nombre == "" && f.categoria == (if categorias == [] then 0 else categorias[0].id) &&
      f.tipo_conservacion == Ambiente && f.precio_venta == "" && f.costo_compra == "" && f.sku == Some("")
  {
    match product
    case Some(p) =>
      ProductoCreateUpdate(p.nombre, p.categoria, p.tipo_conservacion, p.precio_venta, p.costo_compra, Some(p.sku.GetOr("")))
    case None =>
      ProductoCreateUpdate("", if categorias == [] then 0 else categorias[0].id, Ambiente, "", "", Some(""))
  }

  /** The product form as the page starts. */
  const InitialProductForm := ProductoCreateUpdate("", 0, Ambiente, "", "", Some(""))

  const MissingFieldsMessage := "Completá todos los campos obligatorios"
  const MissingNombreMessage := "El nombre es obligatorio"

  /** handleSaveProduct up to the request: nothing when the name is empty or
      no category is chosen; otherwise an update of the edited product or a
      create, each carrying the form unchanged. */
  function SaveProductRequest(editing: Option<Producto>, form: ProductoCreateUpdate): (r: Option<Call<ProductsBody>>)
    ensures r.None? <==> form.nombre == "" || form.categoria == 0
    ensures r.Some? && editing.Some? ==>
      r.value.verb == PUT && r.value.path == IdPath(ProductosPath, editing.value.id) && r.value.body == Some(ProductoBody(form))
    ensures r.Some? && editing.None? ==>
      r.value.verb == POST && r.value.path == ProductosPath && r.value.body == Some(ProductoBody(form))
  {
    if form.nombre == "" || form.categoria == 0 then None
    else if editing.Some? then Some(UpdateProducto(editing.value.id, form))
    else Some(CreateProducto(form))
  }

  /** handleSaveCat up to the request: nothing when the name is empty. */
  function SaveCatRequest(editing: Option<Categoria>, form: CategoriaCreateUpdate): (r: Option<Call<ProductsBody>>)
    ensures r.None? <==> form.nombre == ""
    ensures r.Some? && editing.Some? ==>
      r.value.verb == PUT && r.value.path == IdPath(CategoriasPath, editing.value.id) && r.value.body == Some(CategoriaBody(form))
    ensures r.Some? && editing.None? ==>
      r.value.verb == POST && r.value.path == CategoriasPath && r.value.body == Some(CategoriaBody(form))
  {
    if form.nombre == "" then None
    else if editing.Some? then Some(UpdateCategoria(editing.value.id, form))
    else Some(CreateCategoria(form))
  }

  class ProductsView {
    var err: Option<string>
    var showProductForm: bool
    var editingProduct: Option<Producto>
    var productForm: ProductoCreateUpdate
    var showCatForm: bool
    var editingCat: Option<Categoria>
    var catForm: CategoriaCreateUpdate

    constructor ()
      ensures err == None && !showProductForm && editingProduct == None && productForm == InitialProductForm
      ensures !showCatForm && editingCat == None && catForm == CategoriaCreateUpdate("")
    {
      err := None;
      showProductForm := false;
      editingProduct := None;
      productForm := InitialProductForm;
      showCatForm := false;
      editingCat := None;
      catForm := CategoriaCreateUpdate("");
    }

    /** openProductForm: the form shows the product (or the defaults) and
        remembers which product is edited. */
    method OpenProductForm(product: Option<Producto>, categorias: seq<Categoria>)
      modifies this`editingProduct, this`productForm, this`showProductForm
      ensures editingProduct == product && productForm == FormFor(product, categorias) && showProductForm
    {
      editingProduct := product;
      productForm := FormFor(product, categorias);
      showProductForm := true;
    }

    /** handleSaveProduct: a refused form sets its message and sends
        nothing; after a save the data is reloaded (`reloaded` is that
        reload's outcome, whose error `loadData` keeps to itself) and the
        form closes; a failed save keeps it open with the error's message. */
    method SaveProduct(saved: Result<(), Option<string>>, reloaded: Result<(), Option<string>>) returns (request: Option<Call<ProductsBody>>)
      modifies this`err, this`showProductForm, this`editingProduct
      ensures request == SaveProductRequest(old(editingProduct), productForm)
      ensures request.None? ==>
        err == Some(MissingFieldsMessage) && showProductForm == old(showProductForm) && editingProduct == old(editingProduct)
      ensures request.Some? && saved.Ok? ==> err == LoadDataError(reloaded) && !showProductForm && editingProduct == None
      ensures request.Some? && saved.Err? ==>
        err == Some(saved.error.GetOr("Error guardando producto")) &&
        showProductForm == old(showProductForm) && editingProduct == old(editingProduct)
    {
      request := SaveProductRequest(editingProduct, productForm);
      if request.None? {
        err := Some(MissingFieldsMessage);
        return;
      }
      err := None;
      match saved {
        case Ok(_) =>
          err := LoadDataError(reloaded);
          showProductForm := false;
          editingProduct := None;
        case Err(message) =>
          err := Some(message.GetOr("Error guardando producto"));
      }
    }

    /** openCatForm: the form shows the category's name, or is empty. */
    method OpenCatForm(cat: Option<Categoria>)
      modifies this`editingCat, this`catForm, this`showCatForm
      ensures editingCat == cat && showCatForm
      ensures catForm == CategoriaCreateUpdate(if cat.Some? then cat.value.nombre else "")
    {
      editingCat := cat;
      catForm := CategoriaCreateUpdate(if cat.Some? then cat.value.nombre else "");
      showCatForm := true;
    }

    /** handleSaveCat, as handleSaveProduct for the category form. */
    method SaveCat(saved: Result<(), Option<string>>, reloaded: Result<(), Option<string>>) returns (request: Option<Call<ProductsBody>>)
      modifies this`err, this`showCatForm, this`editingCat
      ensures request == SaveCatRequest(old(editingCat), catForm)
      ensures request.None? ==>
        err == Some(MissingNombreMessage) && showCatForm == old(showCatForm) && editingCat == old(editingCat)
      ensures request.Some? && saved.Ok? ==> err == LoadDataError(reloaded) && !showCatForm && editingCat == None
      ensures request.Some? && saved.Err? ==>
        err == Some(saved.error.GetOr("Error guardando categoría")) &&
        showCatForm == old(showCatForm) && editingCat == old(editingCat)
    {
      request := SaveCatRequest(editingCat, catForm);
      if request.None? {
        err := Some(MissingNombreMessage);
        return;
      }
      err := None;
      match saved {
        case Ok(_) =>
          err := LoadDataError(reloaded);
          showCatForm := false;
          editingCat := None;
        case Err(message) =>
          err := Some(message.GetOr("Error guardando categoría"));
      }
    }
  }
}
