/** The product and category endpoints: the records they carry and the
    request each endpoint function builds. */
module ProductsApi {
  import opened Wrappers
  import opened Decimal
  import opened ApiCall
  import opened QueryString
  import opened SeqUtil

  datatype Conservacion = Ambiente | Heladera | Freezer

  function ConservacionText(t: Conservacion): string {
    match t
    case Ambiente => "ambiente"
    case Heladera => "heladera"
    case Freezer => "freezer"
  }

  /** Reads a storage kind back from its wire text. */
  function ParseConservacion(s: string): (r: Option<Conservacion>)
    ensures forall t :: r == Some(t) <==> s == ConservacionText(t)
  {
    if s == "ambiente" then Some(Ambiente)
    else if s == "heladera" then Some(Heladera)
    else if s == "freezer" then Some(Freezer)
    else None
  }

  datatype Categoria = Categoria(id: int, nombre: string)

  datatype Producto = Producto(
    id: int,
    nombre: string,
    categoria: int,
    categoria_nombre: string,
    tipo_conservacion: Conservacion,
    precio_venta: string,
    costo_compra: string,
    sku: Option<string>)

  /** The body of a product create or update; the prices travel as the
      strings the form holds. */
  datatype ProductoCreateUpdate = ProductoCreateUpdate(
    nombre: string,
    categoria: int,
    tipo_conservacion: Conservacion,
    precio_venta: string,
    costo_compra: string,
    sku: Option<string>)

  datatype CategoriaCreateUpdate = CategoriaCreateUpdate(nombre: string)

  datatype ProductsBody = ProductoBody(producto: ProductoCreateUpdate) | CategoriaBody(categoria: CategoriaCreateUpdate)

  /** The optional filters of the product list; a missing argument is the
      all-None filter. */
  datatype ProductosFilter = ProductosFilter(tipo_conservacion: Option<string>, categoria: Option<int>, search: Option<string>)

  const NoFilter := ProductosFilter(None, None, None)

  const ProductosPath := "/api/products/productos/"
  const CategoriasPath := "/api/products/categorias/"

  /** The three guarded `query.set` lines of the product list, in order. */
  function ProductosCandidates(params: Option<ProductosFilter>): seq<Candidate> {
    var f := params.GetOr(NoFilter);
    [ Candidate(StrTruthy(f.tipo_conservacion), Param("tipo_conservacion", f.tipo_conservacion.GetOr(""))),
      Candidate(IntTruthy(f.categoria), Param("categoria", IntToString(f.categoria.GetOr(0)))),
      Candidate(StrTruthy(f.search), Param("search", f.search.GetOr(""))) ]
  }

  /** listProductos: the filters that are set, as a query string. */
  method ListProductos(params: Option<ProductosFilter>) returns (call: Call<ProductsBody>)
    ensures call == Call(GET, WithQuery(ProductosPath, Emitted(ProductosCandidates(params))), None)
  {
    var f := params.GetOr(NoFilter);
    ghost var cs := ProductosCandidates(params);
    var query := new SearchParams();
    assert cs[..0] == [];
    SetFresh(cs[..0], cs[0]);
    assert cs[..0] + [cs[0]] == cs[..1];
    if StrTruthy(f.tipo_conservacion) {
      query.Set("tipo_conservacion", f.tipo_conservacion.value);
    }
    SetFresh(cs[..1], cs[1]);
    assert cs[..1] + [cs[1]] == cs[..2];
    if IntTruthy(f.categoria) {
      query.Set("categoria", IntToString(f.categoria.value));
    }
    SetFresh(cs[..2], cs[2]);
    assert cs[..2] + [cs[2]] == cs;
    if StrTruthy(f.search) {
      query.Set("search", f.search.value);
    }
    var queryString := query.ToString();
    call := Call(GET, ProductosPath + (if queryString != "" then "?" + queryString else ""), None);
  }

  function GetProducto(id: int): Call<ProductsBody> {
    Call(GET, IdPath(ProductosPath, id), None)
  }

  function CreateProducto(body: ProductoCreateUpdate): Call<ProductsBody> {
    Call(POST, ProductosPath, Some(ProductoBody(body)))
  }

  function UpdateProducto(id: int, body: ProductoCreateUpdate): Call<ProductsBody> {
    Call(PUT, IdPath(ProductosPath, id), Some(ProductoBody(body)))
  }

  function DeleteProducto(id: int): Call<ProductsBody> {
    Call(DELETE, IdPath(ProductosPath, id), None)
  }

  function ListCategorias(): Call<ProductsBody> {
    Call(GET, CategoriasPath, None)
  }

  function CreateCategoria(body: CategoriaCreateUpdate): Call<ProductsBody> {
    Call(POST, CategoriasPath, Some(CategoriaBody(body)))
  }

  function UpdateCategoria(id: int, body: CategoriaCreateUpdate): Call<ProductsBody> {
    Call(PUT, IdPath(CategoriasPath, id), Some(CategoriaBody(body)))
  }

  function DeleteCategoria(id: int): Call<ProductsBody> {
    Call(DELETE, IdPath(CategoriasPath, id), None)
  }

  /** What the server side of the two collections makes of a request. */
  datatype ProductsEndpoint =
    | ProductoList(filters: seq<Param>)
    | ProductoCreate(producto: ProductoCreateUpdate)
    | ProductoRetrieve(id: int)
    | ProductoUpdate(id: int, producto: ProductoCreateUpdate)
    | ProductoDestroy(id: int)
    | CategoriaList
    | CategoriaCreate(categoria: CategoriaCreateUpdate)
    | CategoriaUpdate(id: int, categoria: CategoriaCreateUpdate)
    | CategoriaDestroy(id: int)

  /** The router: the independent reading of a request that the builders
      are checked against. */
  function Route(c: Call<ProductsBody>): Option<ProductsEndpoint> {
    if c.path == ProductosPath then
      match (c.verb, c.body)
      case (GET, None) => Some(ProductoList([]))
      case (POST, Some(ProductoBody(b))) => Some(ProductoCreate(b))
      case _ => None
    else if HasQuery(ProductosPath, c.path) then
      if c.verb == GET && c.body.None? then Some(ProductoList(ReadQuery(ProductosPath, c.path).value)) else None
    else if c.path == CategoriasPath then
      match (c.verb, c.body)
      case (GET, None) => Some(CategoriaList)
      case (POST, Some(CategoriaBody(b))) => Some(CategoriaCreate(b))
      case _ => None
    else RouteRecord(c)
  }

  /** A request for one product or one category. */
  function RouteRecord(c: Call<ProductsBody>): Option<ProductsEndpoint> {
    match ReadIdPath(ProductosPath, c.path)
    case Some((id, "")) => ProductoAt(id, c.verb, c.body)
    case _ =>
      match ReadIdPath(CategoriasPath, c.path)
      case Some((id, "")) => CategoriaAt(id, c.verb, c.body)
      case _ => None
  }

  function ProductoAt(id: int, verb: Method, body: Option<ProductsBody>): Option<ProductsEndpoint> {
    match (verb, body)
    case (GET, None) => Some(ProductoRetrieve(id))
    case (PUT, Some(ProductoBody(b))) => Some(ProductoUpdate(id, b))
    case (DELETE, None) => Some(ProductoDestroy(id))
    case _ => None
  }

  function CategoriaAt(id: int, verb: Method, body: Option<ProductsBody>): Option<ProductsEndpoint> {
    match (verb, body)
    case (PUT, Some(CategoriaBody(b))) => Some(CategoriaUpdate(id, b))
    case (DELETE, None) => Some(CategoriaDestroy(id))
    case _ => None
  }

  /** The product list request carries exactly the filters that are set. */
  lemma RouteProductList(params: Option<ProductosFilter>)
    requires WellFormed(Emitted(ProductosCandidates(params)))
    ensures Route(Call(GET, WithQuery(ProductosPath, Emitted(ProductosCandidates(params))), None))
         == Some(ProductoList(Emitted(ProductosCandidates(params))))
  {
    ReadWithQuery(ProductosPath, Emitted(ProductosCandidates(params)));
  }

  /** A record path neither is a collection path nor carries a query. */
  lemma RecordPathShape(base: string, id: int)
    ensures |IdPath(base, id)| > |base| + 1
    ensures IdPath(base, id)[..|base|] == base
    ensures IdPath(base, id)[|base|] != '?'
  {
    var s := IntToString(id);
    IntToStringChars(id);
    assert IdPath(base, id)[|base|] == s[0];
  }

  /** A product path is routed to that product. */
  lemma RouteProductPath(id: int, verb: Method, body: Option<ProductsBody>)
    ensures Route(Call(verb, IdPath(ProductosPath, id), body)) == ProductoAt(id, verb, body)
  {
    var p := IdPath(ProductosPath, id);
    ProductPathIsRecord(id);
    ReadIdPathOf(ProductosPath, id, "");
    assert p + "" == p;
  }

  /** A product path is neither a list path nor a query on the product list. */
  lemma ProductPathIsRecord(id: int)
    ensures var p := IdPath(ProductosPath, id);
      p != ProductosPath && !HasQuery(ProductosPath, p) && p != CategoriasPath
  {
    RecordPathShape(ProductosPath, id);
    assert |IdPath(ProductosPath, id)| > |CategoriasPath|;
  }

  /** A category path is routed to that category. */
  lemma RouteCategoryPath(id: int, verb: Method, body: Option<ProductsBody>)
    ensures Route(Call(verb, IdPath(CategoriasPath, id), body)) == CategoriaAt(id, verb, body)
  {
    var p := IdPath(CategoriasPath, id);
    RecordPathShape(CategoriasPath, id);
    ReadIdPathOf(CategoriasPath, id, "");
    assert p + "" == p;
    assert |p| > |CategoriasPath|;
    assert p[14] == 'c' && ProductosPath[14] == 'p';
    assert p != ProductosPath;
    assert p[..|ProductosPath|] != ProductosPath by {
      assert p[..|ProductosPath|][14] == p[14];
    }
    assert !HasQuery(ProductosPath, p) by {
      assert (ProductosPath + "?")[14] == 'p';
      if |ProductosPath| < |p| {
        assert p[..|ProductosPath| + 1][14] == p[14];
      }
    }
    assert ReadIdPath(ProductosPath, p) == None;
    assert p != CategoriasPath;
  }

  lemma RouteProductRecords(id: int, body: ProductoCreateUpdate)
    ensures Route(CreateProducto(body)) == Some(ProductoCreate(body))
    ensures Route(GetProducto(id)) == Some(ProductoRetrieve(id))
    ensures Route(UpdateProducto(id, body)) == Some(ProductoUpdate(id, body))
    ensures Route(DeleteProducto(id)) == Some(ProductoDestroy(id))
  {
    RouteProductPath(id, GET, None);
    RouteProductPath(id, PUT, Some(ProductoBody(body)));
    RouteProductPath(id, DELETE, None);
  }

  lemma RouteCategories(id: int, body: CategoriaCreateUpdate)
    ensures Route(ListCategorias()) == Some(CategoriaList)
    ensures Route(CreateCategoria(body)) == Some(CategoriaCreate(body))
    ensures Route(UpdateCategoria(id, body)) == Some(CategoriaUpdate(id, body))
    ensures Route(DeleteCategoria(id)) == Some(CategoriaDestroy(id))
  {
    assert CategoriasPath != ProductosPath;
    RouteCategoryPath(id, PUT, Some(CategoriaBody(body)));
    RouteCategoryPath(id, DELETE, None);
  }

  /** The list filters: each is sent exactly when it is set (truthy), with
      its own value, in the order tipo_conservacion, categoria, search; with
      none set the path has no query at all. */
  lemma ProductosQuerySpec(params: Option<ProductosFilter>)
    ensures var f := params.GetOr(NoFilter); var ps := Emitted(ProductosCandidates(params));
      && (HasName(ps, "tipo_conservacion") <==> StrTruthy(f.tipo_conservacion))
      && (HasName(ps, "categoria") <==> IntTruthy(f.categoria))
      && (HasName(ps, "search") <==> StrTruthy(f.search))
      && (IntTruthy(f.categoria) ==> Param("categoria", IntToString(f.categoria.value)) in ps)
      && (StrTruthy(f.search) ==> Param("search", f.search.value) in ps)
      && (StrTruthy(f.tipo_conservacion) ==> Param("tipo_conservacion", f.tipo_conservacion.value) in ps)
      && IsSubseq(ps, Params(ProductosCandidates(params)))
      && (params.None? ==> WithQuery(ProductosPath, ps) == ProductosPath)
      && (!StrTruthy(f.tipo_conservacion) && !IntTruthy(f.categoria) && !StrTruthy(f.search) ==> WithQuery(ProductosPath, ps) == ProductosPath)
  {
    var cs := ProductosCandidates(params);
    EmittedHasUniqueName(cs, 0, "tipo_conservacion");
    EmittedHasUniqueName(cs, 1, "categoria");
    EmittedHasUniqueName(cs, 2, "search");
    EmittedMembership(cs, cs[0].param);
    EmittedMembership(cs, cs[1].param);
    EmittedMembership(cs, cs[2].param);
    EmittedInOrder(cs);
    if forall i :: 0 <= i < |cs| ==> !cs[i].present {
      EmittedNone(ProductosPath, cs);
    }
  }
}
