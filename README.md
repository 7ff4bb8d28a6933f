# cStock client core in Dafny

cStock is a stock-management web client for a chain of branches (`sucursal`)
and one central warehouse (`almacen`). Branch users draft purchase orders
(`pedidos`), submit them for review and record their receipt into
sub-locations (fridge, freezer, ambient shelf). The admin approves or rejects
orders, looks at stock and sales per location, and manages the product
catalogue. The server owns the order lifecycle and the stock counts. The
client only builds requests, validates forms and arranges the lists it gets
back. This project models that client-side logic and proves what it promises.

Each source file of the core has its own module:

- `OrdersApi`, `ProductsApi`, `StockApi` and `ReportsApi` hold the records the
  endpoints exchange and the request (method, path, body) that each endpoint
  function builds.
  - The query builders are methods over a `SearchParams` class, as
    `URLSearchParams` is used in the source. Each method is proved equal to a
    pure description. Lemmas then state the order of the emitted parameters,
    when each is present, and that the server reads back exactly what was sent.
  - A small router in `OrdersApi` and in `ProductsApi` reads a request back
    into the endpoint it addresses, which shows that every builder hits its
    own endpoint.
- `ReceivePage`, `OrdersPage` and `ProductsPage` are the three form pages.
  Each has a pure function for its validation and payload. A class holds the
  page state its handlers change: the chosen destinations, the draft rows,
  the open product or category form.
- `AdminStock` and `AdminSales` are the two admin views.
  - `AdminStock` covers the colour and badge of a stock row, the per-panel
    counts, the `groupBy` loop, the drill-down panels, and one card per
    location.
  - `AdminSales` covers the `ventasPorSuc` loop, the sales cards and the item
    label.
- `Locations` holds the location records and the comparator both admin views
  sort by.
- `OrderStatus`, `PdfGenerator`, `Layout` and `Storage` model the status
  badge map, the purchase-order text (order number, file name, destination
  and state lines, table rows), the sidebar (active link, items per role) and
  the session store.
- Shared modules:
  - `Wrappers`: `Option` and `Result`, and JavaScript truthiness of optional
    numbers and strings.
  - `Decimal`: decimal text of integers, with its parser and round trip.
  - `SeqUtil`: filters, buckets, key order, counting and a stable
    insertion sort.
  - `SeqMap`: `map` over a sequence, with concatenation and permutation.
  - `QueryString`: URL query strings, their parser, and the `SearchParams`
    class.
  - `ApiCall`: the request descriptor and id paths.

Some behaviour of the program is not available to the model, and enters its
functions as parameters instead:

- the result of every network call;
- `Number(...)` of a typed id;
- the collation order of `localeCompare`, as an abstract comparator
  `nameCmp` (or `keyCmp`). The sorting lemmas require it to be a total
  preorder (`Locations.Collation`).

## Model

| member | source | states |
|---|---|---|
| OrdersApi.ParseEstado | src/api/orders.ts:3 | an order state is exactly one of the five wire strings: parsing gives e iff the text is e's text |
| OrdersApi.RouteCollection | src/api/orders.ts:56-62 | listing is a GET of the collection; create is a POST of the collection carrying the body unchanged |
| OrdersApi.RouteActions | src/api/orders.ts:64-81 | submit, approve, reject and receive are POSTs to `/api/inventory/pedidos/{id}/{action}/`; approve without a body sends `{provisto_desde_almacen: false}` and with one sends it unchanged; submit and reject carry no body; receive carries its body unchanged |
| OrdersApi.RouteItem | src/api/orders.ts:82-92 | get, update and delete address `/api/inventory/pedidos/{id}/` with GET, PUT and DELETE; update carries its body unchanged |
| OrdersApi.RouteUnderId | src/api/orders.ts:64-92 | any request under an order's id path is read back with that same id and the rest of the path |
| OrdersApi.BuildersInjective | src/api/orders.ts:64-92 | requests for different order ids differ, and submitting differs from rejecting |
| OrderStatus.GetOrderStatusBadge | src/utils/orderStatus.ts:4-14 | the label always equals the status; the variant is `default` exactly when the status has no entry; a known status gets its mapped badge |
| OrderStatus.KeysHaveDistinctVariants | src/utils/orderStatus.ts:4-10 | the five keys map to five different variants |
| OrderStatus.WireStatesFallToDefault | src/utils/orderStatus.ts:4-13 | the lookup is exact: the lower-case wire states and `Rechazado` get the `default` variant |
| PdfGenerator.PadStart | src/utils/pdfGenerator.ts:35 | the padded text is max(length, n) long, ends with the input and is padding before it |
| PdfGenerator.OrderNumberReadsBack | src/utils/pdfGenerator.ts:35 | the order number consists of digits only and parses back to the id |
| PdfGenerator.OrderNumberLength | src/utils/pdfGenerator.ts:35 | the order number has at least 6 characters, exactly 6 for ids below a million, and ids of 6 or more digits are unchanged |
| PdfGenerator.FileNameIdentifiesOrder | src/utils/pdfGenerator.ts:35-145 | the file name carries the same number as the header; different ids give different file names |
| PdfGenerator.Capitalize | src/utils/pdfGenerator.ts:71 | same length; the first character is upper-cased and the rest is unchanged |
| PdfGenerator.EstadoLines | src/utils/pdfGenerator.ts:71 | each of the five states prints as its capitalised name |
| PdfGenerator.DestinoTexto | src/utils/pdfGenerator.ts:67 | the destination print uses the given branch name if non-empty, else the order's name if non-empty, else "Sucursal " followed by the id |
| PdfGenerator.TableRows | src/utils/pdfGenerator.ts:78-88 | one row per item, in order, holding the product name and the quantity text |
| PdfGenerator.TableQuantitiesReadBack | src/utils/pdfGenerator.ts:78-88 | each row's quantity text parses back to the item's quantity |
| PdfGenerator.GenerarOrdenCompra | src/utils/pdfGenerator.ts:145-150 | the file name is `Orden_Compra_` + the header's number + `.pdf`, with one table row per item |
| ReceivePage.BuildPreset | src/pages/Receive.tsx:39-43 | the preset loop computes the preset map of all the items |
| ReceivePage.PresetOfSpec | src/pages/Receive.tsx:39-43 | the preset has exactly the ids of items that come with a destination; each maps to the destination of the last such item |
| ReceivePage.PresetDistinctIds | src/pages/Receive.tsx:39-43 | with distinct item ids, every item that comes with a destination is preset to it |
| ReceivePage.ReceiveBodyOf | src/pages/Receive.tsx:68-74 | one entry per item, in order, with the item's id and its chosen destination, else its preset one, else 0 |
| ReceivePage.Confirmar | src/pages/Receive.tsx:57-84 | no order, no items and a missing destination are refused in that order; each refusal holds exactly when its condition does; otherwise the request is the receive POST of that body, and every destination in it is positive |
| ReceivePage.FaltanDestinosMatchesValidation | src/pages/Receive.tsx:18-21 | the corrected button check holds exactly when confirming is refused for a missing destination |
| ReceivePage.AsWrittenIsSound | src/pages/Receive.tsx:18-21 | when the check as written reports a missing destination, one is really missing |
| ReceivePage.AsWrittenMissesClearedChoice | src/pages/Receive.tsx:18-21 | counterexample: an item with a preset destination whose choice was reset to the empty option passes the button check but is refused on confirm |
| ReceivePage.ReceiveView.BuscarPedido | src/pages/Receive.tsx:23-51 | a falsy id is refused with its message and no request; otherwise the order is fetched; on success the choices become the preset; on failure the order and the choices are cleared and the error's message (or the fallback) is shown |
| ReceivePage.ReceiveView.ElegirDestino | src/pages/Receive.tsx:115-117 | choosing a destination changes that item's entry only |
| ReceivePage.ReceiveView.ConfirmDisabled | src/pages/Receive.tsx:18-21 | the confirm button as rendered at line 182, on the check as written; when it is disabled, confirming would indeed be refused for a missing destination |
| ReceivePage.ReceiveView.ConfirmDisabledIntended | src/pages/Receive.tsx:68-80 | the button of line 182 on the corrected check: disabled exactly when confirming would be refused for a missing destination |
| ReceivePage.ReceiveView.ConfirmarRecepcion | src/pages/Receive.tsx:53-95 | a refusal shows its message and sends nothing; a failed post shows the error; after a successful post the success message is shown and the order is reloaded, or the reload's error is shown next to it |
| OrdersPage.UpdateField | src/pages/Orders.tsx:91-94 | only the named field takes the new value; the other two are kept |
| OrdersPage.WithoutIndex | src/pages/Orders.tsx:87-89 | removing index i drops exactly the element at i and keeps the rest in order; an index outside the list changes nothing |
| OrdersPage.FindProducto | src/pages/Orders.tsx:117-118 | the result is the first product with that id, and is absent exactly when no product has it |
| OrdersPage.CostoSnapshot | src/pages/Orders.tsx:119-123 | the cost sent is the row's own if non-empty, else the product's purchase cost if it is found and non-empty, else "0"; it is never empty |
| OrdersPage.ItemsToSend | src/pages/Orders.tsx:117-124 | one create item per row, in order, with the row's product and quantity and its cost snapshot |
| OrdersPage.OnCreate | src/pages/Orders.tsx:98-126 | no destination, no rows and a row without a product are refused in that order; each refusal holds exactly when its condition does; otherwise the request is the create POST with the destination and the rows to send |
| OrdersPage.OnCreateSendsEveryRow | src/pages/Orders.tsx:98-126 | a sent create request is a POST to the collection carrying every row with a chosen product, its quantity and a non-empty cost |
| OrdersPage.PedidosPorEstadoGroups | src/pages/Orders.tsx:153-159 | each group holds exactly the orders in its state, as a subsequence of the orders |
| OrdersPage.PedidosPorEstadoPartition | src/pages/Orders.tsx:153-159 | the five groups laid end to end are a permutation of the orders |
| OrdersPage.EnviarARevisionOnlyDrafts | src/pages/Orders.tsx:410-419 | the submit action is offered for the draft orders and for no order in another group |
| OrdersPage.OrderForm.CreateDisabled | src/pages/Orders.tsx:369 | the create button is disabled exactly when onCreate would refuse for a missing destination or an empty list, whatever the products |
| OrdersPage.OrderForm.AddItem | src/pages/Orders.tsx:83-85 | one new row `{0, 1, "0"}` is appended at the end |
| OrdersPage.OrderForm.RemoveItem | src/pages/Orders.tsx:87-89 | exactly the row at the index is removed |
| OrdersPage.OrderForm.UpdateItem | src/pages/Orders.tsx:91-94 | only the row at the index changes, and only in the named field |
| OrdersPage.OrderForm.SeleccionarProducto | src/pages/Orders.tsx:300-313 | the row takes the product id and the product's purchase cost when it is found, else keeps its cost; other rows are unchanged |
| OrdersPage.OrderForm.Crear | src/pages/Orders.tsx:98-138 | a refusal shows its message and sends nothing; after a successful create the form closes, the rows are cleared and the destination is reset, and the error is whatever the reload of lines 33-67 leaves (none, the reload's message or "Error cargando datos"); a failed create keeps the form and shows the error |
| ApiCall.LoadDataError | src/pages/Orders.tsx:33-67 | the error `loadData` leaves: none exactly when the reload succeeds, otherwise the failure's message or "Error cargando datos" |
| ProductsApi.ParseConservacion | src/api/products.ts:3-30 | a conservation type is exactly one of its three wire strings |
| ProductsApi.ListProductos | src/api/products.ts:32-40 | the listing request is a GET of the products path followed by the query of the filters that are set |
| ProductsApi.ProductosQuerySpec | src/api/products.ts:34-39 | each filter is emitted iff it is truthy (empty strings and 0 omitted), with its value, in the order tipo_conservacion, categoria, search; with no filters, or with every filter falsy, the path is exact and has no "?" |
| ProductsApi.RouteProductList | src/api/products.ts:32-40 | when no emitted value (the search term or the conservation type) holds '&', the server reads the listing back as a listing with exactly the emitted filters |
| ProductsApi.RouteProductRecords | src/api/products.ts:42-56 | get, update and delete address `/api/products/productos/{id}/` with GET, PUT and DELETE; create POSTs its body unchanged |
| ProductsApi.RouteCategories | src/api/products.ts:58-72 | listing and create address the categories path; update and delete address `/api/products/categorias/{id}/`; bodies pass unchanged |
| StockApi.ListStock | src/api/stock.ts:17-31 | the request is a GET of the stock path followed by the query of the filters that are set |
| StockApi.StockQuerySpec | src/api/stock.ts:23-30 | each id filter is emitted iff it is non-zero, `solo_con_stock=true` iff the flag is true, in the order ubicacion, sub_ubicacion, producto, solo_con_stock; "?" only before a non-empty query; with no filters, or with every filter falsy, the path is exact and has no "?" |
| StockApi.StockQueryReadBack | src/api/stock.ts:23-30 | the server reads back exactly the emitted pairs |
| ReportsApi.GetReporteEconomico | src/api/reports.ts:27-35 | the request is a GET of the report path followed by the query of the filters that are set |
| ReportsApi.ReporteQuerySpec | src/api/reports.ts:29-34 | each filter is appended iff it is truthy (sucursal 0 and empty dates omitted), with its value, in the order sucursal, fecha_desde, fecha_hasta; with no filters, or with every filter falsy, the path is exact and has no "?" |
| ReportsApi.ReporteQueryReadBack | src/api/reports.ts:29-34 | with dates free of '&' the server reads back exactly the appended pairs |
| QueryString.SearchParams.Set | src/api/stock.ts:23-27 | `set` gives the first pair of that name the new value where it stands and drops the later pairs of that name, or appends a new pair when there is none; pairs with other names are kept, in order |
| QueryString.SearchParams.Append | src/api/reports.ts:29-31 | `append` adds the pair at the end |
| Locations.LocationCmp | src/pages/AdminStockView.tsx:395-400 | an almacen sorts after a non-almacen and vice versa; two locations of the same kind compare by name |
| Locations.LocationLePreorder | src/pages/AdminStockView.tsx:395-400 | for a consistent collation the comparator is a total preorder |
| Locations.SortLocationsSpec | src/pages/AdminStockView.tsx:395-400 | the sorted locations are a permutation of the input; every almacen comes after every branch, and within a kind names are in collation order |
| SeqUtil.InsertionSort | src/pages/AdminStockView.tsx:394-399 | sorting an array in place leaves in it exactly the stable insertion-sorted sequence of its old contents |
| SeqUtil.InsertInto | src/pages/AdminStockView.tsx:394-399 | one pass moves an element right past every element it does not precede, leaving the prefix before it unchanged |
| Locations.SortSucursales | src/pages/AdminStockView.tsx:394-399 | `sucursales.sort(...)` rearranges the location array in place into the sorted order that SortLocationsSpec describes |
| AdminStock.StockColorOf | src/pages/AdminStockView.tsx:53-58 | red iff quantity <= 0, orange iff 1-9, yellow iff 10-19, emerald iff >= 20 |
| AdminStock.TipoBadgeVariant | src/pages/AdminStockView.tsx:47-51 | pending iff heladera, draft iff freezer, approved for anything else |
| AdminStock.ColorsMatchCounts | src/pages/AdminStockView.tsx:53-80 | the out-of-stock rows are the red ones, the low-stock rows the orange ones, and no row is both |
| AdminStock.Counts | src/pages/AdminStockView.tsx:78-80 | products = rows, units = sum of quantities, and the low-stock and out-of-stock counts together never exceed the rows |
| AdminStock.CountsSpec | src/pages/AdminStockView.tsx:78-80 | the low-stock count is the number of rows with 0 < quantity < 10, the out-of-stock count those with quantity <= 0 |
| AdminStock.UnidadesConcat | src/pages/AdminStockView.tsx:249 | the unit total of two row lists is the sum of their totals |
| AdminStock.FilterTipoSpec | src/pages/AdminStockView.tsx:198-200 | "all" returns the rows unchanged; any other value keeps exactly the rows of that product type, in order |
| AdminStock.LoadPath | src/pages/AdminStockView.tsx:172-175 | with the only-in-stock switch the request is `/api/inventory/stock/?solo_con_stock=true`, without it the bare path |
| AdminStock.GroupBy | src/pages/AdminStockView.tsx:66-72 | the accumulating loop computes the grouping of the whole input |
| AdminStock.GroupedSnoc | src/pages/AdminStockView.tsx:66-72 | pushing one element adds it at the end of its own key's bucket and changes no other bucket |
| AdminStock.GroupedSpec | src/pages/AdminStockView.tsx:66-72 | the keys are exactly those that occur; each bucket holds exactly the elements of its key, in input order, and is non-empty; the buckets in key order are a permutation of the input |
| AdminStock.SplitThree | src/pages/AdminStockView.tsx:304-316 | a key of three `|||`-free fields splits back into them |
| AdminStock.PanelTitleOf | src/pages/AdminStockView.tsx:304-316 | a panel's title and type come back from its key |
| AdminStock.DetailPanelsCount | src/pages/AdminStockView.tsx:303 | there is one drill-down panel per distinct sub-location key of the location's rows |
| AdminStock.DetailPanelsOrder | src/pages/AdminStockView.tsx:304-310 | the panels are sorted by key in collation order |
| AdminStock.DetailPanelsRows | src/pages/AdminStockView.tsx:244-248 | each panel holds exactly the location's rows with its key, in order, and has the counts of those rows |
| AdminStock.DetailPanelsCover | src/pages/AdminStockView.tsx:244-248 | the panels' rows together are a permutation of the location's rows |
| AdminStock.LocationCardsSpec | src/pages/AdminStockView.tsx:394-407 | the cards follow the sorted locations; each card's rows are exactly the filtered rows of its location, in order, and its counts are computed from them |
| AdminStock.RenderLocationCards | src/pages/AdminStockView.tsx:394-407 | the grid sorts the location state array in place and then maps it to the cards LocationCardsSpec describes |
| AdminStock.CardsCoverRows | src/pages/AdminStockView.tsx:394-403 | when the location ids are distinct and cover every row, the rows of the rendered cards (sorted locations, one card each) taken together are a permutation of the filtered rows |
| AdminStock.SubUbicacionCountSpec | src/pages/AdminStockView.tsx:362 | the sub-location summary is the number of distinct sub-location ids in the filtered rows |
| AdminSales.VentasDeSpec | src/pages/AdminSalesView.tsx:153 | the detail view lists exactly the sales of the selected location, in order |
| AdminSales.VentasPorSuc | src/pages/AdminSalesView.tsx:234-237 | the loop's map has exactly the listed location ids as keys, and each maps to exactly that location's sales in order |
| AdminSales.LastVenta | src/pages/AdminSalesView.tsx:312 | the last sale is the list's first, and is absent iff the list is empty |
| AdminSales.SalesCardsOrder | src/pages/AdminSalesView.tsx:302-307 | one card per location, branches before the almacen and by name within a kind |
| AdminSales.RenderSalesCards | src/pages/AdminSalesView.tsx:302-313 | the grid sorts the location state array in place and then maps it to the sales cards SalesCardsOrder and SalesCardsContents describe |
| AdminSales.SalesCardsContents | src/pages/AdminSalesView.tsx:309-312 | each card lists exactly its location's sales, and its last sale is the first of them |
| AdminSales.ItemLabelSpec | src/pages/AdminSalesView.tsx:80 | the label is the count, which parses back, then " ítem", then an "s" iff the count is not 1 |
| ProductsPage.FilteredProductsSpec | src/pages/Products.tsx:72-76 | the filtered list is a subsequence holding exactly the products whose category text and type text pass both filters |
| ProductsPage.FilteredProductsAll | src/pages/Products.tsx:72-76 | both filters on "all" leave the list unchanged |
| ProductsPage.FilteredProductsSelected | src/pages/Products.tsx:72-76 | choosing a category id and a type keeps exactly the products of that category and type |
| ProductsPage.FormFor | src/pages/Products.tsx:78-101 | editing copies every field, with a missing sku as ""; a new form has the first category's id (or 0), ambiente, and empty prices and sku |
| ProductsPage.SaveProductRequest | src/pages/Products.tsx:108-121 | nothing is sent iff the name is empty or the category is 0; otherwise an update PUT of the edited product or a create POST, carrying the form |
| ProductsPage.SaveCatRequest | src/pages/Products.tsx:162-175 | nothing is sent iff the name is empty; otherwise an update PUT of the edited category or a create POST, carrying the form |
| ProductsPage.ProductsView.OpenProductForm | src/pages/Products.tsx:78-101 | the form shows the product's fields (or the defaults) and remembers which product is edited |
| ProductsPage.ProductsView.SaveProduct | src/pages/Products.tsx:108-129 | a refused form shows its message and sends nothing; a saved one closes the form and leaves the error of the reload at lines 54-68, if any; a failed save keeps the form open and shows the error |
| ProductsPage.ProductsView.OpenCatForm | src/pages/Products.tsx:146-155 | the category form shows the category's name, or is empty |
| ProductsPage.ProductsView.SaveCat | src/pages/Products.tsx:162-183 | a refused form shows its message and sends nothing; a saved one closes the form and leaves the error of the reload at lines 54-68, if any; a failed save keeps the form open and shows the error |
| Layout.RootActiveOnlyOnRoot | src/components/Layout.tsx:11 | the root link is active on "/" only |
| Layout.ActiveIsPrefix | src/components/Layout.tsx:11 | any other link is active exactly on the paths that start with it |
| Layout.ApprovalsHighlightsOrders | src/components/Layout.tsx:11-34 | on the approvals page both the approvals link and the orders link are active |
| Layout.VisibleItemsSpec | src/components/Layout.tsx:49 | the visible items are those whose roles include the role, in declaration order |
| Layout.NoRoleSeesAll | src/components/Layout.tsx:49 | with no role every item is visible |
| Layout.AdminItems | src/components/Layout.tsx:27-49 | the admin sees the root and the six admin links: 7 items |
| Layout.SucursalItems | src/components/Layout.tsx:27-49 | a branch user sees the root and the four branch links: 5 items |
| Layout.Logout | src/components/Layout.tsx:51-54 | logout empties the session store and goes to the login page |
| Storage.TokenStorage.GetSucursal | src/utils/storage.ts:30-32 | the branch is absent without a session and when the stored branch is null |
| Storage.TokenStorage.SetSession | src/utils/storage.ts:38-40 | the new session replaces whatever was stored |
| Storage.TokenStorage.Clear | src/utils/storage.ts:42-44 | the store is emptied |
| Storage.SetThenGet | src/utils/storage.ts:12-40 | after storing a session every getter returns its field |
| Storage.EmptyGetsNothing | src/utils/storage.ts:12-36 | with nothing stored every getter returns null |

## Left out

- The HTTP layer (src/api/http.ts) is network I/O: fetch, the bearer token, the token refresh and the retry after 401/403. Every network result enters the model as a parameter.
- The server's order lifecycle, its stock checks and its stock movements on approve, receive and sale are not in the client. The client sends requests only. The model adds no transition rule beyond the state enum and the draft-only submit button.
- Money arithmetic uses floats (`parseFloat`, `toFixed`, `toLocaleString`). This covers the order totals, the sales totals and the PDF prices. Costs and prices stay opaque strings.
- jsPDF drawing, the Blob download and the PDF's date line are rendering. Only the PDF's text values are modelled.
- Date and `Intl` formatting are rendering.
- `URLSearchParams` percent-encoding is left out: values are emitted raw.
- ReportsApi.ReporteQueryReadBack requires dates without '&', because percent-encoding is left out.
- ProductsApi.RouteProductList requires the emitted pairs to be well formed, so a search term or conservation type with '&' is excluded. `listProductos` accepts such a term, and `URLSearchParams` would percent-encode it. That encoding is left out.
- UI components, routes, redirects, the dashboards, Login, Locations, Sales, Stock, Users and the placeholder pages are plain rendering, routing or I/O. src/pages/Reports.tsx is float arithmetic over untyped data. src/pages/SucursalSalesView.tsx is float totals plus rendering, and its item label repeats AdminSales.ItemLabel.
- React effects, loading flags, `busy` flags and the `Promise.all` loading sequences are async plumbing.
- Confirmation dialogs before a delete, and the delete handlers of product, category and order, are I/O. The delete requests themselves are modelled in the API modules.
- JSON parsing and serialising in the session store are left out. The store holds the decoded session value.
- Plain objects indexed by a key are modelled as maps: the order status map, and the object that AdminStock's `groupBy` fills by a generic key. JavaScript `Object` prototype keys such as "toString" are not modelled in either.
- `localeCompare` is an abstract comparator `nameCmp` (or `keyCmp`). The ordering lemmas require it to be a consistent total preorder.
- `Array.prototype.sort` is modelled by SeqUtil.InsertionSort, an insertion sort on the array. The engine's own algorithm is not modelled. Both are stable, so for the same consistent comparator (a total preorder) they leave the array in the same order, SortLocations.
- `String.prototype.toUpperCase` is modelled for ASCII letters only (PdfGenerator.UpperAscii). The state texts are all ASCII.
- `Number(...)` of typed input is an input value (`ReceivePage.NumberValue`, integer ids and quantities). Fractional ids and NaN quantities are not modelled.
- The Orders page sets its initial destination for a branch user from the session inside an effect. The model takes the destination as given, and the destination used after a create as a parameter of OrdersPage.OrderForm.Crear.
- OrdersPage.OrderForm.UpdateItem and OrdersPage.OrderForm.SeleccionarProducto require an index inside the list, as every caller in the page passes the index of a rendered row. JavaScript would extend the array for any other index.
- AdminStock.PanelTitleOf requires a sub-location name without '|', because the page joins the key fields with "|||" and splits them again.
- src/api/sales.ts declares only the sale creation (`createVenta`), which is I/O of the Sales page. The sale record that src/pages/AdminSalesView.tsx reads (`VentaDetalle`) is not declared there, so AdminSales.VentaDetalle follows its use in that view. The sales listing request is not part of this model.
- The Products page passes its search term to the server when loading. That request is ProductsApi.ListProductos, and the reload itself is I/O.

## Findings

| source | as written | input that shows it | evidently intended | confidence | as-written member | corrected member |
|---|---|---|---|---|---|---|
| src/pages/Receive.tsx:18-21 | the confirm button is disabled only when some item has no truthy choice and no preset destination | an item with preset destination 2 whose choice was set back to the empty option (`Number("")` = 0): the button is enabled, but confirming sends destination 0 and is refused with "Asigná sub-ubicación destino a todos los productos." | the button is disabled exactly when some item would be sent without a positive destination, which is what the confirm check at src/pages/Receive.tsx:77-80 tests | medium, not executed | ReceivePage.AsWrittenMissesClearedChoice | ReceivePage.FaltanDestinosMatchesValidation |
