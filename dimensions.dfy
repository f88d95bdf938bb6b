/** The five entity dimensions. Each builder left-joins what it
    denormalises, renames and projects the columns, sorts by the natural
    key and numbers the rows 1..N in that order (BuildDimension). */
module Dimensions {
  import opened Nullable
  import opened Text
  import opened Source
  import opened Relational
  import opened Warehouse

  // ---------------------------------------------------------------------
  // dim_customer and dim_channel: rename and project, no join

  function CustomerAttributes(c: Customer): CustomerDim
  {
    CustomerDim(c.customerId, c.email, c.firstName, c.lastName, c.phone, c.status, c.createdAt)
  }

  /** create_dim_customer. */
  function CreateDimCustomer(customers: seq<Customer>): (dim: seq<Keyed<CustomerDim>>)
    ensures IsDimensionOf(dim, Column(customers, CustomerAttributes), CustomerDimKey)
  {
    BuildDimension(Column(customers, CustomerAttributes), CustomerDimKey)
  }

  function ChannelAttributes(c: Channel): ChannelDim
  {
    ChannelDim(c.channelId, c.code, c.name)
  }

  /** create_dim_channel. */
  function CreateDimChannel(channels: seq<Channel>): (dim: seq<Keyed<ChannelDim>>)
    ensures IsDimensionOf(dim, Column(channels, ChannelAttributes), ChannelDimKey)
  {
    BuildDimension(Column(channels, ChannelAttributes), ChannelDimKey)
  }

  /** Two customers listed with keys 2 then 1 come out as id 1 for key 1 and
      id 2 for key 2. */
  lemma CustomerKeysFollowNaturalOrder(c1: Customer, c2: Customer)
    requires c1.customerId == 2 && c2.customerId == 1
    ensures CreateDimCustomer([c1, c2]) == [Keyed(1, CustomerAttributes(c2)), Keyed(2, CustomerAttributes(c1))]
  {
    assert Column([c1, c2], CustomerAttributes) == [CustomerAttributes(c1), CustomerAttributes(c2)];
    DimensionOfTwo(CustomerAttributes(c1), CustomerAttributes(c2), CustomerDimKey);
  }

  // ---------------------------------------------------------------------
  // dim_address: addresses left-joined with their province

  function ProvinceName(p: Option<Province>): Cell
  {
    match p
    case None => None
    case Some(q) => q.name
  }

  function ProvinceCode(p: Option<Province>): Cell
  {
    match p
    case None => None
    case Some(q) => q.code
  }

  function AddressAttributes(ap: (Address, Option<Province>)): AddressDim
  {
    var a := ap.0;
    AddressDim(a.addressId, a.line1, a.line2, a.city, ProvinceName(ap.1), ProvinceCode(ap.1),
               a.postalCode, a.countryCode, a.createdAt)
  }

  function AddressRows(addresses: seq<Address>, provinces: seq<Province>): seq<AddressDim>
  {
    Column(LeftJoin(addresses, provinces, AddressProvince, ProvinceKey), AddressAttributes)
  }

  /** create_dim_address. */
  function CreateDimAddress(addresses: seq<Address>, provinces: seq<Province>): (dim: seq<Keyed<AddressDim>>)
    ensures IsDimensionOf(dim, AddressRows(addresses, provinces), AddressDimKey)
  {
    BuildDimension(AddressRows(addresses, provinces), AddressDimKey)
  }

  /** What the address dimension should hold for one address: its own
      fields and the name and code of the province its province_id names,
      both null when none does. */
  function ExpectedAddress(a: Address, provinces: seq<Province>): AddressDim
  {
    AddressAttributes((a, Find(provinces, ProvinceKey, a.provinceId)))
  }

  /** With distinct province ids the merge neither drops nor repeats an
      address: row i before sorting is address i with its province. */
  lemma AddressRowsDenormalise(addresses: seq<Address>, provinces: seq<Province>)
    requires KeysUnique(provinces, ProvinceKey)
    ensures |AddressRows(addresses, provinces)| == |addresses|
    ensures forall i :: 0 <= i < |addresses| ==>
              AddressRows(addresses, provinces)[i] == ExpectedAddress(addresses[i], provinces)
  {
    JoinedColumn(addresses, provinces, AddressProvince, ProvinceKey, AddressAttributes);
  }

  /** Whatever the provinces, every address keeps at least one row, carrying
      its own key; a row has null province fields only when no province has
      its province_id. */
  lemma AddressRowsKeepEveryAddress(addresses: seq<Address>, provinces: seq<Province>, a: Address)
    requires a in addresses
    ensures exists r :: r in AddressRows(addresses, provinces) && r.addressKey == a.addressId
  {
    var joined := LeftJoin(addresses, provinces, AddressProvince, ProvinceKey);
    var p :| p in joined && p.0 == a;
    var k :| 0 <= k < |joined| && joined[k] == p;
    assert AddressRows(addresses, provinces)[k] == AddressAttributes(p);
  }

  // ---------------------------------------------------------------------
  // dim_store: stores left-joined with their address, then its province

  function StoreProvince(sa: (Store, Option<Address>)): Option<int>
  {
    match sa.1
    case None => None
    case Some(a) => a.provinceId
  }

  function StoreAttributes(sap: ((Store, Option<Address>), Option<Province>)): StoreDim
  {
    var s := sap.0.0;
    var a := sap.0.1;
    StoreDim(s.storeId, s.name,
             if a.Some? then a.value.line1 else None,
             if a.Some? then a.value.city else None,
             ProvinceName(sap.1), ProvinceCode(sap.1),
             if a.Some? then a.value.postalCode else None,
             if a.Some? then a.value.countryCode else None,
             if a.Some? then a.value.createdAt else None)
  }

  function StoreRows(stores: seq<Store>, addresses: seq<Address>, provinces: seq<Province>): seq<StoreDim>
  {
    var storeAddr := LeftJoin(stores, addresses, StoreAddress, AddressKey);
    Column(LeftJoin(storeAddr, provinces, StoreProvince, ProvinceKey), StoreAttributes)
  }

  /** create_dim_store. */
  function CreateDimStore(stores: seq<Store>, addresses: seq<Address>, provinces: seq<Province>): (dim: seq<Keyed<StoreDim>>)
    ensures IsDimensionOf(dim, StoreRows(stores, addresses, provinces), StoreDimKey)
  {
    BuildDimension(StoreRows(stores, addresses, provinces), StoreDimKey)
  }

  /** What the store dimension should hold for one store: its own name, the
      line, city, postal and country codes and created_at of its address,
      and the name and code of that address's province. */
  function ExpectedStore(s: Store, addresses: seq<Address>, provinces: seq<Province>): StoreDim
  {
    var a := Find(addresses, AddressKey, s.addressId);
    StoreAttributes(((s, a), Find(provinces, ProvinceKey, StoreProvince((s, a)))))
  }

  /** With distinct address and province ids the double merge keeps one row
      per store, in store order, each as ExpectedStore describes. */
  lemma StoreRowsDenormalise(stores: seq<Store>, addresses: seq<Address>, provinces: seq<Province>)
    requires KeysUnique(addresses, AddressKey) && KeysUnique(provinces, ProvinceKey)
    ensures |StoreRows(stores, addresses, provinces)| == |stores|
    ensures forall i :: 0 <= i < |stores| ==>
              StoreRows(stores, addresses, provinces)[i] == ExpectedStore(stores[i], addresses, provinces)
  {
    var storeAddr := LeftJoin(stores, addresses, StoreAddress, AddressKey);
    LeftJoinOneToOne(stores, addresses, StoreAddress, AddressKey);
    JoinedColumn(storeAddr, provinces, StoreProvince, ProvinceKey, StoreAttributes);
  }

  // ---------------------------------------------------------------------
  // dim_product: products left-joined with their category, which is
  // left-joined with its parent. The joins are written once over any key
  // type K: the code as written joins on the text astype(str) gives the id
  // columns, the corrected model on the integer ids.

  /** A category with its join keys: its own id and its parent's id. */
  datatype KeyedCategory<K> = KeyedCategory(id: K, name: Cell, parent: K)

  /** A category after the self-merge: its id, name and its parent's name. */
  datatype EnrichedCategory<K> = EnrichedCategory(id: K, name: Cell, parentName: Cell)

  function CategoryId<K>(c: KeyedCategory<K>): K { c.id }
  function CategoryParent<K>(c: KeyedCategory<K>): K { c.parent }
  function EnrichedId<K>(c: EnrichedCategory<K>): K { c.id }
  function ProductJoinKey<K>(p: (Product, K)): K { p.1 }

  /** The category table with the given key columns in place of its ids. */
  function KeyedCategories<K>(categories: seq<ProductCategory>, idKeys: seq<K>, parentKeys: seq<K>): (cats: seq<KeyedCategory<K>>)
    requires |idKeys| == |categories| && |parentKeys| == |categories|
    ensures |cats| == |categories|
    ensures forall i :: 0 <= i < |cats| ==>
              cats[i].id == idKeys[i] && cats[i].name == categories[i].name && cats[i].parent == parentKeys[i]
  {
    seq(|categories|, i requires 0 <= i < |categories| => KeyedCategory(idKeys[i], categories[i].name, parentKeys[i]))
  }

  /** One row of the self-merge: the category and the name of the category
      its parent key matches, if any. */
  function Enrich<K>(cp: (KeyedCategory<K>, Option<KeyedCategory<K>>)): EnrichedCategory<K>
  {
    EnrichedCategory(cp.0.id, cp.0.name, if cp.1.Some? then cp.1.value.name else None)
  }

  /** categories_enriched: the self-merge of the categories on parent_id. */
  function EnrichedCategories<K(==)>(cats: seq<KeyedCategory<K>>): seq<EnrichedCategory<K>>
  {
    Column(LeftJoin(cats, cats, CategoryParent, CategoryId), Enrich)
  }

  /** The product table with the given key column beside each product. */
  function KeyedProducts<K>(products: seq<Product>, productKeys: seq<K>): (prods: seq<(Product, K)>)
    requires |productKeys| == |products|
    ensures |prods| == |products|
    ensures forall i :: 0 <= i < |prods| ==> prods[i] == (products[i], productKeys[i])
  {
    seq(|products|, i requires 0 <= i < |products| => (products[i], productKeys[i]))
  }

  /** fillna('Sin Categoría') of a category name. */
  function Label(name: Cell): (s: string)
    ensures name.None? ==> s == NoCategory
    ensures name.Some? ==> s == name.value
  {
    GetOr(name, NoCategory)
  }

  function ProductAttributes<K>(pc: ((Product, K), Option<EnrichedCategory<K>>)): ProductDim
  {
    var p := pc.0.0;
    var c := pc.1;
    ProductDim(p.productId, p.sku, p.name, p.listPrice, p.status, p.createdAt,
               Label(if c.Some? then c.value.name else None),
               Label(if c.Some? then c.value.parentName else None))
  }

  /** The product rows before sorting, given the key column of each table. */
  function ProductRows<K(==)>(products: seq<Product>, productKeys: seq<K>,
                              categories: seq<ProductCategory>, idKeys: seq<K>, parentKeys: seq<K>): seq<ProductDim>
    requires |productKeys| == |products| && |idKeys| == |categories| && |parentKeys| == |categories|
  {
    var enriched := EnrichedCategories(KeyedCategories(categories, idKeys, parentKeys));
    Column(LeftJoin(KeyedProducts(products, productKeys), enriched, ProductJoinKey, EnrichedId), ProductAttributes)
  }

  function ProductCategoryIds(products: seq<Product>): (col: seq<Option<int>>)
    ensures |col| == |products|
    ensures forall i :: 0 <= i < |products| ==> col[i] == products[i].categoryId
  {
    Column(products, (p: Product) => p.categoryId)
  }

  function CategoryIds(categories: seq<ProductCategory>): (col: seq<Option<int>>)
    ensures |col| == |categories|
    ensures forall i :: 0 <= i < |categories| ==> col[i] == Some(categories[i].categoryId)
  {
    Column(categories, CategoryKey)
  }

  function ParentIds(categories: seq<ProductCategory>): (col: seq<Option<int>>)
    ensures |col| == |categories|
    ensures forall i :: 0 <= i < |categories| ==> col[i] == categories[i].parentId
  {
    Column(categories, (c: ProductCategory) => c.parentId)
  }

  /** The product rows before sorting with the joins on the integer ids. */
  function IdProductRows(products: seq<Product>, categories: seq<ProductCategory>): seq<ProductDim>
  {
    ProductRows(products, ProductCategoryIds(products), categories, CategoryIds(categories), ParentIds(categories))
  }

  /** create_dim_product with the joins on the integer ids. */
  function CreateDimProduct(products: seq<Product>, categories: seq<ProductCategory>): (dim: seq<Keyed<ProductDim>>)
    ensures IsDimensionOf(dim, IdProductRows(products, categories), ProductDimKey)
  {
    BuildDimension(IdProductRows(products, categories), ProductDimKey)
  }

  /** fillna label of a matched category: its name, or "Sin Categoría" when
      there is no match or the name is null. */
  function CategoryLabel(c: Option<ProductCategory>): string
  {
    match c
    case None => NoCategory
    case Some(q) => Label(q.name)
  }

  /** The name of the parent of a matched category, if that parent is found. */
  function ParentName(c: ProductCategory, categories: seq<ProductCategory>): Cell
  {
    var parent := Find(categories, CategoryKey, c.parentId);
    if parent.Some? then parent.value.name else None
  }

  /** What the product dimension should hold for one product: its own
      fields, the name of its category and the name of that category's
      parent, each "Sin Categoría" when missing. */
  function ExpectedProduct(p: Product, categories: seq<ProductCategory>): (r: ProductDim)
    ensures Find(categories, CategoryKey, p.categoryId).None? ==>
              r.categoryName == NoCategory && r.parentCategoryName == NoCategory
  {
    var cat := Find(categories, CategoryKey, p.categoryId);
    ProductDim(p.productId, p.sku, p.name, p.listPrice, p.status, p.createdAt,
               CategoryLabel(cat), Label(if cat.Some? then ParentName(cat.value, categories) else None))
  }

  /** With distinct category ids, the enriched category table over integer
      ids holds category i, in order, with the name of its parent. */
  lemma EnrichedCategoriesByRow(categories: seq<ProductCategory>)
    requires KeysUnique(categories, CategoryKey)
    ensures var enriched := EnrichedCategories(KeyedCategories(categories, CategoryIds(categories), ParentIds(categories)));
            && |enriched| == |categories|
            && forall i :: 0 <= i < |categories| ==>
                 enriched[i] == EnrichedCategory(Some(categories[i].categoryId), categories[i].name,
                                                 ParentName(categories[i], categories))
  {
    var cats := KeyedCategories(categories, CategoryIds(categories), ParentIds(categories));
    assert KeysUnique(cats, CategoryId) by {
      forall i, j | 0 <= i < j < |cats| ensures CategoryId(cats[i]) != CategoryId(cats[j]) {
        assert CategoryId(cats[i]) == CategoryKey(categories[i]);
        assert CategoryId(cats[j]) == CategoryKey(categories[j]);
      }
    }
    JoinedColumn(cats, cats, CategoryParent, CategoryId, Enrich);
    forall i | 0 <= i < |categories|
      ensures Enrich((cats[i], Find(cats, CategoryId, cats[i].parent))).parentName == ParentName(categories[i], categories)
    {
      FindAcrossKeyedCategories(categories, cats, categories[i].parentId);
    }
  }

  /** Looking an id up among the keyed categories finds the category with
      that id, with the same name. */
  lemma FindAcrossKeyedCategories(categories: seq<ProductCategory>, cats: seq<KeyedCategory<Option<int>>>, k: Option<int>)
    requires KeysUnique(categories, CategoryKey)
    requires |cats| == |categories|
    requires forall i :: 0 <= i < |cats| ==> cats[i].id == Some(categories[i].categoryId) && cats[i].name == categories[i].name
    ensures Find(cats, CategoryId, k).Some? <==> Find(categories, CategoryKey, k).Some?
    ensures Find(cats, CategoryId, k).Some? ==> Find(cats, CategoryId, k).value.name == Find(categories, CategoryKey, k).value.name
  {
    var f := Find(cats, CategoryId, k);
    var g := Find(categories, CategoryKey, k);
    if f.Some? {
      var i :| 0 <= i < |cats| && cats[i] == f.value;
      assert CategoryKey(categories[i]) == k;
      var j :| 0 <= j < |categories| && categories[j] == g.value;
      assert CategoryKey(categories[j]) == k;
      assert i == j;
    } else {
      forall x | x in categories ensures CategoryKey(x) != k {
        var j :| 0 <= j < |categories| && categories[j] == x;
        assert cats[j] in cats;
      }
    }
  }

  /** Looking a category id up in the enriched table finds the category with
      that id, carrying its parent's name. */
  lemma FindEnrichedCategory(categories: seq<ProductCategory>, enriched: seq<EnrichedCategory<Option<int>>>, k: Option<int>)
    requires KeysUnique(categories, CategoryKey)
    requires |enriched| == |categories|
    requires forall i :: 0 <= i < |categories| ==>
               enriched[i] == EnrichedCategory(Some(categories[i].categoryId), categories[i].name,
                                               ParentName(categories[i], categories))
    ensures var e := Find(enriched, EnrichedId, k);
            var c := Find(categories, CategoryKey, k);
            && (e.Some? <==> c.Some?)
            && (e.Some? ==> e.value.name == c.value.name && e.value.parentName == ParentName(c.value, categories))
  {
    var e := Find(enriched, EnrichedId, k);
    var c := Find(categories, CategoryKey, k);
    if e.Some? {
      var i :| 0 <= i < |enriched| && enriched[i] == e.value;
      assert CategoryKey(categories[i]) == k;
      var j :| 0 <= j < |categories| && categories[j] == c.value;
      assert CategoryKey(categories[j]) == k;
      assert i == j;
    } else {
      forall x | x in categories ensures CategoryKey(x) != k {
        var j :| 0 <= j < |categories| && categories[j] == x;
        assert enriched[j] in enriched;
      }
    }
  }

  /** With distinct category ids, the product rows before sorting are one
      per product, in product order, each as ExpectedProduct describes: a
      product keeps its row whether or not its category or the category's
      parent is found, and gets "Sin Categoría" for what is missing. */
  lemma ProductRowsDenormalise(products: seq<Product>, categories: seq<ProductCategory>)
    requires KeysUnique(categories, CategoryKey)
    ensures |IdProductRows(products, categories)| == |products|
    ensures forall i :: 0 <= i < |products| ==> IdProductRows(products, categories)[i] == ExpectedProduct(products[i], categories)
  {
    var enriched := EnrichedCategories(KeyedCategories(categories, CategoryIds(categories), ParentIds(categories)));
    EnrichedCategoriesByRow(categories);
    var prods := KeyedProducts(products, ProductCategoryIds(products));
    assert KeysUnique(enriched, EnrichedId) by {
      forall i, j | 0 <= i < j < |enriched| ensures EnrichedId(enriched[i]) != EnrichedId(enriched[j]) {
        assert CategoryKey(categories[i]) != CategoryKey(categories[j]);
      }
    }
    JoinedColumn(prods, enriched, ProductJoinKey, EnrichedId, ProductAttributes);
    forall i | 0 <= i < |products|
      ensures ProductAttributes((prods[i], Find(enriched, EnrichedId, prods[i].1))) == ExpectedProduct(products[i], categories)
    {
      FindEnrichedCategory(categories, enriched, products[i].categoryId);
    }
  }

  // ---------------------------------------------------------------------
  // dim_product as written: the id columns are turned into text with
  // astype(str) before both merges.

  predicate HasNull(col: seq<Option<int>>)
  {
    exists i :: 0 <= i < |col| && col[i].None?
  }

  /** astype(str) of an id column. Without nulls the column is int64 and an
      id is written as Python writes an int. One null makes the column
      float64: an id is written with a trailing ".0" and the null as "nan". */
  function AsText(col: seq<Option<int>>): (texts: seq<string>)
    ensures |texts| == |col|
    ensures !HasNull(col) ==> forall i :: 0 <= i < |col| ==> texts[i] == IntText(col[i].value)
    ensures HasNull(col) ==> forall i :: 0 <= i < |col| ==>
              texts[i] == (if col[i].None? then "nan" else IntText(col[i].value) + ".0")
  {
    var float := HasNull(col);
    seq(|col|, i requires 0 <= i < |col| =>
      match col[i]
      case None => "nan"
      case Some(v) => if float then IntText(v) + ".0" else IntText(v))
  }

  /** The product rows before sorting as the code computes them. */
  function TextProductRows(products: seq<Product>, categories: seq<ProductCategory>): seq<ProductDim>
  {
    ProductRows(products, AsText(ProductCategoryIds(products)),
                categories, AsText(CategoryIds(categories)), AsText(ParentIds(categories)))
  }

  /** create_dim_product exactly as written: both merges compare the texts. */
  function CreateDimProductAsWritten(products: seq<Product>, categories: seq<ProductCategory>): (dim: seq<Keyed<ProductDim>>)
    ensures IsDimensionOf(dim, TextProductRows(products, categories), ProductDimKey)
  {
    BuildDimension(TextProductRows(products, categories), ProductDimKey)
  }

  /** A float id text never equals an int id text: one holds a '.', the
      other only digits and perhaps a leading '-'; nor does "nan". */
  lemma FloatTextIsNotIntText(v: int, w: int)
    ensures IntText(v) + ".0" != IntText(w)
    ensures "nan" != IntText(w)
  {
    var s := IntText(v) + ".0";
    var t := IntText(w);
    if |s| == |t| {
      var k := |s| - 2;
      assert s[k] == '.';
      if w >= 0 {
        assert IsDigit(t[k]);
      } else {
        assert t[1..][k - 1] == t[k];
      }
    }
    if |t| == 3 {
      if w >= 0 {
        assert IsDigit(t[0]);
      } else {
        assert t[1..][0] == t[1];
      }
    }
  }

  /** As written, once one category is a root (a null parent_id), no
      parent text equals any category id text: the parent texts are float
      texts or "nan", the category id texts int texts. */
  lemma TextKeysNeverMeet(categories: seq<ProductCategory>, i: int, j: int)
    requires HasNull(ParentIds(categories))
    requires 0 <= i < |categories| && 0 <= j < |categories|
    ensures AsText(ParentIds(categories))[i] != AsText(CategoryIds(categories))[j]
  {
    var ids, parents := CategoryIds(categories), ParentIds(categories);
    assert !HasNull(ids);
    FloatTextIsNotIntText(if parents[i].Some? then parents[i].value else 0, ids[j].value);
  }

  /** The category table keyed by the texts the code compares. */
  function TextCategories(categories: seq<ProductCategory>): seq<KeyedCategory<string>>
  {
    KeyedCategories(categories, AsText(CategoryIds(categories)), AsText(ParentIds(categories)))
  }

  /** As written, once one category is a root, no category's parent key
      is any category's id key. */
  lemma TextParentsMissIds(categories: seq<ProductCategory>)
    requires HasNull(ParentIds(categories))
    ensures forall l, x :: l in TextCategories(categories) && x in TextCategories(categories) ==>
              CategoryParent(l) != CategoryId(x)
  {
    var cats := TextCategories(categories);
    forall l, x | l in cats && x in cats ensures CategoryParent(l) != CategoryId(x) {
      var i :| 0 <= i < |cats| && cats[i] == l;
      var j :| 0 <= j < |cats| && cats[j] == x;
      TextKeysNeverMeet(categories, i, j);
    }
  }

  /** As written, once one category is a root, the self-merge finds no
      parent for any category. */
  lemma TextSelfMergeFindsNoParent(categories: seq<ProductCategory>)
    requires HasNull(ParentIds(categories))
    ensures forall e :: e in EnrichedCategories(TextCategories(categories)) ==> e.parentName.None?
  {
    var cats := TextCategories(categories);
    TextParentsMissIds(categories);
    JoinWithoutCommonKeys(cats, cats, CategoryParent, CategoryId);
    var selfJoin := LeftJoin(cats, cats, CategoryParent, CategoryId);
    forall e | e in EnrichedCategories(cats) ensures e.parentName.None? {
      var k :| 0 <= k < |selfJoin| && Enrich(selfJoin[k]) == e;
      assert selfJoin[k] in selfJoin;
    }
  }

  /** As written, one root category (a null parent_id) is enough to lose
      every parent: every product gets "Sin Categoría" as its
      parent_category_name. */
  lemma AsWrittenLosesParentNames(products: seq<Product>, categories: seq<ProductCategory>, r: ProductDim)
    requires HasNull(ParentIds(categories))
    requires r in Attributes(CreateDimProductAsWritten(products, categories))
    ensures r.parentCategoryName == NoCategory
  {
    var enriched := EnrichedCategories(TextCategories(categories));
    TextSelfMergeFindsNoParent(categories);
    var prods := KeyedProducts(products, AsText(ProductCategoryIds(products)));
    RowsWithoutParentNames(prods, enriched);
    var rows := TextProductRows(products, categories);
    assert rows == Column(LeftJoin(prods, enriched, ProductJoinKey, EnrichedId), ProductAttributes);
    DimensionRowsAreInputRows(CreateDimProductAsWritten(products, categories), rows, ProductDimKey, r);
  }

  /** Merging products with categories none of which has a parent name gives
      every product the parent name "Sin Categoría". */
  lemma RowsWithoutParentNames<K>(prods: seq<(Product, K)>, enriched: seq<EnrichedCategory<K>>)
    requires forall e :: e in enriched ==> e.parentName.None?
    ensures forall r :: r in Column(LeftJoin(prods, enriched, ProductJoinKey, EnrichedId), ProductAttributes) ==>
              r.parentCategoryName == NoCategory
  {
    var joined := LeftJoin(prods, enriched, ProductJoinKey, EnrichedId);
    var rows := Column(joined, ProductAttributes);
    forall r | r in rows ensures r.parentCategoryName == NoCategory {
      var k :| 0 <= k < |rows| && rows[k] == r;
      assert joined[k] in joined;
    }
  }

  /** Every row of the self-merge carries the id of a category. */
  lemma EnrichedIdsAreCategoryIds<K>(cats: seq<KeyedCategory<K>>)
    ensures forall e :: e in EnrichedCategories(cats) ==> exists j :: 0 <= j < |cats| && e.id == cats[j].id
  {
    var selfJoin := LeftJoin(cats, cats, CategoryParent, CategoryId);
    forall e | e in EnrichedCategories(cats) ensures exists j :: 0 <= j < |cats| && e.id == cats[j].id {
      var k :| 0 <= k < |selfJoin| && Enrich(selfJoin[k]) == e;
      assert selfJoin[k] in selfJoin;
      var j :| 0 <= j < |cats| && cats[j] == selfJoin[k].0;
    }
  }

  /** As written, once one product has a null category_id, no product's
      category text equals any category id text. */
  lemma ProductTextMissesIdText(products: seq<Product>, categories: seq<ProductCategory>, i: int, j: int)
    requires HasNull(ProductCategoryIds(products))
    requires 0 <= i < |products| && 0 <= j < |categories|
    ensures AsText(ProductCategoryIds(products))[i] != AsText(CategoryIds(categories))[j]
  {
    var keys, ids := ProductCategoryIds(products), CategoryIds(categories);
    assert !HasNull(ids);
    FloatTextIsNotIntText(if keys[i].Some? then keys[i].value else 0, ids[j].value);
  }

  /** As written, once one product has a null category_id, the merge of the
      products with the categories finds no category for any product. */
  lemma TextProductKeysMissIds(products: seq<Product>, categories: seq<ProductCategory>)
    requires HasNull(ProductCategoryIds(products))
    ensures var prods := KeyedProducts(products, AsText(ProductCategoryIds(products)));
            var enriched := EnrichedCategories(TextCategories(categories));
            forall p, e :: p in prods && e in enriched ==> ProductJoinKey(p) != EnrichedId(e)
  {
    var prods := KeyedProducts(products, AsText(ProductCategoryIds(products)));
    var cats := TextCategories(categories);
    EnrichedIdsAreCategoryIds(cats);
    forall p, e | p in prods && e in EnrichedCategories(cats) ensures ProductJoinKey(p) != EnrichedId(e) {
      var i :| 0 <= i < |prods| && prods[i] == p;
      var j :| 0 <= j < |cats| && e.id == cats[j].id;
      ProductTextMissesIdText(products, categories, i, j);
    }
  }

  /** As written, one product without a category (a null category_id) is
      enough to lose every category: every product gets "Sin Categoría" as
      both its category_name and its parent_category_name. */
  lemma AsWrittenLosesCategoryNames(products: seq<Product>, categories: seq<ProductCategory>, r: ProductDim)
    requires HasNull(ProductCategoryIds(products))
    requires r in Attributes(CreateDimProductAsWritten(products, categories))
    ensures r.categoryName == NoCategory && r.parentCategoryName == NoCategory
  {
    var enriched := EnrichedCategories(TextCategories(categories));
    var prods := KeyedProducts(products, AsText(ProductCategoryIds(products)));
    TextProductKeysMissIds(products, categories);
    JoinWithoutCommonKeys(prods, enriched, ProductJoinKey, EnrichedId);
    var joined := LeftJoin(prods, enriched, ProductJoinKey, EnrichedId);
    var rows := TextProductRows(products, categories);
    assert rows == Column(joined, ProductAttributes);
    DimensionRowsAreInputRows(CreateDimProductAsWritten(products, categories), rows, ProductDimKey, r);
    var k :| 0 <= k < |rows| && rows[k] == r;
    assert joined[k] in joined;
  }

  /** The sample categories: a root "Electrónica" (id 1) and its child
      "Celulares" (id 2). */
  function SampleCategories(): seq<ProductCategory>
  {
    [ProductCategory(1, Some("Electrónica"), None), ProductCategory(2, Some("Celulares"), Some(1))]
  }

  function SamplePhone(): Product
  {
    Product(10, None, Some("Teléfono"), None, None, None, Some(2))
  }

  lemma SampleLookups()
    ensures KeysUnique(SampleCategories(), CategoryKey)
    ensures Find(SampleCategories(), CategoryKey, Some(2)) == Some(SampleCategories()[1])
    ensures Find(SampleCategories(), CategoryKey, Some(1)) == Some(SampleCategories()[0])
  {
    var cs := SampleCategories();
    assert cs[1..] == [cs[1]];
    assert cs[1..][1..] == [];
  }

  /** The discrepancy on a concrete input: a phone in "Celulares", whose
      parent is the root category "Electrónica". As written, the product is
      in the dimension but its parent category name is lost; with the
      integer join its one row names "Electrónica". */
  lemma ParentNameCounterexample()
    ensures var written := CreateDimProductAsWritten([SamplePhone()], SampleCategories());
            && |written| >= 1
            && forall r: ProductDim :: r in Attributes(written) ==> r.parentCategoryName == NoCategory
    ensures CreateDimProduct([SamplePhone()], SampleCategories()) ==
              [Keyed(1, ExpectedProduct(SamplePhone(), SampleCategories()))]
    ensures ExpectedProduct(SamplePhone(), SampleCategories()).parentCategoryName == "Electrónica"
  {
    var categories := SampleCategories();
    assert ParentIds(categories)[0].None?;
    var written := CreateDimProductAsWritten([SamplePhone()], categories);
    assert |written| >= 1 by {
      assert |TextProductRows([SamplePhone()], categories)| >= 1;
    }
    forall r: ProductDim | r in Attributes(written) ensures r.parentCategoryName == NoCategory {
      AsWrittenLosesParentNames([SamplePhone()], categories, r);
    }
    SampleLookups();
    ProductRowsDenormalise([SamplePhone()], categories);
    SingleRowDimension(CreateDimProduct([SamplePhone()], categories), IdProductRows([SamplePhone()], categories), ProductDimKey);
  }
}
