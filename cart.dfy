/** The shopping cart of the record shop: the `cart_items` table and the five handlers of
    `cart.controller.ts` that read and change it. */
module Cart {
  import opened Wrappers
  import opened Seqs
  import opened JsNumbers
  import opened Http

  /** One row of `cart_items (id, user_id, product_id, quantity)`. */
  datatype CartRow = CartRow(id: int, userId: int, productId: int, quantity: int)

  /** One row of `products`; the table is only read here, so it is a map keyed by `id`. */
  datatype Product = Product(
    title: string, artist: string, price: real, image: string,
    year: Option<int>, genre: Option<string>, stock: Option<int>)

  /** The table and its AUTOINCREMENT counter, as one value. */
  datatype CartTable = CartTable(rows: seq<CartRow>, nextId: int)

  /** What AUTOINCREMENT and the handlers keep true: ids are positive, below the counter and
      increasing in row order (rows are read back in rowid order), and quantities positive. */
  predicate WellFormed(t: CartTable) {
    && t.nextId >= 1
    && (forall i :: 0 <= i < |t.rows| ==> 1 <= t.rows[i].id < t.nextId && t.rows[i].quantity >= 1)
    && (forall i, j :: 0 <= i < j < |t.rows| ==> t.rows[i].id < t.rows[j].id)
  }

  /** At most one row per (user_id, product_id). */
  predicate OneRowPerProduct(rows: seq<CartRow>) {
    forall i, j :: 0 <= i < j < |rows| ==>
      rows[i].userId != rows[j].userId || rows[i].productId != rows[j].productId
  }

  // The WHERE conditions of the handlers' statements.

  function ForPair(u: int, p: int): CartRow -> bool {
    (r: CartRow) => r.productId == p && r.userId == u
  }

  function OwnedBy(u: int): CartRow -> bool {
    (r: CartRow) => r.userId == u
  }

  function NotOwnedBy(u: int): CartRow -> bool {
    (r: CartRow) => r.userId != u
  }

  function IsItemOf(id: int, u: int): CartRow -> bool {
    (r: CartRow) => r.id == id && r.userId == u
  }

  function NotId(id: int): CartRow -> bool {
    (r: CartRow) => r.id != id
  }

  /** `UPDATE cart_items SET quantity = quantity + 1 WHERE id = ?`. */
  function IncrementWhereId(rows: seq<CartRow>, id: int): (r: seq<CartRow>)
    ensures |r| == |rows|
    ensures forall i :: 0 <= i < |rows| ==>
      r[i] == if rows[i].id == id then rows[i].(quantity := rows[i].quantity + 1) else rows[i]
  {
    if rows == [] then []
    else
      var first := if rows[0].id == id then rows[0].(quantity := rows[0].quantity + 1) else rows[0];
      [first] + IncrementWhereId(rows[1..], id)
  }

  /** The table after a successful `addToCart` of product `p` by user `u`: the first row of the
      pair, if any, gains one unit, otherwise `(u, p, 1)` is inserted under the next id. */
  function Added(t: CartTable, u: int, p: int): CartTable {
    match FirstIndex(t.rows, ForPair(u, p))
    case Some(i) => CartTable(IncrementWhereId(t.rows, t.rows[i].id), t.nextId)
    case None => CartTable(t.rows + [CartRow(t.nextId, u, p, 1)], t.nextId + 1)
  }

  /** Total quantity over the rows of user `u`: the reference for the cart count. */
  function TotalQuantity(rows: seq<CartRow>, u: int): int {
    if rows == [] then 0
    else (if rows[0].userId == u then rows[0].quantity else 0) + TotalQuantity(rows[1..], u)
  }

  /** Number of rows of user `u`. */
  function RowCount(rows: seq<CartRow>, u: int): nat {
    if rows == [] then 0 else (if rows[0].userId == u then 1 else 0) + RowCount(rows[1..], u)
  }

  lemma {:induction false} TotalQuantityAppend(a: seq<CartRow>, b: seq<CartRow>, u: int)
    ensures TotalQuantity(a + b, u) == TotalQuantity(a, u) + TotalQuantity(b, u)
  {
    if a == [] {
      assert a + b == b;
    } else {
      assert (a + b)[1..] == a[1..] + b;
      TotalQuantityAppend(a[1..], b, u);
    }
  }

  /** Incrementing the one row with a given id adds one unit to its owner's total only. */
  lemma {:induction false} TotalQuantityIncrement(rows: seq<CartRow>, k: nat, v: int)
    requires k < |rows|
    requires forall j :: 0 <= j < |rows| && j != k ==> rows[j].id != rows[k].id
    ensures TotalQuantity(IncrementWhereId(rows, rows[k].id), v)
         == TotalQuantity(rows, v) + (if rows[k].userId == v then 1 else 0)
  {
    var id := rows[k].id;
    var r := IncrementWhereId(rows, id);
    assert r[1..] == IncrementWhereId(rows[1..], id);
    if k == 0 {
      assert IncrementWhereId(rows[1..], id) == rows[1..];
    } else {
      TotalQuantityIncrement(rows[1..], k - 1, v);
    }
  }

  /** A row of the pair, under `OneRowPerProduct`, is the one `.get` finds. */
  lemma FirstIndexOfPair(rows: seq<CartRow>, i: nat, u: int, p: int)
    requires OneRowPerProduct(rows)
    requires i < |rows| && rows[i].userId == u && rows[i].productId == p
    ensures FirstIndex(rows, ForPair(u, p)) == Some(i)
  {
    var f := FirstIndex(rows, ForPair(u, p));
    assert ForPair(u, p)(rows[i]);
    assert ForPair(u, p)(rows[f.value]);
  }

  /** When the user already has the product in the cart, exactly that row gains one unit and
      nothing else changes. */
  lemma AddedMerges(t: CartTable, u: int, p: int, i: nat)
    requires WellFormed(t) && OneRowPerProduct(t.rows)
    requires i < |t.rows| && t.rows[i].userId == u && t.rows[i].productId == p
    ensures Added(t, u, p).nextId == t.nextId
    ensures |Added(t, u, p).rows| == |t.rows|
    ensures Added(t, u, p).rows[i] == t.rows[i].(quantity := t.rows[i].quantity + 1)
    ensures forall j :: 0 <= j < |t.rows| && j != i ==> Added(t, u, p).rows[j] == t.rows[j]
  {
    FirstIndexOfPair(t.rows, i, u, p);
  }

  /** Otherwise exactly one row `(u, p, 1)` is appended under the next id. */
  lemma AddedInserts(t: CartTable, u: int, p: int)
    requires forall j :: 0 <= j < |t.rows| ==> t.rows[j].userId != u || t.rows[j].productId != p
    ensures Added(t, u, p) == CartTable(t.rows + [CartRow(t.nextId, u, p, 1)], t.nextId + 1)
  {
    assert forall j :: 0 <= j < |t.rows| ==> !ForPair(u, p)(t.rows[j]);
  }

  /** Rows of other users or other products are left as they were, and any new row is one of
      the pair. */
  lemma AddedLeavesOthers(t: CartTable, u: int, p: int)
    requires WellFormed(t)
    ensures |t.rows| <= |Added(t, u, p).rows| <= |t.rows| + 1
    ensures forall j :: 0 <= j < |t.rows| && (t.rows[j].userId != u || t.rows[j].productId != p) ==>
      Added(t, u, p).rows[j] == t.rows[j]
    ensures forall j :: |t.rows| <= j < |Added(t, u, p).rows| ==>
      Added(t, u, p).rows[j] == CartRow(t.nextId, u, p, 1)
  {
  }

  /** `addToCart` keeps the table well formed and keeps one row per (user, product). */
  lemma AddedKeepsInvariants(t: CartTable, u: int, p: int)
    requires WellFormed(t)
    ensures WellFormed(Added(t, u, p))
    ensures OneRowPerProduct(t.rows) ==> OneRowPerProduct(Added(t, u, p).rows)
  {
    match FirstIndex(t.rows, ForPair(u, p))
    case Some(i) =>
      IncrementKeepsInvariants(t, t.rows[i].id);
    case None =>
      assert forall j :: 0 <= j < |t.rows| ==> !ForPair(u, p)(t.rows[j]);
      InsertKeepsInvariants(t, u, p);
  }

  /** Raising one quantity changes no id, owner or product. */
  lemma IncrementKeepsInvariants(t: CartTable, id: int)
    requires WellFormed(t)
    ensures WellFormed(CartTable(IncrementWhereId(t.rows, id), t.nextId))
    ensures OneRowPerProduct(t.rows) ==> OneRowPerProduct(IncrementWhereId(t.rows, id))
  {
    var r := IncrementWhereId(t.rows, id);
    assert forall i :: 0 <= i < |r| ==>
      r[i].id == t.rows[i].id && r[i].userId == t.rows[i].userId && r[i].productId == t.rows[i].productId
      && r[i].quantity >= t.rows[i].quantity;
  }

  /** Inserting `(u, p, 1)` under the next id, when the pair has no row yet. */
  lemma InsertKeepsInvariants(t: CartTable, u: int, p: int)
    requires WellFormed(t)
    requires forall j :: 0 <= j < |t.rows| ==> t.rows[j].userId != u || t.rows[j].productId != p
    ensures WellFormed(CartTable(t.rows + [CartRow(t.nextId, u, p, 1)], t.nextId + 1))
    ensures OneRowPerProduct(t.rows) ==> OneRowPerProduct(t.rows + [CartRow(t.nextId, u, p, 1)])
  {
    var r := t.rows + [CartRow(t.nextId, u, p, 1)];
    assert forall j :: 0 <= j < |t.rows| ==> r[j] == t.rows[j];
  }

  /** A successful add raises the adding user's total by one and nobody else's. */
  lemma AddedCount(t: CartTable, u: int, p: int, v: int)
    requires WellFormed(t)
    ensures TotalQuantity(Added(t, u, p).rows, v) == TotalQuantity(t.rows, v) + (if v == u then 1 else 0)
  {
    match FirstIndex(t.rows, ForPair(u, p))
    case Some(i) =>
      TotalQuantityIncrement(t.rows, i, v);
    case None =>
      var n := CartRow(t.nextId, u, p, 1);
      TotalQuantityAppend(t.rows, [n], v);
      assert [n][1..] == [];
  }

  /** The table after the user adds each product of `ps` in turn. */
  function AddAll(t: CartTable, u: int, ps: seq<int>): CartTable
    decreases |ps|
  {
    if ps == [] then t else AddAll(Added(t, u, ps[0]), u, ps[1..])
  }

  /** Every successful add counts once: after `n` adds the user's total has grown by `n`, other
      users' totals are unchanged, and the table stays well formed. */
  lemma {:induction false} AddAllCount(t: CartTable, u: int, ps: seq<int>, v: int)
    requires WellFormed(t)
    ensures WellFormed(AddAll(t, u, ps))
    ensures TotalQuantity(AddAll(t, u, ps).rows, v)
         == TotalQuantity(t.rows, v) + (if v == u then |ps| else 0)
    decreases |ps|
  {
    if ps != [] {
      AddedKeepsInvariants(t, u, ps[0]);
      AddedCount(t, u, ps[0], v);
      AddAllCount(Added(t, u, ps[0]), u, ps[1..], v);
    }
  }

  /** From an empty cart, the count after `n` adds is `n`. */
  lemma CountFromEmptyCart(u: int, ps: seq<int>)
    ensures TotalQuantity(AddAll(CartTable([], 1), u, ps).rows, u) == |ps|
  {
    AddAllCount(CartTable([], 1), u, ps, u);
  }

  /** Adding the same new product twice gives one row of quantity 2, not two rows. */
  lemma AddTwiceMerges(t: CartTable, u: int, p: int)
    requires WellFormed(t)
    requires forall j :: 0 <= j < |t.rows| ==> t.rows[j].userId != u || t.rows[j].productId != p
    ensures Added(Added(t, u, p), u, p) == CartTable(t.rows + [CartRow(t.nextId, u, p, 2)], t.nextId + 1)
  {
    AddedInserts(t, u, p);
    var once := Added(t, u, p);
    var k := |t.rows|;
    assert once.rows[k] == CartRow(t.nextId, u, p, 1);
    assert forall j :: 0 <= j < k ==> !ForPair(u, p)(once.rows[j]);
    FirstIndexOf(once.rows, ForPair(u, p), k);
    var twice := Added(once, u, p);
    assert twice.rows == t.rows + [CartRow(t.nextId, u, p, 2)];
  }

  /** The quantities of `rows`, one per row. */
  function Quantities(rows: seq<CartRow>): (r: seq<int>)
    ensures |r| == |rows|
  {
    if rows == [] then [] else [rows[0].quantity] + Quantities(rows[1..])
  }

  /** SQL `SUM`: NULL over no rows. */
  function SqlSum(xs: seq<int>): (r: Option<int>)
    ensures r.None? <==> xs == []
  {
    if xs == [] then None else Some(xs[0] + SqlSum(xs[1..]).GetOr(0))
  }

  /** `SELECT SUM(quantity) ... WHERE user_id = ?` followed by `?? 0` is the user's total;
      the NULL case is exactly the user having no rows. */
  lemma {:induction false} SqlSumOfOwned(rows: seq<CartRow>, u: int)
    ensures SqlSum(Quantities(Keep(rows, OwnedBy(u)))).GetOr(0) == TotalQuantity(rows, u)
    ensures SqlSum(Quantities(Keep(rows, OwnedBy(u)))).None? <==> RowCount(rows, u) == 0
  {
    if rows != [] {
      SqlSumOfOwned(rows[1..], u);
      var k := Keep(rows[1..], OwnedBy(u));
      if rows[0].userId == u {
        assert Keep(rows, OwnedBy(u)) == [rows[0]] + k;
        assert ([rows[0]] + k)[1..] == k;
        assert Quantities([rows[0]] + k)[1..] == Quantities(k);
      }
    }
  }

  /** `getCartCount` (lessons 15, 16 and 20): login first, then the SUM normalised by `?? 0`. */
  function GetCartCount(rows: seq<CartRow>, session: Option<SessionUser>, fault: bool): (r: Response)
    ensures session.None? ==> r == ErrorReply(401, "You have to logged in!")
    ensures session.Some? && fault ==> r == ErrorReply(500, "Failed to get total cart items")
    ensures session.Some? && !fault ==>
      r == Response(200, Some(JObj([("totalItems", JInt(TotalQuantity(rows, session.value.id)))])))
  {
    match session
    case None => ErrorReply(401, "You have to logged in!")
    case Some(user) =>
      if fault then ErrorReply(500, "Failed to get total cart items")
      else
        SqlSumOfOwned(rows, user.id);
        var totalItems := SqlSum(Quantities(Keep(rows, OwnedBy(user.id)))).GetOr(0);
        Response(200, Some(JObj([("totalItems", JInt(totalItems))])))
  }

  /** A user without rows is told the count is 0. */
  lemma {:induction false} CountWithoutRows(rows: seq<CartRow>, u: int)
    requires forall j :: 0 <= j < |rows| ==> rows[j].userId != u
    ensures TotalQuantity(rows, u) == 0
  {
    if rows != [] {
      CountWithoutRows(rows[1..], u);
    }
  }

  /** One line of the cart page: a cart row joined to its product. */
  datatype CartLine = CartLine(itemId: int, quantity: int, title: string, artist: string, price: real)

  function LineOf(row: CartRow, product: Product): CartLine {
    CartLine(row.id, row.quantity, product.title, product.artist, product.price)
  }

  /** `line` is the join of some row of user `u` with its product. */
  ghost predicate JoinsRowOf(line: CartLine, rows: seq<CartRow>, products: map<int, Product>, u: int) {
    exists j :: 0 <= j < |rows| && rows[j].userId == u && rows[j].productId in products &&
      line == LineOf(rows[j], products[rows[j].productId])
  }

  lemma JoinsRowOfTail(line: CartLine, rows: seq<CartRow>, products: map<int, Product>, u: int)
    requires rows != [] && JoinsRowOf(line, rows[1..], products, u)
    ensures JoinsRowOf(line, rows, products, u)
  {
    var j :| 0 <= j < |rows[1..]| && rows[1..][j].userId == u && rows[1..][j].productId in products &&
      line == LineOf(rows[1..][j], products[rows[1..][j].productId]);
    assert rows[1..][j] == rows[j + 1];
  }

  /** A row of user `u` whose product exists: what the inner join and the `WHERE` let through. */
  function JoinableBy(products: map<int, Product>, u: int): CartRow -> bool {
    (row: CartRow) => row.userId == u && row.productId in products
  }

  /** `FROM cart_items AS c JOIN products AS p ON c.product_id = p.id WHERE c.user_id = ?`:
      the user's rows whose product exists, each joined to it, in row order. */
  function Joined(rows: seq<CartRow>, products: map<int, Product>, u: int): (r: seq<CartLine>)
    ensures |r| <= |rows|
    ensures var joinable := Keep(rows, JoinableBy(products, u));
      && |r| == |joinable|
      && forall k :: 0 <= k < |r| ==>
           joinable[k].productId in products && r[k] == LineOf(joinable[k], products[joinable[k].productId])
    ensures forall k :: 0 <= k < |r| ==> JoinsRowOf(r[k], rows, products, u)
    ensures forall j :: 0 <= j < |rows| && rows[j].userId == u && rows[j].productId in products ==>
      LineOf(rows[j], products[rows[j].productId]) in r
  {
    if rows == [] then []
    else
      var rest := Joined(rows[1..], products, u);
      var row := rows[0];
      assert forall j :: 0 < j < |rows| ==> rows[j] == rows[1..][j - 1];
      assert forall k :: 0 <= k < |rest| ==> JoinsRowOf(rest[k], rows, products, u) by {
        forall k | 0 <= k < |rest| {
          JoinsRowOfTail(rest[k], rows, products, u);
        }
      }
      if row.userId == u && row.productId in products then
        var line := LineOf(row, products[row.productId]);
        assert forall k :: 0 < k < |[line] + rest| ==> ([line] + rest)[k] == rest[k - 1];
        assert Keep(rows, JoinableBy(products, u)) == [row] + Keep(rows[1..], JoinableBy(products, u));
        [line] + rest
      else rest
  }

  /** Units listed on the cart page. */
  function LinesQuantity(lines: seq<CartLine>): int {
    if lines == [] then 0 else lines[0].quantity + LinesQuantity(lines[1..])
  }

  /** The cart page and the cart count agree exactly when every product in the user's cart
      still exists; a row whose product is gone is counted but not listed. */
  lemma {:induction false} JoinedQuantity(rows: seq<CartRow>, products: map<int, Product>, u: int)
    requires forall j :: 0 <= j < |rows| ==> rows[j].quantity >= 1
    ensures LinesQuantity(Joined(rows, products, u)) <= TotalQuantity(rows, u)
    ensures LinesQuantity(Joined(rows, products, u)) == TotalQuantity(rows, u) <==>
      forall j :: 0 <= j < |rows| && rows[j].userId == u ==> rows[j].productId in products
  {
    if rows != [] {
      JoinedQuantity(rows[1..], products, u);
      var rest := Joined(rows[1..], products, u);
      var row := rows[0];
      if row.userId == u && row.productId in products {
        var line := LineOf(row, products[row.productId]);
        assert ([line] + rest)[1..] == rest;
      }
      if forall j :: 0 <= j < |rows| && rows[j].userId == u ==> rows[j].productId in products {
        assert forall j :: 0 <= j < |rows[1..]| && rows[1..][j].userId == u ==>
          rows[1..][j].productId in products by {
          forall j | 0 <= j < |rows[1..]| && rows[1..][j].userId == u
            ensures rows[1..][j].productId in products
          {
            assert rows[1..][j] == rows[j + 1];
          }
        }
      } else {
        var j :| 0 <= j < |rows| && rows[j].userId == u && rows[j].productId !in products;
        if j > 0 {
          assert rows[1..][j - 1] == rows[j];
        }
      }
    }
  }

  /** One item of the `getAll` reply, with the row id under `idKey`. */
  function LineJson(line: CartLine, idKey: string): Json {
    JObj([(idKey, JInt(line.itemId)), ("quantity", JInt(line.quantity)),
          ("title", JStr(line.title)), ("artist", JStr(line.artist)), ("price", JReal(line.price))])
  }

  function ItemsJson(lines: seq<CartLine>, idKey: string): (r: seq<Json>)
    ensures |r| == |lines|
    ensures forall k :: 0 <= k < |lines| ==> r[k] == LineJson(lines[k], idKey)
  {
    if lines == [] then [] else [LineJson(lines[0], idKey)] + ItemsJson(lines[1..], idKey)
  }

  /** `item` shows every field of `line`, with the row id under `idKey`. */
  predicate ItemShows(item: Json, line: CartLine, idKey: string) {
    && item.JObj?
    && Lookup(item.members, idKey) == Some(JInt(line.itemId))
    && Lookup(item.members, "quantity") == Some(JInt(line.quantity))
    && Lookup(item.members, "title") == Some(JStr(line.title))
    && Lookup(item.members, "artist") == Some(JStr(line.artist))
    && Lookup(item.members, "price") == Some(JReal(line.price))
  }

  /** `body` is `{ items }` with one item per line, in order. */
  predicate ListsLines(body: Json, lines: seq<CartLine>, idKey: string) {
    && body.JObj? && |body.members| == 1 && body.members[0].0 == "items"
    && body.members[0].1.JArr? && |body.members[0].1.elems| == |lines|
    && forall k :: 0 <= k < |lines| ==> ItemShows(body.members[0].1.elems[k], lines[k], idKey)
  }

  /** No item of `{ items }` has a field named `key`. */
  predicate ItemsLack(body: Json, key: string) {
    && body.JObj? && |body.members| == 1 && body.members[0].1.JArr?
    && forall k :: 0 <= k < |body.members[0].1.elems| ==>
      body.members[0].1.elems[k].JObj? && Lookup(body.members[0].1.elems[k].members, key) == None
  }

  function ItemsReply(lines: seq<CartLine>, idKey: string): Response {
    Response(200, Some(JObj([("items", JArr(ItemsJson(lines, idKey)))])))
  }

  /** Each field of a line is found under its own key. */
  lemma LineJsonShows(line: CartLine, idKey: string)
    requires idKey !in ["quantity", "title", "artist", "price"]
    ensures ItemShows(LineJson(line, idKey), line, idKey)
  {
    var m := LineJson(line, idKey).members;
    var m1, m2, m3, m4 := m[1..], m[2..], m[3..], m[4..];
    assert m1[1..] == m2 && m2[1..] == m3 && m3[1..] == m4;
    assert Lookup(m4, "price") == Some(JReal(line.price));
    assert "artist" != "price";
    assert Lookup(m3, "artist") == Some(JStr(line.artist));
    assert Lookup(m3, "price") == Some(JReal(line.price));
    assert "title" != "artist" && "title"[0] != "price"[0];
    assert Lookup(m2, "title") == Some(JStr(line.title));
    assert Lookup(m2, "artist") == Some(JStr(line.artist));
    assert Lookup(m2, "price") == Some(JReal(line.price));
    assert "quantity" != "title" && "quantity" != "artist" && "quantity" != "price";
    assert Lookup(m1, "quantity") == Some(JInt(line.quantity));
    assert Lookup(m1, "title") == Some(JStr(line.title));
    assert Lookup(m1, "artist") == Some(JStr(line.artist));
    assert Lookup(m1, "price") == Some(JReal(line.price));
  }

  lemma ItemsReplyLists(lines: seq<CartLine>, idKey: string)
    requires idKey !in ["quantity", "title", "artist", "price"]
    ensures ListsLines(ItemsReply(lines, idKey).body.value, lines, idKey)
  {
    forall k | 0 <= k < |lines|
      ensures ItemShows(ItemsJson(lines, idKey)[k], lines[k], idKey)
    {
      LineJsonShows(lines[k], idKey);
    }
  }

  /** `getAll` with the row id sent under `idKey`: without a session the fixed
      `{ err: "not logged in" }` with Express's default status, 500 when the query throws,
      otherwise `{ items }` listing the user's joined rows in order. */
  function GetAll(rows: seq<CartRow>, products: map<int, Product>, session: Option<SessionUser>,
                  fault: bool, idKey: string): (r: Response)
    requires idKey !in ["quantity", "title", "artist", "price"]
    ensures r.status == (if session.Some? && fault then 500 else 200)
    ensures session.None? ==> r.body == Some(JObj([("err", JStr("not logged in"))]))
    ensures session.Some? && fault ==> r == ErrorReply(500, "Failed to fetch cart items")
    ensures session.Some? && !fault ==>
      r.body.Some? && ListsLines(r.body.value, Joined(rows, products, session.value.id), idKey)
  {
    match session
    case None => DefaultStatusReply(JObj([("err", JStr("not logged in"))]))
    case Some(user) =>
      if fault then ErrorReply(500, "Failed to fetch cart items")
      else
        ItemsReplyLists(Joined(rows, products, user.id), idKey);
        ItemsReply(Joined(rows, products, user.id), idKey)
  }

  /** Lesson 20 (`SELECT c.id AS cartItemId, ...`): each item carries its row id under
      `cartItemId`, as the declared `AllItemListsTypes` says. */
  function GetAllV20(rows: seq<CartRow>, products: map<int, Product>, session: Option<SessionUser>,
                     fault: bool): (r: Response)
    ensures session.Some? && !fault ==>
      var lines := Joined(rows, products, session.value.id);
      && r.body.Some? && ListsLines(r.body.value, lines, "cartItemId")
      && forall k :: 0 <= k < |lines| ==>
           Lookup(r.body.value.members[0].1.elems[k].members, "cartItemId") == Some(JInt(lines[k].itemId))
  {
    GetAll(rows, products, session, fault, "cartItemId")
  }

  /** Lesson 16 (`SELECT c.id, ...`): the row id goes out under `id`, and no item has the
      `cartItemId` field its declared type promises. */
  function GetAllV16(rows: seq<CartRow>, products: map<int, Product>, session: Option<SessionUser>,
                     fault: bool): (r: Response)
    ensures session.Some? && !fault ==>
      && r.body.Some? && ListsLines(r.body.value, Joined(rows, products, session.value.id), "id")
      && ItemsLack(r.body.value, "cartItemId")
  {
    if session.Some? && !fault then
      ItemsLackCartItemId(Joined(rows, products, session.value.id));
      GetAll(rows, products, session, fault, "id")
    else GetAll(rows, products, session, fault, "id")
  }

  lemma LineJsonLacksCartItemId(line: CartLine)
    ensures Lookup(LineJson(line, "id").members, "cartItemId") == None
  {
    var m := LineJson(line, "id").members;
    assert |m| == 5 && |m[0].0| == 2 && |m[1].0| == 8 && |m[2].0| == 5;
    assert |m[3].0| == 6 && |m[4].0| == 5 && |"cartItemId"| == 10;
    assert forall i :: 0 <= i < |m| ==> m[i].0 != "cartItemId";
  }

  /** With the row id under `id`, no item of `{ items }` has `cartItemId`. */
  lemma ItemsLackCartItemId(lines: seq<CartLine>)
    ensures ItemsLack(ItemsReply(lines, "id").body.value, "cartItemId")
  {
    var items := ItemsJson(lines, "id");
    forall k | 0 <= k < |items|
      ensures items[k].JObj? && Lookup(items[k].members, "cartItemId") == None
    {
      LineJsonLacksCartItemId(lines[k]);
    }
  }

  /** `DELETE FROM cart_items WHERE id = ?` on the row `.get` found removes exactly that row,
      ids being unique. */
  lemma DeleteRemovesExactly(t: CartTable, i: nat)
    requires WellFormed(t) && i < |t.rows|
    ensures Keep(t.rows, NotId(t.rows[i].id)) == t.rows[..i] + t.rows[i + 1..]
  {
    var rows, id := t.rows, t.rows[i].id;
    var before, after := rows[..i], rows[i + 1..];
    assert rows == before + [rows[i]] + after;
    forall j | 0 <= j < |before|
      ensures NotId(id)(before[j])
    {
      assert before[j] == rows[j];
    }
    forall j | 0 <= j < |after|
      ensures NotId(id)(after[j])
    {
      assert after[j] == rows[i + 1 + j];
    }
    KeepDropsOne(before, rows[i], after, NotId(id));
  }

  /** The lookup of `deleteItem` matches id and owner together: another user's row id is
      treated as missing. */
  lemma OtherUsersItemIsMissing(t: CartTable, k: nat, u: int)
    requires WellFormed(t) && k < |t.rows| && t.rows[k].userId != u
    ensures FirstIndex(t.rows, IsItemOf(t.rows[k].id, u)) == None
  {
    var id := t.rows[k].id;
    forall j | 0 <= j < |t.rows|
      ensures !IsItemOf(id, u)(t.rows[j])
    {
      if j < k {
        assert t.rows[j].id < id;
      } else if j > k {
        assert t.rows[j].id > id;
      }
    }
  }

  /** Removing one row takes its units off its owner's count and nobody else's. */
  lemma DeleteItemCount(rows: seq<CartRow>, i: nat, v: int)
    requires i < |rows|
    ensures TotalQuantity(rows[..i] + rows[i + 1..], v)
         == TotalQuantity(rows, v) - (if rows[i].userId == v then rows[i].quantity else 0)
  {
    assert rows == rows[..i] + ([rows[i]] + rows[i + 1..]);
    TotalQuantityAppend(rows[..i], [rows[i]] + rows[i + 1..], v);
    TotalQuantityAppend(rows[..i], rows[i + 1..], v);
    assert ([rows[i]] + rows[i + 1..])[1..] == rows[i + 1..];
  }

  /** `DELETE FROM cart_items WHERE user_id = ?` empties the user's cart and keeps every other
      user's rows, in order. */
  lemma {:induction false} DeleteAllOfUser(rows: seq<CartRow>, u: int, v: int)
    requires v != u
    ensures TotalQuantity(Keep(rows, NotOwnedBy(u)), u) == 0
    ensures RowCount(Keep(rows, NotOwnedBy(u)), u) == 0
    ensures Keep(Keep(rows, NotOwnedBy(u)), OwnedBy(v)) == Keep(rows, OwnedBy(v))
    ensures TotalQuantity(Keep(rows, NotOwnedBy(u)), v) == TotalQuantity(rows, v)
  {
    if rows != [] {
      DeleteAllOfUser(rows[1..], u, v);
      var k := Keep(rows[1..], NotOwnedBy(u));
      if rows[0].userId != u {
        assert Keep(rows, NotOwnedBy(u)) == [rows[0]] + k;
        assert ([rows[0]] + k)[1..] == k;
      }
    }
  }

  /** Deleting rows keeps the table well formed and keeps one row per (user, product). */
  lemma KeepKeepsInvariants(t: CartTable, p: CartRow -> bool)
    requires WellFormed(t)
    ensures WellFormed(CartTable(Keep(t.rows, p), t.nextId))
    ensures OneRowPerProduct(t.rows) ==> OneRowPerProduct(Keep(t.rows, p))
  {
    KeepKeepsOrder(t.rows, p, (a: CartRow, b: CartRow) => a.id < b.id);
    if OneRowPerProduct(t.rows) {
      KeepKeepsOrder(t.rows, p, (a: CartRow, b: CartRow) => a.userId != b.userId || a.productId != b.productId);
    }
  }

  /** The `cart_items` table as the handlers change it in place. */
  class CartItemsTable {
    var rows: seq<CartRow>
    var nextId: int

    function State(): CartTable
      reads this
    {
      CartTable(rows, nextId)
    }

    predicate Valid()
      reads this
    {
      WellFormed(State())
    }

    /** `CREATE TABLE IF NOT EXISTS cart_items (...)` on a fresh database. */
    constructor ()
      ensures State() == CartTable([], 1) && Valid()
    {
      rows := [];
      nextId := 1;
    }

    /** `UPDATE cart_items SET quantity = quantity + 1 WHERE id = ?`. */
    method IncrementQuantity(id: int)
      modifies this
      ensures rows == IncrementWhereId(old(rows), id) && nextId == old(nextId)
    {
      rows := IncrementWhereId(rows, id);
    }

    /** `INSERT INTO cart_items (user_id, product_id, quantity) VALUES (?, ?, 1)`; AUTOINCREMENT
        hands out the next id. */
    method InsertRow(u: int, p: int) returns (id: int)
      modifies this
      ensures id == old(nextId)
      ensures rows == old(rows) + [CartRow(id, u, p, 1)] && nextId == old(nextId) + 1
    {
      id := nextId;
      rows := rows + [CartRow(id, u, p, 1)];
      nextId := nextId + 1;
    }

    /** `DELETE FROM cart_items WHERE ...`: the rows that fail the condition go. */
    method DeleteWhereNot(keep: CartRow -> bool)
      modifies this
      ensures rows == Keep(old(rows), keep) && nextId == old(nextId)
    {
      rows := Keep(rows, keep);
    }

    /** `addToCart` (lessons 14, 15, 16 and 20 alike): login, then the product id read by
        `parseInt` without a radix, then merge-on-add. */
    method AddToCart(session: Option<SessionUser>, productIdText: string, fault: bool)
      returns (resp: Response)
      requires Valid()
      modifies this
      ensures Valid()
      ensures session.None? ==> resp == ErrorReply(401, "You have to logged in!") && unchanged(this)
      ensures session.Some? && ParseInt(productIdText, 0).NaN? ==>
        resp == ErrorReply(401, "Invalid product id") && unchanged(this)
      ensures session.Some? && ParseInt(productIdText, 0).Int? && fault ==>
        resp == ErrorReply(500, "Failed to add to cart") && unchanged(this)
      ensures session.Some? && ParseInt(productIdText, 0).Int? && !fault ==>
        resp == MessageReply(200, "Added to cart") &&
        State() == Added(old(State()), session.value.id, ParseInt(productIdText, 0).value)
      ensures old(OneRowPerProduct(rows)) ==> OneRowPerProduct(rows)
    {
      var productId := ParseInt(productIdText, 0);
      if session.None? {
        return ErrorReply(401, "You have to logged in!");
      }
      if productId.NaN? {
        return ErrorReply(401, "Invalid product id");
      }
      if fault {
        return ErrorReply(500, "Failed to add to cart");
      }
      var u, p := session.value.id, productId.value;
      AddedKeepsInvariants(State(), u, p);
      var existing := FirstIndex(rows, ForPair(u, p));
      if existing.Some? {
        IncrementQuantity(rows[existing.value].id);
      } else {
        var _ := InsertRow(u, p);
      }
      resp := MessageReply(200, "Added to cart");
    }

    /** `deleteItem` (lesson 20): login, the item id read by `parseInt(_, 10)`, then one lookup
        on id and owner together, then the delete. */
    method DeleteItem(session: Option<SessionUser>, itemIdText: string, fault: bool)
      returns (resp: Response)
      requires Valid()
      modifies this
      ensures Valid()
      ensures session.None? ==> resp == ErrorReply(401, "You have to logged in!") && unchanged(this)
      ensures session.Some? && ParseInt(itemIdText, 10).NaN? ==>
        resp == ErrorReply(401, "Invalid item ID") && unchanged(this)
      ensures session.Some? && ParseInt(itemIdText, 10).Int? && fault ==>
        resp == ErrorReply(500, "Failed while trying to delete item") && unchanged(this)
      ensures session.Some? && ParseInt(itemIdText, 10).Int? && !fault ==>
        var found := FirstIndex(old(rows), IsItemOf(ParseInt(itemIdText, 10).value, session.value.id));
        && (found.None? ==> resp == ErrorReply(404, "Item not found") && unchanged(this))
        && (found.Some? ==>
              && resp == Response(204, None) && nextId == old(nextId)
              && rows == old(rows)[..found.value] + old(rows)[found.value + 1..])
      ensures old(OneRowPerProduct(rows)) ==> OneRowPerProduct(rows)
    {
      var itemId := ParseInt(itemIdText, 10);
      if session.None? {
        return ErrorReply(401, "You have to logged in!");
      }
      if itemId.NaN? {
        return ErrorReply(401, "Invalid item ID");
      }
      if fault {
        return ErrorReply(500, "Failed while trying to delete item");
      }
      var found := FirstIndex(rows, IsItemOf(itemId.value, session.value.id));
      if found.None? {
        return ErrorReply(404, "Item not found");
      }
      DeleteRemovesExactly(State(), found.value);
      KeepKeepsInvariants(State(), NotId(rows[found.value].id));
      DeleteWhereNot(NotId(rows[found.value].id));
      resp := Response(204, None);
    }

    /** `deleteAll` (lesson 20): login, then every row of the user goes; the reply is 201 even
        when the cart was already empty. */
    method DeleteAll(session: Option<SessionUser>, fault: bool) returns (resp: Response)
      requires Valid()
      modifies this
      ensures Valid()
      ensures session.None? ==> resp == ErrorReply(401, "You have to logged in!") && unchanged(this)
      ensures session.Some? && fault ==>
        resp == ErrorReply(500, "Failed while trying to delete all item") && unchanged(this)
      ensures session.Some? && !fault ==>
        resp == MessageReply(201, "Delete all user item with id " + IntToString(session.value.id)) &&
        rows == Keep(old(rows), NotOwnedBy(session.value.id)) && nextId == old(nextId)
      ensures old(OneRowPerProduct(rows)) ==> OneRowPerProduct(rows)
    {
      if session.None? {
        return ErrorReply(401, "You have to logged in!");
      }
      if fault {
        return ErrorReply(500, "Failed while trying to delete all item");
      }
      KeepKeepsInvariants(State(), NotOwnedBy(session.value.id));
      DeleteWhereNot(NotOwnedBy(session.value.id));
      resp := MessageReply(201, "Delete all user item with id " + IntToString(session.value.id));
    }
  }
}

