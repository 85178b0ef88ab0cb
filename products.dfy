/** The products controllers of lessons 15 and 16: `getGenres`, and the SQL text and
    parameter list `getProducts` builds from its `genre` and `search` query parameters. */
module Products {
  import opened Wrappers
  import opened Http

  /** How often `c` occurs in `s`. */
  function CountChar(s: string, c: char): nat {
    if s == [] then 0 else CountChar(s[..|s| - 1], c) + (if s[|s| - 1] == c then 1 else 0)
  }

  /** No occurrence of a character that is absent. */
  lemma {:induction false} CountCharNone(s: string, c: char)
    requires c !in s
    ensures CountChar(s, c) == 0
  {
    if s != [] {
      CountCharNone(s[..|s| - 1], c);
    }
  }

  lemma {:induction false} CountCharAppend(a: string, b: string, c: char)
    ensures CountChar(a + b, c) == CountChar(a, c) + CountChar(b, c)
  {
    if b == [] {
      assert a + b == a;
    } else {
      assert (a + b)[..|a + b| - 1] == a + b[..|b| - 1];
      CountCharAppend(a, b[..|b| - 1], c);
    }
  }

  /** The number of `?` placeholders better-sqlite3 binds positionally. */
  function Placeholders(query: string): nat {
    CountChar(query, '?')
  }

  /** One placeholder between two texts without any. */
  lemma OnePlaceholder(a: string, b: string)
    requires '?' !in a && '?' !in b
    ensures Placeholders(a + "?" + b) == 1
  {
    assert "?"[..0] == [];
    CountCharNone(a, '?');
    CountCharNone(b, '?');
    CountCharAppend(a, "?", '?');
    CountCharAppend(a + "?", b, '?');
  }

  /** Appending a clause adds its placeholders. */
  lemma PlaceholdersAppend(query: string, clause: string)
    ensures Placeholders(query + clause) == Placeholders(query) + Placeholders(clause)
  {
    CountCharAppend(query, clause, '?');
  }

  /** The `WHERE` keyword starts at position `i` of `query`. */
  predicate WhereAt(query: string, i: int) {
    0 <= i && i + 5 <= |query| && query[i..i + 5] == "WHERE"
  }

  /** The `WHERE` keyword, placed between two texts, starts where the first one ends. */
  lemma WhereBetween(pre: string, post: string)
    ensures WhereAt(pre + "WHERE" + post, |pre|)
  {
    assert (pre + "WHERE" + post)[|pre|..|pre| + 5] == "WHERE";
  }

  /** `W` occurs in `s` at position `k` and nowhere else. */
  predicate OnlyWAt(s: string, k: int) {
    forall j :: 0 <= j < |s| && s[j] == 'W' ==> j == k
  }

  /** When `W` occurs only at `k`, no `WHERE` starts anywhere else. */
  lemma WhereOnlyAt(query: string, k: int)
    requires OnlyWAt(query, k)
    ensures forall i :: WhereAt(query, i) ==> i == k
  {
    forall i | WhereAt(query, i)
      ensures i == k
    {
      assert query[i] == query[i..i + 5][0];
    }
  }

  /** A `WHERE` between two texts without `W`: the text's only `W` is the keyword's. */
  lemma OneWhere(pre: string, post: string)
    requires 'W' !in pre && 'W' !in post
    ensures WhereAt(pre + "WHERE" + post, |pre|)
    ensures OnlyWAt(pre + "WHERE" + post, |pre|)
  {
    var q := pre + "WHERE" + post;
    WhereBetween(pre, post);
    assert 'W' !in "HERE";
    forall j | 0 <= j < |q| && j != |pre|
      ensures q[j] != 'W'
    {
      if j < |pre| {
        assert q[j] == pre[j];
      } else if j >= |pre| + 5 {
        assert q[j] == post[j - |pre| - 5];
      } else {
        assert q[j] == "HERE"[j - |pre| - 1];
      }
    }
  }

  /** Text appended after a `WHERE` leaves it where it was. */
  lemma WhereBefore(a: string, b: string, k: int)
    requires WhereAt(a, k)
    ensures WhereAt(a + b, k)
  {
    assert (a + b)[k..k + 5] == a[k..k + 5];
  }

  /** Text put in front of a `WHERE` shifts it by its length. */
  lemma WhereAfter(a: string, b: string, k: int)
    requires WhereAt(b, k)
    ensures WhereAt(a + b, |a| + k)
  {
    assert (a + b)[|a| + k..|a| + k + 5] == b[k..k + 5];
  }

  lemma OnlyWBefore(a: string, b: string, k: int)
    requires OnlyWAt(a, k) && 'W' !in b
    ensures OnlyWAt(a + b, k)
  {
    forall j | 0 <= j < |a + b| && j != k
      ensures (a + b)[j] != 'W'
    {
      if j < |a| {
        assert (a + b)[j] == a[j];
      } else {
        assert (a + b)[j] == b[j - |a|];
      }
    }
  }

  lemma OnlyWAfter(a: string, b: string, k: int)
    requires 'W' !in a && OnlyWAt(b, k)
    ensures OnlyWAt(a + b, |a| + k)
  {
    forall j | 0 <= j < |a + b| && j != |a| + k
      ensures (a + b)[j] != 'W'
    {
      if j < |a| {
        assert (a + b)[j] == a[j];
      } else {
        assert (a + b)[j] == b[j - |a|];
      }
    }
  }

  const Base := "SELECT * FROM products"
  /** The clauses `getProducts` appends to its SQL, written split at their placeholders. */
  const GenreHead := " WHERE genre = "
  const GenreClause := GenreHead + "?"
  const SearchHead := " WHERE title LIKE "
  const SearchClause := SearchHead + "?" + " OR artist LIKE " + "?" + " OR genre LIKE " + "?"
  /** The search condition joined to a genre condition, as the corrected builder writes it. */
  const AndSearchClause := " AND (title LIKE " + "?" + " OR artist LIKE " + "?" + " OR genre LIKE " + "?" + ")"

  /** `%${search}%`: the LIKE pattern for "contains `search`". */
  function SearchPattern(search: string): (p: string)
    ensures |p| == |search| + 2 && p[0] == '%' && p[|p| - 1] == '%' && p[1..|p| - 1] == search
  {
    "%" + search + "%"
  }

  /** The genre clause reads as `getProducts` spells it. */
  lemma GenreClauseText()
    ensures GenreClause == " WHERE genre = ?"
  {
  }

  lemma SearchClauseText()
    ensures SearchClause == " WHERE title LIKE ? OR artist LIKE ? OR genre LIKE ?"
  {
    assert SearchHead + "?" == " WHERE title LIKE ?";
    assert " OR artist LIKE " + "?" == " OR artist LIKE ?";
    assert " OR genre LIKE " + "?" == " OR genre LIKE ?";
    assert " WHERE title LIKE ?" + " OR artist LIKE ?" + " OR genre LIKE ?"
        == " WHERE title LIKE ? OR artist LIKE ? OR genre LIKE ?";
  }

  lemma AndSearchClauseText()
    ensures AndSearchClause == " AND (title LIKE ? OR artist LIKE ? OR genre LIKE ?)"
  {
    assert " AND (title LIKE " + "?" == " AND (title LIKE ?";
    assert " OR artist LIKE " + "?" == " OR artist LIKE ?";
    assert " OR genre LIKE " + "?" + ")" == " OR genre LIKE ?)";
    assert " AND (title LIKE ?" + " OR artist LIKE ?" + " OR genre LIKE ?)"
        == " AND (title LIKE ? OR artist LIKE ? OR genre LIKE ?)";
  }

  /** Three placeholders separated by texts without any. */
  lemma ThreePlaceholders(a: string, b: string, c: string, d: string)
    requires '?' !in a && '?' !in b && '?' !in c && '?' !in d
    ensures Placeholders(a + "?" + b + "?" + c + "?" + d) == 3
  {
    OnePlaceholder(a, b);
    OnePlaceholder(c, d);
    assert a + "?" + b + "?" + c + "?" + d == (a + "?" + b) + "?" + (c + "?" + d);
    CountCharAppend(a + "?" + b, "?", '?');
    CountCharAppend(a + "?" + b + "?", c + "?" + d, '?');
    assert "?"[..0] == [];
  }

  /** The placeholders: none in the base, one in the genre clause, three in each search
      clause. */
  lemma FragmentPlaceholders()
    ensures Placeholders(Base) == 0 && Placeholders(GenreClause) == 1
    ensures Placeholders(SearchClause) == 3 && Placeholders(AndSearchClause) == 3
  {
    CountCharNone(Base, '?');
    OnePlaceholder(GenreHead, "");
    assert GenreClause == GenreHead + "?" + "";
    var b, c := " OR artist LIKE ", " OR genre LIKE ";
    ThreePlaceholders(SearchHead, b, c, "");
    assert SearchClause == SearchHead + "?" + b + "?" + c + "?" + "";
    ThreePlaceholders(" AND (title LIKE ", b, c, ")");
  }

  /** Each clause head holds one `W`, the start of its `WHERE`. */
  lemma HeadWhere(head: string, rest: string)
    requires head == " " + "WHERE" + rest && 'W' !in rest
    ensures WhereAt(head, 1) && OnlyWAt(head, 1)
  {
    OneWhere(" ", rest);
  }

  /** Each filter clause has its only `W` at position 1, as the start of its `WHERE`; the AND
      clause and the base have none. */
  lemma FragmentWheres()
    ensures WhereAt(GenreClause, 1) && OnlyWAt(GenreClause, 1)
    ensures WhereAt(SearchClause, 1) && OnlyWAt(SearchClause, 1)
    ensures 'W' !in Base && 'W' !in AndSearchClause
  {
    GenreClauseWhere();
    SearchClauseWhere();
  }

  lemma GenreClauseWhere()
    ensures WhereAt(GenreClause, 1) && OnlyWAt(GenreClause, 1)
  {
    assert GenreHead == " " + "WHERE" + " genre = ";
    HeadWhere(GenreHead, " genre = ");
    WhereBefore(GenreHead, "?", 1);
    OnlyWBefore(GenreHead, "?", 1);
  }

  lemma SearchClauseWhere()
    ensures WhereAt(SearchClause, 1) && OnlyWAt(SearchClause, 1)
  {
    assert SearchHead == " " + "WHERE" + " title LIKE ";
    HeadWhere(SearchHead, " title LIKE ");
    var tail := "?" + " OR artist LIKE " + "?" + " OR genre LIKE " + "?";
    assert 'W' !in tail;
    assert SearchClause == SearchHead + tail;
    WhereBefore(SearchHead, tail, 1);
    OnlyWBefore(SearchHead, tail, 1);
  }

  /** Lesson 16 with both parameters: a `WHERE` after the base and a second one after the genre
      clause, so SQLite cannot prepare the statement. */
  lemma DoubleWhere()
    ensures WhereAt(Base + GenreClause + SearchClause, |Base| + 1)
    ensures WhereAt(Base + GenreClause + SearchClause, |Base| + |GenreClause| + 1)
  {
    FragmentWheres();
    WhereAfter(Base, GenreClause, 1);
    WhereBefore(Base + GenreClause, SearchClause, |Base| + 1);
    WhereAfter(Base + GenreClause, SearchClause, 1);
  }

  /** One filter clause after the base: its `WHERE` is the query's only one. */
  lemma SingleWhere(clause: string)
    requires WhereAt(clause, 1) && OnlyWAt(clause, 1)
    ensures WhereAt(Base + clause, |Base| + 1)
    ensures forall i :: WhereAt(Base + clause, i) ==> i == |Base| + 1
  {
    FragmentWheres();
    WhereAfter(Base, clause, 1);
    OnlyWAfter(Base, clause, 1);
    WhereOnlyAt(Base + clause, |Base| + 1);
  }

  /** `getProducts` of lesson 16 as written (lines 22-38): the genre clause is appended and then
      the search clause, each starting with `WHERE`; the parameters follow the placeholders.
      With both parameters the query holds two `WHERE`s. */
  method BuildProductsQuery(genre: Option<string>, search: Option<string>)
    returns (query: string, params: seq<string>)
    ensures Placeholders(query) == |params|
    ensures !Truthy(genre) && !Truthy(search) ==> query == Base && params == []
    ensures Truthy(genre) && !Truthy(search) ==> query == Base + GenreClause && params == [genre.value]
    ensures !Truthy(genre) && Truthy(search) ==>
      var p := SearchPattern(search.value);
      query == Base + SearchClause && params == [p, p, p]
    ensures Truthy(genre) && Truthy(search) ==>
      var p := SearchPattern(search.value);
      && query == Base + GenreClause + SearchClause
      && params == [genre.value, p, p, p]
      && WhereAt(query, |Base| + 1) && WhereAt(query, |Base| + |GenreClause| + 1)
  {
    FragmentPlaceholders();
    query := Base;
    params := [];
    if Truthy(genre) {
      PlaceholdersAppend(query, GenreClause);
      query := query + GenreClause;
      params := params + [genre.value];
    }
    if Truthy(search) {
      var p := SearchPattern(search.value);
      PlaceholdersAppend(query, SearchClause);
      query := query + SearchClause;
      params := params + [p, p, p];
    }
    if Truthy(genre) && Truthy(search) {
      DoubleWhere();
    }
  }

  /** The evidently intended lesson 16 builder: with both parameters the search condition is
      joined to the genre condition by `AND`, so a query holds a `WHERE` exactly when a filter
      is given, and never a second one. */
  method BuildProductsQueryFixed(genre: Option<string>, search: Option<string>)
    returns (query: string, params: seq<string>)
    ensures Placeholders(query) == |params|
    ensures Truthy(genre) || Truthy(search) ==>
      WhereAt(query, |Base| + 1) && forall i :: WhereAt(query, i) ==> i == |Base| + 1
    ensures !Truthy(genre) && !Truthy(search) ==> query == Base && params == []
    ensures Truthy(genre) && !Truthy(search) ==> query == Base + GenreClause && params == [genre.value]
    ensures !Truthy(genre) && Truthy(search) ==>
      var p := SearchPattern(search.value);
      query == Base + SearchClause && params == [p, p, p]
    ensures Truthy(genre) && Truthy(search) ==>
      var p := SearchPattern(search.value);
      query == Base + GenreClause + AndSearchClause && params == [genre.value, p, p, p]
  {
    FragmentPlaceholders();
    query := Base;
    params := [];
    if Truthy(genre) {
      PlaceholdersAppend(query, GenreClause);
      query := query + GenreClause;
      params := params + [genre.value];
    }
    if Truthy(search) {
      var p := SearchPattern(search.value);
      var clause := if Truthy(genre) then AndSearchClause else SearchClause;
      PlaceholdersAppend(query, clause);
      query := query + clause;
      params := params + [p, p, p];
    }
    FragmentWheres();
    if Truthy(genre) && Truthy(search) {
      WhereBefore(GenreClause, AndSearchClause, 1);
      OnlyWBefore(GenreClause, AndSearchClause, 1);
      assert query == Base + (GenreClause + AndSearchClause);
      SingleWhere(GenreClause + AndSearchClause);
    } else if Truthy(genre) {
      SingleWhere(GenreClause);
    } else if Truthy(search) {
      SingleWhere(SearchClause);
    }
  }

  /** `getProducts` of lesson 15 (lines 24-34): `search` is read but never used, and only a
      genre narrows the query. */
  method BuildGenreQuery(genre: Option<string>, search: Option<string>)
    returns (query: string, params: seq<string>)
    ensures Placeholders(query) == |params|
    ensures !Truthy(genre) ==> query == Base && params == []
    ensures Truthy(genre) ==> query == Base + GenreClause && params == [genre.value]
  {
    FragmentPlaceholders();
    query := Base;
    params := [];
    if Truthy(genre) {
      PlaceholdersAppend(query, GenreClause);
      query := query + GenreClause;
      params := params + [genre.value];
    }
  }

  /** What `getProducts` sends once the driver has run the query: the rows, or 500 when
      preparing or running it threw (`None`). */
  function ProductsReply(result: Option<seq<Json>>): (r: Response)
    ensures result.None? <==> r.status == 500
    ensures result.None? ==> r == ErrorReply(500, "Failed to fetch products")
    ensures result.Some? ==> r == Response(200, Some(JArr(result.value)))
  {
    match result
    case None => ErrorReply(500, "Failed to fetch products")
    case Some(rows) => Response(200, Some(JArr(rows)))
  }

  /** A row of `SELECT DISTINCT genre FROM products`; `genre` is a nullable column. */
  datatype GenreRow = GenreRow(genre: Option<string>)

  /** `SELECT DISTINCT genre`: each value of the column once, NULL included, in the order of
      its first appearance. */
  function SelectDistinct(column: seq<Option<string>>): (r: seq<GenreRow>)
    ensures forall g :: GenreRow(g) in r <==> g in column
    ensures forall i, j :: 0 <= i < j < |r| ==> r[i] != r[j]
  {
    if column == [] then []
    else
      var d := SelectDistinct(column[..|column| - 1]);
      var g := column[|column| - 1];
      assert column == column[..|column| - 1] + [g];
      if GenreRow(g) in d then d else d + [GenreRow(g)]
  }

  /** `rows.map((row) => row.genre)`. */
  function GenreNames(rows: seq<GenreRow>): (r: seq<Option<string>>)
    ensures |r| == |rows|
    ensures forall i :: 0 <= i < |rows| ==> r[i] == rows[i].genre
  {
    if rows == [] then [] else [rows[0].genre] + GenreNames(rows[1..])
  }

  /** A genre as `res.json` writes it; a NULL genre becomes `null`. */
  function GenreJson(g: Option<string>): (j: Json)
    ensures j.JNull? <==> g.None?
  {
    match g
    case None => JNull
    case Some(s) => JStr(s)
  }

  function GenresJson(names: seq<Option<string>>): (r: seq<Json>)
    ensures |r| == |names|
    ensures forall i :: 0 <= i < |names| ==> r[i] == GenreJson(names[i])
  {
    if names == [] then [] else [GenreJson(names[0])] + GenresJson(names[1..])
  }

  /** `getGenres` (lessons 15 and 16): 500 when the query throws, otherwise the distinct genres
      as a JSON array. */
  function GetGenres(column: seq<Option<string>>, fault: bool): (r: Response)
    ensures fault ==> r == ErrorReply(500, "Failed to fetch genres")
    ensures !fault ==> r.status == 200 && r.body.Some? && r.body.value.JArr?
  {
    if fault then ErrorReply(500, "Failed to fetch genres")
    else Response(200, Some(JArr(GenresJson(GenreNames(SelectDistinct(column))))))
  }

  /** The genre list names every genre of the table, and each one once. */
  lemma GenresListed(column: seq<Option<string>>)
    ensures var elems := GetGenres(column, false).body.value.elems;
      && (forall g :: GenreJson(g) in elems <==> g in column)
      && (forall i, j :: 0 <= i < j < |elems| ==> elems[i] != elems[j])
  {
    var rows := SelectDistinct(column);
    var names := GenreNames(rows);
    var elems := GenresJson(names);
    forall g
      ensures GenreJson(g) in elems <==> g in column
    {
      if GenreJson(g) in elems {
        var i :| 0 <= i < |elems| && elems[i] == GenreJson(g);
        GenreJsonInjective(names[i], g);
        assert rows[i] == GenreRow(g);
      }
      if g in column {
        var i :| 0 <= i < |rows| && rows[i] == GenreRow(g);
        assert elems[i] == GenreJson(g);
      }
    }
    forall i, j | 0 <= i < j < |elems|
      ensures elems[i] != elems[j]
    {
      assert names[i] != names[j];
    }
  }

  lemma GenreJsonInjective(a: Option<string>, b: Option<string>)
    requires GenreJson(a) == GenreJson(b)
    ensures a == b
  {
  }
}
