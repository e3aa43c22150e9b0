/** The local menu store of db.js: the `menu` table of little_lemon.db, the
    statements the app sends to it, and what SQLite answers. */
module MenuStore {
  import opened Text
  import opened Sql

  /** A dish as the remote menu delivers it; the REAL price is kept as an
      opaque integer. */
  datatype MenuItem = MenuItem(name: string, price: int, description: string, image: string, category: string)

  /** A value bound to a `?`. */
  datatype Value = Text(text: string) | Real(number: int)

  /** The values `insertMenuItems` binds for an item, in order. */
  function BindValues(item: MenuItem): (vs: seq<Value>)
    ensures |vs| == 5
  {
    [Text(item.name), Real(item.price), Text(item.description), Text(item.image), Text(item.category)]
  }

  /** A row of `menu`: the store-assigned `id` and the five columns copied from
      the dish. */
  datatype Row = Row(id: nat, item: MenuItem)

  const Table := "menu"

  /** The INSERT statement of `insertMenuItems`: five columns, five `?`. */
  const MenuInsert := Insert(Table, ["name", "price", "description", "image", "category"], 5)

  predicate UniqueIds(rows: seq<Row>) {
    forall i, j :: 0 <= i < j < |rows| ==> rows[i].id != rows[j].id
  }

  /** Every row from position `from` on has a larger id than all rows before it. */
  predicate IdsIncreasingFrom(rows: seq<Row>, from: nat) {
    forall i, k :: 0 <= i < k < |rows| && from <= k ==> rows[i].id < rows[k].id
  }

  function MaxId(rows: seq<Row>): (m: nat)
    ensures forall i :: 0 <= i < |rows| ==> rows[i].id <= m
  {
    if rows == [] then 0
    else
      var rest := MaxId(rows[1..]);
      assert forall i :: 1 <= i < |rows| ==> rows[i] == rows[1..][i - 1];
      if rows[0].id > rest then rows[0].id else rest
  }

  /** The id SQLite gives a row inserted without one into a table whose key is
      `id INTEGER PRIMARY KEY`: one more than the largest id present. */
  function NextId(rows: seq<Row>): (id: nat)
    ensures id > 0
    ensures forall i :: 0 <= i < |rows| ==> rows[i].id < id
  {
    MaxId(rows) + 1
  }

  /** The table after one INSERT per item, in item order. */
  function Inserted(rows: seq<Row>, items: seq<MenuItem>): seq<Row>
    decreases |items|
  {
    if items == [] then rows
    else
      var before := Inserted(rows, items[..|items| - 1]);
      before + [Row(NextId(before), items[|items| - 1])]
  }

  /** Inserting appends exactly one row per item, in item order, copying the
      item, keeps the existing rows, and gives every new row an id that no
      other row has. */
  lemma {:induction false} InsertedRows(rows: seq<Row>, items: seq<MenuItem>)
    ensures |Inserted(rows, items)| == |rows| + |items|
    ensures Inserted(rows, items)[..|rows|] == rows
    ensures forall j :: 0 <= j < |items| ==> Inserted(rows, items)[|rows| + j].item == items[j]
    ensures IdsIncreasingFrom(Inserted(rows, items), |rows|)
    ensures UniqueIds(rows) ==> UniqueIds(Inserted(rows, items))
    decreases |items|
  {
    if items != [] {
      var init := items[..|items| - 1];
      var before := Inserted(rows, init);
      InsertedRows(rows, init);
      var after := Inserted(rows, items);
      assert after == before + [Row(NextId(before), items[|items| - 1])];
      assert forall j :: 0 <= j < |init| ==> init[j] == items[j];
      assert forall i :: 0 <= i < |before| ==> after[i] == before[i];
    }
  }

  /** The rows a fetch is meant to return: category among `categories` when
      that list is non-empty, and `searchText` inside the name when it is
      non-empty. */
  predicate Wanted(row: Row, categories: seq<string>, searchText: string) {
    && (categories != [] ==> row.item.category in categories)
    && (searchText != "" ==> ContainsIgnoringCase(row.item.name, searchText))
  }

  /** The wanted rows, in table order. */
  function FilterRows(rows: seq<Row>, categories: seq<string>, searchText: string): (r: seq<Row>)
    ensures |r| <= |rows|
    ensures forall x :: x in r <==> x in rows && Wanted(x, categories, searchText)
  {
    if rows == [] then []
    else
      var rest := FilterRows(rows[1..], categories, searchText);
      assert forall x :: x in rows <==> x == rows[0] || x in rows[1..];
      if Wanted(rows[0], categories, searchText) then [rows[0]] + rest else rest
  }

  /** The statement `fetchMenuItems` builds: `category IN (...)` when
      categories are given, `name LIKE ?` when the search is non-empty, joined
      by AND under one WHERE. */
  function Plan(categories: seq<string>, searchText: string): Select
  {
    Select(Table,
      (if |categories| > 0 then [CategoryIn(|categories|)] else []) +
      (if searchText != "" then [NameLike] else []))
  }

  /** The parameters `fetchMenuItems` binds: the categories in order, then
      `%searchText%` when the search is non-empty. */
  function Bindings(categories: seq<string>, searchText: string): seq<string>
  {
    categories + (if searchText != "" then ["%" + searchText + "%"] else [])
  }

  /** WHERE is used at most once and AND only when both filters are given; the
      defaults select the whole table with no parameters. */
  lemma PlanShape(categories: seq<string>, searchText: string)
    ensures |Plan(categories, searchText).conds| <= 2
    ensures Plan(categories, searchText).conds == [] <==> categories == [] && searchText == ""
    ensures |Plan(categories, searchText).conds| == 2 <==> categories != [] && searchText != ""
    ensures Arity(Plan(categories, searchText).conds) == |Bindings(categories, searchText)|
    ensures RenderSelect(Plan([], "")) == "SELECT * FROM menu" && Bindings([], "") == []
  {
    var cs := Plan(categories, searchText).conds;
    if |cs| == 2 {
      assert Arity(cs) == CondArity(cs[0]) + Arity(cs[1..]);
      assert cs[1..] == [NameLike];
    }
  }

  /** Conditions checked against a row's name and category. */
  function ProbeOf(row: Row): Probe {
    Probe(row.item.name, row.item.category)
  }

  /** The rows SQLite returns for a SELECT with its parameters bound. */
  function Matching(rows: seq<Row>, cs: seq<Cond>, params: seq<string>): seq<Row>
    requires |params| == Arity(cs)
  {
    if rows == [] then []
    else (if Holds(cs, params, ProbeOf(rows[0])) then [rows[0]] else []) + Matching(rows[1..], cs, params)
  }

  /** `executeSql(text, params)` for a SELECT on this database. */
  function ExecuteSelect(text: string, params: seq<string>, tableExists: bool, rows: seq<Row>): Settled<seq<Row>>
  {
    match ParseSelect(text)
    case None => Rejected(SyntaxError)
    case Some(q) =>
      if q.table != Table || !tableExists then Rejected(NoSuchTable(q.table))
      else if |params| != Arity(q.conds) then Rejected(BindingMismatch(Arity(q.conds), |params|))
      else Resolved(Matching(rows, q.conds, params))
  }

  /** Bound to its parameters, the built statement holds of a row exactly when
      the row is wanted. */
  lemma HoldsPlan(row: Row, categories: seq<string>, searchText: string)
    requires NoWildcards(searchText)
    ensures |Bindings(categories, searchText)| == Arity(Plan(categories, searchText).conds)
    ensures Holds(Plan(categories, searchText).conds, Bindings(categories, searchText), ProbeOf(row))
            <==> Wanted(row, categories, searchText)
  {
    PlanShape(categories, searchText);
    var cs := Plan(categories, searchText).conds;
    var ps := Bindings(categories, searchText);
    var n := |categories|;
    if searchText != "" {
      LikeContains(row.item.name, searchText);
      var tail := [NameLike];
      assert Holds(tail, ["%" + searchText + "%"], ProbeOf(row))
             <==> Like(row.item.name, "%" + searchText + "%");
    }
    if n > 0 {
      assert cs[0] == CategoryIn(n) && ps[..n] == categories;
      assert cs[1..] == (if searchText != "" then [NameLike] else []);
      assert ps[n..] == (if searchText != "" then ["%" + searchText + "%"] else []);
    }
  }

  /** The fetch returns exactly the wanted rows, in table order. */
  lemma {:induction false} MatchingPlan(rows: seq<Row>, categories: seq<string>, searchText: string)
    requires NoWildcards(searchText)
    ensures |Bindings(categories, searchText)| == Arity(Plan(categories, searchText).conds)
    ensures Matching(rows, Plan(categories, searchText).conds, Bindings(categories, searchText))
            == FilterRows(rows, categories, searchText)
  {
    PlanShape(categories, searchText);
    if rows != [] {
      HoldsPlan(rows[0], categories, searchText);
      MatchingPlan(rows[1..], categories, searchText);
    }
  }

  /** Listing a category twice, or in another order, does not change the rows
      a fetch returns. */
  lemma {:induction false} FilterSameCategories(rows: seq<Row>, c1: seq<string>, c2: seq<string>, searchText: string)
    requires forall x :: x in c1 <==> x in c2
    ensures FilterRows(rows, c1, searchText) == FilterRows(rows, c2, searchText)
  {
    assert c1 == [] <==> c2 == [] by {
      if c1 != [] { assert c1[0] in c2; }
      if c2 != [] { assert c2[0] in c1; }
    }
    if rows != [] {
      assert Wanted(rows[0], c1, searchText) == Wanted(rows[0], c2, searchText);
      FilterSameCategories(rows[1..], c1, c2, searchText);
    }
  }

  /** With no filter every row is returned. */
  lemma {:induction false} FilterNothing(rows: seq<Row>)
    ensures FilterRows(rows, [], "") == rows
  {
    if rows != [] {
      FilterNothing(rows[1..]);
    }
  }

  lemma SelectHeadText()
    ensures "SELECT * FROM " + Table == "SELECT * FROM menu"
  {
  }

  lemma WhereCategoryText()
    ensures " WHERE category IN (" == " WHERE " + "category IN ("
  {
  }

  /** The rendered statement, piece by piece as `fetchMenuItems` appends it. */
  lemma PlanText(categories: seq<string>, searchText: string)
    ensures RenderSelect(Plan(categories, searchText)) ==
      "SELECT * FROM menu"
      + (if |categories| > 0 then " WHERE category IN (" + Marks(|categories|) + ")" else "")
      + (if searchText != "" then (if |categories| > 0 then " AND " else " WHERE ") + "name LIKE ?" else "")
  {
    var cs := Plan(categories, searchText).conds;
    var head := "SELECT * FROM menu";
    SelectHeadText();
    var m := Marks(|categories|);
    var c := RenderCond(CategoryIn(|categories|));
    var l := "name LIKE ?";
    var cat := " WHERE category IN (" + m + ")";
    assert " WHERE " + c == cat by {
      WhereCategoryText();
      Assoc(" WHERE ", "category IN (" + m, ")");
      Assoc(" WHERE ", "category IN (", m);
    }
    if |categories| > 0 && searchText != "" {
      assert cs == [CategoryIn(|categories|), NameLike];
      assert cs[1..] == [NameLike];
      assert RenderConds(cs) == (c + " AND ") + l;
      Assoc(" WHERE ", c + " AND ", l);
      Assoc(" WHERE ", c, " AND ");
      Assoc(" WHERE " + c, " AND ", l);
      assert " WHERE " + RenderConds(cs) == cat + (" AND " + l);
      Assoc(head, cat, " AND " + l);
    } else if |categories| > 0 {
      assert cs == [CategoryIn(|categories|)];
      assert head + cat + "" == head + cat;
    } else if searchText != "" {
      assert cs == [NameLike];
      assert head + "" == head;
    } else {
      assert head + "" + "" == head;
    }
  }

  /** `categories.map(() => "?").join(", ")`: one mark per category. */
  method JoinMarks(n: nat) returns (marks: string)
    ensures marks == Marks(n)
    ensures Count(marks, '?') == n
  {
    marks := "";
    var i := 0;
    while i < n
      invariant 0 <= i <= n
      invariant marks == Marks(i)
    {
      marks := marks + (if i == 0 then "?" else ", ?");
      i := i + 1;
    }
    MarksCount(n);
  }

  /** Builds the text and parameters of `fetchMenuItems`' SELECT step by step. */
  method BuildQuery(categories: seq<string>, searchText: string) returns (query: string, params: seq<string>)
    ensures query == RenderSelect(Plan(categories, searchText))
    ensures params == Bindings(categories, searchText)
    ensures Count(query, '?') == |params|
  {
    query := "SELECT * FROM menu";
    params := [];
    if |categories| > 0 {
      var marks := JoinMarks(|categories|);
      query := query + (" WHERE category IN (" + marks + ")");
      params := params + categories;
    }
    if searchText != "" {
      query := query + ((if |categories| > 0 then " AND " else " WHERE ") + "name LIKE ?");
      params := params + ["%" + searchText + "%"];
    }
    PlanText(categories, searchText);
    assert query == RenderSelect(Plan(categories, searchText)) by {
      var head := "SELECT * FROM menu";
      var cat := if |categories| > 0 then " WHERE category IN (" + Marks(|categories|) + ")" else "";
      var search := if searchText != "" then (if |categories| > 0 then " AND " else " WHERE ") + "name LIKE ?" else "";
      if |categories| == 0 { assert head + cat == head; }
      if searchText == "" { assert head + cat + search == head + cat; }
    }
    CountAbsent(Table, '?');
    SelectPlaceholders(Plan(categories, searchText));
    PlanShape(categories, searchText);
  }

  class MenuDatabase {
    var tableExists: bool
    var rows: seq<Row>

    ghost predicate Valid()
      reads this
    {
      UniqueIds(rows) && (!tableExists ==> rows == [])
    }

    /** Opens little_lemon.db with whatever it already holds. */
    constructor Open(exists_: bool, stored: seq<Row>)
      requires UniqueIds(stored) && (!exists_ ==> stored == [])
      ensures Valid() && tableExists == exists_ && rows == stored
    {
      tableExists := exists_;
      rows := stored;
    }

    /** `init`: CREATE TABLE IF NOT EXISTS never touches an existing table, so a
        second call has the same effect as the first. */
    method Init() returns (outcome: Settled<()>)
      requires Valid()
      modifies this`tableExists
      ensures Valid() && tableExists && rows == old(rows)
      ensures outcome == Resolved(())
    {
      tableExists := true;
      outcome := Resolved(());
    }

    /** `insertMenuItems`: one INSERT per item; `resolve()` runs once the
        statements are queued, so the call reports success even when the
        statements fail (as they all do when the table is missing). */
    method InsertMenuItems(items: seq<MenuItem>) returns (outcome: Settled<()>)
      requires Valid()
      modifies this`rows
      ensures Valid() && tableExists == old(tableExists)
      ensures rows == if tableExists then Inserted(old(rows), items) else old(rows)
      ensures outcome == Resolved(())
    {
      var i := 0;
      while i < |items|
        invariant 0 <= i <= |items|
        invariant Valid()
        invariant rows == if tableExists then Inserted(old(rows), items[..i]) else old(rows)
      {
        if tableExists && PrepareInsert(MenuInsert, |BindValues(items[i])|).Resolved? {
          assert items[..i + 1][..i] == items[..i];
          InsertedRows(old(rows), items[..i + 1]);
          rows := rows + [Row(NextId(rows), items[i])];
        }
        i := i + 1;
      }
      assert items[..|items|] == items;
      outcome := Resolved(());
    }

    /** `fetchMenuItems(categories, searchText)`: builds the statement, runs
        it, and settles with the rows SQLite returns. */
    method FetchMenuItems(categories: seq<string>, searchText: string) returns (result: Settled<seq<Row>>)
      requires Valid()
      ensures !tableExists ==> result == Rejected(NoSuchTable(Table))
      ensures tableExists ==> result.Resolved? && forall x :: x in result.value ==> x in rows
      ensures tableExists && NoWildcards(searchText) ==> result == Resolved(FilterRows(rows, categories, searchText))
    {
      var query, params := BuildQuery(categories, searchText);
      ParseSelectOf(Plan(categories, searchText));
      PlanShape(categories, searchText);
      result := ExecuteSelect(query, params, tableExists, rows);
      if tableExists {
        MatchingIn(rows, Plan(categories, searchText).conds, params);
        if NoWildcards(searchText) {
          MatchingPlan(rows, categories, searchText);
        }
      }
    }

    /** `deleteAllMenuItems`: empties the table and keeps it. */
    method DeleteAllMenuItems() returns (outcome: Settled<()>)
      requires Valid()
      modifies this`rows
      ensures Valid() && tableExists == old(tableExists)
      ensures old(tableExists) ==> rows == [] && outcome == Resolved(())
      ensures !old(tableExists) ==> rows == old(rows) && outcome == Rejected(NoSuchTable(Table))
    {
      if tableExists {
        rows := [];
        outcome := Resolved(());
      } else {
        outcome := Rejected(NoSuchTable(Table));
      }
    }
  }

  /** A select only returns rows of the table. */
  lemma {:induction false} MatchingIn(rows: seq<Row>, cs: seq<Cond>, params: seq<string>)
    requires |params| == Arity(cs)
    ensures forall x :: x in Matching(rows, cs, params) ==> x in rows
  {
    if rows != [] {
      MatchingIn(rows[1..], cs, params);
    }
  }
}
