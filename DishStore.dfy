/** The older store of database.js: the `Dish` table of LittleLemon.db. Its
    rows have the same shape as those of `menu`. */
module DishStore {
  import opened Text
  import opened Sql
  import opened MenuStore

  const DishTable := "Dish"

  /** The INSERT of `insertMenuItems` as written, four columns and five `?`:
      `INSERT INTO Dish (name, price, description, image) VALUES (?, ?, ?, ?, ?);` */
  const DishInsert := Insert(DishTable, ["name", "price", "description", "image"], 5)

  /** The statement evidently meant: the fifth bound value, the category, gets
      its column. It is the statement db.js uses on `menu`. */
  const IntendedDishInsert := Insert(DishTable, MenuInsert.columns, 5)

  /** SQLite refuses the statement when it is prepared ("5 values for 4
      columns"), for every item; and `category` is not among its columns. */
  lemma DishInsertRejected()
    ensures PrepareInsert(DishInsert, 5) == Rejected(ValuesColumnsMismatch(5, 4))
    ensures "category" !in DishInsert.columns
  {
    assert DishInsert.columns[3] == "image";
  }

  /** The corrected statement is accepted and writes all five columns. */
  lemma IntendedDishInsertAccepted()
    ensures PrepareInsert(IntendedDishInsert, 5) == Resolved(())
    ensures "category" in IntendedDishInsert.columns
  {
    assert IntendedDishInsert.columns[4] == "category";
  }

  class DishDatabase {
    var tableExists: bool
    var rows: seq<Row>

    ghost predicate Valid()
      reads this
    {
      UniqueIds(rows) && (!tableExists ==> rows == [])
    }

    /** Opens LittleLemon.db with whatever it already holds. */
    constructor Open(exists_: bool, stored: seq<Row>)
      requires UniqueIds(stored) && (!exists_ ==> stored == [])
      ensures Valid() && tableExists == exists_ && rows == stored
    {
      tableExists := exists_;
      rows := stored;
    }

    /** `init`: CREATE TABLE IF NOT EXISTS Dish keeps an existing table and its rows. */
    method Init() returns (outcome: Settled<()>)
      requires Valid()
      modifies this`tableExists
      ensures Valid() && tableExists && rows == old(rows)
      ensures outcome == Resolved(())
    {
      tableExists := true;
      outcome := Resolved(());
    }

    /** `insertMenuItems`: every statement is rejected when prepared, so no row
        is ever added; the promise still resolves after the loop. */
    method InsertMenuItems(items: seq<MenuItem>) returns (outcome: Settled<()>)
      requires Valid()
      modifies this`rows
      ensures Valid() && rows == old(rows)
      ensures outcome == Resolved(())
    {
      var i := 0;
      while i < |items|
        invariant 0 <= i <= |items|
        invariant rows == old(rows)
      {
        var prepared := PrepareInsert(DishInsert, |BindValues(items[i])|);
        DishInsertRejected();
        // Rejected: the error callback calls reject() on a promise that has
        // already resolved, and the loop goes on.
        assert prepared.Rejected?;
        i := i + 1;
      }
      outcome := Resolved(());
    }

    /** `fetchMenuItems`: `SELECT * FROM Dish;` with no filter. */
    method FetchMenuItems() returns (result: Settled<seq<Row>>)
      requires Valid()
      ensures tableExists ==> result == Resolved(rows)
      ensures !tableExists ==> result == Rejected(NoSuchTable(DishTable))
    {
      if tableExists {
        result := Resolved(rows);
      } else {
        result := Rejected(NoSuchTable(DishTable));
      }
    }

    /** `deleteAllMenuItems`: `DELETE FROM Dish;` leaves the table empty. */
    method DeleteAllMenuItems() returns (outcome: Settled<()>)
      requires Valid()
      modifies this`rows
      ensures Valid() && tableExists == old(tableExists)
      ensures old(tableExists) ==> rows == [] && outcome == Resolved(())
      ensures !old(tableExists) ==> rows == old(rows) && outcome == Rejected(NoSuchTable(DishTable))
    {
      if tableExists {
        rows := [];
        outcome := Resolved(());
      } else {
        outcome := Rejected(NoSuchTable(DishTable));
      }
    }
  }
}
