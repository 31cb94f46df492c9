/**
 * The customer table and its preprocessing: the raw columns of one purchase,
 * and the three derived columns that preprocessing assigns into the table in
 * place, one after another.
 */
module Frame {
  import opened Wrappers
  import Catalog

  /** One row of the raw table: Product, Age, Gender, Education, MaritalStatus, Usage, Fitness, Income, Miles. */
  datatype Record = Record(
    product: string,
    age: int,
    gender: string,
    education: int,
    maritalStatus: string,
    usage: int,
    fitness: int,
    income: int,
    miles: int)

  /** A row of the preprocessed table: the raw record and the three derived fields. */
  datatype Row = Row(
    record: Record,
    productPrice: Option<nat>,
    fitnessCategory: Option<string>,
    ageCategory: Option<Catalog.AgeBucket>)

  /** The derived fields of one record; each depends only on its own raw column. */
  function EnrichRecord(r: Record): (row: Row)
    ensures row.record == r
    ensures row.productPrice.Some? <==> r.product in {"KP281", "KP481", "KP781"}
    ensures row.fitnessCategory.Some? <==> 1 <= r.fitness <= 5
    ensures row.ageCategory.Some? <==> 0 <= r.age <= 60
  {
    Row(r, Catalog.ProductPrice(r.product), Catalog.FitnessCategory(r.fitness), Catalog.AgeCategory(r.age))
  }

  /** The preprocessed table as a value. */
  function Enrich(rs: seq<Record>): (rows: seq<Row>)
    ensures |rows| == |rs|
    ensures forall i :: 0 <= i < |rs| ==> rows[i].record == rs[i]
  {
    seq(|rs|, i requires 0 <= i < |rs| => EnrichRecord(rs[i]))
  }

  /**
   * Preprocessing keeps the number and order of rows and every raw column;
   * each derived field is missing exactly when its lookup fails.
   */
  lemma EnrichKeepsRows(rs: seq<Record>)
    ensures |Enrich(rs)| == |rs|
    ensures forall i :: 0 <= i < |rs| ==> Enrich(rs)[i].record == rs[i]
    ensures forall i :: 0 <= i < |rs| ==>
              (Enrich(rs)[i].productPrice.Some? <==> rs[i].product in {"KP281", "KP481", "KP781"})
    ensures forall i :: 0 <= i < |rs| ==> (Enrich(rs)[i].fitnessCategory.Some? <==> 1 <= rs[i].fitness <= 5)
    ensures forall i :: 0 <= i < |rs| ==> (Enrich(rs)[i].ageCategory.Some? <==> 0 <= rs[i].age <= 60)
  {
  }

  function Records(rows: seq<Row>): seq<Record>
  {
    seq(|rows|, i requires 0 <= i < |rows| => rows[i].record)
  }

  /** Preprocessing an already preprocessed table yields the same derived values. */
  lemma EnrichIdempotent(rs: seq<Record>)
    ensures Enrich(Records(Enrich(rs))) == Enrich(rs)
  {
    assert Records(Enrich(rs)) == rs;
  }

  /** The derived columns, each computed from one raw column. */
  function PriceColumn(rs: seq<Record>): seq<Option<nat>>
  {
    seq(|rs|, i requires 0 <= i < |rs| => Catalog.ProductPrice(rs[i].product))
  }

  function FitnessColumn(rs: seq<Record>): seq<Option<string>>
  {
    seq(|rs|, i requires 0 <= i < |rs| => Catalog.FitnessCategory(rs[i].fitness))
  }

  function AgeColumn(rs: seq<Record>): seq<Option<Catalog.AgeBucket>>
  {
    seq(|rs|, i requires 0 <= i < |rs| => Catalog.AgeCategory(rs[i].age))
  }

  /**
   * A table whose derived columns are added in place. A derived column is
   * None until it has been assigned.
   */
  class DataFrame {
    var records: seq<Record>
    var productPrice: Option<seq<Option<nat>>>
    var fitnessCategory: Option<seq<Option<string>>>
    var ageCategory: Option<seq<Option<Catalog.AgeBucket>>>

    /** Every column present has one entry per row. */
    ghost predicate Valid()
      reads this
    {
      && (productPrice.Some? ==> |productPrice.value| == |records|)
      && (fitnessCategory.Some? ==> |fitnessCategory.value| == |records|)
      && (ageCategory.Some? ==> |ageCategory.value| == |records|)
    }

    predicate HasDerivedColumns()
      reads this
    {
      productPrice.Some? && fitnessCategory.Some? && ageCategory.Some?
    }

    /** The table read row by row. */
    function Rows(): (rows: seq<Row>)
      reads this
      requires Valid() && HasDerivedColumns()
    {
      var rs, prices, fitness, ages := records, productPrice.value, fitnessCategory.value, ageCategory.value;
      seq(|rs|, i requires 0 <= i < |rs| => Row(rs[i], prices[i], fitness[i], ages[i]))
    }

    /** A raw table, as the CSV loader returns it: no derived columns yet. */
    constructor (rs: seq<Record>)
      ensures Valid()
      ensures records == rs
      ensures productPrice.None? && fitnessCategory.None? && ageCategory.None?
    {
      records := rs;
      productPrice, fitnessCategory, ageCategory := None, None, None;
    }

    /** DataFrame.copy(): a new table with the same columns. */
    method Copy() returns (c: DataFrame)
      requires Valid()
      ensures fresh(c) && c.Valid()
      ensures c.records == records
      ensures c.productPrice == productPrice
      ensures c.fitnessCategory == fitnessCategory
      ensures c.ageCategory == ageCategory
    {
      c := new DataFrame(records);
      c.productPrice, c.fitnessCategory, c.ageCategory := productPrice, fitnessCategory, ageCategory;
    }

    /** Adds the price column: each row's product looked up in the price list. */
    method AssignProductPrice()
      requires Valid()
      modifies this
      ensures Valid()
      ensures productPrice == Some(PriceColumn(records))
      ensures records == old(records)
      ensures fitnessCategory == old(fitnessCategory) && ageCategory == old(ageCategory)
    {
      productPrice := Some(PriceColumn(records));
    }

    /** Adds the fitness label column: each row's rating looked up in the label list. */
    method AssignFitnessCategory()
      requires Valid()
      modifies this
      ensures Valid()
      ensures fitnessCategory == Some(FitnessColumn(records))
      ensures records == old(records)
      ensures productPrice == old(productPrice) && ageCategory == old(ageCategory)
    {
      fitnessCategory := Some(FitnessColumn(records));
    }

    /** Adds the age bucket column: each row's age placed in its bin. */
    method AssignAgeCategory()
      requires Valid()
      modifies this
      ensures Valid()
      ensures ageCategory == Some(AgeColumn(records))
      ensures records == old(records)
      ensures productPrice == old(productPrice) && fitnessCategory == old(fitnessCategory)
    {
      ageCategory := Some(AgeColumn(records));
    }
  }

  /**
   * preprocess_data: assigns the three derived columns into df and returns
   * the same table. The raw columns are left as they were.
   */
  method PreprocessData(df: DataFrame) returns (result: DataFrame)
    requires df.Valid()
    modifies df
    ensures result == df
    ensures df.Valid() && df.HasDerivedColumns()
    ensures df.records == old(df.records)
    ensures df.Rows() == Enrich(df.records)
  {
    df.AssignProductPrice();
    df.AssignFitnessCategory();
    df.AssignAgeCategory();
    result := df;
  }

  /**
   * The dataset the dashboard works on: preprocessing works on a copy, so
   * the raw table is untouched and the result is a new table.
   */
  method PrepareDataset(dfRaw: DataFrame) returns (df: DataFrame)
    requires dfRaw.Valid()
    ensures fresh(df)
    ensures unchanged(dfRaw)
    ensures df.Valid() && df.HasDerivedColumns()
    ensures df.records == dfRaw.records
    ensures df.Rows() == Enrich(dfRaw.records)
  {
    var copy := dfRaw.Copy();
    df := PreprocessData(copy);
  }
}
