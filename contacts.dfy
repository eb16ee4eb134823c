/** Contact records as read from the spreadsheet, and the field filter that
    projects every row onto the allow-list of columns the pipeline uses. */
module Contacts {

  /** One spreadsheet row: column header to cell value. */
  type Record = map<string, string>

  /** The allow-list of columns, in the order the program lists them. */
  const FilterCriteria: seq<string> := ["name", "bio", "email"]

  /** Keeps exactly the columns of `data` that are on the allow-list, with
      their values; a missing column is left out, never filled in. */
  function FilterRecord(data: Record): (f: Record)
    ensures forall key :: key in f <==> key in data && key in FilterCriteria
    ensures forall key :: key in f ==> f[key] == data[key]
    ensures f.Keys <= {"name", "bio", "email"}
  {
    map key | key in data && key in FilterCriteria :: data[key]
  }

  /** The filter applied to every row: same number of rows, same order. */
  function FilterData(rows: seq<Record>): (filtered: seq<Record>)
    ensures |filtered| == |rows|
    ensures forall i :: 0 <= i < |rows| ==> filtered[i] == FilterRecord(rows[i])
  {
    seq(|rows|, i requires 0 <= i < |rows| => FilterRecord(rows[i]))
  }

  /** Filtering a filtered row changes nothing. */
  lemma FilterRecordIdempotent(data: Record)
    ensures FilterRecord(FilterRecord(data)) == FilterRecord(data)
  {
  }

  /** A filtered row is a sub-map of its source row with at most three columns. */
  lemma FilterRecordSubMap(data: Record)
    ensures FilterRecord(data).Keys <= data.Keys
    ensures |FilterRecord(data)| <= 3
  {
    var f := FilterRecord(data);
    assert f.Keys <= {"name", "bio", "email"};
    SubsetCard(f.Keys, {"name", "bio", "email"});
  }

  /** A subset is no larger than its superset. */
  lemma SubsetCard(a: set<string>, b: set<string>)
    requires a <= b
    ensures |a| <= |b|
  {
    if a != {} {
      var x :| x in a;
      SubsetCard(a - {x}, b - {x});
    }
  }

  /** Every row that has an `email` column still has it, unchanged, after the
      filter; a row without one does not gain one. */
  lemma FilterDataKeepsEmail(rows: seq<Record>, i: int)
    requires 0 <= i < |rows|
    ensures "email" in FilterData(rows)[i] <==> "email" in rows[i]
    ensures "email" in rows[i] ==> FilterData(rows)[i]["email"] == rows[i]["email"]
  {
  }
}
