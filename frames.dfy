/** The pandas DataFrame a pipeline edits in place, as an object whose
    methods reassign its fields. Each method is specified by the pure table
    operation of the same meaning, so a pipeline that runs these methods in
    order can be compared with a composition of those operations. */
module Frames {
  import opened Wrappers
  import opened Seqs
  import opened Tables

  class Frame {
    var names: seq<string>
    var cols: map<string, Column>
    var height: nat

    /** The table the frame currently holds. */
    function View(): Table
      reads this
    {
      Table(names, cols, height)
    }

    /** `pd.read_csv(...)`: the frame starts out holding the raw table. */
    constructor (t: Table)
      ensures View() == t
    {
      names, cols, height := t.names, t.cols, t.height;
    }

    /** `df[n]`, raising KeyError when there is no such column. */
    method Get(n: string) returns (r: Result<Column, Error>)
      ensures r.Ok? <==> n in cols
      ensures r.Ok? ==> r.value == cols[n]
      ensures r.Err? ==> r.error == MissingColumn(n)
    {
      if n in cols {
        r := Ok(cols[n]);
      } else {
        r := Err(MissingColumn(n));
      }
    }

    /** `df[n]` used as an arithmetic operand. */
    method GetNumeric(n: string) returns (r: Result<seq<Option<real>>, Error>)
      ensures r == LookupNumeric(View(), n)
    {
      if n !in cols {
        r := Err(MissingColumn(n));
      } else if cols[n].CatCol? {
        r := Err(NotNumeric(n));
      } else {
        r := Ok(cols[n].nums);
      }
    }

    /** `df[n] = c`. */
    method Set(n: string, c: Column)
      requires View().Valid() && c.Length() == height
      modifies this
      ensures View() == SetColumn(old(View()), n, c)
    {
      if n !in cols {
        names := names + [n];
      }
      cols := cols[n := c];
    }

    /** `df = df.drop(labels, axis=1, errors="ignore")`. */
    method Drop(labels: seq<string>)
      requires View().Valid()
      modifies this
      ensures View() == DropColumns(old(View()), labels)
    {
      names := Without(names, labels);
      cols := map n | n in cols && n !in labels :: cols[n];
    }

    /** `df[fs]` for a list of names: a new table, the frame is unchanged. */
    method Select(fs: seq<string>) returns (r: Result<Table, Error>)
      requires View().Valid() && NoDuplicates(fs)
      ensures r == SelectColumns(View(), fs)
    {
      if forall n | n in fs :: n in cols {
        r := Ok(Table(fs, map n | n in fs :: cols[n], height));
      } else {
        r := Err(MissingColumn(FirstAbsent(View(), fs)));
      }
    }

    /** `df[block.names] = block`. */
    method Assign(block: Table)
      requires View().Valid() && block.Valid() && block.height == height
      modifies this
      ensures View() == AssignAll(old(View()), block)
    {
      names := names + Without(block.names, names);
      cols := cols + block.cols;
    }
  }
}
