/**
 * The one ORM query shape the validators share:
 * `Model.objects.filter(name__iexact=value).exclude(id=own_id).exists()`,
 * over a table given as a sequence of rows.
 */
module Queries {
  import opened Wrappers
  import opened Text

  /** A row of a table with a name column. */
  datatype Row = Row(id: nat, name: string)

  /** A row other than `exclude` whose name equals `value` ignoring case. */
  predicate ClashesAt(rows: seq<Row>, value: string, exclude: Option<nat>, i: int)
    requires 0 <= i < |rows|
  {
    Some(rows[i].id) != exclude && IEquals(rows[i].name, value)
  }

  /** `filter(name__iexact=value).exclude(id=exclude).exists()`; `exclude == None` excludes nothing. */
  function IExactExists(rows: seq<Row>, value: string, exclude: Option<nat>): (r: bool)
    ensures r <==> exists i :: 0 <= i < |rows| && ClashesAt(rows, value, exclude, i)
  {
    if rows == [] then false
    else
      var last := |rows| - 1;
      var before := IExactExists(rows[..last], value, exclude);
      assert forall i :: 0 <= i < last ==> (ClashesAt(rows[..last], value, exclude, i) <==> ClashesAt(rows, value, exclude, i));
      var here := Some(rows[last].id) != exclude && Lower(rows[last].name) == Lower(value);
      assert here == ClashesAt(rows, value, exclude, last);
      before || here
  }

  /** `__iexact` already ignores case, so lower-casing the value first changes nothing. */
  lemma IExactIgnoresLower(rows: seq<Row>, value: string, exclude: Option<nat>)
    ensures IExactExists(rows, Lower(value), exclude) == IExactExists(rows, value, exclude)
  {
    LowerIdempotent(value);
    if IExactExists(rows, value, exclude) {
      var i :| 0 <= i < |rows| && ClashesAt(rows, value, exclude, i);
      assert ClashesAt(rows, Lower(value), exclude, i);
    }
    if IExactExists(rows, Lower(value), exclude) {
      var i :| 0 <= i < |rows| && ClashesAt(rows, Lower(value), exclude, i);
      assert ClashesAt(rows, value, exclude, i);
    }
  }

  /** A row's own name never clashes when that row is excluded, whatever its case. */
  lemma OwnRowNeverClashes(rows: seq<Row>, own: nat, value: string)
    requires forall i :: 0 <= i < |rows| ==> rows[i].id == own || !IEquals(rows[i].name, value)
    ensures !IExactExists(rows, value, Some(own))
  {
  }

  /** Without an exclusion, any row with the same name in another case clashes, the row being edited included. */
  lemma SameNameClashes(rows: seq<Row>, i: int, value: string)
    requires 0 <= i < |rows| && IEquals(rows[i].name, value)
    ensures IExactExists(rows, value, None)
  {
    assert ClashesAt(rows, value, None, i);
  }
}
