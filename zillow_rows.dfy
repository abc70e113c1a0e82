/**
 * get_single_unit_properties: keep the rows describing single-unit
 * residential properties (wrangle_zillow.py).
 */
module ZillowRows {
  import opened Frame

  /** The land-use descriptions the source counts as single-unit property types. */
  const PropertyTypes: seq<string> := [
    "Single Family Residential",
    "Condominium",
    "Cluster Home",
    "Mobile Home",
    "Manufactured, Modular, Prefabricated Homes",
    "Residential General",
    "Townhouse"
  ]

  /** `propertylandusedesc.isin(property_types)`: a missing cell is never in the list. */
  predicate IsSingleUnitUse(c: Cell) {
    c.Some? && c.value.Str? && c.value.s in PropertyTypes
  }

  /** `(unitcnt == 1) | unitcnt.isnull()`. */
  predicate IsSingleUnitCount(c: Cell) {
    c.None? || c == Some(Num(1.0))
  }

  /** The boolean mask of the first selection, on the land-use column at position `d`. */
  function UseMask(d: nat): seq<Cell> -> bool {
    row => d < |row| && IsSingleUnitUse(row[d])
  }

  /** The boolean mask of the second selection, on the unit-count column at position `u`. */
  function CountMask(u: nat): seq<Cell> -> bool {
    row => u < |row| && IsSingleUnitCount(row[u])
  }

  /** A row of `t` that passes both selections. */
  predicate IsSingleUnitRow(t: Table, row: seq<Cell>) {
    var d := IndexOf(t.columns, "propertylandusedesc");
    var u := IndexOf(t.columns, "unitcnt");
    && d.Some? && u.Some? && d.value < |row| && u.value < |row|
    && IsSingleUnitUse(row[d.value]) && IsSingleUnitCount(row[u.value])
  }

  function GetSingleUnitProperties(t: Table): (r: Result<Table>)
    requires WellFormed(t)
    ensures r.Err? <==> "propertylandusedesc" !in t.columns || "unitcnt" !in t.columns
    ensures r.Err? ==> r.error == SchemaError
    ensures r.Ok? ==> WellFormed(r.value) && r.value.columns == t.columns
    ensures r.Ok? ==> forall i :: 0 <= i < |r.value.rows| ==> IsSingleUnitRow(t, r.value.rows[i])
  {
    match IndexOf(t.columns, "propertylandusedesc")
    case None => Err(SchemaError)
    case Some(d) =>
      var byUse := Filter(t.rows, UseMask(d));
      match IndexOf(t.columns, "unitcnt")
      case None => Err(SchemaError)
      case Some(u) =>
        var kept := Filter(byUse, CountMask(u));
        assert forall i :: 0 <= i < |kept| ==> IsSingleUnitRow(t, kept[i]) by {
          forall i | 0 <= i < |kept| ensures IsSingleUnitRow(t, kept[i]) {
            assert UseMask(d)(kept[i]) && CountMask(u)(kept[i]);
          }
        }
        Ok(Table(t.columns, kept))
  }

  /**
   * The two selections amount to one mask: the result is exactly the rows
   * of the input that pass both tests, in their original order and with
   * their cells unchanged, and every such row is kept.
   */
  lemma {:induction false} GetSingleUnitPropertiesSelects(t: Table)
    requires WellFormed(t)
    requires "propertylandusedesc" in t.columns && "unitcnt" in t.columns
    ensures GetSingleUnitProperties(t).Ok?
    ensures GetSingleUnitProperties(t).value.rows == Filter(t.rows, row => IsSingleUnitRow(t, row))
    ensures IsSubsequence(GetSingleUnitProperties(t).value.rows, t.rows)
    ensures forall i :: 0 <= i < |t.rows| && IsSingleUnitRow(t, t.rows[i])
              ==> t.rows[i] in GetSingleUnitProperties(t).value.rows
  {
    var d := IndexOf(t.columns, "propertylandusedesc").value;
    var u := IndexOf(t.columns, "unitcnt").value;
    var both := row => IsSingleUnitRow(t, row);
    FilterFilter(t.rows, UseMask(d), CountMask(u), both);
    FilterIsSubsequence(t.rows, both);
  }
}
