/** Aggregate accounting of decoded state: what a collecting reader retains, and the
    working set of the next composition beside it. */
module DecodedBudget {
  import opened Wrappers
  import opened Registry
  import opened Populations

  datatype LimitReached = LimitReached(required: nat)

  class DecodedStateBudget {
    const limit: nat
    var retained: nat

    constructor (limit: nat)
      requires limit > 0
      ensures this.limit == limit && retained == 0
    {
      this.limit := limit;
      this.retained := 0;
    }

    /** Whether `additional` bytes fit beside what is retained; charges nothing. */
    method Check(additional: nat) returns (r: Result<nat, LimitReached>)
      ensures r.Success? <==> retained + additional <= limit
      ensures r.Success? ==> r.value == retained + additional
      ensures r.Failure? ==> r.error.required > limit
    {
      var required := retained + additional;
      if required > limit { return Failure(LimitReached(required)); }
      return Success(required);
    }

    /** Charge output the result keeps; an amount that does not fit is not charged. */
    method Retain(added: nat) returns (r: Result<nat, LimitReached>)
      modifies this
      ensures r.Success? <==> old(retained) + added <= limit
      ensures retained == if r.Success? then old(retained) + added else old(retained)
      ensures r.Success? ==> retained <= limit
    {
      r := Check(added);
      if r.Success? { retained := r.value; }
    }
  }

  // ---- what a state costs ----

  /** Element capacity of one 64-bit column: eight bytes a bin, `Channels(a)` bins a row. */
  function ColumnBytes(rows: nat, a: nat): nat {
    if Channels(a) == 3 then 24 * rows else 8 * rows
  }

  ghost function ColumnsBytes(rows: nat, lanes: set<nat>): nat {
    if lanes == {} then 0 else
      var a :| a in lanes;
      ColumnBytes(rows, a) + ColumnsBytes(rows, lanes - {a})
  }

  lemma {:induction false} ColumnsBytesOfOne(rows: nat, lanes: set<nat>, a: nat)
    requires a in lanes
    ensures ColumnsBytes(rows, lanes) == ColumnBytes(rows, a) + ColumnsBytes(rows, lanes - {a})
    decreases |lanes|
  {
    var b :| b in lanes && ColumnsBytes(rows, lanes) == ColumnBytes(rows, b) + ColumnsBytes(rows, lanes - {b});
    if a != b {
      ColumnsBytesOfOne(rows, lanes - {b}, a);
      ColumnsBytesOfOne(rows, lanes - {a}, b);
      assert lanes - {a} - {b} == lanes - {b} - {a};
    }
  }

  /** Element capacity of the arrays a state holds: its identities and every column. */
  ghost function Capacity(p: Population): nat {
    8 * |p.rows| + ColumnsBytes(|p.rows|, p.lanes)
  }

  lemma {:induction false} RowCount(t: Table)
    requires Unique(t.ids)
    ensures |View(t).rows| == |t.ids|
  {
    UniqueCount(t.ids);
    assert View(t).rows.Keys == Ids(t.ids);
    assert |View(t).rows| == |View(t).rows.Keys|;
  }

  method StateCapacity(t: Table) returns (bytes: nat)
    requires Unique(t.ids)
    ensures bytes == Capacity(View(t))
  {
    RowCount(t);
    bytes := 8 * |t.ids|;
    var todo := t.bins.Keys;
    while todo != {}
      invariant todo <= t.bins.Keys
      invariant bytes + ColumnsBytes(|t.ids|, todo) == Capacity(View(t))
    {
      var a :| a in todo;
      ColumnsBytesOfOne(|t.ids|, todo, a);
      bytes := bytes + ColumnBytes(|t.ids|, a);
      todo := todo - {a};
    }
  }

  function KeyframeWorking(count: nat, bodyBytes: nat): nat {
    count * 400 + bodyBytes
  }

  function DeltaWorking(reference: nat, updates: nat, births: nat, deaths: nat, bodyBytes: nat): nat {
    (reference + births) * 400 + (updates + births + deaths) * 200 + bodyBytes
  }
}
