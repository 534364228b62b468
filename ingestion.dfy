/**
 * Row ingestion of `parseExcelFile` (main.js): turns the decoded rows of
 * the first sheet into index-aligned `dates` and `weights`, tolerating the
 * column names Date/date/日期 and Weight/weight/体重.
 *
 * Decoding the file into rows is not part of this model: it starts from
 * the list of row records. A row is a string-keyed record of JavaScript
 * values; a key that is absent reads as `undefined`.
 */
module Ingestion {
  import opened Wrappers

  /** The JavaScript values a decoded cell can hold. */
  datatype Value = Undefined | Null | Text(s: string) | Num(n: real) | Bool(b: bool)

  type Row = map<string, Value>

  /** One kept row: its date label (display text) and its finite weight. */
  datatype Measurement = Measurement(date: string, weight: real)

  /** The column aliases, in the order the `??` chains try them (repeats included). */
  const DateAliases: seq<string> := ["Date", "date", "日期", "日期", "Date"]
  const WeightAliases: seq<string> := ["Weight", "weight", "体重", "体重", "Weight"]

  /** Property access `r[key]`: an absent key reads as `undefined`. */
  function Get(row: Row, key: string): Value {
    if key in row then row[key] else Undefined
  }

  predicate Nullish(v: Value) {
    v.Undefined? || v.Null?
  }

  /** JavaScript `a ?? b`: `b` exactly when `a` is null or undefined. */
  function Coalesce(a: Value, b: Value): Value {
    if Nullish(a) then b else a
  }

  /** Every key before index `i` reads as null or undefined. */
  predicate NullishBefore(row: Row, keys: seq<string>, i: nat)
    requires i <= |keys|
  {
    forall j :: 0 <= j < i ==> Nullish(Get(row, keys[j]))
  }

  /**
   * `r[k0] ?? r[k1] ?? ... ?? r[kn]`: the first non-nullish value among the
   * keys, or the last key's value when every one of them is nullish.
   * JavaScript groups `??` to the left; grouping to the right gives the
   * same value (CoalesceKeysLeftGrouping).
   */
  function CoalesceKeys(row: Row, keys: seq<string>): Value
    requires |keys| > 0
    decreases |keys|
  {
    if |keys| == 1 then Get(row, keys[0])
    else Coalesce(Get(row, keys[0]), CoalesceKeys(row, keys[1..]))
  }

  /** The value of an alias chain is that of the first key that is not nullish. */
  lemma {:induction false} CoalesceKeysFirst(row: Row, keys: seq<string>, i: nat)
    requires i < |keys| && NullishBefore(row, keys, i) && !Nullish(Get(row, keys[i]))
    ensures CoalesceKeys(row, keys) == Get(row, keys[i])
    decreases i
  {
    if i > 0 {
      assert Nullish(Get(row, keys[0]));
      assert NullishBefore(row, keys[1..], i - 1) by {
        forall j | 0 <= j < i - 1
          ensures Nullish(Get(row, keys[1..][j]))
        {
          assert keys[1..][j] == keys[j + 1];
        }
      }
      CoalesceKeysFirst(row, keys[1..], i - 1);
    }
  }

  /** When every key of an alias chain is nullish, its value is that of the last key. */
  lemma {:induction false} CoalesceKeysAllNullish(row: Row, keys: seq<string>)
    requires |keys| > 0 && NullishBefore(row, keys, |keys|)
    ensures CoalesceKeys(row, keys) == Get(row, keys[|keys| - 1])
    decreases |keys|
  {
    if |keys| > 1 {
      assert Nullish(Get(row, keys[0]));
      assert NullishBefore(row, keys[1..], |keys| - 1) by {
        forall j | 0 <= j < |keys| - 1
          ensures Nullish(Get(row, keys[1..][j]))
        {
          assert keys[1..][j] == keys[j + 1];
        }
      }
      CoalesceKeysAllNullish(row, keys[1..]);
    }
  }

  lemma CoalesceAssociative(a: Value, b: Value, c: Value)
    ensures Coalesce(Coalesce(a, b), c) == Coalesce(a, Coalesce(b, c))
  {
  }

  /** The chain as JavaScript groups it: `((r[k0] ?? r[k1]) ?? ...) ?? r[kn]`. */
  function CoalesceKeysLeft(row: Row, keys: seq<string>): Value
    requires |keys| > 0
    decreases |keys|
  {
    if |keys| == 1 then Get(row, keys[0])
    else Coalesce(CoalesceKeysLeft(row, keys[..|keys| - 1]), Get(row, keys[|keys| - 1]))
  }

  /** The right fold splits off its last key like the left grouping does. */
  lemma {:induction false} CoalesceKeysSnoc(row: Row, keys: seq<string>)
    requires |keys| >= 2
    ensures CoalesceKeys(row, keys) == Coalesce(CoalesceKeys(row, keys[..|keys| - 1]), Get(row, keys[|keys| - 1]))
    decreases |keys|
  {
    var n := |keys|;
    if n > 2 {
      CoalesceKeysSnoc(row, keys[1..]);
      assert keys[1..][..n - 2] == keys[..n - 1][1..];
      assert keys[1..][n - 2] == keys[n - 1];
      CoalesceAssociative(Get(row, keys[0]), CoalesceKeys(row, keys[..n - 1][1..]), Get(row, keys[n - 1]));
    }
  }

  /** The left-grouped chain of JavaScript and the right fold of the model agree on every key list. */
  lemma {:induction false} CoalesceKeysLeftGrouping(row: Row, keys: seq<string>)
    requires |keys| > 0
    ensures CoalesceKeysLeft(row, keys) == CoalesceKeys(row, keys)
    decreases |keys|
  {
    if |keys| > 1 {
      CoalesceKeysLeftGrouping(row, keys[..|keys| - 1]);
      CoalesceKeysSnoc(row, keys);
    }
  }

  /**
   * JavaScript `Number(v)`, with `None` for a result that is not finite:
   * `undefined` gives NaN, `null` gives 0, booleans give 1 or 0, numbers
   * are themselves. The parsing of text (including `Number("")`) is left
   * to `parse`.
   */
  function ToNumber(v: Value, parse: string -> Option<real>): (r: Option<real>)
    ensures r.None? ==> v.Undefined? || (v.Text? && parse(v.s).None?)
    ensures v.Undefined? ==> r.None?
    ensures v.Null? ==> r == Some(0.0)
    ensures v.Text? ==> r == parse(v.s)
    ensures v.Bool? ==> r == Some(if v.b then 1.0 else 0.0)
    ensures v.Num? ==> r == Some(v.n)
  {
    match v
    case Undefined => None
    case Null => Some(0.0)
    case Bool(b) => Some(if b then 1.0 else 0.0)
    case Num(n) => Some(n)
    case Text(s) => parse(s)
  }

  /** JavaScript `String(v)`; the formatting of numbers is left as a parameter. */
  function ToText(v: Value, showNumber: real -> string): (text: string)
    ensures v.Text? ==> text == v.s
    ensures v.Num? ==> text == showNumber(v.n)
    ensures v.Bool? ==> text == (if v.b then "true" else "false")
    ensures v.Undefined? ==> text == "undefined"
    ensures v.Null? ==> text == "null"
  {
    match v
    case Undefined => "undefined"
    case Null => "null"
    case Bool(b) => if b then "true" else "false"
    case Num(n) => showNumber(n)
    case Text(s) => s
  }

  /** The label of a row, `String(d ?? "")`. */
  function Label(d: Value, showNumber: real -> string): (text: string)
    ensures Nullish(d) ==> text == ""
    ensures d.Text? ==> text == d.s
    ensures d.Num? ==> text == showNumber(d.n)
    ensures d.Bool? ==> text == (if d.b then "true" else "false")
  {
    ToText(Coalesce(d, Text("")), showNumber)
  }

  /** One iteration of the ingestion loop: the row's measurement, or `None` when it is skipped. */
  function Extract(row: Row, parse: string -> Option<real>, showNumber: real -> string): Option<Measurement> {
    var d := CoalesceKeys(row, DateAliases);
    var w := CoalesceKeys(row, WeightAliases);
    match ToNumber(w, parse)
    case None => None
    case Some(n) => Some(Measurement(Label(d, showNumber), n))
  }

  /** The values of the present options, in order. */
  function Somes<T>(os: seq<Option<T>>): (vs: seq<T>)
    ensures |vs| <= |os|
  {
    if os == [] then []
    else (if os[0].Some? then [os[0].value] else []) + Somes(os[1..])
  }

  lemma {:induction false} SomesAppend<T>(a: seq<Option<T>>, b: seq<Option<T>>)
    ensures Somes(a + b) == Somes(a) + Somes(b)
    decreases |a|
  {
    if a == [] {
      assert a + b == b;
    } else {
      var head := if a[0].Some? then [a[0].value] else [];
      assert (a + b)[0] == a[0] && (a + b)[1..] == a[1..] + b;
      assert Somes(a + b) == head + Somes(a[1..] + b);
      SomesAppend(a[1..], b);
      assert Somes(a) == head + Somes(a[1..]);
    }
  }

  /** Each row's outcome under the loop body, row by row. */
  function Outcomes(rows: seq<Row>, parse: string -> Option<real>, showNumber: real -> string): (os: seq<Option<Measurement>>)
    ensures |os| == |rows|
    ensures forall i :: 0 <= i < |rows| ==> os[i] == Extract(rows[i], parse, showNumber)
  {
    seq(|rows|, i requires 0 <= i < |rows| => Extract(rows[i], parse, showNumber))
  }

  /** The measurements of the rows that are kept, in row order. */
  function Kept(rows: seq<Row>, parse: string -> Option<real>, showNumber: real -> string): (ms: seq<Measurement>)
    ensures |ms| <= |rows|
  {
    Somes(Outcomes(rows, parse, showNumber))
  }

  function Dates(ms: seq<Measurement>): (dates: seq<string>)
    ensures |dates| == |ms|
    ensures forall i :: 0 <= i < |ms| ==> dates[i] == ms[i].date
  {
    seq(|ms|, i requires 0 <= i < |ms| => ms[i].date)
  }

  function Weights(ms: seq<Measurement>): (weights: seq<real>)
    ensures |weights| == |ms|
    ensures forall i :: 0 <= i < |ms| ==> weights[i] == ms[i].weight
  {
    seq(|ms|, i requires 0 <= i < |ms| => ms[i].weight)
  }

  /**
   * The loop of `parseExcelFile`: for each row, resolve the date and the
   * weight by alias, coerce the weight, skip the row when it is not finite,
   * otherwise push the label and the weight.
   */
  method Ingest(rows: seq<Row>, parse: string -> Option<real>, showNumber: real -> string)
    returns (dates: seq<string>, weights: seq<real>)
    ensures |dates| == |weights| == |Kept(rows, parse, showNumber)|
    ensures dates == Dates(Kept(rows, parse, showNumber))
    ensures weights == Weights(Kept(rows, parse, showNumber))
  {
    dates, weights := [], [];
    for i := 0 to |rows|
      invariant dates == Dates(Kept(rows[..i], parse, showNumber))
      invariant weights == Weights(Kept(rows[..i], parse, showNumber))
    {
      var r := rows[i];
      ghost var before := Kept(rows[..i], parse, showNumber);
      KeptSnoc(rows, i, parse, showNumber);
      var d := CoalesceKeys(r, DateAliases);
      var w := CoalesceKeys(r, WeightAliases);
      var wNum := ToNumber(w, parse);
      if wNum.None? {
        assert Kept(rows[..i + 1], parse, showNumber) == before;
        continue;
      }
      var m := Measurement(Label(d, showNumber), wNum.value);
      assert Kept(rows[..i + 1], parse, showNumber) == before + [m];
      dates := dates + [m.date];
      weights := weights + [m.weight];
    }
    assert rows[..|rows|] == rows;
  }

  /** Ingestion distributes over concatenation of the rows: it keeps their order. */
  lemma KeptAppend(a: seq<Row>, b: seq<Row>, parse: string -> Option<real>, showNumber: real -> string)
    ensures Kept(a + b, parse, showNumber) == Kept(a, parse, showNumber) + Kept(b, parse, showNumber)
  {
    assert Outcomes(a + b, parse, showNumber) == Outcomes(a, parse, showNumber) + Outcomes(b, parse, showNumber);
    SomesAppend(Outcomes(a, parse, showNumber), Outcomes(b, parse, showNumber));
  }

  lemma {:induction false} SomesAll<T>(os: seq<Option<T>>)
    requires forall i :: 0 <= i < |os| ==> os[i].Some?
    ensures |Somes(os)| == |os|
    ensures forall i :: 0 <= i < |os| ==> Some(Somes(os)[i]) == os[i]
    decreases |os|
  {
    if os != [] {
      SomesAll(os[1..]);
      assert forall i :: 1 <= i < |os| ==> os[1..][i - 1] == os[i];
    }
  }

  lemma {:induction false} SomesSound<T>(os: seq<Option<T>>)
    ensures forall v :: v in Somes(os) ==> Some(v) in os
    ensures (forall i :: 0 <= i < |os| ==> os[i].None?) ==> Somes(os) == []
    decreases |os|
  {
    if os != [] {
      SomesSound(os[1..]);
      if forall i :: 0 <= i < |os| ==> os[i].None? {
        assert forall i :: 0 <= i < |os[1..]| ==> os[1..][i] == os[i + 1];
      }
    }
  }

  /** One more row adds its measurement, if any, at the end. */
  lemma KeptSnoc(rows: seq<Row>, i: nat, parse: string -> Option<real>, showNumber: real -> string)
    requires i < |rows|
    ensures var o := Extract(rows[i], parse, showNumber);
      Kept(rows[..i + 1], parse, showNumber) == Kept(rows[..i], parse, showNumber) + (if o.Some? then [o.value] else [])
  {
    KeptAppend(rows[..i], [rows[i]], parse, showNumber);
    assert rows[..i + 1] == rows[..i] + [rows[i]];
    assert Outcomes([rows[i]], parse, showNumber) == [Extract(rows[i], parse, showNumber)];
  }

  /** With every row's weight finite, nothing is skipped: one measurement per row, in row order. */
  lemma KeptAll(rows: seq<Row>, parse: string -> Option<real>, showNumber: real -> string)
    requires forall i :: 0 <= i < |rows| ==> Extract(rows[i], parse, showNumber).Some?
    ensures |Kept(rows, parse, showNumber)| == |rows|
    ensures forall i :: 0 <= i < |rows| ==> Some(Kept(rows, parse, showNumber)[i]) == Extract(rows[i], parse, showNumber)
  {
    SomesAll(Outcomes(rows, parse, showNumber));
  }

  /** Every kept measurement is the measurement of some row, and rows whose weight is not finite contribute nothing. */
  lemma KeptSound(rows: seq<Row>, parse: string -> Option<real>, showNumber: real -> string)
    ensures forall m :: m in Kept(rows, parse, showNumber) ==>
      exists i :: 0 <= i < |rows| && Extract(rows[i], parse, showNumber) == Some(m)
    ensures (forall i :: 0 <= i < |rows| ==> Extract(rows[i], parse, showNumber).None?) ==> Kept(rows, parse, showNumber) == []
  {
    var os := Outcomes(rows, parse, showNumber);
    SomesSound(os);
    forall m | m in Kept(rows, parse, showNumber)
      ensures exists i :: 0 <= i < |rows| && Extract(rows[i], parse, showNumber) == Some(m)
    {
      var i :| 0 <= i < |os| && os[i] == Some(m);
    }
  }

  /**
   * A row keyed 日期/体重 ingests exactly as the same row keyed Date/Weight,
   * unless the weight cell holds `null`: the chain ends on `r["Weight"]`, so
   * a null Weight cell reaches `Number` (giving 0) while a null 体重 cell
   * gives way to an absent Weight (giving NaN).
   */
  lemma LocalizedAliases(d: Value, w: Value, parse: string -> Option<real>, showNumber: real -> string)
    requires w != Null
    ensures Extract(map["日期" := d, "体重" := w], parse, showNumber) == Extract(map["Date" := d, "Weight" := w], parse, showNumber)
  {
    var local: Row := map["日期" := d, "体重" := w];
    var english: Row := map["Date" := d, "Weight" := w];
    assert Get(local, "Date") == Get(local, "date") == Undefined;
    assert Get(local, "Weight") == Get(local, "weight") == Undefined;
    assert Get(english, "date") == Get(english, "日期") == Undefined;
    assert Get(english, "weight") == Get(english, "体重") == Undefined;
  }

  /** The null-cell difference of LocalizedAliases, on a concrete pair of rows. */
  lemma NullWeightCell(parse: string -> Option<real>, showNumber: real -> string)
    ensures Extract(map["Weight" := Null], parse, showNumber) == Some(Measurement("", 0.0))
    ensures Extract(map["体重" := Null], parse, showNumber) == None
  {
    var english: Row := map["Weight" := Null];
    var local: Row := map["体重" := Null];
    assert Get(english, "weight") == Get(english, "体重") == Undefined;
    assert Get(english, "Date") == Get(english, "date") == Get(english, "日期") == Undefined;
    assert Get(local, "Weight") == Get(local, "weight") == Undefined;
  }

  /**
   * A present but blank Weight cell wins over a later alias, and
   * `Number("")` is 0: the row is kept with weight 0, not skipped.
   */
  lemma BlankWeightKept(row: Row, parse: string -> Option<real>, showNumber: real -> string)
    requires parse("") == Some(0.0)
    requires "Weight" in row && row["Weight"] == Text("")
    ensures Extract(row, parse, showNumber).Some?
    ensures Extract(row, parse, showNumber).value.weight == 0.0
  {
    assert NullishBefore(row, WeightAliases, 0);
  }

  /** A row with none of the weight columns is skipped: `Number(undefined)` is NaN. */
  lemma MissingWeightSkipped(row: Row, parse: string -> Option<real>, showNumber: real -> string)
    requires "Weight" !in row && "weight" !in row && "体重" !in row
    ensures Extract(row, parse, showNumber) == None
  {
    assert NullishBefore(row, WeightAliases, |WeightAliases|);
  }

  /** A kept row with none of the date columns gets the empty label. */
  lemma MissingDateLabel(row: Row, parse: string -> Option<real>, showNumber: real -> string)
    requires "Date" !in row && "date" !in row && "日期" !in row
    requires Extract(row, parse, showNumber).Some?
    ensures Extract(row, parse, showNumber).value.date == ""
  {
    assert NullishBefore(row, DateAliases, |DateAliases|);
  }
}
