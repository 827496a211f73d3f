/** The system_settings table as the ledger reads it: the configured value of
    a key, the rows the handlers' queries return, and the lookup of a key
    among those rows. */
module Settings {
  import opened Records

  const MinPurchaseKey := "min_purchase_amount"
  const ThresholdKey := "redemption_threshold"
  const DiscountPercentKey := "fuel_discount_percentage"
  const FuelKeys: set<string> := {ThresholdKey, DiscountPercentKey}

  /** A row of a settings query. Its key is present only when the query
      selects the setting_key column. */
  datatype Row = Row(key: Option<string>, value: int)

  /** The two values a fuel redemption needs. */
  datatype FuelTerms = FuelTerms(threshold: int, percent: int)

  /** The configured value of a key: that of its first row, if any. */
  function SettingOf(table: seq<Setting>, key: string): (v: Option<int>)
    ensures v.Some? ==> exists i :: 0 <= i < |table| && table[i] == Setting(key, v.value)
    ensures v.None? ==> forall i :: 0 <= i < |table| ==> table[i].key != key
  {
    if table == [] then None
    else if table[0].key == key then Some(table[0].value)
    else
      var v := SettingOf(table[1..], key);
      assert forall i :: 1 <= i < |table| ==> table[i] == table[1..][i - 1];
      v
  }

  /** The configured value is that of the first row carrying the key. */
  lemma {:induction false} SettingIsFirstRow(table: seq<Setting>, key: string, i: nat)
    requires i < |table| && table[i].key == key
    requires forall j :: 0 <= j < i ==> table[j].key != key
    ensures SettingOf(table, key) == Some(table[i].value)
  {
    if i > 0 {
      assert forall j :: 0 <= j < i - 1 ==> table[1..][j] == table[j + 1];
      SettingIsFirstRow(table[1..], key, i - 1);
    }
  }

  /** The rows of `SELECT setting_value ... WHERE setting_key IN keys`. */
  function SelectValues(table: seq<Setting>, keys: set<string>): (rows: seq<Row>)
    ensures |rows| <= |table|
    ensures forall i :: 0 <= i < |rows| ==> rows[i].key == None
  {
    if table == [] then []
    else (if table[0].key in keys then [Row(None, table[0].value)] else []) + SelectValues(table[1..], keys)
  }

  /** The rows of `SELECT setting_key, setting_value ... WHERE setting_key IN keys`. */
  function SelectKeyed(table: seq<Setting>, keys: set<string>): (rows: seq<Row>)
    ensures |rows| <= |table|
    ensures forall i :: 0 <= i < |rows| ==> rows[i].key.Some? && rows[i].key.value in keys
  {
    if table == [] then []
    else (if table[0].key in keys then [Row(Some(table[0].key), table[0].value)] else []) + SelectKeyed(table[1..], keys)
  }

  /** `rows.find(s => s.setting_key === key).setting_value`: None when no row
      carries the key, in which case the property read throws; otherwise the
      value of the first row that carries it. */
  function Find(rows: seq<Row>, key: string): (v: Option<int>)
    ensures v.None? <==> forall i :: 0 <= i < |rows| ==> rows[i].key != Some(key)
    ensures v.Some? ==>
              exists i :: 0 <= i < |rows| && rows[i] == Row(Some(key), v.value) &&
                          forall j :: 0 <= j < i ==> rows[j].key != Some(key)
  {
    if rows == [] then None
    else if rows[0].key == Some(key) then Some(rows[0].value)
    else
      var v := Find(rows[1..], key);
      assert forall i :: 1 <= i < |rows| ==> rows[i] == rows[1..][i - 1];
      v
  }

  /** Among rows that carry no key, every lookup fails. */
  lemma {:induction false} FindAmongKeylessRows(rows: seq<Row>, key: string)
    requires forall i :: 0 <= i < |rows| ==> rows[i].key == None
    ensures Find(rows, key) == None
  {
    if rows != [] {
      FindAmongKeylessRows(rows[1..], key);
    }
  }

  /** Looking a selected key up among the keyed rows gives its configured value. */
  lemma {:induction false} FindAmongKeyedRows(table: seq<Setting>, keys: set<string>, key: string)
    requires key in keys
    ensures Find(SelectKeyed(table, keys), key) == SettingOf(table, key)
  {
    if table != [] {
      FindAmongKeyedRows(table[1..], keys, key);
      var rest := SelectKeyed(table[1..], keys);
      if table[0].key in keys {
        assert SelectKeyed(table, keys) == [Row(Some(table[0].key), table[0].value)] + rest;
        assert ([Row(Some(table[0].key), table[0].value)] + rest)[1..] == rest;
      } else {
        assert SelectKeyed(table, keys) == rest;
      }
    }
  }

  /** The first row of `SELECT setting_value ... WHERE setting_key = key`
      exists exactly when the key is configured, and holds its value. */
  lemma {:induction false} FirstSelectedValue(table: seq<Setting>, key: string)
    ensures SelectValues(table, {key}) == [] <==> SettingOf(table, key) == None
    ensures SelectValues(table, {key}) != [] ==> SelectValues(table, {key})[0].value == SettingOf(table, key).value
  {
    if table != [] {
      FirstSelectedValue(table[1..], key);
    }
  }

  /** The threshold and percentage found among a query's rows, threshold
      first: found exactly when some row carries each key, and then each is
      the value of a row carrying its key. */
  function FuelTermsFrom(rows: seq<Row>): (terms: Option<FuelTerms>)
    ensures terms.None? <==>
              (forall i :: 0 <= i < |rows| ==> rows[i].key != Some(ThresholdKey)) ||
              (forall i :: 0 <= i < |rows| ==> rows[i].key != Some(DiscountPercentKey))
    ensures terms.Some? ==>
              && (exists i :: 0 <= i < |rows| && rows[i] == Row(Some(ThresholdKey), terms.value.threshold))
              && (exists i :: 0 <= i < |rows| && rows[i] == Row(Some(DiscountPercentKey), terms.value.percent))
  {
    match Find(rows, ThresholdKey)
    case None => None
    case Some(threshold) =>
      match Find(rows, DiscountPercentKey)
      case None => None
      case Some(percent) => Some(FuelTerms(threshold, percent))
  }

  /** The configured threshold and percentage, when both are configured. */
  function ConfiguredFuelTerms(table: seq<Setting>): (terms: Option<FuelTerms>)
    ensures terms.Some? <==> SettingOf(table, ThresholdKey).Some? && SettingOf(table, DiscountPercentKey).Some?
  {
    match SettingOf(table, ThresholdKey)
    case None => None
    case Some(threshold) =>
      match SettingOf(table, DiscountPercentKey)
      case None => None
      case Some(percent) => Some(FuelTerms(threshold, percent))
  }

  /** Selecting only setting_value and then looking the rows up by key never
      finds the fuel terms, whatever the table holds. */
  lemma AsWrittenFuelTermsMissing(table: seq<Setting>)
    ensures FuelTermsFrom(SelectValues(table, FuelKeys)) == None
  {
    FindAmongKeylessRows(SelectValues(table, FuelKeys), ThresholdKey);
  }

  /** Selecting the keys too finds exactly the configured fuel terms. */
  lemma KeyedFuelTerms(table: seq<Setting>)
    ensures FuelTermsFrom(SelectKeyed(table, FuelKeys)) == ConfiguredFuelTerms(table)
  {
    FindAmongKeyedRows(table, FuelKeys, ThresholdKey);
    FindAmongKeyedRows(table, FuelKeys, DiscountPercentKey);
  }
}
