/**
 * `GeoI18nService`: URL-style place names ("new-york") turned into title case
 * ("New York"), and their lookup in `geo_translations`, falling back to the
 * name itself.
 *
 * The table is a parameter: `None` when the query throws, otherwise the rows
 * the query returns, in the order the database returns them.
 */
module GeoI18n {
  import opened Text

  // ------------------------------------------------------------------ normalizeGeoName

  /** `\w`. */
  predicate IsWordChar(c: char) { 'a' <= c <= 'z' || 'A' <= c <= 'Z' || IsDigit(c) || c == '_' }

  /** `\b\w` matches at `k`: a word character with no word character before it. */
  predicate WordStart(s: string, k: nat)
    requires k < |s|
  {
    IsWordChar(s[k]) && (k == 0 || !IsWordChar(s[k - 1]))
  }

  /** `.replace(/-/g, ' ')`. */
  function DashesToSpaces(s: string): (r: string)
    ensures |r| == |s|
    ensures forall k :: 0 <= k < |s| ==> r[k] == if s[k] == '-' then ' ' else s[k]
  {
    seq(|s|, k requires 0 <= k < |s| => if s[k] == '-' then ' ' else s[k])
  }

  /** `.replace(/\b\w/g, char => char.toUpperCase())`. */
  function CapitalizeWords(s: string): (r: string)
    ensures |r| == |s|
    ensures forall k :: 0 <= k < |s| ==> r[k] == if WordStart(s, k) then UpperChar(s[k]) else s[k]
  {
    seq(|s|, k requires 0 <= k < |s| => if WordStart(s, k) then UpperChar(s[k]) else s[k])
  }

  /** `normalizeGeoName(name)`. */
  function NormalizeGeoName(name: string): string {
    CapitalizeWords(DashesToSpaces(name))
  }

  lemma UpperKeepsWord(c: char)
    ensures IsWordChar(UpperChar(c)) == IsWordChar(c)
    ensures UpperChar(UpperChar(c)) == UpperChar(c)
    ensures UpperChar(c) != '-' || c == '-'
    ensures !('a' <= UpperChar(c) <= 'z')
  {
    if 'a' <= c <= 'z' {
      assert 'A' <= UpperChar(c) <= 'Z';
    }
  }

  /** Turning dashes into spaces moves no word boundary. */
  lemma DashesKeepWordStarts(s: string, k: nat)
    requires k < |s|
    ensures WordStart(DashesToSpaces(s), k) == WordStart(s, k)
  {
  }

  /**
   * The length is kept; every '-' becomes ' '; the first character of each
   * word is upper-cased; nothing else changes; no '-' is left, and no word
   * starts with a lower-case letter.
   */
  lemma NormalizeShape(name: string)
    ensures var r := NormalizeGeoName(name);
      && |r| == |name|
      && (forall k :: 0 <= k < |name| && name[k] == '-' ==> r[k] == ' ')
      && (forall k :: 0 <= k < |name| && WordStart(name, k) ==> r[k] == UpperChar(name[k]))
      && (forall k :: 0 <= k < |name| && name[k] != '-' && !WordStart(name, k) ==> r[k] == name[k])
      && '-' !in r
      && (forall k :: 0 <= k < |r| && WordStart(r, k) ==> !('a' <= r[k] <= 'z'))
  {
    var d := DashesToSpaces(name);
    var r := NormalizeGeoName(name);
    forall k | 0 <= k < |name|
      ensures WordStart(d, k) == WordStart(name, k)
      ensures r[k] != '-'
      ensures IsWordChar(r[k]) == IsWordChar(name[k])
    {
      DashesKeepWordStarts(name, k);
      UpperKeepsWord(d[k]);
    }
    forall k | 0 <= k < |r| && WordStart(r, k) ensures !('a' <= r[k] <= 'z') {
      if k > 0 {
        assert IsWordChar(r[k - 1]) == IsWordChar(name[k - 1]);
      }
      assert WordStart(name, k);
      UpperKeepsWord(d[k]);
    }
  }

  /** Normalising a normalised name changes nothing. */
  lemma NormalizeIdempotent(name: string)
    ensures NormalizeGeoName(NormalizeGeoName(name)) == NormalizeGeoName(name)
  {
    NormalizeShape(name);
    var r := NormalizeGeoName(name);
    var d := DashesToSpaces(r);
    assert d == r;
    var rr := CapitalizeWords(d);
    forall k | 0 <= k < |r| ensures rr[k] == r[k] {
      DashesKeepWordStarts(name, k);
      UpperKeepsWord(name[k]);
      if k > 0 {
        UpperKeepsWord(name[k - 1]);
      }
      assert WordStart(r, k) == WordStart(name, k);
    }
  }

  // ------------------------------------------------------------------ geo_translations

  /** The translated column `targetLocale` selects. */
  datatype Column = ZhName | EsName | EnName

  /** `targetLocale === 'zh' ? 'zh_name' : targetLocale === 'es' ? 'es_name' : 'en_name'`. */
  function ColumnFor(locale: string): (c: Column)
    ensures c == ZhName <==> locale == "zh"
    ensures c == EsName <==> locale == "es"
    ensures c == EnName <==> locale != "zh" && locale != "es"
  {
    if locale == "zh" then ZhName else if locale == "es" then EsName else EnName
  }

  /** A `geo_translations` row; `None` is SQL NULL. */
  datatype GeoRow = GeoRow(geonameId: int, enName: string, geoType: Option<string>,
                           zhName: Option<string>, esName: Option<string>)

  /** `translation[column]`. */
  function ColumnValue(row: GeoRow, col: Column): Option<string> {
    match col
    case ZhName => row.zhName
    case EsName => row.esName
    case EnName => Some(row.enName)
  }


  datatype GeoTranslationResult = GeoTranslationResult(originalName: string, translatedName: string)

  /** The `.where('en_name', …)` and, for a truthy `geoType`, `.where('geo_type', …)` filter. */
  predicate Matches(row: GeoRow, en: string, geoType: Option<string>) {
    row.enName == en && (Given(geoType) ==> row.geoType == Some(geoType.value))
  }

  /** `query.first()`: the index of the first matching row. */
  function FirstMatch(rows: seq<GeoRow>, en: string, geoType: Option<string>): (r: Option<nat>)
    ensures r.Some? ==> r.value < |rows| && Matches(rows[r.value], en, geoType)
                        && forall j :: 0 <= j < r.value ==> !Matches(rows[j], en, geoType)
    ensures r.None? ==> forall j :: 0 <= j < |rows| ==> !Matches(rows[j], en, geoType)
  {
    if rows == [] then None
    else if Matches(rows[0], en, geoType) then Some(0)
    else match FirstMatch(rows[1..], en, geoType)
      case None => None
      case Some(i) => Some(i + 1)
  }

  /** A matching row with no match before it is the one `first()` returns. */
  lemma FirstMatchIs(rows: seq<GeoRow>, en: string, geoType: Option<string>, i: nat)
    requires i < |rows| && Matches(rows[i], en, geoType)
    requires forall j :: 0 <= j < i ==> !Matches(rows[j], en, geoType)
    ensures FirstMatch(rows, en, geoType) == Some(i)
  {
  }

  /** `translateGeoName(name, targetLocale, geoType)`. */
  function TranslateGeoName(name: string, locale: string, geoType: Option<string>,
                            table: Option<seq<GeoRow>>): (r: GeoTranslationResult)
    ensures r.originalName == name
  {
    if locale == "en" || table.None? then GeoTranslationResult(name, name)
    else
      var rows := table.value;
      match FirstMatch(rows, NormalizeGeoName(name), geoType)
      case Some(i) =>
        var v := ColumnValue(rows[i], ColumnFor(locale));
        if Given(v) then GeoTranslationResult(name, v.value) else GeoTranslationResult(name, name)
      case None => GeoTranslationResult(name, name)
  }

  /** The first row the query returns for `name`, when its `column` holds a non-empty translation. */
  predicate FoundAt(rows: seq<GeoRow>, name: string, locale: string, geoType: Option<string>, i: nat) {
    && i < |rows|
    && Matches(rows[i], NormalizeGeoName(name), geoType)
    && (forall j :: 0 <= j < i ==> !Matches(rows[j], NormalizeGeoName(name), geoType))
    && Given(ColumnValue(rows[i], ColumnFor(locale)))
  }

  /**
   * 'en' and a failing query give the name back; otherwise the answer is the
   * translation of the first row found, when it is non-empty, and the name
   * itself when there is none.
   */
  lemma TranslateGeoNameMeaning(name: string, locale: string, geoType: Option<string>,
                                table: Option<seq<GeoRow>>)
    ensures locale == "en" || table.None? ==> TranslateGeoName(name, locale, geoType, table).translatedName == name
    ensures forall i: nat :: locale != "en" && table.Some? && FoundAt(table.value, name, locale, geoType, i) ==>
      Some(TranslateGeoName(name, locale, geoType, table).translatedName) == ColumnValue(table.value[i], ColumnFor(locale))
    ensures locale != "en" && table.Some? && (forall i: nat :: !FoundAt(table.value, name, locale, geoType, i)) ==>
      TranslateGeoName(name, locale, geoType, table).translatedName == name
  {
    if locale != "en" && table.Some? {
      var rows := table.value;
      var m := FirstMatch(rows, NormalizeGeoName(name), geoType);
      forall i: nat | FoundAt(rows, name, locale, geoType, i)
        ensures Some(TranslateGeoName(name, locale, geoType, table).translatedName)
                == ColumnValue(rows[i], ColumnFor(locale))
      {
        FirstMatchIs(rows, NormalizeGeoName(name), geoType, i);
      }
      if m.Some? && Given(ColumnValue(rows[m.value], ColumnFor(locale))) {
        assert FoundAt(rows, name, locale, geoType, m.value);
      }
    }
  }

  /** `translateByGeonameId(id, targetLocale)`: the column of the first row with that id, `None` for no row, NULL or an error. */
  function TranslateByGeonameId(id: int, locale: string, table: Option<seq<GeoRow>>): (r: Option<string>)
    ensures table.None? ==> r.None?
    ensures r.Some? ==> exists i :: 0 <= i < |table.value| && table.value[i].geonameId == id
                                    && ColumnValue(table.value[i], ColumnFor(locale)) == r
    ensures table.Some? && (forall i :: 0 <= i < |table.value| ==> table.value[i].geonameId != id) ==> r.None?
  {
    if table.None? then None else ById(table.value, id, ColumnFor(locale))
  }

  function ById(rows: seq<GeoRow>, id: int, col: Column): (r: Option<string>)
    ensures r.Some? ==> exists i :: 0 <= i < |rows| && rows[i].geonameId == id && ColumnValue(rows[i], col) == r
    ensures (forall i :: 0 <= i < |rows| ==> rows[i].geonameId != id) ==> r.None?
  {
    if rows == [] then None
    else if rows[0].geonameId == id then ColumnValue(rows[0], col)
    else
      var r := ById(rows[1..], id, col);
      assert forall i :: 1 <= i < |rows| ==> rows[i] == rows[1..][i - 1];
      r
  }

  /** `first()`: the row found is the first one with that id. */
  lemma {:induction false} ByIdFirst(rows: seq<GeoRow>, id: int, col: Column, i: nat)
    requires i < |rows| && rows[i].geonameId == id
    requires forall j :: 0 <= j < i ==> rows[j].geonameId != id
    ensures ById(rows, id, col) == ColumnValue(rows[i], col)
  {
    if i > 0 {
      ByIdFirst(rows[1..], id, col, i - 1);
    }
  }

  /** An entry of `getTranslationsByType`: `geoname_id as id` and a `name`, null when the row has none. */
  datatype IdName = IdName(id: int, name: Option<string>)

  /**
   * `getTranslationsByType(geoType, targetLocale)` as written, in the order
   * the rows are given; `[]` on an error. `column as 'name'` is a TypeScript
   * cast, not an SQL alias: the query selects the locale's column under its
   * own name, so `t.name` is undefined and every entry has no name.
   */
  function TranslationsByType(geoType: string, locale: string, table: Option<seq<GeoRow>>): (r: seq<IdName>)
    ensures table.None? ==> r == []
    ensures forall k :: 0 <= k < |r| ==> r[k].name.None?
    ensures table.Some? ==> |r| == |OfType(table.value, geoType, ColumnFor(locale))|
    ensures table.Some? ==>
      forall k :: 0 <= k < |r| ==> r[k].id == OfType(table.value, geoType, ColumnFor(locale))[k].id
  {
    if table.None? then [] else Unnamed(OfType(table.value, geoType, ColumnFor(locale)))
  }

  /** The entries with `name` undefined. */
  function Unnamed(es: seq<IdName>): seq<IdName> {
    seq(|es|, k requires 0 <= k < |es| => IdName(es[k].id, None))
  }

  /** The intended result: the locale's column selected as `name`; `[]` on an error. */
  function TranslationsByTypeIntended(geoType: string, locale: string, table: Option<seq<GeoRow>>): (r: seq<IdName>)
    ensures table.None? ==> r == []
    ensures table.Some? ==> r == OfType(table.value, geoType, ColumnFor(locale))
  {
    if table.None? then [] else OfType(table.value, geoType, ColumnFor(locale))
  }

  /** One state row whose `zh_name` is "加州": the source gives it no name, the intended query gives "加州". */
  lemma NameUndefined()
    ensures var table := Some([GeoRow(5332921, "California", Some("state"), Some("加州"), None)]);
      TranslationsByType("state", "zh", table) == [IdName(5332921, None)]
      && TranslationsByTypeIntended("state", "zh", table) == [IdName(5332921, Some("加州"))]
  {
    var rows := [GeoRow(5332921, "California", Some("state"), Some("加州"), None)];
    assert rows[1..] == [];
    assert OfType(rows, "state", ZhName) == [IdName(5332921, Some("加州"))];
  }

  function OfType(rows: seq<GeoRow>, geoType: string, col: Column): (r: seq<IdName>)
    ensures |r| <= |rows|
  {
    if rows == [] then []
    else
      (if rows[0].geoType == Some(geoType) then [IdName(rows[0].geonameId, ColumnValue(rows[0], col))] else [])
      + OfType(rows[1..], geoType, col)
  }

  /** Every row of the type yields its entry, and every entry comes from a row of the type. */
  lemma {:induction false} OfTypeMembers(rows: seq<GeoRow>, geoType: string, col: Column)
    ensures forall row :: row in rows && row.geoType == Some(geoType) ==>
      IdName(row.geonameId, ColumnValue(row, col)) in OfType(rows, geoType, col)
    ensures forall e :: e in OfType(rows, geoType, col) ==>
      exists row :: row in rows && row.geoType == Some(geoType) && e == IdName(row.geonameId, ColumnValue(row, col))
  {
    if rows != [] {
      OfTypeMembers(rows[1..], geoType, col);
      assert forall row :: row in rows ==> row == rows[0] || row in rows[1..];
    }
  }

  // ------------------------------------------------------------------ translateGeoNames

  /** `nameTypes?.[i]`. */
  function TypeAt(nameTypes: Option<seq<string>>, i: nat): Option<string> {
    if nameTypes.Some? && i < |nameTypes.value| then Some(nameTypes.value[i]) else None
  }

  /** `translation[column] || translation.en_name`. */
  function RowValue(row: GeoRow, col: Column): (v: string)
    ensures v == row.enName || (Given(ColumnValue(row, col)) && v == ColumnValue(row, col).value)
    ensures Given(ColumnValue(row, col)) ==> v == ColumnValue(row, col).value
  {
    var t := ColumnValue(row, col);
    if Given(t) then t.value else row.enName
  }

  /** `${translation.en_name}|${translation.geo_type || 'any'}`. */
  function TypedKey(row: GeoRow): string {
    row.enName + "|" + (if Given(row.geoType) then row.geoType.value else "any")
  }

  /** The keys row `row` writes into `normalizedMap`. */
  predicate Writes(row: GeoRow, key: string) { key == TypedKey(row) || key == row.enName }

  /** `normalizedMap` after the `forEach` over `rows`. */
  function NormalizedMap(rows: seq<GeoRow>, col: Column): map<string, string> {
    if rows == [] then map[]
    else
      var row := rows[|rows| - 1];
      NormalizedMap(rows[..|rows| - 1], col)[TypedKey(row) := RowValue(row, col)][row.enName := RowValue(row, col)]
  }

  /** A key is in `normalizedMap` exactly when some row writes it. */
  lemma {:induction false} NormalizedMapKeys(rows: seq<GeoRow>, col: Column, key: string)
    ensures key in NormalizedMap(rows, col) <==> exists j :: 0 <= j < |rows| && Writes(rows[j], key)
  {
    if rows != [] {
      var n := |rows| - 1;
      NormalizedMapKeys(rows[..n], col, key);
      assert forall j :: 0 <= j < n ==> rows[..n][j] == rows[j];
    }
  }

  /** A key holds the value of the last row that writes it: later rows win. */
  lemma {:induction false} NormalizedMapLastWins(rows: seq<GeoRow>, col: Column, key: string, j: nat)
    requires j < |rows| && Writes(rows[j], key)
    requires forall l :: j < l < |rows| ==> !Writes(rows[l], key)
    ensures key in NormalizedMap(rows, col) && NormalizedMap(rows, col)[key] == RowValue(rows[j], col)
  {
    var n := |rows| - 1;
    if j < n {
      var prev := rows[..n];
      assert !Writes(rows[n], key);
      assert forall l :: j < l < n ==> prev[l] == rows[l];
      NormalizedMapLastWins(prev, col, key, j);
    }
  }

  /** `a || b` on a `Map.get` result. */
  function OrElse(a: Option<string>, b: string): (r: string)
    ensures Given(a) ==> r == a.value
    ensures !Given(a) ==> r == b
  {
    if Given(a) then a.value else b
  }

  function Get(m: map<string, string>, key: string): Option<string> {
    if key in m then Some(m[key]) else None
  }

  /** One name's lookup: `name|type` key for a truthy type, then the bare name, then the name itself. */
  function Lookup(m: map<string, string>, name: string, geoType: Option<string>): (r: string)
    ensures var n := NormalizeGeoName(name);
      && (Given(geoType) && Given(Get(m, n + "|" + geoType.value)) ==> r == m[n + "|" + geoType.value])
      && (!(Given(geoType) && Given(Get(m, n + "|" + geoType.value))) && Given(Get(m, n)) ==> r == m[n])
      && (!(Given(geoType) && Given(Get(m, n + "|" + geoType.value))) && !Given(Get(m, n)) ==> r == name)
  {
    var n := NormalizeGeoName(name);
    if Given(geoType) then OrElse(Get(m, n + "|" + geoType.value), OrElse(Get(m, n), name))
    else OrElse(Get(m, n), name)
  }

  /** `result` after the first `k` turns of the indexed loop. */
  function Mapped(names: seq<string>, nameTypes: Option<seq<string>>, m: map<string, string>, k: nat)
    : map<string, string>
    requires k <= |names|
  {
    if k == 0 then map[]
    else Mapped(names, nameTypes, m, k - 1)[names[k - 1] := Lookup(m, names[k - 1], TypeAt(nameTypes, k - 1))]
  }

  /** The keys are the first `k` names. */
  lemma {:induction false} MappedKeys(names: seq<string>, nameTypes: Option<seq<string>>, m: map<string, string>, k: nat)
    requires k <= |names|
    ensures forall n :: n in Mapped(names, nameTypes, m, k) <==> n in names[..k]
  {
    if k > 0 {
      MappedKeys(names, nameTypes, m, k - 1);
      assert names[..k] == names[..k - 1] + [names[k - 1]];
    }
  }

  /** Each name holds the lookup made for its last occurrence. */
  lemma {:induction false} MappedLastWins(names: seq<string>, nameTypes: Option<seq<string>>, m: map<string, string>,
                                          k: nat, i: nat)
    requires i < k <= |names|
    requires forall j :: i < j < k ==> names[j] != names[i]
    ensures names[i] in Mapped(names, nameTypes, m, k)
    ensures Mapped(names, nameTypes, m, k)[names[i]] == Lookup(m, names[i], TypeAt(nameTypes, i))
  {
    if i < k - 1 {
      assert names[k - 1] != names[i];
      MappedLastWins(names, nameTypes, m, k - 1, i);
    }
  }

  /** The closing `forEach`: each name not yet in `result` maps to itself. */
  function WithDefaults(base: map<string, string>, names: seq<string>, k: nat): map<string, string>
    requires k <= |names|
  {
    if k == 0 then base
    else
      var r := WithDefaults(base, names, k - 1);
      if names[k - 1] in r then r else r[names[k - 1] := names[k - 1]]
  }

  lemma {:induction false} WithDefaultsShape(base: map<string, string>, names: seq<string>, k: nat)
    requires k <= |names|
    ensures forall n :: n in WithDefaults(base, names, k) <==> n in base || n in names[..k]
    ensures forall n :: n in base ==> WithDefaults(base, names, k)[n] == base[n]
    ensures forall n :: n !in base && n in names[..k] ==> WithDefaults(base, names, k)[n] == n
  {
    if k > 0 {
      WithDefaultsShape(base, names, k - 1);
      assert names[..k] == names[..k - 1] + [names[k - 1]];
    }
  }

  /** `names.map(name => normalizeGeoName(name))`. */
  function NormalizedNames(names: seq<string>): (r: seq<string>)
    ensures |r| == |names| && forall i :: 0 <= i < |names| ==> r[i] == NormalizeGeoName(names[i])
  {
    seq(|names|, i requires 0 <= i < |names| => NormalizeGeoName(names[i]))
  }

  /** `.whereIn('en_name', normalizedNames)`: the rows whose English name was asked for, in order. */
  function Requested(rows: seq<GeoRow>, wanted: seq<string>): (r: seq<GeoRow>)
    ensures forall row :: row in r <==> row in rows && row.enName in wanted
  {
    if rows == [] then []
    else (if rows[0].enName in wanted then [rows[0]] else []) + Requested(rows[1..], wanted)
  }

  /** What `translateGeoNames` returns. */
  function GeoNames(names: seq<string>, locale: string, nameTypes: Option<seq<string>>,
                    table: Option<seq<GeoRow>>): map<string, string>
  {
    if locale == "en" then WithDefaults(map[], names, |names|)
    else
      var tried :=
        if table.None? then map[]
        else
          var m := NormalizedMap(Requested(table.value, NormalizedNames(names)), ColumnFor(locale));
          Mapped(names, nameTypes, m, |names|);
      WithDefaults(tried, names, |names|)
  }

  /**
   * The keys are exactly the input names, also when the query fails; for
   * 'en' or a failing query every name maps to itself; otherwise each name
   * maps to the lookup made for its last occurrence.
   */
  lemma GeoNamesMeaning(names: seq<string>, locale: string, nameTypes: Option<seq<string>>,
                        table: Option<seq<GeoRow>>)
    ensures forall n :: n in GeoNames(names, locale, nameTypes, table) <==> n in names
    ensures locale == "en" || table.None? ==> forall n :: n in names ==> GeoNames(names, locale, nameTypes, table)[n] == n
    ensures locale != "en" && table.Some? ==>
      var m := NormalizedMap(Requested(table.value, NormalizedNames(names)), ColumnFor(locale));
      forall i :: 0 <= i < |names| && (forall j :: i < j < |names| ==> names[j] != names[i]) ==>
        GeoNames(names, locale, nameTypes, table)[names[i]] == Lookup(m, names[i], TypeAt(nameTypes, i))
  {
    assert names[..|names|] == names;
    if locale == "en" || table.None? {
      WithDefaultsShape(map[], names, |names|);
    } else {
      var m := NormalizedMap(Requested(table.value, NormalizedNames(names)), ColumnFor(locale));
      MappedKeys(names, nameTypes, m, |names|);
      forall i | 0 <= i < |names| && (forall j :: i < j < |names| ==> names[j] != names[i])
        ensures Mapped(names, nameTypes, m, |names|)[names[i]] == Lookup(m, names[i], TypeAt(nameTypes, i))
      {
        MappedLastWins(names, nameTypes, m, |names|, i);
      }
      WithDefaultsShape(Mapped(names, nameTypes, m, |names|), names, |names|);
    }
  }

  /** `translateGeoNames(names, targetLocale, nameTypes)`. */
  method TranslateGeoNames(names: seq<string>, locale: string, nameTypes: Option<seq<string>>,
                           table: Option<seq<GeoRow>>)
    returns (result: map<string, string>)
    ensures result == GeoNames(names, locale, nameTypes, table)
  {
    result := map[];
    if locale != "en" && table.Some? {
      var column := ColumnFor(locale);
      var translations := Requested(table.value, NormalizedNames(names));
      var normalizedMap := BuildNormalizedMap(translations, column);
      result := MapNames(names, nameTypes, normalizedMap);
    }
    result := AddDefaults(result, names);
  }

  /** The `translations.forEach` that fills `normalizedMap`. */
  method BuildNormalizedMap(translations: seq<GeoRow>, column: Column) returns (normalizedMap: map<string, string>)
    ensures normalizedMap == NormalizedMap(translations, column)
  {
    normalizedMap := map[];
    for j := 0 to |translations|
      invariant normalizedMap == NormalizedMap(translations[..j], column)
    {
      var row := translations[j];
      assert translations[..j + 1][..j] == translations[..j];
      normalizedMap := normalizedMap[TypedKey(row) := RowValue(row, column)];
      normalizedMap := normalizedMap[row.enName := RowValue(row, column)];
    }
    assert translations[..|translations|] == translations;
  }

  /** The indexed loop over `names` that reads `normalizedMap`. */
  method MapNames(names: seq<string>, nameTypes: Option<seq<string>>, normalizedMap: map<string, string>)
    returns (result: map<string, string>)
    ensures result == Mapped(names, nameTypes, normalizedMap, |names|)
  {
    result := map[];
    for i := 0 to |names|
      invariant result == Mapped(names, nameTypes, normalizedMap, i)
    {
      var name := names[i];
      var translatedName := Lookup(normalizedMap, name, TypeAt(nameTypes, i));
      result := result[name := translatedName];
    }
  }

  /** The closing `names.forEach`, and the whole answer for 'en'. */
  method AddDefaults(tried: map<string, string>, names: seq<string>) returns (result: map<string, string>)
    ensures result == WithDefaults(tried, names, |names|)
  {
    result := tried;
    for i := 0 to |names|
      invariant result == WithDefaults(tried, names, i)
    {
      if names[i] !in result {
        result := result[names[i] := names[i]];
      }
    }
  }
}
