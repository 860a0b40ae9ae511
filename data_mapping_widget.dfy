/** The mapping widget: a three-row table naming each group's columns and
    four info labels (the data's shape and each group's channel count),
    refreshed whenever data and mapping are set or the mapping is cleared. */
module MappingWidget {
  import opened Tables
  import opened Channels
  import opened Labels

  const ShapePrefix: string := "数据形状: "
  const RowsWord: string := " 行 × "
  const ColsWord: string := " 列"
  const CountWord: string := "通道数: "

  /** `f"数据形状: {shape[0]} 行 × {shape[1]} 列"` */
  function ShapeText(rows: nat, cols: nat): string
  {
    ShapePrefix + Decimal(rows) + RowsWord + Decimal(cols) + ColsWord
  }

  /** Reads a shape label back into its row and column counts. */
  function ParseShapeText(s: string): Option<(nat, nat)>
  {
    if |s| < |ShapePrefix| || s[..|ShapePrefix|] != ShapePrefix then None
    else
      var first := LeadingDigits(s[|ShapePrefix|..]);
      if first.0 == [] || |first.1| < |RowsWord| || first.1[..|RowsWord|] != RowsWord then None
      else
        var second := LeadingDigits(first.1[|RowsWord|..]);
        if second.0 == [] || second.1 != ColsWord then None
        else Some((ParseDecimal(first.0), ParseDecimal(second.0)))
  }

  /** The shape label shows the shape it was made from. */
  lemma ShapeTextRoundTrip(rows: nat, cols: nat)
    ensures ParseShapeText(ShapeText(rows, cols)) == Some((rows, cols))
  {
    var second := Decimal(cols) + ColsWord;
    var tail := RowsWord + second;
    assert ShapeText(rows, cols) == ShapePrefix + (Decimal(rows) + tail);
    SplitAfter(ShapePrefix, Decimal(rows) + tail);
    assert tail[0] == ' ';
    LeadingDigitsOfDecimal(Decimal(rows), tail);
    SplitAfter(RowsWord, second);
    assert ColsWord[0] == ' ';
    LeadingDigitsOfDecimal(Decimal(cols), ColsWord);
    DecimalRoundTrip(rows);
    DecimalRoundTrip(cols);
  }

  /** Cutting `head + rest` after `head` gives back both parts. */
  lemma SplitAfter(head: string, rest: string)
    ensures (head + rest)[..|head|] == head && (head + rest)[|head|..] == rest
  {
  }

  /** `f"加速度通道数: {n}"` and its gyroscope and noise counterparts. */
  function CountText(g: Group, n: nat): string
  {
    GroupLabel(g) + CountWord + Decimal(n)
  }

  /** Reads a channel-count label of group `g` back into its number. */
  function ParseCountText(g: Group, s: string): Option<nat>
  {
    var head := GroupLabel(g) + CountWord;
    if |s| <= |head| || s[..|head|] != head || !AllDigits(s[|head|..]) then None
    else Some(ParseDecimal(s[|head|..]))
  }

  /** A count label shows the number it was made from. */
  lemma CountTextRoundTrip(g: Group, n: nat)
    ensures ParseCountText(g, CountText(g, n)) == Some(n)
  {
    var head := GroupLabel(g) + CountWord;
    var s := CountText(g, n);
    assert s[..|head|] == head && s[|head|..] == Decimal(n);
    DecimalRoundTrip(n);
  }

  /** The two cells of each row of the mapping table, in group order. */
  function MappingRows(m: Mapping): seq<(string, string)>
    requires Complete(m)
  {
    seq(3, i requires 0 <= i < 3 => (GroupLabel(Groups[i]), GroupText(m[Groups[i]])))
  }

  /** The three count labels, in group order. */
  function CountTexts(m: Mapping): seq<string>
    requires Complete(m)
  {
    seq(3, i requires 0 <= i < 3 => CountText(Groups[i], |m[Groups[i]]|))
  }

  /** Row `i` of the table names group `i` and reads back as its columns. */
  lemma ReadMappingRow(m: Mapping, i: nat)
    requires Complete(m) && i < 3
    ensures GroupOfLabel(MappingRows(m)[i].0) == Some(Groups[i])
    ensures ParseGroupText(MappingRows(m)[i].1) == Some(m[Groups[i]])
  {
    GroupTextRoundTrip(m[Groups[i]]);
  }

  /** The table loses nothing: two complete mappings shown alike are equal. */
  lemma MappingRowsDetermineMapping(m: Mapping, n: Mapping)
    requires Complete(m) && Complete(n) && MappingRows(m) == MappingRows(n)
    ensures m == n
  {
    forall i | 0 <= i < 3 ensures m[Groups[i]] == n[Groups[i]] {
      ReadMappingRow(m, i);
      ReadMappingRow(n, i);
    }
    assert forall g :: g in m && g in n && m[g] == n[g] by {
      forall g ensures g in m && g in n && m[g] == n[g] {
        assert g == Groups[if g == Acceleration then 0 else if g == Gyroscope then 1 else 2];
      }
    }
  }

  /** The count labels show each group's number of columns. */
  lemma ReadCounts(m: Mapping, i: nat)
    requires Complete(m) && i < 3
    ensures ParseCountText(Groups[i], CountTexts(m)[i]) == Some(|m[Groups[i]]|)
  {
    CountTextRoundTrip(Groups[i], |m[Groups[i]]|);
  }

  class DataMappingWidget<T> {
    var currentData: Option<Table<T>>
    var dataMapping: Mapping
    /** The text of the shape label. */
    var shapeText: string
    /** The texts of the three channel-count labels. */
    var countTexts: seq<string>
    /** The cells of the mapping table's three rows. */
    var tableRows: seq<(string, string)>
    var notices: seq<Notice>

    /** The table and the count labels always show the current mapping. */
    ghost predicate Valid()
      reads this
    {
      && Complete(dataMapping)
      && tableRows == MappingRows(dataMapping)
      && countTexts == CountTexts(dataMapping)
    }

    constructor ()
      ensures Valid() && currentData == None && dataMapping == EmptyMapping
      ensures shapeText == ShapePrefix && notices == []
    {
      currentData := None;
      dataMapping := EmptyMapping;
      shapeText := ShapePrefix;
      countTexts := [CountText(Acceleration, 0), CountText(Gyroscope, 0), CountText(Noise, 0)];
      tableRows := MappingRows(EmptyMapping);
      notices := [];
    }

    /** `_update_data_info`: the shape label follows the data when there
        is some; the count labels always follow the mapping. */
    method UpdateDataInfo()
      requires Complete(dataMapping)
      modifies this
      ensures currentData == old(currentData) && dataMapping == old(dataMapping)
      ensures currentData.Some? ==> shapeText == ShapeText(|currentData.value.rows|, currentData.value.width)
      ensures currentData.None? ==> shapeText == old(shapeText)
      ensures countTexts == CountTexts(dataMapping)
      ensures tableRows == old(tableRows) && notices == old(notices)
    {
      if currentData.Some? {
        shapeText := ShapeText(|currentData.value.rows|, currentData.value.width);
      }
      countTexts := [CountText(Acceleration, |dataMapping[Acceleration]|),
                     CountText(Gyroscope, |dataMapping[Gyroscope]|),
                     CountText(Noise, |dataMapping[Noise]|)];
    }

    /** `_update_mapping_table`, also run by the refresh button: one row
        per group, its name and its columns' labels or "未映射". */
    method UpdateMappingTable()
      requires Complete(dataMapping)
      modifies this
      ensures currentData == old(currentData) && dataMapping == old(dataMapping)
      ensures tableRows == MappingRows(dataMapping)
      ensures shapeText == old(shapeText) && countTexts == old(countTexts) && notices == old(notices)
    {
      tableRows := [(GroupLabel(Acceleration), GroupText(dataMapping[Acceleration])),
                    (GroupLabel(Gyroscope), GroupText(dataMapping[Gyroscope])),
                    (GroupLabel(Noise), GroupText(dataMapping[Noise]))];
    }

    /** `set_data`: both are stored and every label refreshed. */
    method SetData(data: Option<Table<T>>, mapping: Mapping)
      requires Complete(mapping)
      modifies this
      ensures Valid() && currentData == data && dataMapping == mapping
      ensures data.Some? ==> shapeText == ShapeText(|data.value.rows|, data.value.width)
      ensures data.None? ==> shapeText == old(shapeText)
      ensures notices == old(notices)
    {
      currentData := data;
      dataMapping := mapping;
      UpdateDataInfo();
      UpdateMappingTable();
    }

    /** `_clear_mapping`: back to three empty groups, labels refreshed,
        then an information box. */
    method ClearMapping()
      modifies this
      ensures Valid() && dataMapping == EmptyMapping && currentData == old(currentData)
      ensures currentData.Some? ==> shapeText == ShapeText(|currentData.value.rows|, currentData.value.width)
      ensures currentData.None? ==> shapeText == old(shapeText)
      ensures notices == old(notices) + [Information]
    {
      dataMapping := EmptyMapping;
      UpdateMappingTable();
      UpdateDataInfo();
      notices := notices + [Information];
    }

    /** `get_mapping` */
    method GetMapping() returns (m: Mapping)
      ensures m == dataMapping
    {
      m := dataMapping;
    }

    /** `get_data` */
    method GetData() returns (d: Option<Table<T>>)
      ensures d == currentData
    {
      d := currentData;
    }
  }
}
