/** The texts the widgets show for columns: Python's `str` of a
    non-negative integer, the 1-based column label `列 k`, the combo-box
    option list and the comma-joined text of a mapped group, together with
    parsers that read each text back. */
module Labels {
  import opened Tables

  predicate IsDigit(c: char)
  {
    '0' <= c <= '9'
  }

  function DigitChar(d: nat): (c: char)
    requires d < 10
    ensures IsDigit(c) && DigitValue(c) == d
  {
    ('0' as int + d) as char
  }

  function DigitValue(c: char): nat
    requires IsDigit(c)
  {
    c as int - '0' as int
  }

  /** `str(n)` for `n >= 0`: decimal digits, most significant first, no
      leading zero. */
  function Decimal(n: nat): (s: string)
    ensures |s| >= 1
    ensures forall k :: 0 <= k < |s| ==> IsDigit(s[k])
    decreases n
  {
    if n < 10 then [DigitChar(n)] else Decimal(n / 10) + [DigitChar(n % 10)]
  }

  predicate AllDigits(s: string)
  {
    forall k :: 0 <= k < |s| ==> IsDigit(s[k])
  }

  /** The value of a string of decimal digits. */
  function ParseDecimal(s: string): nat
    requires AllDigits(s)
  {
    if s == [] then 0 else 10 * ParseDecimal(s[..|s| - 1]) + DigitValue(s[|s| - 1])
  }

  lemma {:induction false} DecimalRoundTrip(n: nat)
    ensures ParseDecimal(Decimal(n)) == n
    decreases n
  {
    if n >= 10 {
      var s := Decimal(n);
      assert s[..|s| - 1] == Decimal(n / 10);
      DecimalRoundTrip(n / 10);
    }
  }

  /** Different numbers print differently. */
  lemma DecimalInjective(m: nat, n: nat)
    requires Decimal(m) == Decimal(n)
    ensures m == n
  {
    DecimalRoundTrip(m);
    DecimalRoundTrip(n);
  }

  const ColumnPrefix: string := "列 "
  const NotSelected: string := "未选择"
  const NotMapped: string := "未映射"
  const Separator: string := ", "

  /** `f"列 {col+1}"`: the label of the zero-based column `col`. */
  function ColumnLabel(col: nat): string
  {
    ColumnPrefix + Decimal(col + 1)
  }

  /** Distinct columns get distinct labels. */
  lemma ColumnLabelInjective(a: nat, b: nat)
    requires ColumnLabel(a) == ColumnLabel(b)
    ensures a == b
  {
    assert Decimal(a + 1) == ColumnLabel(a)[|ColumnPrefix|..];
    assert Decimal(b + 1) == ColumnLabel(b)[|ColumnPrefix|..];
    DecimalInjective(a + 1, b + 1);
  }

  /** The combo-box items for a table of `cols` columns: the "not selected"
      entry followed by one label per column. */
  function ComboOptions(cols: nat): (options: seq<string>)
    ensures |options| == cols + 1 && options[0] == NotSelected
    ensures forall k :: 1 <= k <= cols ==> options[k] == ColumnLabel(k - 1)
  {
    [NotSelected] + seq(cols, i requires 0 <= i < cols => ColumnLabel(i))
  }

  /** No two items of the option list are equal, so an item names exactly
      one choice. */
  lemma ComboOptionsDistinct(cols: nat, a: nat, b: nat)
    requires a <= cols && b <= cols && a != b
    ensures ComboOptions(cols)[a] != ComboOptions(cols)[b]
  {
    var options := ComboOptions(cols);
    if a > 0 && b > 0 {
      if options[a] == options[b] {
        ColumnLabelInjective(a - 1, b - 1);
      }
    } else if a == 0 {
      assert options[b][0] == '列' != options[a][0];
    } else {
      assert options[a][0] == '列' != options[b][0];
    }
  }

  /** `", ".join(f"列 {col+1}" for col in cols)`. */
  function JoinLabels(cols: seq<nat>): string
    requires |cols| >= 1
  {
    if |cols| == 1 then ColumnLabel(cols[0])
    else ColumnLabel(cols[0]) + Separator + JoinLabels(cols[1..])
  }

  /** The text shown for one group of a mapping. */
  function GroupText(cols: seq<nat>): string
  {
    if cols == [] then NotMapped else JoinLabels(cols)
  }

  /** Splits a leading run of digits off `s`. */
  function LeadingDigits(s: string): (r: (string, string))
    ensures r.0 + r.1 == s && AllDigits(r.0)
    ensures r.1 == [] || !IsDigit(r.1[0])
  {
    if s == [] || !IsDigit(s[0]) then ([], s)
    else
      var tail := LeadingDigits(s[1..]);
      assert [s[0]] + tail.0 + tail.1 == [s[0]] + s[1..] == s;
      assert forall k :: 1 <= k <= |tail.0| ==> ([s[0]] + tail.0)[k] == tail.0[k - 1];
      ([s[0]] + tail.0, tail.1)
  }

  lemma {:induction false} LeadingDigitsOfDecimal(d: string, rest: string)
    requires AllDigits(d)
    requires rest == [] || !IsDigit(rest[0])
    ensures LeadingDigits(d + rest) == (d, rest)
    decreases |d|
  {
    if d != [] {
      assert (d + rest)[0] == d[0] && (d + rest)[1..] == d[1..] + rest;
      LeadingDigitsOfDecimal(d[1..], rest);
      assert [d[0]] + d[1..] == d;
    } else {
      assert d + rest == rest;
    }
  }

  /** Reads a text written by `JoinLabels` back into its column list. */
  function ParseLabels(s: string): Option<seq<nat>>
    decreases |s|
  {
    if |s| < |ColumnPrefix| || s[..|ColumnPrefix|] != ColumnPrefix then None
    else
      var split := LeadingDigits(s[|ColumnPrefix|..]);
      var digits, rest := split.0, split.1;
      if digits == [] || ParseDecimal(digits) == 0 then None
      else
        var col := ParseDecimal(digits) - 1;
        if rest == [] then Some([col])
        else if |rest| >= |Separator| && rest[..|Separator|] == Separator then
          match ParseLabels(rest[|Separator|..])
          case None => None
          case Some(more) => Some([col] + more)
        else None
  }

  /** Reads a group text back: the "not mapped" text is the empty group. */
  function ParseGroupText(s: string): Option<seq<nat>>
  {
    if s == NotMapped then Some([]) else ParseLabels(s)
  }

  /** What `ParseLabels` sees at the head of one label followed by `tail`. */
  lemma LabelHead(col: nat, tail: string)
    requires tail == [] || !IsDigit(tail[0])
    ensures var s := ColumnLabel(col) + tail;
      && |s| >= |ColumnPrefix| && s[..|ColumnPrefix|] == ColumnPrefix
      && LeadingDigits(s[|ColumnPrefix|..]) == (Decimal(col + 1), tail)
      && ParseDecimal(Decimal(col + 1)) == col + 1
  {
    var s := ColumnLabel(col) + tail;
    assert s[|ColumnPrefix|..] == Decimal(col + 1) + tail;
    LeadingDigitsOfDecimal(Decimal(col + 1), tail);
    DecimalRoundTrip(col + 1);
  }

  /** A single label is read as its column. */
  lemma ParseLabelsSingle(col: nat)
    ensures ParseLabels(ColumnLabel(col)) == Some([col])
  {
    LabelHead(col, []);
    assert ColumnLabel(col) + [] == ColumnLabel(col);
  }

  /** One more label in front of a parsable text is read in front of its
      columns. */
  lemma ParseLabelsCons(col: nat, rest: string, more: seq<nat>)
    requires ParseLabels(rest) == Some(more)
    ensures ParseLabels(ColumnLabel(col) + (Separator + rest)) == Some([col] + more)
  {
    var tail := Separator + rest;
    assert tail[0] == ',';
    LabelHead(col, tail);
    assert tail[..|Separator|] == Separator && tail[|Separator|..] == rest;
  }

  lemma {:induction false} ParseJoinLabels(cols: seq<nat>)
    requires |cols| >= 1
    ensures ParseLabels(JoinLabels(cols)) == Some(cols)
    decreases |cols|
  {
    if |cols| == 1 {
      ParseLabelsSingle(cols[0]);
      assert [cols[0]] == cols;
    } else {
      ParseJoinLabels(cols[1..]);
      ParseLabelsCons(cols[0], JoinLabels(cols[1..]), cols[1..]);
      assert JoinLabels(cols) == ColumnLabel(cols[0]) + (Separator + JoinLabels(cols[1..]));
      assert [cols[0]] + cols[1..] == cols;
    }
  }

  /** The mapping table loses nothing: a group's text determines the
      group's column list. */
  lemma GroupTextRoundTrip(cols: seq<nat>)
    ensures ParseGroupText(GroupText(cols)) == Some(cols)
  {
    if cols != [] {
      ParseJoinLabels(cols);
      assert GroupText(cols)[0] == '列' != NotMapped[0];
    }
  }
}
