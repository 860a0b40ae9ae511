/** The column assignment ("data mapping") shared by the import dialog, the
    mapping widget, the visualization panel and the file handler: a dict
    from group name to a list of zero-based column indices. */
module Channels {
  import opened Tables

  /** The three semantic groups a column can be assigned to. */
  datatype Group = Acceleration | Gyroscope | Noise

  /** The names a converted record can hold: the three groups, the residual
      columns and the unmapped whole table. */
  datatype Field = GroupField(group: Group) | OtherData | RawData

  /** `{'acceleration': [...], 'gyroscope': [...], 'noise': [...]}`; like the
      Python dict it may lack a key. */
  type Mapping = map<Group, seq<nat>>

  /** `mapping.get(group, [])` */
  function Get(m: Mapping, g: Group): seq<nat>
  {
    if g in m then m[g] else []
  }

  /** The dict holds all three keys, so `mapping[group]` never raises. */
  predicate Complete(m: Mapping)
  {
    Acceleration in m && Gyroscope in m && Noise in m
  }

  /** The mapping a widget starts with and returns to when cleared. */
  const EmptyMapping: Mapping := map[Acceleration := [], Gyroscope := [], Noise := []]

  /** `acceleration + gyroscope + noise`: every mapped index, with repeats,
      in that order. */
  function AllMapped(m: Mapping): seq<nat>
  {
    Get(m, Acceleration) + Get(m, Gyroscope) + Get(m, Noise)
  }

  /** Every index the mapping holds names a column of a `width`-wide table. */
  predicate FitsWidth(m: Mapping, width: nat)
  {
    forall g, k :: g in m && 0 <= k < |m[g]| ==> m[g][k] < width
  }

  /** The variable name a field is saved under. */
  function FieldName(f: Field): string
  {
    match f
    case GroupField(Acceleration) => "acceleration"
    case GroupField(Gyroscope) => "gyroscope"
    case GroupField(Noise) => "noise"
    case OtherData => "other_data"
    case RawData => "raw_data"
  }

  /** Different fields are saved under different names. */
  lemma FieldNameInjective(f: Field, h: Field)
    requires FieldName(f) == FieldName(h)
    ensures f == h
  {
    // the names differ in their first character
    match f
    case GroupField(Acceleration) => assert FieldName(f)[0] == 'a';
    case GroupField(Gyroscope) => assert FieldName(f)[0] == 'g';
    case GroupField(Noise) => assert FieldName(f)[0] == 'n';
    case OtherData => assert FieldName(f)[0] == 'o';
    case RawData => assert FieldName(f)[0] == 'r';
  }

  /** The groups in the order the widgets list them. */
  const Groups: seq<Group> := [Acceleration, Gyroscope, Noise]

  /** The name a widget shows for a group (mapping-table rows, the data-type
      combo, the channel-count labels). */
  function GroupLabel(g: Group): string
  {
    match g
    case Acceleration => "加速度"
    case Gyroscope => "陀螺仪"
    case Noise => "噪声"
  }

  /** The group a shown name stands for, if any. */
  function GroupOfLabel(s: string): (r: Option<Group>)
    ensures r.Some? ==> GroupLabel(r.value) == s
    ensures forall g :: GroupLabel(g) == s ==> r == Some(g)
  {
    if s == "加速度" then Some(Acceleration)
    else if s == "陀螺仪" then Some(Gyroscope)
    else if s == "噪声" then Some(Noise)
    else None
  }
}
