/** The label set that identifies a device's temperature series. */
module Labels {
  import opened Knx
  import opened Decimal
  import opened Config

  const Prefix: string := "knx_"

  const AddrLabel: string := Prefix + "addr"
  const NameLabel: string := "name"
  const MainGroupLabel: string := Prefix + "maingroup"
  const MiddleGroupLabel: string := Prefix + "middlegroup"
  const SubGroupLabel: string := Prefix + "subgroup"

  /** The label names the temperature gauge vector is declared with. */
  const LabelNames: set<string> :=
    {AddrLabel, NameLabel, MainGroupLabel, MiddleGroupLabel, SubGroupLabel}

  /** Label names mapped to label values; one series per distinct set. */
  type LabelSet = map<string, string>

  /** `s` is how a component label renders the address component `v`:
      a canonical decimal of one to three digits whose value is `v`. */
  predicate RendersComponent(s: string, v: uint8) {
    && IsCanonicalDecimal(s)
    && 1 <= |s| <= 3
    && ParseDecimal(s) == v
  }

  /** The decimal label value of one address component. */
  function ComponentLabel(v: uint8): (s: string)
    ensures RendersComponent(s, v)
  {
    ItoaWidth(v);
    Itoa(v)
  }

  /** The labels a DPT 9.001 update writes under: the address label joins the
      three component labels with underscores, and every component label is
      the decimal rendering of that component. */
  function LabelsOf(dev: DeviceConfig): (r: LabelSet)
    ensures r.Keys == LabelNames
    ensures r[NameLabel] == dev.name
    ensures RendersComponent(r[MainGroupLabel], dev.mainGroup)
    ensures RendersComponent(r[MiddleGroupLabel], dev.middleGroup)
    ensures RendersComponent(r[SubGroupLabel], dev.subGroup)
    ensures r[AddrLabel] == r[MainGroupLabel] + "_" + r[MiddleGroupLabel] + "_" + r[SubGroupLabel]
  {
    var main := ComponentLabel(dev.mainGroup);
    var middle := ComponentLabel(dev.middleGroup);
    var sub := ComponentLabel(dev.subGroup);
    map[
      AddrLabel := main + "_" + middle + "_" + sub,
      NameLabel := dev.name,
      MainGroupLabel := main,
      MiddleGroupLabel := middle,
      SubGroupLabel := sub
    ]
  }

  /** Two devices share a series exactly when they have the same name and
      the same three address components; the type tag plays no part. */
  lemma LabelsOfInjective(d1: DeviceConfig, d2: DeviceConfig)
    ensures LabelsOf(d1) == LabelsOf(d2) <==>
      && d1.name == d2.name
      && d1.mainGroup == d2.mainGroup
      && d1.middleGroup == d2.middleGroup
      && d1.subGroup == d2.subGroup
  {
    var l1, l2 := LabelsOf(d1), LabelsOf(d2);
    if l1 == l2 {
      assert l1[MainGroupLabel] == l2[MainGroupLabel];
      assert l1[MiddleGroupLabel] == l2[MiddleGroupLabel];
      assert l1[SubGroupLabel] == l2[SubGroupLabel];
    }
  }

  /** The address label alone determines the three components: splitting it
      at the underscores gives back the component labels. */
  lemma AddrLabelInjective(d1: DeviceConfig, d2: DeviceConfig)
    requires LabelsOf(d1)[AddrLabel] == LabelsOf(d2)[AddrLabel]
    ensures d1.mainGroup == d2.mainGroup
    ensures d1.middleGroup == d2.middleGroup
    ensures d1.subGroup == d2.subGroup
  {
    var l1, l2 := LabelsOf(d1), LabelsOf(d2);
    SplitJoined(l1[MainGroupLabel], l1[MiddleGroupLabel], l1[SubGroupLabel],
                l2[MainGroupLabel], l2[MiddleGroupLabel], l2[SubGroupLabel]);
  }

  /** Three digit strings joined with underscores can be split back apart. */
  lemma SplitJoined(a1: string, b1: string, c1: string, a2: string, b2: string, c2: string)
    requires AllDigits(a1) && AllDigits(b1) && AllDigits(a2) && AllDigits(b2)
    requires a1 + "_" + b1 + "_" + c1 == a2 + "_" + b2 + "_" + c2
    ensures a1 == a2 && b1 == b2 && c1 == c2
  {
    assert a1 + "_" + b1 + "_" + c1 == a1 + "_" + (b1 + "_" + c1);
    assert a2 + "_" + b2 + "_" + c2 == a2 + "_" + (b2 + "_" + c2);
    SplitAtUnderscore(a1, b1 + "_" + c1, a2, b2 + "_" + c2);
    SplitAtUnderscore(b1, c1, b2, c2);
  }

  /** Joining a digit string to the rest with an underscore can be undone. */
  lemma SplitAtUnderscore(x1: string, y1: string, x2: string, y2: string)
    requires AllDigits(x1) && AllDigits(x2)
    requires x1 + "_" + y1 == x2 + "_" + y2
    ensures x1 == x2 && y1 == y2
  {
    var j := x1 + "_" + y1;
    assert j[|x1|] == '_';
    assert forall i :: 0 <= i < |x1| ==> j[i] == x1[i] && j[i] != '_';
    assert j[|x2|] == '_';
    assert forall i :: 0 <= i < |x2| ==> j[i] == x2[i] && j[i] != '_';
    assert |x1| == |x2|;
    assert x1 == j[..|x1|] && x2 == j[..|x2|];
    assert y1 == j[|x1| + 1..] && y2 == j[|x2| + 1..];
  }
}
