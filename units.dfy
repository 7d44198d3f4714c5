/** Conversion between draw-units and the physical units offered on the
    command line (units.c). Draw-units are 1/256 of an OS unit, and an inch
    is 180 OS units. Conversions are exact over the reals. */
module Units {

  import opened Words

  /** Draw-units per inch, point, millimetre and centimetre. The millimetre
      factor uses the source's 0.0394 inches per millimetre, not 1/25.4. */
  const FactorIn: real := 180.0 * 256.0
  const FactorPt: real := 640.0
  const FactorMm: real := FactorIn * 0.0394
  const FactorCm: real := FactorMm * 10.0

  /** Which conversion pair a table entry carries. */
  datatype Kind = Inch | Millimetre | Centimetre | Point | DrawUnit

  /** Draw-units per unit; the identity for native draw-units. */
  function Factor(k: Kind): (f: real)
    ensures f > 0.0
  {
    match k
    case Inch => FactorIn
    case Millimetre => FactorMm
    case Centimetre => FactorCm
    case Point => FactorPt
    case DrawUnit => 1.0
  }

  /** `draw2in`, `draw2mm`, `draw2cm`, `draw2pt`, `draw2du`. */
  function FromDraw(k: Kind, x: real): (r: real)
    ensures r * Factor(k) == x
  {
    if k == DrawUnit then x else x / Factor(k)
  }

  /** `in2draw`, `mm2draw`, `cm2draw`, `pt2draw`, `du2draw`; each undoes
      the matching draw-to-unit conversion. */
  function ToDraw(k: Kind, x: real): (r: real)
    ensures FromDraw(k, r) == x
  {
    if k == DrawUnit then x else x * Factor(k)
  }

  /** Converting to a unit and back gives the draw-unit value unchanged. */
  lemma UnitRoundTrip(k: Kind, x: real)
    ensures ToDraw(k, FromDraw(k, x)) == x
  {
  }

  /** An entry of the unit table: its name and its conversion pair. */
  datatype Unit = Unit(name: string, kind: Kind)

  /** The unit table, in search order; the empty name is native draw-units. */
  const Table: seq<Unit> := [
    Unit("in", Inch),
    Unit("mm", Millimetre),
    Unit("cm", Centimetre),
    Unit("pt", Point),
    Unit("", DrawUnit)
  ]

  /** The first table entry, at index `i` or later, whose name is `u`. */
  function FindFrom(u: string, i: nat): (r: Option<nat>)
    requires i <= |Table|
    ensures r.Some? ==> i <= r.value < |Table| && Table[r.value].name == u
    ensures r.Some? ==> forall j :: i <= j < r.value ==> Table[j].name != u
    ensures r.None? ==> forall j :: i <= j < |Table| ==> Table[j].name != u
    decreases |Table| - i
  {
    if i == |Table| then None
    else if Table[i].name == u then Some(i)
    else FindFrom(u, i + 1)
  }

  /** `choose_units`: the first entry named `u`, or nothing (NULL). */
  function ChooseUnits(u: string): (r: Option<Unit>)
    ensures r.Some? <==> exists j :: 0 <= j < |Table| && Table[j].name == u
    ensures r.Some? ==> r.value in Table && r.value.name == u
  {
    match FindFrom(u, 0)
    case None => None
    case Some(j) => Some(Table[j])
  }

  /** What `sscanf(data, "%lf%4s", ...)` recognised: nothing (0 or EOF), a
      number alone, or a number followed by a word of at most four
      characters. The scanning itself is not part of this model. */
  datatype Scan = NoNumber | Number(v: real) | NumberUnit(v: real, unit: string)

  /** `measure`: the return code and the value of `*valp` afterwards, given
      its value before. */
  function Measure(s: Scan, valp: real): (r: (int, real))
    ensures r.0 == 0 || r.0 == -1
    ensures r.0 == -1 ==> r.1 == valp
    ensures s.Number? ==> r == (0, s.v)
    ensures s.NumberUnit? ==> (r.0 == 0 <==> ChooseUnits(s.unit).Some?)
    ensures s.NumberUnit? && r.0 == 0 ==> FromDraw(ChooseUnits(s.unit).value.kind, r.1) == s.v
    ensures s.NoNumber? ==> r == (-1, valp)
  {
    match s
    case NoNumber => (-1, valp)
    case Number(v) => (0, v)
    case NumberUnit(v, unit) =>
      match ChooseUnits(unit)
      case None => (-1, valp)
      case Some(up) => (0, ToDraw(up.kind, v))
  }

  /** The table names are distinct, so every entry is the one found by its name. */
  lemma {:induction false} ChooseUnitsFindsEachEntry(j: nat)
    requires j < |Table|
    ensures ChooseUnits(Table[j].name) == Some(Table[j])
  {
    var r := FindFrom(Table[j].name, 0);
    assert r.Some?;
    assert Table[0].name == "in" && Table[1].name == "mm" && Table[2].name == "cm";
    assert Table[3].name == "pt" && Table[4].name == "";
    assert r.value == j;
  }

  /** The inch is 180 OS units of 256 draw-units, a centimetre ten
      millimetres, and the empty unit converts nothing. */
  lemma FactorFacts(x: real)
    ensures Factor(Inch) == 46080.0
    ensures Factor(Centimetre) == 10.0 * Factor(Millimetre)
    ensures ChooseUnits("") == Some(Unit("", DrawUnit))
    ensures ToDraw(DrawUnit, x) == x && FromDraw(DrawUnit, x) == x
  {
    ChooseUnitsFindsEachEntry(4);
  }
}
