/**
 * What `buildYMatrix` and `buildCurrentVector` (helper.cpp) compute, stated on
 * values: a matrix is a `seq<seq<real>>`, and each device loop is a fold that
 * applies one device's stamp after another, in the order of the device list.
 *
 * Beside each stamp stands an independent, cell-by-cell description of the
 * change it makes (`ResistorDelta`, `MosfetDelta`, `VCell`), and the lemmas
 * connect the folds with those descriptions: the node block is the sum of the
 * resistor and MOSFET contributions, the auxiliary rows and columns hold only
 * the voltage-source incidence entries, and so on.
 */
module Stamping {
  import opened CircuitTypes

  type Mat = seq<seq<real>>

  ghost predicate Square(m: Mat) {
    forall i :: 0 <= i < |m| ==> |m[i]| == |m|
  }

  /** `MatrixXd::Zero(n, n)`. */
  function Zero(n: nat): (r: Mat)
    ensures |r| == n && Square(r)
    ensures forall i, j :: 0 <= i < n && 0 <= j < n ==> r[i][j] == 0.0
  {
    seq(n, i => seq(n, j => 0.0))
  }

  /** `m(i, j) += v`. */
  function Add(m: Mat, i: int, j: int, v: real): (r: Mat)
    requires Square(m) && 0 <= i < |m| && 0 <= j < |m|
    ensures |r| == |m| && Square(r)
  {
    m[i := m[i][j := m[i][j] + v]]
  }

  /** `m(i, j) += v` changes cell (i, j) by v and no other cell. */
  lemma AddCell(m: Mat, i: int, j: int, v: real, a: int, b: int)
    requires Square(m) && 0 <= i < |m| && 0 <= j < |m|
    requires 0 <= a < |m| && 0 <= b < |m|
    ensures Add(m, i, j, v)[a][b] == m[a][b] + Ind(a == i && b == j, v)
  {
  }

  /** `if (c) m(i, j) += v;` */
  function AddIf(m: Mat, c: bool, i: int, j: int, v: real): (r: Mat)
    requires Square(m) && (c ==> 0 <= i < |m| && 0 <= j < |m|)
    ensures |r| == |m| && Square(r)
  {
    if c then Add(m, i, j, v) else m
  }

  /** A guarded accumulation changes one cell, and only when its guard holds. */
  lemma AddIfCell(m: Mat, c: bool, i: int, j: int, v: real, a: int, b: int)
    requires Square(m) && (c ==> 0 <= i < |m| && 0 <= j < |m|)
    requires 0 <= a < |m| && 0 <= b < |m|
    ensures AddIf(m, c, i, j, v)[a][b] == m[a][b] + Ind(c && a == i && b == j, v)
  {
    if c {
      AddCell(m, i, j, v, a, b);
    }
  }

  /** `m(i, j) = v`. */
  function Put(m: Mat, i: int, j: int, v: real): (r: Mat)
    requires Square(m) && 0 <= i < |m| && 0 <= j < |m|
    ensures |r| == |m| && Square(r)
    ensures forall a, b :: 0 <= a < |m| && 0 <= b < |m| ==> r[a][b] == if a == i && b == j then v else m[a][b]
  {
    m[i := m[i][j := v]]
  }

  /** `if (c) m(i, j) = v;` */
  function PutIf(m: Mat, c: bool, i: int, j: int, v: real): (r: Mat)
    requires Square(m) && (c ==> 0 <= i < |m| && 0 <= j < |m|)
    ensures |r| == |m| && Square(r)
  {
    if c then Put(m, i, j, v) else m
  }

  function Ind(c: bool, v: real): real {
    if c then v else 0.0
  }

  /** Two square matrices of one size that agree on every cell are equal. */
  lemma MatEq(a: Mat, b: Mat)
    requires Square(a) && Square(b) && |a| == |b|
    requires forall i, j :: 0 <= i < |a| && 0 <= j < |a| ==> a[i][j] == b[i][j]
    ensures a == b
  {
    forall i | 0 <= i < |a| ensures a[i] == b[i] {
      assert |a[i]| == |b[i]|;
    }
  }

  // ---------------------------------------------------------------- resistors

  /** The stamp may index every terminal that is not negative, and divides by the resistance. */
  predicate ResistorFits(r: Resistor, size: int) {
    r.node1 < size && r.node2 < size && r.resistance != 0.0
  }

  predicate ResistorsFit(rs: seq<Resistor>, size: int) {
    forall k :: 0 <= k < |rs| ==> ResistorFits(rs[k], size)
  }

  /** The change one resistor makes to cell (i, j): +g on both diagonals, -g off the diagonal. */
  function ResistorDelta(r: Resistor, i: int, j: int): real
    requires r.resistance != 0.0
  {
    var g := 1.0 / r.resistance;
    var n1, n2 := r.node1, r.node2;
    Ind(n1 >= 0 && i == n1 && j == n1, g) + Ind(n2 >= 0 && i == n2 && j == n2, g)
    - Ind(n1 >= 0 && n2 >= 0 && i == n1 && j == n2, g) - Ind(n1 >= 0 && n2 >= 0 && i == n2 && j == n1, g)
  }

  /** One iteration of the resistor loop. */
  function ResistorStamp(m: Mat, r: Resistor): (out: Mat)
    requires Square(m) && ResistorFits(r, |m|)
    ensures |out| == |m| && Square(out)
  {
    var g := 1.0 / r.resistance;
    var n1, n2 := r.node1, r.node2;
    var m1 := AddIf(m, n1 >= 0, n1, n1, g);
    var m2 := AddIf(m1, n2 >= 0, n2, n2, g);
    var m3 := AddIf(m2, n1 >= 0 && n2 >= 0, n1, n2, -g);
    AddIf(m3, n1 >= 0 && n2 >= 0, n2, n1, -g)
  }

  /** One resistor stamp adds exactly the resistor's contribution to every cell. */
  lemma ResistorStampCell(m: Mat, r: Resistor, i: int, j: int)
    requires Square(m) && ResistorFits(r, |m|) && 0 <= i < |m| && 0 <= j < |m|
    ensures ResistorStamp(m, r)[i][j] == m[i][j] + ResistorDelta(r, i, j)
  {
    var g := 1.0 / r.resistance;
    var n1, n2 := r.node1, r.node2;
    var m1 := AddIf(m, n1 >= 0, n1, n1, g);
    var m2 := AddIf(m1, n2 >= 0, n2, n2, g);
    var m3 := AddIf(m2, n1 >= 0 && n2 >= 0, n1, n2, -g);
    assert ResistorStamp(m, r) == AddIf(m3, n1 >= 0 && n2 >= 0, n2, n1, -g);
    AddIfCell(m, n1 >= 0, n1, n1, g, i, j);
    AddIfCell(m1, n2 >= 0, n2, n2, g, i, j);
    AddIfCell(m2, n1 >= 0 && n2 >= 0, n1, n2, -g, i, j);
    AddIfCell(m3, n1 >= 0 && n2 >= 0, n2, n1, -g, i, j);
  }

  /** The resistor loop: stamps in list order. */
  function StampResistors(m: Mat, rs: seq<Resistor>): (out: Mat)
    requires Square(m) && ResistorsFit(rs, |m|)
    ensures |out| == |m| && Square(out)
    decreases |rs|
  {
    if rs == [] then m else ResistorStamp(StampResistors(m, rs[..|rs| - 1]), rs[|rs| - 1])
  }

  /** Sum of every resistor's contribution to cell (i, j). */
  function ResistorSum(rs: seq<Resistor>, i: int, j: int): real
    requires forall k :: 0 <= k < |rs| ==> rs[k].resistance != 0.0
    decreases |rs|
  {
    if rs == [] then 0.0 else ResistorSum(rs[..|rs| - 1], i, j) + ResistorDelta(rs[|rs| - 1], i, j)
  }

  /** After the resistor loop every cell holds its start value plus the sum of all resistor contributions. */
  lemma {:induction false} StampResistorsCells(m: Mat, rs: seq<Resistor>, i: int, j: int)
    requires Square(m) && ResistorsFit(rs, |m|) && 0 <= i < |m| && 0 <= j < |m|
    ensures StampResistors(m, rs)[i][j] == m[i][j] + ResistorSum(rs, i, j)
    decreases |rs|
  {
    if rs != [] {
      StampResistorsCells(m, rs[..|rs| - 1], i, j);
      ResistorStampCell(StampResistors(m, rs[..|rs| - 1]), rs[|rs| - 1], i, j);
    }
  }

  /** The resistor contributions are symmetric. */
  lemma {:induction false} ResistorSumSymmetric(rs: seq<Resistor>, i: int, j: int)
    requires forall k :: 0 <= k < |rs| ==> rs[k].resistance != 0.0
    ensures ResistorSum(rs, i, j) == ResistorSum(rs, j, i)
    decreases |rs|
  {
    if rs != [] {
      ResistorSumSymmetric(rs[..|rs| - 1], i, j);
    }
  }

  /** Resistors whose terminals are all below `n` contribute nothing outside the n-by-n node block. */
  lemma {:induction false} ResistorSumOutsideNodes(rs: seq<Resistor>, n: int, i: int, j: int)
    requires forall k :: 0 <= k < |rs| ==> rs[k].resistance != 0.0 && rs[k].node1 < n && rs[k].node2 < n
    requires i >= n || j >= n
    ensures ResistorSum(rs, i, j) == 0.0
    decreases |rs|
  {
    if rs != [] {
      ResistorSumOutsideNodes(rs[..|rs| - 1], n, i, j);
    }
  }

  function Sum(s: seq<real>): real
    decreases |s|
  {
    if s == [] then 0.0 else Sum(s[..|s| - 1]) + s[|s| - 1]
  }

  /** Adding v to one entry adds v to the sum. */
  lemma {:induction false} SumAdd(s: seq<real>, j: int, v: real)
    requires 0 <= j < |s|
    ensures Sum(s[j := s[j] + v]) == Sum(s) + v
    decreases |s|
  {
    var t := s[j := s[j] + v];
    if j < |s| - 1 {
      assert t[..|s| - 1] == s[..|s| - 1][j := s[j] + v];
      SumAdd(s[..|s| - 1], j, v);
    } else {
      assert t[..|s| - 1] == s[..|s| - 1];
    }
  }

  /** `m(a, b) += v` changes the sum of row i by v when i == a, and not at all otherwise. */
  lemma AddRowSum(m: Mat, a: int, b: int, v: real, i: int)
    requires Square(m) && 0 <= a < |m| && 0 <= b < |m| && 0 <= i < |m|
    ensures Sum(Add(m, a, b, v)[i]) == Sum(m[i]) + Ind(i == a, v)
  {
    if i == a {
      SumAdd(m[i], b, v);
    }
  }

  /** A resistor between two nodes adds g and subtracts g in each row it touches: every row sum is kept. */
  lemma ResistorStampRowSum(m: Mat, r: Resistor, i: int)
    requires Square(m) && ResistorFits(r, |m|) && r.node1 >= 0 && r.node2 >= 0 && 0 <= i < |m|
    ensures Sum(ResistorStamp(m, r)[i]) == Sum(m[i])
  {
    var g := 1.0 / r.resistance;
    var n1, n2 := r.node1, r.node2;
    var m1 := Add(m, n1, n1, g);
    var m2 := Add(m1, n2, n2, g);
    var m3 := Add(m2, n1, n2, -g);
    assert ResistorStamp(m, r) == Add(m3, n2, n1, -g);
    AddRowSum(m, n1, n1, g, i);
    AddRowSum(m1, n2, n2, g, i);
    AddRowSum(m2, n1, n2, -g, i);
    AddRowSum(m3, n2, n1, -g, i);
  }

  // ---------------------------------------------------------------- MOSFETs

  datatype Region = Off | Saturation | Triode

  function Abs(x: real): real {
    if x < 0.0 then -x else x
  }

  /** The operating region the stamp picks: conducting when VGS passes VT in the polarity's direction. */
  function RegionOf(isPMOS: bool, vgs: real, vds: real, vt: real): (r: Region)
    ensures r == Off <==> (if isPMOS then vgs >= vt else vgs <= vt)
    ensures r != Off ==> vgs != vt
  {
    if (if isPMOS then vgs < vt else vgs > vt) then
      if (if isPMOS then vds < vgs - vt else vds > vgs - vt) then Saturation else Triode
    else Off
  }

  predicate TerminalsIn(mos: Mosfet, size: int) {
    0 <= mos.nd < size && 0 <= mos.ng < size && 0 <= mos.ns < size
  }

  /** VGS as the stamp computes it: V(G) - V(S) for NMOS, V(S) - V(G) for PMOS. */
  function Vgs(mos: Mosfet, v: seq<real>): real
    requires TerminalsIn(mos, |v|)
  {
    if mos.isPMOS then v[mos.ns] - v[mos.ng] else v[mos.ng] - v[mos.ns]
  }

  /** VDS as the stamp computes it: V(D) - V(S) for NMOS, V(S) - V(D) for PMOS. */
  function Vds(mos: Mosfet, v: seq<real>): real
    requires TerminalsIn(mos, |v|)
  {
    if mos.isPMOS then v[mos.ns] - v[mos.nd] else v[mos.nd] - v[mos.ns]
  }

  /** Transconductance and output conductance of one device. */
  datatype SmallSignal = SmallSignal(gm: real, gds: real)

  /** The small-signal parameters for the given VGS and VDS. */
  function SmallSignalOf(mos: Mosfet, model: MosfetModel, vgs: real, vds: real): (r: SmallSignal)
    requires RegionOf(mos.isPMOS, vgs, vds, model.vt) != Off ==> mos.length != 0.0
    ensures RegionOf(mos.isPMOS, vgs, vds, model.vt) == Off ==> r == SmallSignal(0.0, 0.0)
  {
    match RegionOf(mos.isPMOS, vgs, vds, model.vt)
    case Off => SmallSignal(0.0, 0.0)
    case Saturation =>
      var gm := model.mu * model.cox * (mos.width / mos.length) * Abs(vgs - model.vt);
      SmallSignal(gm, model.lam * gm * Abs(vds))
    case Triode =>
      var gm := model.mu * model.cox * (mos.width / mos.length) * Abs(vds);
      SmallSignal(gm, gm / Abs(vgs - model.vt))
  }

  /**
   * With non-negative model parameters and a positive channel size, both
   * conductances are non-negative.
   */
  lemma SmallSignalNonNegative(mos: Mosfet, model: MosfetModel, vgs: real, vds: real)
    requires model.mu >= 0.0 && model.cox >= 0.0 && model.lam >= 0.0
    requires mos.width >= 0.0 && mos.length > 0.0
    ensures SmallSignalOf(mos, model, vgs, vds).gm >= 0.0 && SmallSignalOf(mos, model, vgs, vds).gds >= 0.0
  {
    var k := model.mu * model.cox * (mos.width / mos.length);
    assert mos.width / mos.length >= 0.0;
    assert model.mu * model.cox >= 0.0;
    assert k >= 0.0;
    match RegionOf(mos.isPMOS, vgs, vds, model.vt)
    case Off =>
    case Saturation =>
      var gm := k * Abs(vgs - model.vt);
      assert gm >= 0.0;
      assert model.lam * gm >= 0.0;
      assert model.lam * gm * Abs(vds) >= 0.0;
    case Triode =>
      var gm := k * Abs(vds);
      assert gm >= 0.0;
  }

  /** The stamp can evaluate the device: if its model exists, its terminals index the voltages and it can divide. */
  predicate MosfetEvaluable(mos: Mosfet, models: map<string, MosfetModel>, v: seq<real>) {
    mos.modelID in models ==>
      && TerminalsIn(mos, |v|)
      && (RegionOf(mos.isPMOS, Vgs(mos, v), Vds(mos, v), models[mos.modelID].vt) != Off ==> mos.length != 0.0)
  }

  predicate MosfetsEvaluable(ms: seq<Mosfet>, models: map<string, MosfetModel>, v: seq<real>) {
    forall k :: 0 <= k < |ms| ==> MosfetEvaluable(ms[k], models, v)
  }

  /** The device's region; a device whose model is missing is skipped, which is reported as `Off`. */
  function MosfetRegion(mos: Mosfet, models: map<string, MosfetModel>, v: seq<real>): Region
    requires MosfetEvaluable(mos, models, v)
  {
    if mos.modelID !in models then Off
    else RegionOf(mos.isPMOS, Vgs(mos, v), Vds(mos, v), models[mos.modelID].vt)
  }

  /** The device's small-signal parameters; zero when its model is missing. */
  function MosfetSignal(mos: Mosfet, models: map<string, MosfetModel>, v: seq<real>): (r: SmallSignal)
    requires MosfetEvaluable(mos, models, v)
    ensures MosfetRegion(mos, models, v) == Off ==> r == SmallSignal(0.0, 0.0)
  {
    if mos.modelID !in models then SmallSignal(0.0, 0.0)
    else SmallSignalOf(mos, models[mos.modelID], Vgs(mos, v), Vds(mos, v))
  }

  /** The node voltages with every sign flipped. */
  function Negated(v: seq<real>): (r: seq<real>)
    ensures |r| == |v| && forall i :: 0 <= i < |v| ==> r[i] == -v[i]
  {
    seq(|v|, i requires 0 <= i < |v| => -v[i])
  }

  /** The same device with the other polarity. */
  function Twin(mos: Mosfet): Mosfet {
    mos.(isPMOS := !mos.isPMOS)
  }

  /**
   * An NMOS and its PMOS twin at negated node voltages see the same VGS and
   * VDS, because the PMOS branch negates both. Its test against VT is reversed
   * as well, so with the same model the twin is off wherever the NMOS
   * conducts, and conducts wherever VGS lies below VT, where the NMOS is off.
   */
  lemma NmosTwinConductsOpposite(mos: Mosfet, models: map<string, MosfetModel>, v: seq<real>)
    requires !mos.isPMOS && mos.modelID in models && MosfetEvaluable(mos, models, v)
    ensures TerminalsIn(Twin(mos), |Negated(v)|)
    ensures Vgs(Twin(mos), Negated(v)) == Vgs(mos, v) && Vds(Twin(mos), Negated(v)) == Vds(mos, v)
    ensures MosfetRegion(mos, models, v) != Off ==>
              && MosfetEvaluable(Twin(mos), models, Negated(v))
              && MosfetRegion(Twin(mos), models, Negated(v)) == Off
              && MosfetSignal(Twin(mos), models, Negated(v)) == SmallSignal(0.0, 0.0)
    ensures Vgs(mos, v) < models[mos.modelID].vt ==>
              && MosfetRegion(mos, models, v) == Off
              && RegionOf(true, Vgs(Twin(mos), Negated(v)), Vds(Twin(mos), Negated(v)), models[mos.modelID].vt) != Off
  {
    var w := Negated(v);
    assert w[mos.ng] == -v[mos.ng] && w[mos.ns] == -v[mos.ns] && w[mos.nd] == -v[mos.nd];
  }

  /**
   * A conducting NMOS whose PMOS twin at the negated voltages has g_m = 0, not
   * the negated g_m: the two polarities are not mirror images of each other.
   */
  lemma NmosTwinExample()
    ensures var mos := Mosfet("M1", 2, 1, 0, "m", 1.0, 1.0, false);
            var models := map["m" := MosfetModel("m", 1.0, 1.0, 1.0, 0.0, 0.0)];
            && MosfetEvaluable(mos, models, [0.0, 2.0, 3.0])
            && MosfetSignal(mos, models, [0.0, 2.0, 3.0]).gm == 1.0
            && MosfetEvaluable(Twin(mos), models, [0.0, -2.0, -3.0])
            && MosfetSignal(Twin(mos), models, [0.0, -2.0, -3.0]).gm == 0.0
  {
    var mos := Mosfet("M1", 2, 1, 0, "m", 1.0, 1.0, false);
    var models := map["m" := MosfetModel("m", 1.0, 1.0, 1.0, 0.0, 0.0)];
    assert Vgs(mos, [0.0, 2.0, 3.0]) == 2.0 && Vds(mos, [0.0, 2.0, 3.0]) == 3.0;
    assert Vgs(Twin(mos), [0.0, -2.0, -3.0]) == 2.0;
  }

  function InNodes(t: int, numNodes: int): bool {
    0 <= t < numNodes
  }

  /**
   * The six accumulations of one conducting MOSFET with drain d, gate g and
   * source s: g_ds between drain and source like a resistor, and the signed
   * transconductance `sgm` from the gate into the drain row and out of the
   * source row. Each accumulation is guarded by its terminals being node indices.
   */
  function MosfetPattern(m: Mat, d: int, g: int, s: int, inD: bool, inG: bool, inS: bool, gds: real, sgm: real): (out: Mat)
    requires Square(m)
    requires (inD ==> 0 <= d < |m|) && (inG ==> 0 <= g < |m|) && (inS ==> 0 <= s < |m|)
    ensures |out| == |m| && Square(out)
  {
    var m1 := AddIf(m, inD, d, d, gds);
    var m2 := AddIf(m1, inD && inS, d, s, -gds);
    var m3 := AddIf(m2, inD && inG, d, g, sgm);
    var m4 := AddIf(m3, inS, s, s, gds);
    var m5 := AddIf(m4, inS && inD, s, d, -gds);
    AddIf(m5, inS && inG, s, g, -sgm)
  }

  /** The change `MosfetPattern` makes to cell (i, j). */
  function PatternDelta(d: int, g: int, s: int, inD: bool, inG: bool, inS: bool, gds: real, sgm: real,
                        i: int, j: int): real
  {
    Ind(inD && i == d && j == d, gds) + Ind(inD && inS && i == d && j == s, -gds)
    + Ind(inD && inG && i == d && j == g, sgm) + Ind(inS && i == s && j == s, gds)
    + Ind(inS && inD && i == s && j == d, -gds) + Ind(inS && inG && i == s && j == g, -sgm)
  }

  lemma MosfetPatternCell(m: Mat, d: int, g: int, s: int, inD: bool, inG: bool, inS: bool, gds: real, sgm: real,
                          i: int, j: int)
    requires Square(m)
    requires (inD ==> 0 <= d < |m|) && (inG ==> 0 <= g < |m|) && (inS ==> 0 <= s < |m|)
    requires 0 <= i < |m| && 0 <= j < |m|
    ensures MosfetPattern(m, d, g, s, inD, inG, inS, gds, sgm)[i][j]
            == m[i][j] + PatternDelta(d, g, s, inD, inG, inS, gds, sgm, i, j)
  {
    var m1 := AddIf(m, inD, d, d, gds);
    var m2 := AddIf(m1, inD && inS, d, s, -gds);
    var m3 := AddIf(m2, inD && inG, d, g, sgm);
    var m4 := AddIf(m3, inS, s, s, gds);
    var m5 := AddIf(m4, inS && inD, s, d, -gds);
    AddIfCell(m, inD, d, d, gds, i, j);
    AddIfCell(m1, inD && inS, d, s, -gds, i, j);
    AddIfCell(m2, inD && inG, d, g, sgm, i, j);
    AddIfCell(m3, inS, s, s, gds, i, j);
    AddIfCell(m4, inS && inD, s, d, -gds, i, j);
    AddIfCell(m5, inS && inG, s, g, -sgm, i, j);
  }

  /** The transconductance as stamped: negated for PMOS. */
  function SignedGm(mos: Mosfet, ss: SmallSignal): real {
    if mos.isPMOS then -ss.gm else ss.gm
  }

  /**
   * The change one MOSFET makes to cell (i, j): nothing when its model is
   * missing, otherwise the six terms of `PatternDelta`.
   */
  function MosfetDelta(mos: Mosfet, models: map<string, MosfetModel>, v: seq<real>, numNodes: int, i: int, j: int): real
    requires MosfetEvaluable(mos, models, v)
  {
    if mos.modelID !in models then 0.0
    else
      var ss := MosfetSignal(mos, models, v);
      PatternDelta(mos.nd, mos.ng, mos.ns, InNodes(mos.nd, numNodes), InNodes(mos.ng, numNodes),
                   InNodes(mos.ns, numNodes), ss.gds, SignedGm(mos, ss), i, j)
  }

  /** One iteration of the MOSFET loop: a device whose model is missing is skipped. */
  function MosfetStamp(m: Mat, numNodes: int, mos: Mosfet, models: map<string, MosfetModel>, v: seq<real>): (out: Mat)
    requires Square(m) && 0 <= numNodes <= |m| && MosfetEvaluable(mos, models, v)
    ensures |out| == |m| && Square(out)
  {
    if mos.modelID !in models then m
    else
      var ss := MosfetSignal(mos, models, v);
      MosfetPattern(m, mos.nd, mos.ng, mos.ns, InNodes(mos.nd, numNodes), InNodes(mos.ng, numNodes),
                    InNodes(mos.ns, numNodes), ss.gds, SignedGm(mos, ss))
  }

  /** One MOSFET stamp adds exactly the device's contribution to every cell. */
  lemma MosfetStampCell(m: Mat, numNodes: int, mos: Mosfet, models: map<string, MosfetModel>, v: seq<real>,
                        i: int, j: int)
    requires Square(m) && 0 <= numNodes <= |m| && MosfetEvaluable(mos, models, v)
    requires 0 <= i < |m| && 0 <= j < |m|
    ensures MosfetStamp(m, numNodes, mos, models, v)[i][j] == m[i][j] + MosfetDelta(mos, models, v, numNodes, i, j)
  {
    if mos.modelID in models {
      var ss := MosfetSignal(mos, models, v);
      MosfetPatternCell(m, mos.nd, mos.ng, mos.ns, InNodes(mos.nd, numNodes), InNodes(mos.ng, numNodes),
                        InNodes(mos.ns, numNodes), ss.gds, SignedGm(mos, ss), i, j);
    }
  }

  /** A MOSFET that is off, or whose model is missing, leaves the matrix exactly as it was. */
  lemma MosfetOffKeepsMatrix(m: Mat, numNodes: int, mos: Mosfet, models: map<string, MosfetModel>, v: seq<real>)
    requires Square(m) && 0 <= numNodes <= |m| && MosfetEvaluable(mos, models, v)
    requires MosfetRegion(mos, models, v) == Off
    ensures MosfetStamp(m, numNodes, mos, models, v) == m
  {
    var out := MosfetStamp(m, numNodes, mos, models, v);
    forall i, j | 0 <= i < |m| && 0 <= j < |m| ensures out[i][j] == m[i][j] {
      MosfetStampCell(m, numNodes, mos, models, v, i, j);
    }
    MatEq(out, m);
  }

  /** A terminal index outside [0, numNodes) gets nothing in its row or its column. */
  lemma MosfetOutsideTerminal(m: Mat, numNodes: int, mos: Mosfet, models: map<string, MosfetModel>, v: seq<real>,
                              t: int, j: int)
    requires Square(m) && 0 <= numNodes <= |m| && MosfetEvaluable(mos, models, v)
    requires t == mos.nd || t == mos.ng || t == mos.ns
    requires !InNodes(t, numNodes) && 0 <= t < |m| && 0 <= j < |m|
    ensures MosfetStamp(m, numNodes, mos, models, v)[t][j] == m[t][j]
    ensures MosfetStamp(m, numNodes, mos, models, v)[j][t] == m[j][t]
  {
    MosfetStampCell(m, numNodes, mos, models, v, t, j);
    MosfetStampCell(m, numNodes, mos, models, v, j, t);
  }

  /** The MOSFET loop: stamps in list order. */
  function StampMosfets(m: Mat, numNodes: int, ms: seq<Mosfet>, models: map<string, MosfetModel>, v: seq<real>): (out: Mat)
    requires Square(m) && 0 <= numNodes <= |m| && MosfetsEvaluable(ms, models, v)
    ensures |out| == |m| && Square(out)
    decreases |ms|
  {
    if ms == [] then m
    else MosfetStamp(StampMosfets(m, numNodes, ms[..|ms| - 1], models, v), numNodes, ms[|ms| - 1], models, v)
  }

  /** Sum of every MOSFET's contribution to cell (i, j). */
  function MosfetSum(ms: seq<Mosfet>, models: map<string, MosfetModel>, v: seq<real>, numNodes: int, i: int, j: int)
    : real
    requires MosfetsEvaluable(ms, models, v)
    decreases |ms|
  {
    if ms == [] then 0.0
    else MosfetSum(ms[..|ms| - 1], models, v, numNodes, i, j) + MosfetDelta(ms[|ms| - 1], models, v, numNodes, i, j)
  }

  /** After the MOSFET loop every cell holds its start value plus the sum of all MOSFET contributions. */
  lemma {:induction false} StampMosfetsCells(m: Mat, numNodes: int, ms: seq<Mosfet>, models: map<string, MosfetModel>,
                                             v: seq<real>, i: int, j: int)
    requires Square(m) && 0 <= numNodes <= |m| && MosfetsEvaluable(ms, models, v)
    requires 0 <= i < |m| && 0 <= j < |m|
    ensures StampMosfets(m, numNodes, ms, models, v)[i][j] == m[i][j] + MosfetSum(ms, models, v, numNodes, i, j)
    decreases |ms|
  {
    if ms != [] {
      StampMosfetsCells(m, numNodes, ms[..|ms| - 1], models, v, i, j);
      MosfetStampCell(StampMosfets(m, numNodes, ms[..|ms| - 1], models, v), numNodes, ms[|ms| - 1], models, v, i, j);
    }
  }

  /** MOSFETs touch node rows and columns only. */
  lemma {:induction false} MosfetSumOutsideNodes(ms: seq<Mosfet>, models: map<string, MosfetModel>, v: seq<real>,
                                                 numNodes: int, i: int, j: int)
    requires MosfetsEvaluable(ms, models, v)
    requires i >= numNodes || j >= numNodes
    ensures MosfetSum(ms, models, v, numNodes, i, j) == 0.0
    decreases |ms|
  {
    if ms != [] {
      MosfetSumOutsideNodes(ms[..|ms| - 1], models, v, numNodes, i, j);
    }
  }

  /** Without transconductance the MOSFET contributions are symmetric (g_ds acts as a resistor). */
  lemma {:induction false} MosfetSumSymmetric(ms: seq<Mosfet>, models: map<string, MosfetModel>, v: seq<real>,
                                              numNodes: int, i: int, j: int)
    requires MosfetsEvaluable(ms, models, v)
    requires forall k :: 0 <= k < |ms| ==> MosfetSignal(ms[k], models, v).gm == 0.0
    ensures MosfetSum(ms, models, v, numNodes, i, j) == MosfetSum(ms, models, v, numNodes, j, i)
    decreases |ms|
  {
    if ms != [] {
      MosfetSumSymmetric(ms[..|ms| - 1], models, v, numNodes, i, j);
    }
  }

  // ---------------------------------------------------------------- voltage sources

  predicate VSourceFits(vs: VoltageSource, size: int) {
    vs.node1 < size && vs.node2 < size
  }

  predicate VSourcesFit(vss: seq<VoltageSource>, size: int) {
    forall k :: 0 <= k < |vss| ==> VSourceFits(vss[k], size)
  }

  /**
   * Cell (i, j) after source `vs` is stamped at auxiliary index `idx`: the
   * entries of its negative terminal read -1, those of its positive terminal
   * +1 (the negative ones are written last, so they win when the terminals
   * coincide), and every other cell keeps `prev`.
   */
  function VCell(vs: VoltageSource, idx: int, i: int, j: int, prev: real): real {
    if vs.node2 >= 0 && ((i == vs.node2 && j == idx) || (i == idx && j == vs.node2)) then -1.0
    else if vs.node1 >= 0 && ((i == vs.node1 && j == idx) || (i == idx && j == vs.node1)) then 1.0
    else prev
  }

  /** One iteration of the voltage-source loop: four assignments, not accumulations. */
  function VSourceStamp(m: Mat, vs: VoltageSource, idx: int): (out: Mat)
    requires Square(m) && VSourceFits(vs, |m|) && 0 <= idx < |m|
    ensures |out| == |m| && Square(out)
    ensures forall i, j :: 0 <= i < |m| && 0 <= j < |m| ==> out[i][j] == VCell(vs, idx, i, j, m[i][j])
  {
    var n1, n2 := vs.node1, vs.node2;
    var m1 := PutIf(m, n1 >= 0, n1, idx, 1.0);
    var m2 := PutIf(m1, n1 >= 0, idx, n1, 1.0);
    var m3 := PutIf(m2, n2 >= 0, n2, idx, -1.0);
    PutIf(m3, n2 >= 0, idx, n2, -1.0)
  }

  /** The voltage-source loop; the first source's auxiliary index is `base`, and each next one is one higher. */
  function StampVSources(m: Mat, vss: seq<VoltageSource>, base: int): (out: Mat)
    requires Square(m) && VSourcesFit(vss, |m|) && 0 <= base && base + |vss| <= |m|
    ensures |out| == |m| && Square(out)
    decreases |vss|
  {
    if vss == [] then m
    else VSourceStamp(StampVSources(m, vss[..|vss| - 1], base), vss[|vss| - 1], base + |vss| - 1)
  }

  /** Every source writes into its own auxiliary row or column, so the block left of and above `base` is kept. */
  lemma {:induction false} VSourcesKeepNodeBlock(m: Mat, vss: seq<VoltageSource>, base: int, i: int, j: int)
    requires Square(m) && VSourcesFit(vss, |m|) && 0 <= base && base + |vss| <= |m|
    requires 0 <= i < base && 0 <= j < base
    ensures StampVSources(m, vss, base)[i][j] == m[i][j]
    decreases |vss|
  {
    if vss != [] {
      VSourcesKeepNodeBlock(m, vss[..|vss| - 1], base, i, j);
    }
  }

  /**
   * When all terminals are below `n <= base`, a cell whose row and column are both
   * at least `n`, or that lies outside the sources' rows and columns, is kept.
   */
  lemma {:induction false} VSourcesKeepOthers(m: Mat, vss: seq<VoltageSource>, base: int, n: int, i: int, j: int)
    requires Square(m) && VSourcesFit(vss, n) && 0 <= n <= base && base + |vss| <= |m|
    requires 0 <= i < |m| && 0 <= j < |m|
    requires (i >= n && j >= n) || (!(base <= i < base + |vss|) && !(base <= j < base + |vss|))
    ensures StampVSources(m, vss, base)[i][j] == m[i][j]
    decreases |vss|
  {
    if vss != [] {
      VSourcesKeepOthers(m, vss[..|vss| - 1], base, n, i, j);
    }
  }

  /** The auxiliary block (rows and columns from `base` on) is kept when every terminal is below `base`. */
  lemma VSourcesKeepAuxBlock(m: Mat, vss: seq<VoltageSource>, base: int, k: int, k2: int)
    requires Square(m) && VSourcesFit(vss, base) && 0 <= base && base + |vss| == |m|
    requires 0 <= k < |vss| && 0 <= k2 < |vss|
    ensures StampVSources(m, vss, base)[base + k][base + k2] == m[base + k][base + k2]
  {
    VSourcesKeepOthers(m, vss, base, base, base + k, base + k2);
  }

  /** The incidence entry of source `vs` for node j: -1 at its negative terminal, +1 at its positive one. */
  function VEntry(vs: VoltageSource, j: int, prev: real): real {
    if vs.node2 >= 0 && j == vs.node2 then -1.0
    else if vs.node1 >= 0 && j == vs.node1 then 1.0
    else prev
  }

  /** Row and column base + k carry exactly source k's incidence entries in the node columns and rows. */
  lemma {:induction false} VSourcesAuxCells(m: Mat, vss: seq<VoltageSource>, base: int, n: int, k: int, j: int)
    requires Square(m) && VSourcesFit(vss, n) && 0 <= n <= base && base + |vss| <= |m|
    requires 0 <= k < |vss| && 0 <= j < n
    ensures StampVSources(m, vss, base)[base + k][j] == VEntry(vss[k], j, m[base + k][j])
    ensures StampVSources(m, vss, base)[j][base + k] == VEntry(vss[k], j, m[j][base + k])
    decreases |vss|
  {
    var init := vss[..|vss| - 1];
    if k < |vss| - 1 {
      VSourcesAuxCells(m, init, base, n, k, j);
    } else {
      VSourcesKeepOthers(m, init, base, n, base + k, j);
      VSourcesKeepOthers(m, init, base, n, j, base + k);
    }
  }

  // ---------------------------------------------------------------- the whole matrix

  /** What `buildYMatrix` needs so that no index is out of range and no division is by zero. */
  predicate AssemblyDefined(s: CircuitState, v: seq<real>) {
    var size := |s.nodes| + |s.voltageSources|;
    && ResistorsFit(s.resistors, size)
    && VSourcesFit(s.voltageSources, size)
    && MosfetsEvaluable(s.mosfets, s.mosfetModels, v)
  }

  /** The matrix before the voltage-source loop: resistors, then MOSFETs, stamped onto zero. */
  function BeforeVSources(s: CircuitState, v: seq<real>): (m: Mat)
    requires AssemblyDefined(s, v)
    ensures |m| == |s.nodes| + |s.voltageSources| && Square(m)
  {
    var afterR := StampResistors(Zero(|s.nodes| + |s.voltageSources|), s.resistors);
    StampMosfets(afterR, |s.nodes|, s.mosfets, s.mosfetModels, v)
  }

  /** The matrix `buildYMatrix` leaves behind: resistors, then MOSFETs, then voltage sources, from zero. */
  function YMatrixSpec(s: CircuitState, v: seq<real>): (y: Mat)
    requires AssemblyDefined(s, v)
    ensures |y| == |s.nodes| + |s.voltageSources| && Square(y)
  {
    StampVSources(BeforeVSources(s, v), s.voltageSources, |s.nodes|)
  }

  /** Every cell of the node block is the sum of the resistor and MOSFET contributions. */
  lemma YMatrixNodeBlock(s: CircuitState, v: seq<real>, i: int, j: int)
    requires AssemblyDefined(s, v)
    requires 0 <= i < |s.nodes| && 0 <= j < |s.nodes|
    ensures YMatrixSpec(s, v)[i][j]
            == ResistorSum(s.resistors, i, j) + MosfetSum(s.mosfets, s.mosfetModels, v, |s.nodes|, i, j)
  {
    var n := |s.nodes|;
    var z := Zero(n + |s.voltageSources|);
    var afterR := StampResistors(z, s.resistors);
    assert BeforeVSources(s, v) == StampMosfets(afterR, n, s.mosfets, s.mosfetModels, v);
    StampResistorsCells(z, s.resistors, i, j);
    StampMosfetsCells(afterR, n, s.mosfets, s.mosfetModels, v, i, j);
    VSourcesKeepNodeBlock(BeforeVSources(s, v), s.voltageSources, n, i, j);
  }

  /** The terminals of every resistor and voltage source are node indices. */
  predicate TerminalsAreNodes(s: CircuitState) {
    var n := |s.nodes|;
    && (forall k :: 0 <= k < |s.resistors| ==> s.resistors[k].node1 < n && s.resistors[k].node2 < n)
    && (forall k :: 0 <= k < |s.voltageSources| ==> s.voltageSources[k].node1 < n && s.voltageSources[k].node2 < n)
  }

  /** Before the voltage-source loop the auxiliary rows and columns are still zero. */
  lemma BeforeVSourcesAuxZero(s: CircuitState, v: seq<real>, i: int, j: int)
    requires AssemblyDefined(s, v) && TerminalsAreNodes(s)
    requires 0 <= i < |s.nodes| + |s.voltageSources| && 0 <= j < |s.nodes| + |s.voltageSources|
    requires i >= |s.nodes| || j >= |s.nodes|
    ensures BeforeVSources(s, v)[i][j] == 0.0
  {
    var n := |s.nodes|;
    var z := Zero(n + |s.voltageSources|);
    var afterR := StampResistors(z, s.resistors);
    assert BeforeVSources(s, v) == StampMosfets(afterR, n, s.mosfets, s.mosfetModels, v);
    StampResistorsCells(z, s.resistors, i, j);
    ResistorSumOutsideNodes(s.resistors, n, i, j);
    StampMosfetsCells(afterR, n, s.mosfets, s.mosfetModels, v, i, j);
    MosfetSumOutsideNodes(s.mosfets, s.mosfetModels, v, n, i, j);
  }

  /**
   * Auxiliary row and column k hold the incidence of voltage source k:
   * -1 at its negative terminal, +1 at its positive one (the negative wins
   * when both are the same node), 0 elsewhere in the node part.
   */
  lemma YMatrixAuxiliary(s: CircuitState, v: seq<real>, k: int, j: int)
    requires AssemblyDefined(s, v) && TerminalsAreNodes(s)
    requires 0 <= k < |s.voltageSources| && 0 <= j < |s.nodes|
    ensures YMatrixSpec(s, v)[|s.nodes| + k][j] == VEntry(s.voltageSources[k], j, 0.0)
    ensures YMatrixSpec(s, v)[j][|s.nodes| + k] == VEntry(s.voltageSources[k], j, 0.0)
  {
    var n := |s.nodes|;
    BeforeVSourcesAuxZero(s, v, n + k, j);
    BeforeVSourcesAuxZero(s, v, j, n + k);
    VSourcesAuxCells(BeforeVSources(s, v), s.voltageSources, n, n, k, j);
  }

  /** The block where auxiliary rows meet auxiliary columns is zero. */
  lemma YMatrixAuxBlock(s: CircuitState, v: seq<real>, k: int, k2: int)
    requires AssemblyDefined(s, v) && TerminalsAreNodes(s)
    requires 0 <= k < |s.voltageSources| && 0 <= k2 < |s.voltageSources|
    ensures YMatrixSpec(s, v)[|s.nodes| + k][|s.nodes| + k2] == 0.0
  {
    var n := |s.nodes|;
    BeforeVSourcesAuxZero(s, v, n + k, n + k2);
    VSourcesKeepAuxBlock(BeforeVSources(s, v), s.voltageSources, n, k, k2);
  }

  /**
   * When no MOSFET has transconductance (in particular when every MOSFET is off),
   * the assembled matrix is symmetric.
   */
  /** The case of `YMatrixSymmetric` where auxiliary row `i` meets node column `j`. */
  lemma YMatrixMixedSymmetric(s: CircuitState, v: seq<real>, i: int, j: int)
    requires AssemblyDefined(s, v) && TerminalsAreNodes(s)
    requires |s.nodes| <= i < |s.nodes| + |s.voltageSources| && 0 <= j < |s.nodes|
    ensures YMatrixSpec(s, v)[i][j] == YMatrixSpec(s, v)[j][i]
  {
    var k := i - |s.nodes|;
    assert |s.nodes| + k == i;
    YMatrixAuxiliary(s, v, k, j);
  }

  /** The case of `YMatrixSymmetric` where two auxiliary indices meet. */
  lemma YMatrixAuxBlockSymmetric(s: CircuitState, v: seq<real>, i: int, j: int)
    requires AssemblyDefined(s, v) && TerminalsAreNodes(s)
    requires |s.nodes| <= i < |s.nodes| + |s.voltageSources| && |s.nodes| <= j < |s.nodes| + |s.voltageSources|
    ensures YMatrixSpec(s, v)[i][j] == YMatrixSpec(s, v)[j][i]
  {
    var ki, kj := i - |s.nodes|, j - |s.nodes|;
    assert |s.nodes| + ki == i && |s.nodes| + kj == j;
    YMatrixAuxBlock(s, v, ki, kj);
    YMatrixAuxBlock(s, v, kj, ki);
  }

  /** The node-block case of `YMatrixSymmetric`. */
  lemma YMatrixNodeBlockSymmetric(s: CircuitState, v: seq<real>, i: int, j: int)
    requires AssemblyDefined(s, v) && TerminalsAreNodes(s)
    requires forall k :: 0 <= k < |s.mosfets| ==> MosfetSignal(s.mosfets[k], s.mosfetModels, v).gm == 0.0
    requires 0 <= i < |s.nodes| && 0 <= j < |s.nodes|
    ensures YMatrixSpec(s, v)[i][j] == YMatrixSpec(s, v)[j][i]
  {
    YMatrixNodeBlock(s, v, i, j);
    YMatrixNodeBlock(s, v, j, i);
    ResistorSumSymmetric(s.resistors, i, j);
    MosfetSumSymmetric(s.mosfets, s.mosfetModels, v, |s.nodes|, i, j);
  }

  lemma YMatrixSymmetric(s: CircuitState, v: seq<real>, i: int, j: int)
    requires AssemblyDefined(s, v) && TerminalsAreNodes(s)
    requires forall k :: 0 <= k < |s.mosfets| ==> MosfetSignal(s.mosfets[k], s.mosfetModels, v).gm == 0.0
    requires 0 <= i < |s.nodes| + |s.voltageSources| && 0 <= j < |s.nodes| + |s.voltageSources|
    ensures YMatrixSpec(s, v)[i][j] == YMatrixSpec(s, v)[j][i]
  {
    var n := |s.nodes|;
    if i < n && j < n {
      YMatrixNodeBlockSymmetric(s, v, i, j);
    } else if i >= n && j >= n {
      YMatrixAuxBlockSymmetric(s, v, i, j);
    } else if i >= n {
      YMatrixMixedSymmetric(s, v, i, j);
    } else {
      YMatrixMixedSymmetric(s, v, j, i);
    }
  }

  // ---------------------------------------------------------------- right-hand side

  predicate CSourcesFit(cs: seq<CurrentSource>, size: int) {
    forall k :: 0 <= k < |cs| ==> cs[k].node1 < size && cs[k].node2 < size
  }

  /** One iteration of the current-source loop: the value is added at both terminals. */
  function InjectCurrent(b: seq<real>, c: CurrentSource): (r: seq<real>)
    requires c.node1 < |b| && c.node2 < |b|
    ensures |r| == |b|
    ensures forall i :: 0 <= i < |b| ==>
              r[i] == b[i] + Ind(c.node1 >= 0 && i == c.node1, c.current) + Ind(c.node2 >= 0 && i == c.node2, c.current)
  {
    var b1 := if c.node1 >= 0 then b[c.node1 := b[c.node1] + c.current] else b;
    if c.node2 >= 0 then b1[c.node2 := b1[c.node2] + c.current] else b1
  }

  function InjectCurrents(b: seq<real>, cs: seq<CurrentSource>): (r: seq<real>)
    requires CSourcesFit(cs, |b|)
    ensures |r| == |b|
    decreases |cs|
  {
    if cs == [] then b else InjectCurrent(InjectCurrents(b, cs[..|cs| - 1]), cs[|cs| - 1])
  }

  /** The total current injected at node i: each source counts once per terminal at i. */
  function Injection(cs: seq<CurrentSource>, i: int): real
    decreases |cs|
  {
    if cs == [] then 0.0
    else
      var c := cs[|cs| - 1];
      Injection(cs[..|cs| - 1], i) + Ind(c.node1 == i, c.current) + Ind(c.node2 == i, c.current)
  }

  lemma {:induction false} InjectCurrentsCells(b: seq<real>, cs: seq<CurrentSource>, i: int)
    requires CSourcesFit(cs, |b|) && 0 <= i < |b|
    ensures InjectCurrents(b, cs)[i] == b[i] + Injection(cs, i)
    decreases |cs|
  {
    if cs != [] {
      InjectCurrentsCells(b, cs[..|cs| - 1], i);
    }
  }

  /** The second loop: entries base .. base + count - 1 are set to 0. */
  function ClearAux(b: seq<real>, base: int, count: nat): (r: seq<real>)
    requires 0 <= base && base + count <= |b|
    ensures |r| == |b|
  {
    if count == 0 then b else ClearAux(b, base, count - 1)[base + count - 1 := 0.0]
  }

  lemma {:induction false} ClearAuxCells(b: seq<real>, base: int, count: nat, i: int)
    requires 0 <= base && base + count <= |b| && 0 <= i < |b|
    ensures ClearAux(b, base, count)[i] == if base <= i < base + count then 0.0 else b[i]
  {
    if count > 0 {
      ClearAuxCells(b, base, count - 1, i);
    }
  }

  /** The vector `buildCurrentVector` leaves behind. */
  function CurrentVectorSpec(s: CircuitState): (b: seq<real>)
    requires CSourcesFit(s.currentSources, |s.nodes| + |s.voltageSources|)
    ensures |b| == |s.nodes| + |s.voltageSources|
  {
    var size := |s.nodes| + |s.voltageSources|;
    ClearAux(InjectCurrents(seq(size, _ => 0.0), s.currentSources), |s.nodes|, |s.voltageSources|)
  }

  /**
   * Row i < N holds the total current injected at node i (both terminals count
   * with the same sign); every auxiliary row N + k holds 0, whatever the source's voltage.
   */
  lemma CurrentVectorCells(s: CircuitState, i: int)
    requires CSourcesFit(s.currentSources, |s.nodes| + |s.voltageSources|)
    requires 0 <= i < |s.nodes| + |s.voltageSources|
    ensures i < |s.nodes| ==> CurrentVectorSpec(s)[i] == Injection(s.currentSources, i)
    ensures i >= |s.nodes| ==> CurrentVectorSpec(s)[i] == 0.0
  {
    var size := |s.nodes| + |s.voltageSources|;
    var z: seq<real> := seq(size, _ => 0.0);
    InjectCurrentsCells(z, s.currentSources, i);
    ClearAuxCells(InjectCurrents(z, s.currentSources), |s.nodes|, |s.voltageSources|, i);
  }
}
