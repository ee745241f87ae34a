/**
 * The `Circuit` object of helper.cpp: a registry that the netlist parser fills
 * by calling its `add...` methods, and the two assembly steps that stamp the
 * registered devices into the Modified Nodal Analysis matrix and right-hand side.
 *
 * Each method is specified by the pure definitions of `Registry` and
 * `Stamping`: the registry methods leave `State()` equal to the registry
 * function applied to the old state, and the assembly methods leave arrays
 * whose contents are `YMatrixSpec` and `CurrentVectorSpec` of the state.
 */
module CircuitModel {
  import opened CircuitTypes
  import Registry
  import opened Stamping

  /** The array holds matrix `m`, cell by cell. */
  ghost predicate Matches(a: array2<real>, m: Mat)
    reads a
  {
    && a.Length0 == |m| && a.Length1 == |m| && Square(m)
    && forall i, j :: 0 <= i < |m| && 0 <= j < |m| ==> a[i, j] == m[i][j]
  }

  /** `a(i, j) += v` on the array, following `Add` on its matrix. */
  method Accumulate(a: array2<real>, i: int, j: int, v: real, ghost m: Mat)
    requires Matches(a, m) && 0 <= i < |m| && 0 <= j < |m|
    modifies a
    ensures Matches(a, Add(m, i, j, v))
  {
    a[i, j] := a[i, j] + v;
    forall x, y | 0 <= x < |m| && 0 <= y < |m| ensures a[x, y] == Add(m, i, j, v)[x][y] {
      AddCell(m, i, j, v, x, y);
    }
  }

  /** `a(i, j) = v` on the array, following `Put` on its matrix. */
  method Assign(a: array2<real>, i: int, j: int, v: real, ghost m: Mat)
    requires Matches(a, m) && 0 <= i < |m| && 0 <= j < |m|
    modifies a
    ensures Matches(a, Put(m, i, j, v))
  {
    a[i, j] := v;
  }

  /** The guarded accumulations of one MOSFET, drain row first, then source row. */
  method AccumulateMosfet(y: array2<real>, nd: int, ng: int, ns: int, inD: bool, inG: bool, inS: bool,
                          gds: real, sgm: real, ghost m: Mat)
    requires Matches(y, m)
    requires (inD ==> 0 <= nd < |m|) && (inG ==> 0 <= ng < |m|) && (inS ==> 0 <= ns < |m|)
    modifies y
    ensures Matches(y, MosfetPattern(m, nd, ng, ns, inD, inG, inS, gds, sgm))
  {
    ghost var m1 := AddIf(m, inD, nd, nd, gds);
    ghost var m2 := AddIf(m1, inD && inS, nd, ns, -gds);
    ghost var m3 := AddIf(m2, inD && inG, nd, ng, sgm);
    ghost var m4 := AddIf(m3, inS, ns, ns, gds);
    ghost var m5 := AddIf(m4, inS && inD, ns, nd, -gds);
    if inD {
      Accumulate(y, nd, nd, gds, m);
      if inS {
        Accumulate(y, nd, ns, -gds, m1);
      }
      if inG {
        Accumulate(y, nd, ng, sgm, m2);
      }
    }
    if inS {
      Accumulate(y, ns, ns, gds, m3);
      if inD {
        Accumulate(y, ns, nd, -gds, m4);
      }
      if inG {
        Accumulate(y, ns, ng, -sgm, m5);
      }
    }
  }

  /** One iteration of the current-source loop of `buildCurrentVector`. */
  method InjectInto(b: array<real>, c: CurrentSource)
    requires c.node1 < b.Length && c.node2 < b.Length
    modifies b
    ensures b[..] == InjectCurrent(old(b[..]), c)
  {
    var n1 := c.node1;
    var n2 := c.node2;
    var value := c.current;
    if n1 >= 0 {
      b[n1] := b[n1] + value;
    }
    if n2 >= 0 {
      b[n2] := b[n2] + value;
    }
  }

  class Circuit {
    var nodes: map<string, Node>
    var voltageSources: seq<VoltageSource>
    var currentSources: seq<CurrentSource>
    var resistors: seq<Resistor>
    var capacities: seq<Capacity>
    var inductors: seq<Inductor>
    var mosfets: seq<Mosfet>
    var mosfetModels: map<string, MosfetModel>
    /** The MNA matrix, (N + M) by (N + M) for N nodes and M voltage sources. */
    var yMatrix: array2<real>
    /** The right-hand side, of length N + M. */
    var currentVector: array<real>
    /** The node voltages the MOSFET stamps are evaluated at. */
    var nodeVoltage: array<real>

    /** The registry part of the object. */
    function State(): CircuitState
      reads this`nodes, this`voltageSources, this`currentSources, this`resistors, this`capacities
      reads this`inductors, this`mosfets, this`mosfetModels
    {
      CircuitState(nodes, voltageSources, currentSources, resistors, capacities, inductors, mosfets, mosfetModels)
    }

    /** A new circuit: nothing registered, empty matrix and vectors. */
    constructor ()
      ensures State() == EmptyCircuit()
      ensures fresh(yMatrix) && fresh(currentVector) && fresh(nodeVoltage)
      ensures yMatrix.Length0 == 0 && yMatrix.Length1 == 0 && currentVector.Length == 0 && nodeVoltage.Length == 0
    {
      nodes, voltageSources, currentSources := map[], [], [];
      resistors, capacities, inductors := [], [], [];
      mosfets, mosfetModels := [], map[];
      yMatrix := new real[0, 0];
      currentVector := new real[0];
      nodeVoltage := new real[0];
    }

    /** `addNode(name)`. */
    method AddNode(name: string)
      modifies this`nodes
      ensures State() == Registry.AddNode(old(State()), name)
    {
      if name !in nodes {
        var index := |nodes|;
        nodes := nodes[name := Node(index, name)];
      }
    }

    /** `nodes[name].index`: inserts `Node{0, ""}` for a name never registered. */
    method Lookup(name: string) returns (index: int)
      modifies this`nodes
      ensures nodes == Registry.Touch(old(nodes), name)
      ensures index == Registry.IndexOf(old(nodes), name)
    {
      if name !in nodes {
        nodes := nodes[name := Node(0, "")];
      }
      index := nodes[name].index;
    }

    /** `addVoltageSource`. */
    method AddVoltageSource(name: string, node1: string, node2: string, voltage: real)
      modifies this`nodes, this`voltageSources
      ensures State() == Registry.AddVoltageSource(old(State()), name, node1, node2, voltage)
    {
      ghost var s0 := State();
      var i1 := Lookup(node1);
      var i2 := Lookup(node2);
      Registry.TouchKeepsIndices(s0.nodes, node1, node2);
      voltageSources := voltageSources + [VoltageSource(name, i1, i2, voltage)];
    }

    /** `addResistor`. */
    method AddResistor(name: string, node1: string, node2: string, resistance: real)
      modifies this`nodes, this`resistors
      ensures State() == Registry.AddResistor(old(State()), name, node1, node2, resistance)
    {
      ghost var s0 := State();
      var i1 := Lookup(node1);
      var i2 := Lookup(node2);
      Registry.TouchKeepsIndices(s0.nodes, node1, node2);
      resistors := resistors + [Resistor(name, i1, i2, resistance)];
    }

    /** `addCapacity`. */
    method AddCapacity(name: string, node1: string, node2: string, capacitance: real)
      modifies this`nodes, this`capacities
      ensures State() == Registry.AddCapacity(old(State()), name, node1, node2, capacitance)
    {
      ghost var s0 := State();
      var i1 := Lookup(node1);
      var i2 := Lookup(node2);
      Registry.TouchKeepsIndices(s0.nodes, node1, node2);
      capacities := capacities + [Capacity(name, i1, i2, capacitance)];
    }

    /** `addInductor`. */
    method AddInductor(name: string, node1: string, node2: string, inductance: real)
      modifies this`nodes, this`inductors
      ensures State() == Registry.AddInductor(old(State()), name, node1, node2, inductance)
    {
      ghost var s0 := State();
      var i1 := Lookup(node1);
      var i2 := Lookup(node2);
      Registry.TouchKeepsIndices(s0.nodes, node1, node2);
      inductors := inductors + [Inductor(name, i1, i2, inductance)];
    }

    /** `addMOSFET`: the record is built without a polarity, so it is an NMOS. */
    method AddMosfet(name: string, nd: string, ng: string, ns: string, modelID: string, width: real, length: real)
      modifies this`nodes, this`mosfets
      ensures State() == Registry.AddMosfet(old(State()), name, nd, ng, ns, modelID, width, length)
    {
      ghost var s0 := State();
      var id := Lookup(nd);
      var ig := Lookup(ng);
      var iS := Lookup(ns);
      Registry.TouchKeepsIndices(s0.nodes, nd, ng);
      Registry.TouchKeepsIndices(s0.nodes, nd, ns);
      Registry.TouchKeepsIndices(Registry.Touch(s0.nodes, nd), ng, ns);
      mosfets := mosfets + [Mosfet(name, id, ig, iS, modelID, width, length, false)];
    }

    /** `addMOSFETModel`. */
    method AddMosfetModel(mosID: string, vt: real, mu: real, cox: real, lam: real, cj0: real)
      modifies this`mosfetModels
      ensures State() == Registry.AddMosfetModel(old(State()), mosID, vt, mu, cox, lam, cj0)
    {
      mosfetModels := mosfetModels[mosID := MosfetModel(mosID, vt, mu, cox, lam, cj0)];
    }

    /** One iteration of the resistor loop of `buildYMatrix`. */
    method StampResistorInto(y: array2<real>, r: Resistor, ghost m: Mat)
      requires Matches(y, m) && ResistorFits(r, |m|)
      modifies y
      ensures Matches(y, ResistorStamp(m, r))
    {
      var n1 := r.node1;
      var n2 := r.node2;
      var g := 1.0 / r.resistance;
      ghost var m1 := AddIf(m, n1 >= 0, n1, n1, g);
      ghost var m2 := AddIf(m1, n2 >= 0, n2, n2, g);
      ghost var m3 := AddIf(m2, n1 >= 0 && n2 >= 0, n1, n2, -g);
      if n1 >= 0 {
        Accumulate(y, n1, n1, g, m);
      }
      if n2 >= 0 {
        Accumulate(y, n2, n2, g, m1);
      }
      if n1 >= 0 && n2 >= 0 {
        Accumulate(y, n1, n2, -g, m2);
        Accumulate(y, n2, n1, -g, m3);
      }
    }

    /**
     * One iteration of the MOSFET loop of `buildYMatrix`: look the model up
     * (skip the device if it is missing), compute g_m and g_ds at the node
     * voltages, and accumulate them into the node block.
     */
    method StampMosfetInto(y: array2<real>, numNodes: int, mosfet: Mosfet, ghost m: Mat)
      requires Matches(y, m) && 0 <= numNodes <= |m|
      requires MosfetEvaluable(mosfet, mosfetModels, nodeVoltage[..])
      modifies y
      ensures Matches(y, MosfetStamp(m, numNodes, mosfet, mosfetModels, nodeVoltage[..]))
    {
      ghost var v := nodeVoltage[..];
      if mosfet.modelID !in mosfetModels {
        assert MosfetStamp(m, numNodes, mosfet, mosfetModels, v) == m;
        return;
      }
      var model := mosfetModels[mosfet.modelID];
      var nd, ng, ns := mosfet.nd, mosfet.ng, mosfet.ns;
      var vgs := if mosfet.isPMOS then nodeVoltage[ns] - nodeVoltage[ng] else nodeVoltage[ng] - nodeVoltage[ns];
      var vds := if mosfet.isPMOS then nodeVoltage[ns] - nodeVoltage[nd] else nodeVoltage[nd] - nodeVoltage[ns];
      assert vgs == Vgs(mosfet, v) && vds == Vds(mosfet, v);
      var ss := SmallSignalOf(mosfet, model, vgs, vds);
      var gm, gds := ss.gm, ss.gds;
      assert ss == MosfetSignal(mosfet, mosfetModels, v);
      var sgm := if mosfet.isPMOS then -gm else gm;
      assert gds == ss.gds && sgm == SignedGm(mosfet, ss);
      var inD, inG, inS := 0 <= nd < numNodes, 0 <= ng < numNodes, 0 <= ns < numNodes;
      ghost var target := MosfetPattern(m, nd, ng, ns, inD, inG, inS, gds, sgm);
      assert MosfetStamp(m, numNodes, mosfet, mosfetModels, v) == target;
      AccumulateMosfet(y, nd, ng, ns, inD, inG, inS, gds, sgm, m);
      assert Matches(y, target);
    }

    /** One iteration of the voltage-source loop of `buildYMatrix`: assignments into row and column `index`. */
    method StampVSourceInto(y: array2<real>, vs: VoltageSource, index: int, ghost m: Mat)
      requires Matches(y, m) && VSourceFits(vs, |m|) && 0 <= index < |m|
      modifies y
      ensures Matches(y, VSourceStamp(m, vs, index))
    {
      var n1 := vs.node1;
      var n2 := vs.node2;
      ghost var m1 := PutIf(m, n1 >= 0, n1, index, 1.0);
      ghost var m2 := PutIf(m1, n1 >= 0, index, n1, 1.0);
      ghost var m3 := PutIf(m2, n2 >= 0, n2, index, -1.0);
      if n1 >= 0 {
        Assign(y, n1, index, 1.0, m);
        Assign(y, index, n1, 1.0, m1);
      }
      if n2 >= 0 {
        Assign(y, n2, index, -1.0, m2);
        Assign(y, index, n2, -1.0, m3);
      }
    }

    /** The resistor loop of `buildYMatrix`. */
    method StampResistorsInto(y: array2<real>, ghost m: Mat)
      requires Matches(y, m) && ResistorsFit(resistors, |m|)
      modifies y
      ensures Matches(y, StampResistors(m, resistors))
    {
      for k := 0 to |resistors|
        invariant Matches(y, StampResistors(m, resistors[..k]))
      {
        assert resistors[..k + 1][..k] == resistors[..k];
        StampResistorInto(y, resistors[k], StampResistors(m, resistors[..k]));
      }
      assert resistors[..|resistors|] == resistors;
    }

    /** The MOSFET loop of `buildYMatrix`. */
    method StampMosfetsInto(y: array2<real>, numNodes: int, ghost m: Mat)
      requires Matches(y, m) && 0 <= numNodes <= |m|
      requires MosfetsEvaluable(mosfets, mosfetModels, nodeVoltage[..])
      modifies y
      ensures Matches(y, StampMosfets(m, numNodes, mosfets, mosfetModels, nodeVoltage[..]))
    {
      for k := 0 to |mosfets|
        invariant Matches(y, StampMosfets(m, numNodes, mosfets[..k], mosfetModels, nodeVoltage[..]))
      {
        assert mosfets[..k + 1][..k] == mosfets[..k];
        StampMosfetInto(y, numNodes, mosfets[k], StampMosfets(m, numNodes, mosfets[..k], mosfetModels, nodeVoltage[..]));
      }
      assert mosfets[..|mosfets|] == mosfets;
    }

    /** The voltage-source loop of `buildYMatrix`: source k owns row and column numNodes + k. */
    method StampVSourcesInto(y: array2<real>, numNodes: int, ghost m: Mat)
      requires Matches(y, m) && VSourcesFit(voltageSources, |m|) && 0 <= numNodes
      requires numNodes + |voltageSources| <= |m|
      modifies y
      ensures Matches(y, StampVSources(m, voltageSources, numNodes))
    {
      var voltageSourceIndex := numNodes;
      for k := 0 to |voltageSources|
        invariant voltageSourceIndex == numNodes + k
        invariant Matches(y, StampVSources(m, voltageSources[..k], numNodes))
      {
        ghost var before := StampVSources(m, voltageSources[..k], numNodes);
        assert voltageSources[..k + 1][..k] == voltageSources[..k];
        assert StampVSources(m, voltageSources[..k + 1], numNodes) == VSourceStamp(before, voltageSources[k], numNodes + k);
        StampVSourceInto(y, voltageSources[k], voltageSourceIndex, before);
        voltageSourceIndex := voltageSourceIndex + 1;
      }
      assert voltageSources[..|voltageSources|] == voltageSources;
    }

    /**
     * `buildYMatrix()`: a fresh zero matrix of size N + M, then the resistor,
     * MOSFET and voltage-source loops, in that order.
     */
    method BuildYMatrix()
      requires AssemblyDefined(State(), nodeVoltage[..])
      modifies this`yMatrix
      ensures fresh(yMatrix)
      ensures Matches(yMatrix, YMatrixSpec(State(), nodeVoltage[..]))
    {
      var numNodes := |nodes|;
      var numVoltageSources := |voltageSources|;
      var size := numNodes + numVoltageSources;
      var y := new real[size, size]((i, j) => 0.0);
      ghost var z := Zero(size);
      StampResistorsInto(y, z);
      ghost var afterR := StampResistors(z, resistors);
      StampMosfetsInto(y, numNodes, afterR);
      ghost var afterM := StampMosfets(afterR, numNodes, mosfets, mosfetModels, nodeVoltage[..]);
      assert afterM == BeforeVSources(State(), nodeVoltage[..]);
      StampVSourcesInto(y, numNodes, afterM);
      yMatrix := y;
    }

    /**
     * `buildCurrentVector()`: a fresh zero vector of size N + M, each current
     * source added at both of its terminals, then the auxiliary entries set to 0.
     */
    method BuildCurrentVector()
      requires CSourcesFit(currentSources, |nodes| + |voltageSources|)
      modifies this`currentVector
      ensures fresh(currentVector)
      ensures currentVector[..] == CurrentVectorSpec(State())
    {
      var size := |nodes|;
      var b := new real[size + |voltageSources|](_ => 0.0);
      ghost var z := b[..];
      assert z == seq(size + |voltageSources|, _ => 0.0);

      for k := 0 to |currentSources|
        invariant b[..] == InjectCurrents(z, currentSources[..k])
      {
        assert currentSources[..k + 1][..k] == currentSources[..k];
        InjectInto(b, currentSources[k]);
      }
      assert currentSources[..|currentSources|] == currentSources;
      ghost var injected := b[..];

      var voltageIndexOffset := |nodes|;
      for i := 0 to |voltageSources|
        invariant b[..] == ClearAux(injected, voltageIndexOffset, i)
      {
        b[voltageIndexOffset + i] := 0.0;
      }
      assert ClearAux(injected, voltageIndexOffset, |voltageSources|) == CurrentVectorSpec(State());
      currentVector := b;
    }
  }
}
