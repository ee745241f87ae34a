/**
 * The circuit registry of `Circuit` (helper.cpp): `addNode` and the
 * `add<Device>` operations, stated on the registry's value.
 *
 * Device operations resolve node names with the map's `operator[]`, which
 * inserts a default `Node{0, ""}` for a name that was never registered; so such
 * a name silently gets index 0. `Touch` and `IndexOf` model that lookup.
 */
module Registry {
  import opened CircuitTypes

  /** The map after `nodes[name]`: a missing name is inserted as `Node{0, ""}`. */
  function Touch(nodes: map<string, Node>, name: string): (r: map<string, Node>)
    ensures r.Keys == nodes.Keys + {name}
    ensures forall k :: k in nodes ==> r[k] == nodes[k]
    ensures name !in nodes ==> r[name] == Node(0, "") && |r| == |nodes| + 1
    ensures name in nodes ==> |r| == |nodes|
  {
    if name in nodes then nodes else nodes[name := Node(0, "")]
  }

  /** The value of `nodes[name].index`: the registered index, or 0 for an unregistered name. */
  function IndexOf(nodes: map<string, Node>, name: string): (r: int)
    ensures r == Touch(nodes, name)[name].index
  {
    if name in nodes then nodes[name].index else 0
  }

  /** Looking a name up never changes the index any other lookup yields. */
  lemma TouchKeepsIndices(nodes: map<string, Node>, a: string, b: string)
    ensures IndexOf(Touch(nodes, a), b) == IndexOf(nodes, b)
  {
  }

  /** How many device records the registry holds, over every kind of device. */
  function DeviceCount(s: CircuitState): nat {
    |s.voltageSources| + |s.currentSources| + |s.resistors| + |s.capacities| + |s.inductors| + |s.mosfets|
  }

  predicate Refers(index: int, size: int) {
    0 <= index < size
  }

  /** Every registered node's index lies in [0, |nodes|). */
  predicate NodesFit(nodes: map<string, Node>) {
    forall k :: k in nodes ==> Refers(nodes[k].index, |nodes|)
  }

  /** Every terminal index of every device lies in [0, n). */
  predicate DevicesWithin(s: CircuitState, n: int) {
    && (forall i :: 0 <= i < |s.voltageSources| ==>
          Refers(s.voltageSources[i].node1, n) && Refers(s.voltageSources[i].node2, n))
    && (forall i :: 0 <= i < |s.currentSources| ==>
          Refers(s.currentSources[i].node1, n) && Refers(s.currentSources[i].node2, n))
    && (forall i :: 0 <= i < |s.resistors| ==>
          Refers(s.resistors[i].node1, n) && Refers(s.resistors[i].node2, n))
    && (forall i :: 0 <= i < |s.capacities| ==>
          Refers(s.capacities[i].node1, n) && Refers(s.capacities[i].node2, n))
    && (forall i :: 0 <= i < |s.inductors| ==>
          Refers(s.inductors[i].node1, n) && Refers(s.inductors[i].node2, n))
    && (forall i :: 0 <= i < |s.mosfets| ==>
          Refers(s.mosfets[i].nd, n) && Refers(s.mosfets[i].ng, n) && Refers(s.mosfets[i].ns, n))
  }

  /**
   * The registry invariant: node indices lie in [0, |nodes|), and so does every
   * terminal index a device holds.
   */
  predicate WellFormed(s: CircuitState) {
    NodesFit(s.nodes) && DevicesWithin(s, |s.nodes|)
  }

  /** Indices that fit a smaller node count fit a larger one. */
  lemma DevicesWithinGrow(s: CircuitState, n: int, n2: int)
    requires DevicesWithin(s, n) && n <= n2
    ensures DevicesWithin(s, n2)
  {
  }

  /** A lookup keeps the node map well formed, never shrinks it, and the index it yields refers to a node afterwards. */
  lemma TouchFits(nodes: map<string, Node>, name: string)
    requires NodesFit(nodes)
    ensures NodesFit(Touch(nodes, name))
    ensures Refers(IndexOf(nodes, name), |Touch(nodes, name)|)
    ensures |nodes| <= |Touch(nodes, name)|
  {
  }

  /** Two lookups in a row: both yielded indices refer to nodes of the final map. */
  lemma TwoTouchesFit(nodes: map<string, Node>, a: string, b: string)
    requires NodesFit(nodes)
    ensures NodesFit(Touch(Touch(nodes, a), b))
    ensures Refers(IndexOf(nodes, a), |Touch(Touch(nodes, a), b)|)
    ensures Refers(IndexOf(nodes, b), |Touch(Touch(nodes, a), b)|)
    ensures |nodes| <= |Touch(Touch(nodes, a), b)|
  {
    TouchFits(nodes, a);
    TouchFits(Touch(nodes, a), b);
    TouchKeepsIndices(nodes, a, b);
  }

  /** The node map after `addNode(name)`: a new name is entered with the next index, a registered one is left alone. */
  function Enter(nodes: map<string, Node>, name: string): (r: map<string, Node>)
    ensures r.Keys == nodes.Keys + {name}
    ensures forall k :: k in nodes ==> r[k] == nodes[k]
    ensures name in nodes ==> r == nodes
    ensures name !in nodes ==> r[name] == Node(|nodes|, name) && |r| == |nodes| + 1
  {
    if name in nodes then nodes else nodes[name := Node(|nodes|, name)]
  }

  /** `addNode(name)`: a new name gets index |nodes|; a registered name leaves everything as it was. */
  function AddNode(s: CircuitState, name: string): (r: CircuitState)
    ensures r == s.(nodes := r.nodes)
    ensures r.nodes.Keys == s.nodes.Keys + {name}
    ensures forall k :: k in s.nodes ==> r.nodes[k] == s.nodes[k]
    ensures name in s.nodes ==> r == s
    ensures name !in s.nodes ==> r.nodes[name] == Node(|s.nodes|, name) && |r.nodes| == |s.nodes| + 1
  {
    s.(nodes := Enter(s.nodes, name))
  }

  /** Registering a name twice is the same as registering it once. */
  lemma AddNodeIdempotent(s: CircuitState, name: string)
    ensures AddNode(AddNode(s, name), name) == AddNode(s, name)
  {
  }

  /** `addVoltageSource`: one record appended, terminals resolved by lookup; nothing else but the lookups changes. */
  function AddVoltageSource(s: CircuitState, name: string, node1: string, node2: string, voltage: real): (r: CircuitState)
    ensures r == s.(nodes := Touch(Touch(s.nodes, node1), node2),
                    voltageSources := s.voltageSources
                      + [VoltageSource(name, IndexOf(s.nodes, node1), IndexOf(s.nodes, node2), voltage)])
  {
    var i1 := IndexOf(s.nodes, node1);
    var nodes1 := Touch(s.nodes, node1);
    var i2 := IndexOf(nodes1, node2);
    s.(nodes := Touch(nodes1, node2), voltageSources := s.voltageSources + [VoltageSource(name, i1, i2, voltage)])
  }

  /** `addResistor`: one record appended, terminals resolved by lookup. */
  function AddResistor(s: CircuitState, name: string, node1: string, node2: string, resistance: real): (r: CircuitState)
    ensures r == s.(nodes := Touch(Touch(s.nodes, node1), node2),
                    resistors := s.resistors
                      + [Resistor(name, IndexOf(s.nodes, node1), IndexOf(s.nodes, node2), resistance)])
  {
    var i1 := IndexOf(s.nodes, node1);
    var nodes1 := Touch(s.nodes, node1);
    var i2 := IndexOf(nodes1, node2);
    s.(nodes := Touch(nodes1, node2), resistors := s.resistors + [Resistor(name, i1, i2, resistance)])
  }

  /** `addCapacity`: one record appended, terminals resolved by lookup. */
  function AddCapacity(s: CircuitState, name: string, node1: string, node2: string, capacitance: real): (r: CircuitState)
    ensures r == s.(nodes := Touch(Touch(s.nodes, node1), node2),
                    capacities := s.capacities
                      + [Capacity(name, IndexOf(s.nodes, node1), IndexOf(s.nodes, node2), capacitance)])
  {
    var i1 := IndexOf(s.nodes, node1);
    var nodes1 := Touch(s.nodes, node1);
    var i2 := IndexOf(nodes1, node2);
    s.(nodes := Touch(nodes1, node2), capacities := s.capacities + [Capacity(name, i1, i2, capacitance)])
  }

  /** `addInductor`: one record appended, terminals resolved by lookup. */
  function AddInductor(s: CircuitState, name: string, node1: string, node2: string, inductance: real): (r: CircuitState)
    ensures r == s.(nodes := Touch(Touch(s.nodes, node1), node2),
                    inductors := s.inductors
                      + [Inductor(name, IndexOf(s.nodes, node1), IndexOf(s.nodes, node2), inductance)])
  {
    var i1 := IndexOf(s.nodes, node1);
    var nodes1 := Touch(s.nodes, node1);
    var i2 := IndexOf(nodes1, node2);
    s.(nodes := Touch(nodes1, node2), inductors := s.inductors + [Inductor(name, i1, i2, inductance)])
  }

  /**
   * `addMOSFET`: one record appended, drain, gate and source resolved by lookup.
   * The record's initializer lists no polarity, so `isPMOS` is always false.
   */
  function AddMosfet(s: CircuitState, name: string, nd: string, ng: string, ns: string,
                     modelID: string, width: real, length: real): (r: CircuitState)
    ensures r == s.(nodes := Touch(Touch(Touch(s.nodes, nd), ng), ns),
                    mosfets := s.mosfets
                      + [Mosfet(name, IndexOf(s.nodes, nd), IndexOf(s.nodes, ng), IndexOf(s.nodes, ns),
                                modelID, width, length, false)])
  {
    var id := IndexOf(s.nodes, nd);
    var nodes1 := Touch(s.nodes, nd);
    var ig := IndexOf(nodes1, ng);
    var nodes2 := Touch(nodes1, ng);
    var iS := IndexOf(nodes2, ns);
    s.(nodes := Touch(nodes2, ns), mosfets := s.mosfets + [Mosfet(name, id, ig, iS, modelID, width, length, false)])
  }

  /** `addMOSFETModel`: stores, or overwrites, exactly the entry keyed by `mosID`. */
  function AddMosfetModel(s: CircuitState, mosID: string, vt: real, mu: real, cox: real, lam: real, cj0: real): (r: CircuitState)
    ensures r == s.(mosfetModels := r.mosfetModels)
    ensures r.mosfetModels.Keys == s.mosfetModels.Keys + {mosID}
    ensures r.mosfetModels[mosID] == MosfetModel(mosID, vt, mu, cox, lam, cj0)
    ensures forall k :: k in s.mosfetModels && k != mosID ==> r.mosfetModels[k] == s.mosfetModels[k]
  {
    s.(mosfetModels := s.mosfetModels[mosID := MosfetModel(mosID, vt, mu, cox, lam, cj0)])
  }

  // ---------------------------------------------------------------- the invariant is kept

  /** Appending a device whose terminal indices are below `n` keeps every device below `n`. */
  lemma AddVoltageSourceWithin(s: CircuitState, name: string, node1: string, node2: string, voltage: real, n: int)
    requires DevicesWithin(s, n) && Refers(IndexOf(s.nodes, node1), n) && Refers(IndexOf(s.nodes, node2), n)
    ensures DevicesWithin(AddVoltageSource(s, name, node1, node2, voltage), n)
  {
  }

  lemma AddResistorWithin(s: CircuitState, name: string, node1: string, node2: string, resistance: real, n: int)
    requires DevicesWithin(s, n) && Refers(IndexOf(s.nodes, node1), n) && Refers(IndexOf(s.nodes, node2), n)
    ensures DevicesWithin(AddResistor(s, name, node1, node2, resistance), n)
  {
  }

  lemma AddCapacityWithin(s: CircuitState, name: string, node1: string, node2: string, capacitance: real, n: int)
    requires DevicesWithin(s, n) && Refers(IndexOf(s.nodes, node1), n) && Refers(IndexOf(s.nodes, node2), n)
    ensures DevicesWithin(AddCapacity(s, name, node1, node2, capacitance), n)
  {
  }

  lemma AddInductorWithin(s: CircuitState, name: string, node1: string, node2: string, inductance: real, n: int)
    requires DevicesWithin(s, n) && Refers(IndexOf(s.nodes, node1), n) && Refers(IndexOf(s.nodes, node2), n)
    ensures DevicesWithin(AddInductor(s, name, node1, node2, inductance), n)
  {
  }

  lemma AddMosfetWithin(s: CircuitState, name: string, nd: string, ng: string, ns: string,
                        modelID: string, width: real, length: real, n: int)
    requires DevicesWithin(s, n)
    requires Refers(IndexOf(s.nodes, nd), n) && Refers(IndexOf(s.nodes, ng), n) && Refers(IndexOf(s.nodes, ns), n)
    ensures DevicesWithin(AddMosfet(s, name, nd, ng, ns, modelID, width, length), n)
  {
    var r := AddMosfet(s, name, nd, ng, ns, modelID, width, length);
    var m := Mosfet(name, IndexOf(s.nodes, nd), IndexOf(s.nodes, ng), IndexOf(s.nodes, ns),
                    modelID, width, length, false);
    assert r.mosfets == s.mosfets + [m];
    forall i | 0 <= i < |r.mosfets|
      ensures Refers(r.mosfets[i].nd, n) && Refers(r.mosfets[i].ng, n) && Refers(r.mosfets[i].ns, n)
    {
      if i == |s.mosfets| { assert r.mosfets[i] == m; } else { assert r.mosfets[i] == s.mosfets[i]; }
    }
  }

  /** Registering a node keeps the registry invariant: a new name takes the first free index. */
  lemma AddNodeKeepsWellFormed(s: CircuitState, name: string)
    requires WellFormed(s)
    ensures WellFormed(AddNode(s, name))
  {
    if name !in s.nodes {
      DevicesWithinGrow(s, |s.nodes|, |s.nodes| + 1);
    }
  }

  lemma AddVoltageSourceKeepsWellFormed(s: CircuitState, name: string, node1: string, node2: string, voltage: real)
    requires WellFormed(s)
    ensures WellFormed(AddVoltageSource(s, name, node1, node2, voltage))
  {
    var n := |Touch(Touch(s.nodes, node1), node2)|;
    TwoTouchesFit(s.nodes, node1, node2);
    DevicesWithinGrow(s, |s.nodes|, n);
    AddVoltageSourceWithin(s, name, node1, node2, voltage, n);
  }

  lemma AddResistorKeepsWellFormed(s: CircuitState, name: string, node1: string, node2: string, resistance: real)
    requires WellFormed(s)
    ensures WellFormed(AddResistor(s, name, node1, node2, resistance))
  {
    var n := |Touch(Touch(s.nodes, node1), node2)|;
    TwoTouchesFit(s.nodes, node1, node2);
    DevicesWithinGrow(s, |s.nodes|, n);
    AddResistorWithin(s, name, node1, node2, resistance, n);
  }

  lemma AddCapacityKeepsWellFormed(s: CircuitState, name: string, node1: string, node2: string, capacitance: real)
    requires WellFormed(s)
    ensures WellFormed(AddCapacity(s, name, node1, node2, capacitance))
  {
    var n := |Touch(Touch(s.nodes, node1), node2)|;
    TwoTouchesFit(s.nodes, node1, node2);
    DevicesWithinGrow(s, |s.nodes|, n);
    AddCapacityWithin(s, name, node1, node2, capacitance, n);
  }

  lemma AddInductorKeepsWellFormed(s: CircuitState, name: string, node1: string, node2: string, inductance: real)
    requires WellFormed(s)
    ensures WellFormed(AddInductor(s, name, node1, node2, inductance))
  {
    var n := |Touch(Touch(s.nodes, node1), node2)|;
    TwoTouchesFit(s.nodes, node1, node2);
    DevicesWithinGrow(s, |s.nodes|, n);
    AddInductorWithin(s, name, node1, node2, inductance, n);
  }

  lemma AddMosfetKeepsWellFormed(s: CircuitState, name: string, nd: string, ng: string, ns: string,
                                 modelID: string, width: real, length: real)
    requires WellFormed(s)
    ensures WellFormed(AddMosfet(s, name, nd, ng, ns, modelID, width, length))
  {
    var nodes2 := Touch(Touch(s.nodes, nd), ng);
    var n := |Touch(nodes2, ns)|;
    TwoTouchesFit(s.nodes, nd, ng);
    TouchFits(nodes2, ns);
    TouchKeepsIndices(Touch(s.nodes, nd), ng, ns);
    TouchKeepsIndices(s.nodes, nd, ns);
    DevicesWithinGrow(s, |s.nodes|, n);
    AddMosfetWithin(s, name, nd, ng, ns, modelID, width, length, n);
  }

  lemma AddMosfetModelKeepsWellFormed(s: CircuitState, mosID: string, vt: real, mu: real, cox: real,
                                      lam: real, cj0: real)
    requires WellFormed(s)
    ensures WellFormed(AddMosfetModel(s, mosID, vt, mu, cox, lam, cj0))
  {
  }
}
