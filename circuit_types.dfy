/**
 * The records the DC simulator keeps for a circuit: registered nodes, the
 * device records its registry appends, and the MOSFET model parameters.
 * Node fields of devices hold matrix indices, not names. Doubles are `real`.
 */
module CircuitTypes {

  /** A registered node: its row/column in the MNA system and its name. */
  datatype Node = Node(index: int, name: string)

  datatype VoltageSource = VoltageSource(name: string, node1: int, node2: int, voltage: real)

  datatype CurrentSource = CurrentSource(name: string, node1: int, node2: int, current: real)

  datatype Resistor = Resistor(name: string, node1: int, node2: int, resistance: real)

  datatype Capacity = Capacity(name: string, node1: int, node2: int, capacitance: real)

  datatype Inductor = Inductor(name: string, node1: int, node2: int, inductance: real)

  /** Drain, gate and source indices, the model it refers to, its size, and its polarity. */
  datatype Mosfet = Mosfet(name: string, nd: int, ng: int, ns: int, modelID: string,
                           width: real, length: real, isPMOS: bool)

  /** VT, MU, COX, LAMBDA (as `lam`) and CJ0: threshold voltage, mobility, oxide capacitance, channel-length modulation, junction capacitance. */
  datatype MosfetModel = MosfetModel(mosID: string, vt: real, mu: real, cox: real, lam: real, cj0: real)

  /** The registry part of a `Circuit`: everything the parser fills and the assembler reads. */
  datatype CircuitState = CircuitState(
    nodes: map<string, Node>,
    voltageSources: seq<VoltageSource>,
    currentSources: seq<CurrentSource>,
    resistors: seq<Resistor>,
    capacities: seq<Capacity>,
    inductors: seq<Inductor>,
    mosfets: seq<Mosfet>,
    mosfetModels: map<string, MosfetModel>)

  /** A freshly constructed circuit: nothing registered. */
  function EmptyCircuit(): CircuitState {
    CircuitState(map[], [], [], [], [], [], [], map[])
  }
}
