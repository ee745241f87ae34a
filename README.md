# DC_Anaolg front end in Dafny

DC_Anaolg is a small DC circuit simulator built on Modified Nodal Analysis (MNA).
This project models its front end:

- the netlist reader (`NetListParser`), which tokenizes each line of a SPICE-like
  netlist and dispatches on its first token;
- the disjoint-set forest (`UnionFind`) and the node canonicalizer `mapNodes`;
- the circuit registry (`Circuit::addNode`, `addVoltageSource`, `addResistor`,
  `addCapacity`, `addInductor`, `addMOSFET`, `addMOSFETModel`);
- the assembly of the MNA system: the admittance matrix (`buildYMatrix`: resistor
  conductances, linearised MOSFET small-signal stamps, voltage-source incidence rows
  and columns) and the right-hand side (`buildCurrentVector`).

Files:

- `circuit_types.dfy`, module `CircuitTypes`: the device records of `Circuit.h`.
  Node fields hold matrix indices.
- `registry.dfy`, module `Registry`: the registry operations as functions on a
  `CircuitState` value. It also holds the registry invariant `WellFormed`: every
  node index and every device terminal index lies in `[0, |nodes|)`.
- `stamping.dfy`, module `Stamping`: the matrix and vector the assembler builds,
  specified one device at a time. It also holds what the assembled system looks like
  cell by cell.
- `circuit.dfy`, module `CircuitModel`: the `Circuit` class with the source's fields
  and its methods over `array2<real>` and `array<real>`. Each method is proved against
  the `Registry` or `Stamping` function for the same step.
- `union_find.dfy`, module `DisjointSet`: the `UnionFind` class over two arrays,
  proved against the forest functions `Root`, `RootAfterUnion` and `RankAfterUnion`.
- `netlist.dfy`, module `NetList`: the tokenizer, the `.MODEL` parameter scan, the
  per-line effect, `mapNodes` and `NetListParser`.
- `netlist.dfy`, module `NetListFacts`: what the reader guarantees about the circuit
  it builds.

A netlist file is given as the sequence of its lines. The text-to-double conversion
`stod` is a parameter `num: string -> real`. The node voltages that the MOSFET stamp
reads (`NodeVoltage`, set outside this core) are the values in the `nodeVoltage`
array at the time of the call. Doubles are exact reals.

### How the code behaves, where it differs from its documented intent

The model follows the code in each of these cases.

- **Device terminal indices are looked up before the nodes are registered.**
  `NetListParser` calls the `add*` device methods while it reads the lines, and
  `addNode` only after the loop. The lookup `nodes[name].index` inserts `Node{0, ""}`
  for an unknown name. So a device terminal takes index 0 unless a `.PLOTNV` line
  registered that name earlier (`NetListFacts.WithoutPlotAllIndicesZero`).
- **GND is not always index 0.** `GND` is registered last, by `addNode`, which
  keeps an entry that already exists. In a netlist without `.PLOTNV` lines, GND gets
  index `|nodes|` when no device mentioned it, and keeps the placeholder index 0
  when a device did (`NetListFacts.GroundIndex`). A `.PLOTNV GND` line read before
  any device names GND gives it the node count at that line instead, and GND keeps
  that index whether or not a device names it later.
- **`mapNodes` returns only GND.** Its first loop enters every name into
  `nodeNameToIndex`, so the second loop never adds anything. The result is always
  `[("GND", 0)]` (`NetList.MapNodes`).
- **Every MOSFET is NMOS.** `addMOSFET` never sets `isPMOS`, so it stays false
  (`NetListFacts.ParsedMosfetsAreNmos`). The PMOS branches of the stamp are still
  modelled as written.
- **The right-hand side is zero.** Nothing fills `currentsources`, and the
  voltage-source entries are cleared, so the vector is zero
  (`NetListFacts.ParsedRightHandSideZero`). The source voltages are never placed in it.
- **The model lookup is ill-typed as written.** The MOSFET loop calls `find_if`
  over the map `mosfetmodels`, whose elements are key-value pairs, with a predicate
  that takes a `const MOSFETModel&`; that call does not type-check. The model takes
  its evident intent: find the model whose `mosID` equals the device's `modelID`.
  Every stored model's `mosID` is its key (`addMOSFETModel`), so this is a key
  lookup in `mosfetModels`.
- **A PMOS is not the mirror image of an NMOS.** The PMOS branch negates VGS and
  VDS, and it also reverses the comparisons with VT. So the PMOS twin of an NMOS, at
  negated node voltages and with the same model, sees the same VGS and VDS but is
  off wherever the NMOS conducts, instead of giving the negated `g_m` and the same
  `g_ds` (`Stamping.NmosTwinConductsOpposite`, `Stamping.NmosTwinExample`). Every
  MOSFET the reader creates is an NMOS, so parsed circuits never reach this.

## Model

| member | source | states |
|---|---|---|
| Registry.Touch | DC_Anaolg/helper.cpp:23 | `nodes[name]` adds `name` if it is missing, with the placeholder `Node(0, "")`, and keeps every existing entry; the map grows by one exactly when the name was new |
| Registry.IndexOf | DC_Anaolg/helper.cpp:23 | the index `nodes[name].index` yields is the index of the entry the lookup leaves in the map: the registered index, or the placeholder 0 for a name the lookup inserts |
| Registry.TouchKeepsIndices | DC_Anaolg/helper.cpp:23 | a lookup never changes the index a later lookup of any name yields |
| Registry.Enter | DC_Anaolg/helper.cpp:14-19 | a new name is entered as `Node(n, name)` with `n` the node count and the map grows by one; a known name leaves the map unchanged |
| Registry.AddNode | DC_Anaolg/helper.cpp:12-20 | only the node map changes: a new name takes the next index, the node count, a registered name changes nothing, and old entries are kept |
| Registry.AddNodeIdempotent | DC_Anaolg/helper.cpp:14-19 | registering the same name twice is the same as registering it once |
| Registry.AddVoltageSource | DC_Anaolg/helper.cpp:21-24 | appends one source whose terminals are the indices the names had before the call; both names are looked up (inserted if missing); nothing else changes |
| Registry.AddResistor | DC_Anaolg/helper.cpp:25-28 | appends one resistor with the pre-call indices of its two names; both names are looked up; nothing else changes |
| Registry.AddCapacity | DC_Anaolg/helper.cpp:29-32 | appends one capacitor with the pre-call indices of its two names; both names are looked up; nothing else changes |
| Registry.AddInductor | DC_Anaolg/helper.cpp:33-36 | appends one inductor with the pre-call indices of its two names; both names are looked up; nothing else changes |
| Registry.AddMosfet | DC_Anaolg/helper.cpp:37-40 | appends one MOSFET with the pre-call indices of drain, gate and source, its model name and size, and `isPMOS` false; nothing else changes |
| Registry.AddMosfetModel | DC_Anaolg/helper.cpp:41-44 | stores or overwrites exactly the model keyed `mosID`; every other model and every other field is unchanged |
| Registry.DevicesWithinGrow | DC_Anaolg/Circuit.h:143-153 | terminal indices that fit `n` nodes also fit any larger node count |
| Registry.TouchFits | DC_Anaolg/helper.cpp:23 | a lookup keeps node indices in range, and the index it returns lies in the new node count |
| Registry.TwoTouchesFit | DC_Anaolg/helper.cpp:23 | two lookups in a row keep node indices in range, and both returned indices fit the final node count |
| Registry.AddVoltageSourceWithin | DC_Anaolg/helper.cpp:21-24 | appending a source whose indices fit `n` keeps every device within `n` |
| Registry.AddResistorWithin | DC_Anaolg/helper.cpp:25-28 | appending a resistor whose indices fit `n` keeps every device within `n` |
| Registry.AddCapacityWithin | DC_Anaolg/helper.cpp:29-32 | appending a capacitor whose indices fit `n` keeps every device within `n` |
| Registry.AddInductorWithin | DC_Anaolg/helper.cpp:33-36 | appending an inductor whose indices fit `n` keeps every device within `n` |
| Registry.AddMosfetWithin | DC_Anaolg/helper.cpp:37-40 | appending a MOSFET whose three indices fit `n` keeps every device within `n` |
| Registry.AddNodeKeepsWellFormed | DC_Anaolg/helper.cpp:12-20 | `addNode` preserves the registry invariant: all node and terminal indices lie in `[0, n)` for `n` nodes |
| Registry.AddVoltageSourceKeepsWellFormed | DC_Anaolg/helper.cpp:21-24 | `addVoltageSource` preserves the registry invariant |
| Registry.AddResistorKeepsWellFormed | DC_Anaolg/helper.cpp:25-28 | `addResistor` preserves the registry invariant |
| Registry.AddCapacityKeepsWellFormed | DC_Anaolg/helper.cpp:29-32 | `addCapacity` preserves the registry invariant |
| Registry.AddInductorKeepsWellFormed | DC_Anaolg/helper.cpp:33-36 | `addInductor` preserves the registry invariant |
| Registry.AddMosfetKeepsWellFormed | DC_Anaolg/helper.cpp:37-40 | `addMOSFET` preserves the registry invariant |
| Registry.AddMosfetModelKeepsWellFormed | DC_Anaolg/helper.cpp:41-44 | `addMOSFETModel` preserves the registry invariant |
| Stamping.Zero | DC_Anaolg/helper.cpp:52 | `MatrixXd::Zero(n, n)`: an n-by-n matrix of zeros |
| Stamping.AddCell | DC_Anaolg/helper.cpp:61 | `Y(i, j) += v` changes cell (i, j) by `v` and no other cell |
| Stamping.AddIfCell | DC_Anaolg/helper.cpp:61-62 | a guarded `+=` changes cell (i, j) by `v` when the guard holds and no cell otherwise |
| Stamping.Put | DC_Anaolg/helper.cpp:134 | `Y(i, j) = v` overwrites cell (i, j) and no other cell |
| Stamping.MatEq | DC_Anaolg/helper.cpp:52 | two square matrices of one size that agree on every cell are equal |
| Stamping.ResistorStamp | DC_Anaolg/helper.cpp:57-68 | one iteration of the resistor loop keeps the matrix square and of the same size; its change to each cell is the one `Stamping.ResistorStampCell` states |
| Stamping.StampResistors | DC_Anaolg/helper.cpp:55-69 | the resistor loop, resistors taken in list order, keeps the matrix size; its cells are the sums `Stamping.StampResistorsCells` states |
| Stamping.ResistorStampCell | DC_Anaolg/helper.cpp:57-68 | one resistor adds `1/R` to each diagonal cell of a non-negative terminal and `-1/R` to both off-diagonal cells when both terminals are non-negative |
| Stamping.StampResistorsCells | DC_Anaolg/helper.cpp:55-69 | after the resistor loop each cell equals its start value plus the sum over resistors of their individual contributions |
| Stamping.ResistorSumSymmetric | DC_Anaolg/helper.cpp:61-68 | the resistor contributions form a symmetric matrix |
| Stamping.ResistorSumOutsideNodes | DC_Anaolg/helper.cpp:55-69 | resistors whose terminals are node indices contribute nothing to a row or column at or beyond the node count |
| Stamping.SumAdd | DC_Anaolg/helper.cpp:61 | adding `v` to one entry adds `v` to the row sum |
| Stamping.AddRowSum | DC_Anaolg/helper.cpp:61 | `Y(a, b) += v` changes the sum of row `a` by `v` and no other row sum |
| Stamping.ResistorStampRowSum | DC_Anaolg/helper.cpp:57-68 | a resistor between two node terminals leaves every row sum unchanged (Kirchhoff's current law) |
| Stamping.RegionOf | DC_Anaolg/helper.cpp:99-100 | the device is off exactly when VGS does not pass VT in the polarity's direction; when it conducts, VGS differs from VT, so the triode division is defined |
| Stamping.Vgs | DC_Anaolg/helper.cpp:90-92 | VGS is V(G) - V(S) for an NMOS and V(S) - V(G) for a PMOS; `Stamping.NmosTwinConductsOpposite` states that the PMOS twin at negated voltages sees the same VGS |
| Stamping.Vds | DC_Anaolg/helper.cpp:93-95 | VDS is V(D) - V(S) for an NMOS and V(S) - V(D) for a PMOS; the PMOS twin at negated voltages sees the same VDS (`Stamping.NmosTwinConductsOpposite`) |
| Stamping.SmallSignalOf | DC_Anaolg/helper.cpp:97-110 | an off device has `g_m = g_ds = 0` |
| Stamping.SmallSignalNonNegative | DC_Anaolg/helper.cpp:101-108 | with non-negative model and size parameters, `g_m` and `g_ds` are non-negative in every region |
| Stamping.MosfetSignal | DC_Anaolg/helper.cpp:74-110 | a device whose model is missing, or that is off, has zero small-signal parameters |
| Stamping.NmosTwinConductsOpposite | DC_Anaolg/helper.cpp:90-100 | an NMOS and its PMOS twin at negated node voltages see the same VGS and VDS; with the same model the twin is off wherever the NMOS conducts, so its `g_m` and `g_ds` are 0, and it conducts wherever VGS is below VT, where the NMOS is off |
| Stamping.NmosTwinExample | DC_Anaolg/helper.cpp:90-110 | the NMOS `M1` (drain 2, gate 1, source 0, W = L = 1) at voltages 0, 2, 3 with VT = MU = COX = 1 has `g_m = 1`; its PMOS twin at 0, -2, -3 has `g_m = 0`, not -1 |
| Stamping.MosfetPatternCell | DC_Anaolg/helper.cpp:113-122 | the six guarded accumulations change each cell by exactly the sum of the terms whose guards hold |
| Stamping.MosfetStamp | DC_Anaolg/helper.cpp:72-122 | one iteration of the MOSFET loop keeps the matrix size; a missing model leaves it unchanged, and otherwise each cell changes as `Stamping.MosfetStampCell` states |
| Stamping.StampMosfets | DC_Anaolg/helper.cpp:72-123 | the MOSFET loop, devices in list order, keeps the matrix size; its cells are the sums `Stamping.StampMosfetsCells` states |
| Stamping.MosfetStampCell | DC_Anaolg/helper.cpp:72-122 | one MOSFET changes each cell by its delta: `g_ds` as a conductance between drain and source, and the signed `g_m` (negated for PMOS) from the gate column into the drain and out of the source row |
| Stamping.MosfetOffKeepsMatrix | DC_Anaolg/helper.cpp:76-79 | a device that is off or whose model is missing leaves the matrix unchanged |
| Stamping.MosfetOutsideTerminal | DC_Anaolg/helper.cpp:113-122 | a terminal that is not a node index (negative or at least `numNodes`) gets no entry in its row or column |
| Stamping.StampMosfetsCells | DC_Anaolg/helper.cpp:72-123 | after the MOSFET loop each cell equals its start value plus the sum of the devices' deltas |
| Stamping.MosfetSumOutsideNodes | DC_Anaolg/helper.cpp:113-122 | MOSFETs contribute nothing outside the node block |
| Stamping.MosfetSumSymmetric | DC_Anaolg/helper.cpp:113-122 | when every transconductance is zero, the MOSFET contributions are symmetric |
| Stamping.VSourceStamp | DC_Anaolg/helper.cpp:127-144 | one source writes +1 into the aux row and column cells of `n1` and -1 into those of `n2` (the `n2` writes come last and win), and keeps every other cell |
| Stamping.StampVSources | DC_Anaolg/helper.cpp:126-144 | the voltage-source loop, source k at row and column `numNodes + k`, keeps the matrix size; the cells it writes are those `Stamping.VSourcesAuxCells` states, and it keeps the node block and the aux-aux block (`Stamping.VSourcesKeepNodeBlock`, `Stamping.VSourcesKeepAuxBlock`) |
| Stamping.VSourcesKeepNodeBlock | DC_Anaolg/helper.cpp:126-144 | the voltage-source loop never touches the node block |
| Stamping.VSourcesKeepOthers | DC_Anaolg/helper.cpp:126-144 | the voltage-source loop changes only the aux rows and columns, and only their node-index entries |
| Stamping.VSourcesKeepAuxBlock | DC_Anaolg/helper.cpp:126-144 | the voltage-source loop never writes the aux-aux block |
| Stamping.VSourcesAuxCells | DC_Anaolg/helper.cpp:126-144 | source k's aux row and column (index `numNodes + k`) hold its own incidence entries and nothing from other sources |
| Stamping.BeforeVSources | DC_Anaolg/helper.cpp:50-123 | the matrix before the voltage-source loop is square of size `numNodes + numVoltageSources` |
| Stamping.YMatrixSpec | DC_Anaolg/helper.cpp:48-145 | the assembled matrix is square of size `numNodes + numVoltageSources` |
| Stamping.YMatrixNodeBlock | DC_Anaolg/helper.cpp:48-145 | in the node block the assembled matrix is the resistor conductance sum plus the MOSFET small-signal sum |
| Stamping.BeforeVSourcesAuxZero | DC_Anaolg/helper.cpp:52-123 | before the voltage-source loop every aux row and column is zero |
| Stamping.YMatrixAuxiliary | DC_Anaolg/helper.cpp:48-145 | aux row and column `numNodes + k` equal source k's incidence vector: +1 at `n1`, -1 at `n2` (which wins), 0 elsewhere |
| Stamping.YMatrixAuxBlock | DC_Anaolg/helper.cpp:48-145 | the aux-aux block of the assembled matrix is zero |
| Stamping.YMatrixNodeBlockSymmetric | DC_Anaolg/helper.cpp:55-123 | with every `g_m` zero, the node block is symmetric |
| Stamping.YMatrixMixedSymmetric | DC_Anaolg/helper.cpp:126-144 | an auxiliary row and a node column meet in the same value as the mirrored cell |
| Stamping.YMatrixAuxBlockSymmetric | DC_Anaolg/helper.cpp:126-144 | the auxiliary block is symmetric (it is zero) |
| Stamping.YMatrixSymmetric | DC_Anaolg/helper.cpp:48-145 | when every transconductance is zero (e.g. no conducting MOSFET), the assembled matrix is symmetric |
| Stamping.InjectCurrent | DC_Anaolg/helper.cpp:155-161 | one current source adds its value at each non-negative terminal and changes no other entry |
| Stamping.InjectCurrents | DC_Anaolg/helper.cpp:153-162 | the current-source loop keeps the vector length; each entry is its start value plus the currents injected there (`Stamping.InjectCurrentsCells`) |
| Stamping.InjectCurrentsCells | DC_Anaolg/helper.cpp:153-162 | after the current-source loop each entry equals its start value plus the total current injected there |
| Stamping.ClearAux | DC_Anaolg/helper.cpp:165-173 | clearing the aux entries keeps the vector's length |
| Stamping.ClearAuxCells | DC_Anaolg/helper.cpp:165-173 | entries `numNodes .. numNodes + numVoltageSources - 1` become 0; all others are kept |
| Stamping.CurrentVectorSpec | DC_Anaolg/helper.cpp:147-173 | the right-hand side has size `numNodes + numVoltageSources` |
| Stamping.CurrentVectorCells | DC_Anaolg/helper.cpp:147-173 | each node entry of the right-hand side is the total injected current; each aux entry is 0 |
| CircuitModel.Accumulate | DC_Anaolg/helper.cpp:61 | the in-place `+=` on the matrix array matches `Stamping.Add` |
| CircuitModel.Assign | DC_Anaolg/helper.cpp:134 | the in-place assignment on the matrix array matches `Stamping.Put` |
| CircuitModel.AccumulateMosfet | DC_Anaolg/helper.cpp:113-122 | the six guarded in-place updates produce `Stamping.MosfetPattern` |
| CircuitModel.InjectInto | DC_Anaolg/helper.cpp:155-161 | one in-place current injection produces `Stamping.InjectCurrent` |
| CircuitModel.Circuit.constructor | DC_Anaolg/Circuit.h:143-159 | a new circuit has an empty registry and empty matrix and vectors |
| CircuitModel.Circuit.AddNode | DC_Anaolg/helper.cpp:12-20 | changes only `nodes`, exactly as `Registry.AddNode` |
| CircuitModel.Circuit.Lookup | DC_Anaolg/helper.cpp:23 | `nodes[name].index`: returns the pre-call index and inserts the placeholder for a missing name |
| CircuitModel.Circuit.AddVoltageSource | DC_Anaolg/helper.cpp:21-24 | changes only `nodes` and `voltagesources`, exactly as `Registry.AddVoltageSource` |
| CircuitModel.Circuit.AddResistor | DC_Anaolg/helper.cpp:25-28 | changes only `nodes` and `resistors`, exactly as `Registry.AddResistor` |
| CircuitModel.Circuit.AddCapacity | DC_Anaolg/helper.cpp:29-32 | changes only `nodes` and `capacities`, exactly as `Registry.AddCapacity` |
| CircuitModel.Circuit.AddInductor | DC_Anaolg/helper.cpp:33-36 | changes only `nodes` and `inductors`, exactly as `Registry.AddInductor` |
| CircuitModel.Circuit.AddMosfet | DC_Anaolg/helper.cpp:37-40 | changes only `nodes` and `mosfets`, exactly as `Registry.AddMosfet` |
| CircuitModel.Circuit.AddMosfetModel | DC_Anaolg/helper.cpp:41-44 | changes only `mosfetmodels`, exactly as `Registry.AddMosfetModel` |
| CircuitModel.Circuit.StampResistorInto | DC_Anaolg/helper.cpp:56-68 | one resistor iteration on the array produces `Stamping.ResistorStamp` |
| CircuitModel.Circuit.StampMosfetInto | DC_Anaolg/helper.cpp:73-122 | one MOSFET iteration (model lookup, VGS/VDS, region, stamps) on the array produces `Stamping.MosfetStamp` |
| CircuitModel.Circuit.StampVSourceInto | DC_Anaolg/helper.cpp:128-143 | one voltage-source iteration on the array produces `Stamping.VSourceStamp` |
| CircuitModel.Circuit.StampResistorsInto | DC_Anaolg/helper.cpp:55-69 | the resistor loop produces `Stamping.StampResistors` |
| CircuitModel.Circuit.StampMosfetsInto | DC_Anaolg/helper.cpp:72-123 | the MOSFET loop produces `Stamping.StampMosfets` |
| CircuitModel.Circuit.StampVSourcesInto | DC_Anaolg/helper.cpp:126-144 | the voltage-source loop, source k at index `numNodes + k`, produces `Stamping.StampVSources` |
| CircuitModel.Circuit.BuildYMatrix | DC_Anaolg/helper.cpp:48-145 | `buildYMatrix` replaces `YMatrix` with a fresh array holding `Stamping.YMatrixSpec` of the registry and node voltages |
| CircuitModel.Circuit.BuildCurrentVector | DC_Anaolg/helper.cpp:147-173 | `buildCurrentVector` replaces `CurrentVector` with a fresh array holding `Stamping.CurrentVectorSpec` |
| DisjointSet.Root | DC_Anaolg/NetListParser.cpp:24-29 | following parent links ends at a root; `x` is its own root exactly when its parent is itself; a non-root has a smaller rank than its root |
| DisjointSet.CompressKeepsRoots | DC_Anaolg/NetListParser.cpp:26 | pointing `x` straight at its root keeps the forest valid and every element's root |
| DisjointSet.CompressKeepsAllRoots | DC_Anaolg/NetListParser.cpp:26 | path compression at `x` keeps the forest valid and the root of all elements at once |
| DisjointSet.LinkRoots | DC_Anaolg/NetListParser.cpp:38-46 | making root `c` a child of root `a` moves exactly `c`'s set to root `a` |
| DisjointSet.SameRootUnion | DC_Anaolg/NetListParser.cpp:36 | uniting two elements that already share a root changes no root |
| DisjointSet.UnionJoins | DC_Anaolg/NetListParser.cpp:32-49 | after the union, `x` and `y` have the same root |
| DisjointSet.Relink | DC_Anaolg/NetListParser.cpp:38-43 | linking the lower-ranked root under the higher keeps the forest valid and gives every element its root after the union |
| DisjointSet.RelinkTie | DC_Anaolg/NetListParser.cpp:44-47 | on a rank tie, linking `rootY` under `rootX` and raising `rootX`'s rank keeps the forest valid and gives every element its root after the union |
| DisjointSet.UnionFind.constructor | DC_Anaolg/NetListParser.cpp:15-21 | `n` singleton sets: every element is its own parent with rank 0 |
| DisjointSet.UnionFind.Find | DC_Anaolg/NetListParser.cpp:24-29 | returns the root of `x`, points `x` at it, and leaves every element's root unchanged |
| DisjointSet.UnionFind.UnionSet | DC_Anaolg/NetListParser.cpp:32-49 | merges the sets of `x` and `y` under the higher-ranked root (`x`'s on a tie), leaves every other set alone, and raises one rank only on a tie |
| DisjointSet.UnionFind.Link | DC_Anaolg/NetListParser.cpp:36-48 | the linking half of `unionSet`: the same outcome as `UnionSet` once both roots are found |
| DisjointSet.UnionFind.LinkUnder | DC_Anaolg/NetListParser.cpp:38-43 | links the lower-ranked root under the higher; ranks stay unchanged |
| DisjointSet.UnionFind.LinkTie | DC_Anaolg/NetListParser.cpp:44-47 | links `rootY` under `rootX` and raises `rootX`'s rank by exactly 1 |
| NetList.WordLength | DC_Anaolg/NetListParser.cpp:111-112 | the length of the leading run of non-space characters, stopping at the first whitespace |
| NetList.Tokens | DC_Anaolg/NetListParser.cpp:111-112 | `istream_iterator<string>` splitting: every token is non-empty and has no whitespace |
| NetList.NonSpaceAppend | DC_Anaolg/NetListParser.cpp:111-112 | removing the whitespace from a concatenation removes it from each part |
| NetList.NonSpaceOfWord | DC_Anaolg/NetListParser.cpp:111-112 | a word has no whitespace to remove |
| NetList.TokensLoseOnlySpaces | DC_Anaolg/NetListParser.cpp:111-112 | the tokens, joined, are the line with all whitespace removed, so tokenizing loses only whitespace |
| NetList.Skipped | DC_Anaolg/NetListParser.cpp:109-113 | the lines the reader passes over: empty, a `*` comment, or with no tokens; `NetList.LineEffect` states they change nothing |
| NetList.LineDefined | DC_Anaolg/NetListParser.cpp:116-171 | what a line the reader does not skip must provide: at least as many tokens as the branch its first token selects reads (4 for V, R, C, L; 7 for M; 2 for `.MODEL` and `.PLOTNV` with a value after every known key; 3 for `.hb`) |
| NetList.BlankHasNoTokens | DC_Anaolg/NetListParser.cpp:111-113 | an all-whitespace line has no tokens, so the reader skips it |
| NetList.Scan | DC_Anaolg/NetListParser.cpp:151-158 | the value the parameter loop holds for a key once the pairs below an even offset are read: 0 while the key has not appeared (`NetList.ScanAbsent`), else the value after its last occurrence (`NetList.ScanLast`) |
| NetList.ModelValue | DC_Anaolg/NetListParser.cpp:150-158 | the value a `.MODEL` line gives a parameter: 0 when the key is absent (`NetList.ModelValueAbsent`), the value after its last occurrence otherwise (`NetList.ModelValueLast`) |
| NetList.ScanAbsent | DC_Anaolg/NetListParser.cpp:151-158 | a key that never appears at an even offset from 2 keeps its initial 0 |
| NetList.ScanLast | DC_Anaolg/NetListParser.cpp:152-158 | a key takes the value that follows its last occurrence |
| NetList.ModelValueAbsent | DC_Anaolg/NetListParser.cpp:151-158 | a `.MODEL` parameter that is not given is 0 |
| NetList.ModelValueLast | DC_Anaolg/NetListParser.cpp:151-158 | a `.MODEL` parameter given more than once takes the value after its last occurrence |
| NetList.ModelParameters | DC_Anaolg/NetListParser.cpp:150-158 | the pair loop yields, for each of VT, MU, COX, LAMBDA and CJ0, the value `ModelValue` specifies |
| NetList.DeviceEffect | DC_Anaolg/NetListParser.cpp:116-147 | a line whose first letter is V, R, C, L or M adds exactly one device record; any other letter changes nothing; it never touches current sources or models, and keeps every registered name |
| NetList.DeviceEffectCount | DC_Anaolg/NetListParser.cpp:116-147 | the switch adds exactly one device record for a line whose first letter is V, R, C, L or M, and none otherwise |
| NetList.DirectiveEffect | DC_Anaolg/NetListParser.cpp:148-171 | only the node map and the model map can change; `.MODEL` stores the model named by token 1 and keeps the nodes; `.PLOTNV` registers token 1 and keeps the models; any other first token changes nothing |
| NetList.LineEffect | DC_Anaolg/NetListParser.cpp:109-171 | an empty line, a `*` comment or a blank line changes nothing; no line touches the current sources |
| NetList.LineTerminals | DC_Anaolg/NetListParser.cpp:119-144 | a skipped line contributes no node names |
| NetList.ReadDevice | DC_Anaolg/NetListParser.cpp:116-147 | the switch on the first letter, on the circuit object: the registry becomes `DeviceEffect` of the old one, only the node map and the device lists are written, and the returned names are the terminals the branch pushes |
| NetList.ReadDirective | DC_Anaolg/NetListParser.cpp:148-171 | the directive chain, on the circuit object: the registry becomes `DirectiveEffect` of the old one, and only the node map and the model map are written |
| NetList.ReadLine | DC_Anaolg/NetListParser.cpp:109-171 | one loop iteration applies `LineEffect` to the circuit and returns the node names the line pushes; it writes only the registry fields, so the matrix, the right-hand side and the node voltages stay as they were |
| NetList.GroupNames | DC_Anaolg/NetListParser.cpp:70-82 | the first `mapNodes` loop keeps the forest valid and enters every node name into `nodeNameToIndex` |
| NetList.MapNodes | DC_Anaolg/NetListParser.cpp:57-94 | the result is always exactly `[("GND", 0)]` |
| NetList.ParseLines | DC_Anaolg/NetListParser.cpp:107-172 | the reading loop as a fold over the lines in order; it composes line by line (`NetListFacts.ParseLinesAppend`) and keeps the registry invariant (`NetListFacts.ParseKeepsWellFormed`) |
| NetList.TerminalNames | DC_Anaolg/NetListParser.cpp:121-143 | the names the reading loop pushes onto `nodeNames`, line by line; every one is registered once the loop ends (`NetListFacts.TerminalsRegistered`) |
| NetList.AddNodes | DC_Anaolg/NetListParser.cpp:173-177 | registering the `mapNodes` pairs by name, in order, with `addNode` |
| NetList.NetlistSpec | DC_Anaolg/NetListParser.cpp:107-177 | the registry after the reading loop and the registration of `[("GND", 0)]`; it keeps the invariant (`NetListFacts.ParseKeepsWellFormed`) and for a netlist without `.PLOTNV`, gives GND the index `NetListFacts.GroundIndex` states |
| NetList.ParseNetList | DC_Anaolg/NetListParser.cpp:96-179 | reading all lines, then registering the `mapNodes` result, leaves the registry equal to `NetlistSpec`; only the registry fields are written, so the matrix, the right-hand side and the node voltages stay as they were |
| NetListFacts.ParseLinesAppend | DC_Anaolg/NetListParser.cpp:107-172 | reading `a + b` is reading `a` and then `b` |
| NetListFacts.ParseKeepsWellFormed | DC_Anaolg/NetListParser.cpp:107-177 | reading a netlist into a well-formed registry leaves it well-formed, before and after the final GND registration |
| NetListFacts.LineKeepsWellFormed | DC_Anaolg/NetListParser.cpp:109-171 | every line preserves the registry invariant |
| NetListFacts.DeviceKeepsWellFormed | DC_Anaolg/NetListParser.cpp:116-147 | every device line (V, R, C, L, M or other) preserves the registry invariant |
| NetListFacts.DirectiveKeepsWellFormed | DC_Anaolg/NetListParser.cpp:148-171 | `.MODEL`, `.PLOTNV` and other directives preserve the registry invariant |
| NetListFacts.LineRegistersTerminals | DC_Anaolg/NetListParser.cpp:116-164 | every node name a line pushes is registered after that line, and no name is ever unregistered |
| NetListFacts.DeviceRegistersTerminals | DC_Anaolg/NetListParser.cpp:116-147 | the terminal names of a device line are registered after it, and earlier names are kept |
| NetListFacts.TwoTouchesKeep | DC_Anaolg/helper.cpp:23 | two lookups add exactly their two names to the node map |
| NetListFacts.DirectiveKeepsNames | DC_Anaolg/NetListParser.cpp:148-171 | directives never unregister a name |
| NetListFacts.TerminalsRegistered | DC_Anaolg/NetListParser.cpp:107-172 | every name collected in `nodeNames` is registered at the end of the reading loop |
| NetListFacts.ParseKeepsCurrentSources | DC_Anaolg/NetListParser.cpp:107-177 | reading never adds a current source |
| NetListFacts.ParsedRightHandSideZero | DC_Anaolg/NetListParser.cpp:96-179 | for a circuit read from a netlist, every entry of the right-hand side is zero |
| NetListFacts.ParsedMosfetsAreNmos | DC_Anaolg/NetListParser.cpp:139-140 | every MOSFET the reader creates is NMOS |
| NetListFacts.ParseKeepsNmosStep | DC_Anaolg/NetListParser.cpp:109-171 | one line never introduces a PMOS device |
| NetListFacts.DeviceKeepsNmos | DC_Anaolg/NetListParser.cpp:116-147 | no device line introduces a PMOS device |
| NetListFacts.TouchZero | DC_Anaolg/helper.cpp:23 | when every node has index 0, a lookup returns 0 and keeps that so |
| NetListFacts.TwoLookupsZero | DC_Anaolg/helper.cpp:23 | the same for two lookups in a row |
| NetListFacts.AddVoltageSourceIndicesZero | DC_Anaolg/helper.cpp:21-24 | without registered indices, a new voltage source has terminals 0 and 0 |
| NetListFacts.AddResistorIndicesZero | DC_Anaolg/helper.cpp:25-28 | without registered indices, a new resistor has terminals 0 and 0 |
| NetListFacts.AddCapacityIndicesZero | DC_Anaolg/helper.cpp:29-32 | without registered indices, a new capacitor has terminals 0 and 0 |
| NetListFacts.AddInductorIndicesZero | DC_Anaolg/helper.cpp:33-36 | without registered indices, a new inductor has terminals 0 and 0 |
| NetListFacts.AddMosfetIndicesZero | DC_Anaolg/helper.cpp:37-40 | without registered indices, a new MOSFET has drain, gate and source 0 |
| NetListFacts.LineIndicesZero | DC_Anaolg/NetListParser.cpp:109-171 | a line other than `.PLOTNV` keeps every node and terminal index at 0 |
| NetListFacts.DeviceIndicesZero | DC_Anaolg/NetListParser.cpp:116-147 | a device line keeps every node and terminal index at 0 |
| NetListFacts.WithoutPlotAllIndicesZero | DC_Anaolg/NetListParser.cpp:107-172 | a netlist without `.PLOTNV` lines gives every device terminal index 0 |
| NetListFacts.ReadNodesZero | DC_Anaolg/NetListParser.cpp:107-172 | a netlist without `.PLOTNV` lines leaves every registered node at index 0 after the reading loop |
| NetListFacts.AddGroundIndex | DC_Anaolg/NetListParser.cpp:173-177 | registering GND last gives it index 0 if a device named it, and the node count otherwise |
| NetListFacts.GroundIndex | DC_Anaolg/NetListParser.cpp:173-177 | for a netlist without `.PLOTNV`, GND is registered with index 0 if a device named it, and with the node count otherwise |

## Left out

- File handling: opening the file, the "failed to open" error path, `getline` and `close`. A netlist is the sequence of its lines.
- `stod`: it is the parameter `num`. Its exceptions on malformed numbers are not modelled.
- Console output: the `cerr` messages for unknown components and missing models, and the `.hb` line's `cout` report. The `.hb` branch changes no state.
- `solve`, `computeCurrentsAndPowers`, `printNodeVoltages` and `printCurrentsAndPowers`. They are declared in `Circuit.h`, but their code is not part of this model.
- The controlled sources (VCVS, CCVS, VCCS, CCCS): they are declared but never filled or stamped.
- Floating point: doubles are exact reals, so rounding, infinities and NaN are not modelled.
- The MOSFET loop's model lookup, `find_if`, does not type-check as written (its predicate takes a model, the map yields key-value pairs). The model uses the evident intent, a key lookup; each stored model's `mosID` equals its key.
- `NodeVoltage` is set outside this core. The stamp reads whatever the `nodeVoltage` array holds.
- The commented-out controlled-source contributions in `buildCurrentVector`, the command-line driver, and `test.cpp` (an Eigen demonstration) are not part of this model.
- Out-of-range accesses are undefined behaviour in the source. The model excludes them by precondition and does not give them a meaning:
  - `NetList.LineDefined`: a line must carry the tokens its branch indexes.
  - `Stamping.AssemblyDefined`: terminal indices must lie below the matrix size, resistances must be non-zero, the node vector must cover the MOSFET terminals, and conducting MOSFETs must have non-zero length.
  - `Stamping.CSourcesFit`: the same bound for current sources.
- Capacitors and inductors are recorded but never stamped, as in the source.
- The voltage-source values are not placed in the right-hand side, as in the source.
- NetList.GroupNames: states that every name is entered and the forest stays valid. It does not state the map's values (the first index of each name) or which sets were merged; `MapNodes` does not depend on either.
- Stamping.SmallSignalOf: states only the off region and non-negativity (`Stamping.SmallSignalNonNegative`). The saturation and triode formulas are stated by its definition, which `CircuitModel.Circuit.StampMosfetInto` evaluates directly.
- NetList.LineTerminals: states only that a skipped line contributes no names. That the names are registered is stated by `NetListFacts.LineRegistersTerminals`.
