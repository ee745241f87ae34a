/**
 * The netlist reader of NetListParser.cpp: whitespace tokenization of each line,
 * the dispatch on the first token, the `.MODEL` parameter scan, the node
 * canonicalizer `mapNodes` and the final registration of the mapped nodes.
 *
 * The file is given as its sequence of lines, and the text-to-double
 * conversion `stod` as a function parameter `num`. `ParseLines` and
 * `NetlistSpec` say on values what reading the lines does to a circuit.
 */
module NetList {
  import opened CircuitTypes
  import Registry
  import opened Stamping
  import opened DisjointSet
  import opened CircuitModel

  // ---------------------------------------------------------------- tokens

  /** The characters `>>` into a string skips: space, tab, newline, vertical tab, form feed, carriage return. */
  predicate IsSpace(c: char) {
    c == ' ' || c == '\t' || c == '\n' || c == '\r' || c as int == 11 || c as int == 12
  }

  predicate IsWord(t: string) {
    |t| > 0 && forall i :: 0 <= i < |t| ==> !IsSpace(t[i])
  }

  /** The length of the run of non-space characters that starts `s`. */
  function WordLength(s: string): (n: nat)
    ensures n <= |s|
    ensures forall i :: 0 <= i < n ==> !IsSpace(s[i])
    ensures n < |s| ==> IsSpace(s[n])
  {
    if s == [] || IsSpace(s[0]) then 0 else 1 + WordLength(s[1..])
  }

  /** The tokens an `istream_iterator<string>` reads from `s`: its maximal runs of non-space characters. */
  function Tokens(s: string): (ts: seq<string>)
    ensures forall k :: 0 <= k < |ts| ==> IsWord(ts[k])
    decreases |s|
  {
    if s == [] then []
    else if IsSpace(s[0]) then Tokens(s[1..])
    else
      var n := WordLength(s);
      [s[..n]] + Tokens(s[n..])
  }

  /** The characters of `s` that are not spaces, in order. */
  function NonSpace(s: string): string
    decreases |s|
  {
    if s == [] then [] else (if IsSpace(s[0]) then [] else [s[0]]) + NonSpace(s[1..])
  }

  function Concat(ts: seq<string>): string
    decreases |ts|
  {
    if ts == [] then [] else ts[0] + Concat(ts[1..])
  }

  lemma {:induction false} NonSpaceAppend(a: string, b: string)
    ensures NonSpace(a + b) == NonSpace(a) + NonSpace(b)
    decreases |a|
  {
    if a != [] {
      assert (a + b)[1..] == a[1..] + b;
      NonSpaceAppend(a[1..], b);
    } else {
      assert a + b == b;
    }
  }

  lemma {:induction false} NonSpaceOfWord(t: string)
    requires forall i :: 0 <= i < |t| ==> !IsSpace(t[i])
    ensures NonSpace(t) == t
    decreases |t|
  {
    if t != [] {
      NonSpaceOfWord(t[1..]);
      assert [t[0]] + t[1..] == t;
    }
  }

  /** Tokenizing loses nothing but whitespace: the tokens, put together, are the non-space characters of the line. */
  lemma {:induction false} TokensLoseOnlySpaces(s: string)
    ensures Concat(Tokens(s)) == NonSpace(s)
    decreases |s|
  {
    if s != [] {
      if IsSpace(s[0]) {
        TokensLoseOnlySpaces(s[1..]);
      } else {
        var n := WordLength(s);
        var ts := [s[..n]] + Tokens(s[n..]);
        assert ts[1..] == Tokens(s[n..]);
        TokensLoseOnlySpaces(s[n..]);
        assert s == s[..n] + s[n..];
        NonSpaceAppend(s[..n], s[n..]);
        NonSpaceOfWord(s[..n]);
      }
    }
  }

  /** A line that is nothing but whitespace has no tokens. */
  lemma {:induction false} BlankHasNoTokens(s: string)
    requires forall i :: 0 <= i < |s| ==> IsSpace(s[i])
    ensures Tokens(s) == []
    decreases |s|
  {
    if s != [] {
      BlankHasNoTokens(s[1..]);
    }
  }

  // ---------------------------------------------------------------- one line

  /** Lines the reader passes over: empty, a `*` comment, or without tokens. */
  predicate Skipped(line: string) {
    |line| == 0 || line[0] == '*' || Tokens(line) == []
  }

  /** The pairs of a `.MODEL` line start at token 2; a known key must be followed by its value. */
  predicate IsModelKey(t: string) {
    t == "VT" || t == "MU" || t == "COX" || t == "LAMBDA" || t == "CJ0"
  }

  predicate KeyOffset(ts: seq<string>, i: int) {
    2 <= i < |ts| && i % 2 == 0
  }

  predicate ModelPairsComplete(ts: seq<string>) {
    forall i :: 2 <= i < |ts| && i % 2 == 0 && IsModelKey(ts[i]) ==> i + 1 < |ts|
  }

  /**
   * What the reader demands of a line it does not skip: as many tokens as the
   * branch taken indexes (reading past the end is undefined in the source).
   */
  predicate LineDefined(line: string) {
    !Skipped(line) ==>
      var ts := Tokens(line);
      && (ts[0][0] in "VRCL" ==> |ts| >= 4)
      && (ts[0][0] == 'M' ==> |ts| >= 7)
      && (ts[0] == ".MODEL" ==> |ts| >= 2 && ModelPairsComplete(ts))
      && (ts[0] == ".PLOTNV" ==> |ts| >= 2)
      && (ts[0] == ".hb" ==> |ts| >= 3)
  }

  /** The loop variable's value once the `.MODEL` scan stops: the first 2 + 2k that is at least |ts|. */
  function ScanEnd(ts: seq<string>): int {
    if |ts| <= 2 then 2 else if |ts| % 2 == 0 then |ts| else |ts| + 1
  }

  /** The value the scan holds for `key` once the pairs at offsets 2, 4, ..., below `i` are read. */
  function Scan(ts: seq<string>, key: string, i: int, num: string -> real): real
    requires IsModelKey(key) && ModelPairsComplete(ts)
    requires 2 <= i <= ScanEnd(ts) && i % 2 == 0
    decreases i
  {
    if i == 2 then 0.0
    else if ts[i - 2] == key then num(ts[i - 1])
    else Scan(ts, key, i - 2, num)
  }

  /** A `.MODEL` parameter as the line sets it. */
  function ModelValue(ts: seq<string>, key: string, num: string -> real): real
    requires IsModelKey(key) && ModelPairsComplete(ts)
  {
    Scan(ts, key, ScanEnd(ts), num)
  }

  lemma {:induction false} ScanAbsent(ts: seq<string>, key: string, i: int, num: string -> real)
    requires IsModelKey(key) && ModelPairsComplete(ts)
    requires 2 <= i <= ScanEnd(ts) && i % 2 == 0
    requires forall j :: KeyOffset(ts, j) && j < i ==> ts[j] != key
    ensures Scan(ts, key, i, num) == 0.0
    decreases i
  {
    if i > 2 {
      ScanAbsent(ts, key, i - 2, num);
    }
  }

  lemma {:induction false} ScanLast(ts: seq<string>, key: string, i: int, j: int, num: string -> real)
    requires IsModelKey(key) && ModelPairsComplete(ts)
    requires 2 <= i <= ScanEnd(ts) && i % 2 == 0
    requires KeyOffset(ts, j) && j < i && ts[j] == key
    requires forall j' :: KeyOffset(ts, j') && j < j' < i ==> ts[j'] != key
    ensures Scan(ts, key, i, num) == num(ts[j + 1])
    decreases i
  {
    if i - 2 != j {
      ScanLast(ts, key, i - 2, j, num);
    }
  }

  /** A parameter the line never names stays 0. */
  lemma ModelValueAbsent(ts: seq<string>, key: string, num: string -> real)
    requires IsModelKey(key) && ModelPairsComplete(ts)
    requires forall j :: KeyOffset(ts, j) ==> ts[j] != key
    ensures ModelValue(ts, key, num) == 0.0
  {
    ScanAbsent(ts, key, ScanEnd(ts), num);
  }

  /** A parameter named more than once takes the value after its last occurrence. */
  lemma ModelValueLast(ts: seq<string>, key: string, j: int, num: string -> real)
    requires IsModelKey(key) && ModelPairsComplete(ts)
    requires KeyOffset(ts, j) && ts[j] == key
    requires forall j' :: KeyOffset(ts, j') && j' > j ==> ts[j'] != key
    ensures ModelValue(ts, key, num) == num(ts[j + 1])
  {
    ScanLast(ts, key, ScanEnd(ts), j, num);
  }

  /** The `.MODEL` parameter loop. */
  method ModelParameters(ts: seq<string>, num: string -> real) returns (vt: real, mu: real, cox: real, lam: real, cj0: real)
    requires ModelPairsComplete(ts)
    ensures vt == ModelValue(ts, "VT", num) && mu == ModelValue(ts, "MU", num)
    ensures cox == ModelValue(ts, "COX", num) && lam == ModelValue(ts, "LAMBDA", num)
    ensures cj0 == ModelValue(ts, "CJ0", num)
  {
    vt, mu, cox, lam, cj0 := 0.0, 0.0, 0.0, 0.0, 0.0;
    var i := 2;
    while i < |ts|
      invariant 2 <= i <= ScanEnd(ts) && i % 2 == 0
      invariant vt == Scan(ts, "VT", i, num) && mu == Scan(ts, "MU", i, num)
      invariant cox == Scan(ts, "COX", i, num) && lam == Scan(ts, "LAMBDA", i, num)
      invariant cj0 == Scan(ts, "CJ0", i, num)
      decreases |ts| - i
    {
      if ts[i] == "VT" {
        vt := num(ts[i + 1]);
      } else if ts[i] == "MU" {
        mu := num(ts[i + 1]);
      } else if ts[i] == "COX" {
        cox := num(ts[i + 1]);
      } else if ts[i] == "LAMBDA" {
        lam := num(ts[i + 1]);
      } else if ts[i] == "CJ0" {
        cj0 := num(ts[i + 1]);
      }
      i := i + 2;
    }
  }

  /** The device a line adds, chosen by the first character of its first token. */
  function DeviceEffect(s: CircuitState, ts: seq<string>, num: string -> real): (r: CircuitState)
    requires |ts| > 0 && IsWord(ts[0])
    requires ts[0][0] in "VRCL" ==> |ts| >= 4
    requires ts[0][0] == 'M' ==> |ts| >= 7
    ensures r.currentSources == s.currentSources && r.mosfetModels == s.mosfetModels
    ensures s.nodes.Keys <= r.nodes.Keys
    ensures ts[0][0] !in "VRCLM" ==> r == s
  {
    match ts[0][0]
    case 'V' => Registry.AddVoltageSource(s, ts[0], ts[1], ts[2], num(ts[3]))
    case 'R' => Registry.AddResistor(s, ts[0], ts[1], ts[2], num(ts[3]))
    case 'C' => Registry.AddCapacity(s, ts[0], ts[1], ts[2], num(ts[3]))
    case 'L' => Registry.AddInductor(s, ts[0], ts[1], ts[2], num(ts[3]))
    case 'M' => Registry.AddMosfet(s, ts[0], ts[1], ts[2], ts[3], ts[4], num(ts[5]), num(ts[6]))
    case _ => s
  }

  /** A device line adds exactly one device record; any other line adds none. */
  lemma DeviceEffectCount(s: CircuitState, ts: seq<string>, num: string -> real)
    requires |ts| > 0 && IsWord(ts[0])
    requires ts[0][0] in "VRCL" ==> |ts| >= 4
    requires ts[0][0] == 'M' ==> |ts| >= 7
    ensures Registry.DeviceCount(DeviceEffect(s, ts, num)) == Registry.DeviceCount(s) + (if ts[0][0] in "VRCLM" then 1 else 0)
  {
    var r := DeviceEffect(s, ts, num);
    match ts[0][0]
    case 'V' =>
      assert |r.voltageSources| == |s.voltageSources| + 1;
      assert r.resistors == s.resistors && r.capacities == s.capacities && r.inductors == s.inductors && r.mosfets == s.mosfets;
    case 'R' =>
      assert |r.resistors| == |s.resistors| + 1;
      assert r.voltageSources == s.voltageSources && r.capacities == s.capacities && r.inductors == s.inductors && r.mosfets == s.mosfets;
    case 'C' =>
      assert |r.capacities| == |s.capacities| + 1;
      assert r.voltageSources == s.voltageSources && r.resistors == s.resistors && r.inductors == s.inductors && r.mosfets == s.mosfets;
    case 'L' =>
      assert |r.inductors| == |s.inductors| + 1;
      assert r.voltageSources == s.voltageSources && r.resistors == s.resistors && r.capacities == s.capacities && r.mosfets == s.mosfets;
    case 'M' =>
      assert |r.mosfets| == |s.mosfets| + 1;
      assert r.voltageSources == s.voltageSources && r.resistors == s.resistors && r.capacities == s.capacities && r.inductors == s.inductors;
    case _ =>
  }

  /** The directive a line carries, matched on its whole first token. */
  function DirectiveEffect(s: CircuitState, ts: seq<string>, num: string -> real): (r: CircuitState)
    requires |ts| > 0
    requires ts[0] == ".MODEL" ==> |ts| >= 2 && ModelPairsComplete(ts)
    requires ts[0] == ".PLOTNV" ==> |ts| >= 2
    ensures r.(nodes := s.nodes, mosfetModels := s.mosfetModels) == s
    ensures ts[0] == ".MODEL" ==> r.nodes == s.nodes && ts[1] in r.mosfetModels
    ensures ts[0] == ".PLOTNV" ==> r.mosfetModels == s.mosfetModels && r.nodes.Keys == s.nodes.Keys + {ts[1]}
    ensures ts[0] != ".MODEL" && ts[0] != ".PLOTNV" ==> r == s
  {
    if ts[0] == ".MODEL" then
      Registry.AddMosfetModel(s, ts[1], ModelValue(ts, "VT", num), ModelValue(ts, "MU", num),
                              ModelValue(ts, "COX", num), ModelValue(ts, "LAMBDA", num), ModelValue(ts, "CJ0", num))
    else if ts[0] == ".PLOTNV" then Registry.AddNode(s, ts[1])
    else s
  }

  /** What reading one line does to the registry: its device (if any), then its directive (if any). */
  function LineEffect(s: CircuitState, line: string, num: string -> real): (r: CircuitState)
    requires LineDefined(line)
    ensures Skipped(line) ==> r == s
    ensures r.currentSources == s.currentSources
  {
    if Skipped(line) then s
    else
      var ts := Tokens(line);
      DirectiveEffect(DeviceEffect(s, ts, num), ts, num)
  }

  /** The node names one line contributes to the list `mapNodes` receives. */
  function LineTerminals(line: string): (names: seq<string>)
    requires LineDefined(line)
    ensures Skipped(line) ==> names == []
  {
    if Skipped(line) then []
    else
      var ts := Tokens(line);
      if ts[0][0] in "VRCL" then [ts[1], ts[2]]
      else if ts[0][0] == 'M' then [ts[1], ts[2], ts[3]]
      else []
  }

  /** The `switch` on the first character of a line's first token: add the device it names. */
  method ReadDevice(circuit: Circuit, tokens: seq<string>, num: string -> real) returns (terminals: seq<string>)
    requires |tokens| > 0 && IsWord(tokens[0])
    requires tokens[0][0] in "VRCL" ==> |tokens| >= 4
    requires tokens[0][0] == 'M' ==> |tokens| >= 7
    modifies circuit`nodes, circuit`voltageSources, circuit`resistors, circuit`capacities, circuit`inductors, circuit`mosfets
    ensures circuit.State() == DeviceEffect(old(circuit.State()), tokens, num)
    ensures terminals == (if tokens[0][0] in "VRCL" then [tokens[1], tokens[2]]
                          else if tokens[0][0] == 'M' then [tokens[1], tokens[2], tokens[3]]
                          else [])
  {
    terminals := [];
    match tokens[0][0] {
      case 'V' =>
        circuit.AddVoltageSource(tokens[0], tokens[1], tokens[2], num(tokens[3]));
        terminals := [tokens[1], tokens[2]];
      case 'R' =>
        circuit.AddResistor(tokens[0], tokens[1], tokens[2], num(tokens[3]));
        terminals := [tokens[1], tokens[2]];
      case 'C' =>
        circuit.AddCapacity(tokens[0], tokens[1], tokens[2], num(tokens[3]));
        terminals := [tokens[1], tokens[2]];
      case 'L' =>
        circuit.AddInductor(tokens[0], tokens[1], tokens[2], num(tokens[3]));
        terminals := [tokens[1], tokens[2]];
      case 'M' =>
        circuit.AddMosfet(tokens[0], tokens[1], tokens[2], tokens[3], tokens[4], num(tokens[5]), num(tokens[6]));
        terminals := [tokens[1], tokens[2], tokens[3]];
      case _ =>
    }
  }

  /** The `if` chain on a line's whole first token: store a `.MODEL`, register a `.PLOTNV` node. */
  method ReadDirective(circuit: Circuit, tokens: seq<string>, num: string -> real)
    requires |tokens| > 0
    requires tokens[0] == ".MODEL" ==> |tokens| >= 2 && ModelPairsComplete(tokens)
    requires tokens[0] == ".PLOTNV" ==> |tokens| >= 2
    modifies circuit`nodes, circuit`mosfetModels
    ensures circuit.State() == DirectiveEffect(old(circuit.State()), tokens, num)
  {
    if tokens[0] == ".MODEL" {
      var modelID := tokens[1];
      var vt, mu, cox, lam, cj0 := ModelParameters(tokens, num);
      circuit.AddMosfetModel(modelID, vt, mu, cox, lam, cj0);
    } else if tokens[0] == ".PLOTNV" {
      circuit.AddNode(tokens[1]);
    }
  }

  /** One iteration of the reading loop; returns the names to append to `nodeNames`. */
  method ReadLine(circuit: Circuit, line: string, num: string -> real) returns (terminals: seq<string>)
    requires LineDefined(line)
    modifies circuit`nodes, circuit`voltageSources, circuit`resistors, circuit`capacities, circuit`inductors, circuit`mosfets, circuit`mosfetModels
    ensures circuit.State() == LineEffect(old(circuit.State()), line, num)
    ensures terminals == LineTerminals(line)
  {
    terminals := [];
    if |line| == 0 || line[0] == '*' {
      return;
    }
    var tokens := Tokens(line);
    if tokens == [] {
      return;
    }
    terminals := ReadDevice(circuit, tokens, num);
    ReadDirective(circuit, tokens, num);
  }

  // ---------------------------------------------------------------- all lines

  predicate LinesDefined(lines: seq<string>) {
    forall k :: 0 <= k < |lines| ==> LineDefined(lines[k])
  }

  /** The registry after the reading loop: line effects applied in file order. */
  function ParseLines(s: CircuitState, lines: seq<string>, num: string -> real): (r: CircuitState)
    requires LinesDefined(lines)
    decreases |lines|
  {
    if lines == [] then s else LineEffect(ParseLines(s, lines[..|lines| - 1], num), lines[|lines| - 1], num)
  }

  /** The names the reading loop collects, in order. */
  function TerminalNames(lines: seq<string>): seq<string>
    requires LinesDefined(lines)
    decreases |lines|
  {
    if lines == [] then [] else TerminalNames(lines[..|lines| - 1]) + LineTerminals(lines[|lines| - 1])
  }

  /** Registration of every name of a `mapNodes` result, in order. */
  function AddNodes(s: CircuitState, mapped: seq<(string, int)>): CircuitState
    decreases |mapped|
  {
    if mapped == [] then s else Registry.AddNode(AddNodes(s, mapped[..|mapped| - 1]), mapped[|mapped| - 1].0)
  }

  /** The registry after `NetListParser`: the lines, then the one name `mapNodes` returns. */
  function NetlistSpec(s: CircuitState, lines: seq<string>, num: string -> real): CircuitState
    requires LinesDefined(lines)
  {
    AddNodes(ParseLines(s, lines, num), [("GND", 0)])
  }

  // ---------------------------------------------------------------- mapNodes

  /**
   * The first loop of `mapNodes`: a name seen before is united with the
   * position it was first seen at (ground counts as seen at 0), a new name is
   * entered with its own position. Afterwards every name is in the table.
   */
  method GroupNames(uf: UnionFind, nodeNames: seq<string>) returns (nodeNameToIndex: map<string, int>)
    requires uf.Valid() && uf.parent.Length == |nodeNames|
    modifies uf.parent, uf.rank, uf`bound
    ensures uf.Valid() && uf.parent.Length == |nodeNames|
    ensures forall j :: 0 <= j < |nodeNames| ==> nodeNames[j] in nodeNameToIndex
  {
    nodeNameToIndex := map["GND" := 0];
    for i := 0 to |nodeNames|
      invariant uf.Valid() && uf.parent.Length == |nodeNames|
      invariant forall k :: k in nodeNameToIndex ==> 0 <= nodeNameToIndex[k] && (nodeNameToIndex[k] == 0 || nodeNameToIndex[k] < i)
      invariant forall j :: 0 <= j < i ==> nodeNames[j] in nodeNameToIndex
    {
      var nodeName := nodeNames[i];
      if nodeName in nodeNameToIndex {
        uf.UnionSet(i, nodeNameToIndex[nodeName]);
      } else {
        nodeNameToIndex := nodeNameToIndex[nodeName := i];
      }
    }
  }

  /**
   * `mapNodes(nodeNames)`. Its first loop enters every name into
   * `nodeNameToIndex`, so the second loop never finds an unmapped root name
   * and the result is always the ground entry alone.
   */
  method MapNodes(nodeNames: seq<string>) returns (result: seq<(string, int)>)
    ensures result == [("GND", 0)]
  {
    var uf := new UnionFind(|nodeNames|);
    var nextIndex := 1;
    result := [("GND", 0)];
    var nodeNameToIndex := GroupNames(uf, nodeNames);

    for i := 0 to |nodeNames|
      invariant fresh(uf.parent) && fresh(uf.rank)
      invariant uf.Valid() && uf.parent.Length == |nodeNames|
      invariant forall j :: 0 <= j < |nodeNames| ==> nodeNames[j] in nodeNameToIndex
      invariant result == [("GND", 0)]
    {
      var root := uf.Find(i);
      var rootName := nodeNames[root];
      if rootName !in nodeNameToIndex {
        result := result + [(rootName, nextIndex)];
        nextIndex := nextIndex + 1;
        nodeNameToIndex := nodeNameToIndex[rootName := nextIndex - 1];
      }
    }
  }

  // ---------------------------------------------------------------- NetListParser

  /** `NetListParser` with the file given as its lines: read every line, map the collected names, register them. */
  method ParseNetList(lines: seq<string>, circuit: Circuit, num: string -> real)
    requires LinesDefined(lines)
    modifies circuit`nodes, circuit`voltageSources, circuit`resistors, circuit`capacities, circuit`inductors, circuit`mosfets, circuit`mosfetModels
    ensures circuit.State() == NetlistSpec(old(circuit.State()), lines, num)
  {
    var nodeNames: seq<string> := [];
    for k := 0 to |lines|
      invariant circuit.State() == ParseLines(old(circuit.State()), lines[..k], num)
      invariant nodeNames == TerminalNames(lines[..k])
    {
      assert lines[..k + 1][..k] == lines[..k];
      var terminals := ReadLine(circuit, lines[k], num);
      nodeNames := nodeNames + terminals;
    }
    assert lines[..|lines|] == lines;
    ghost var afterLines := circuit.State();
    var mappedNodes := MapNodes(nodeNames);
    for k := 0 to |mappedNodes|
      invariant circuit.State() == AddNodes(afterLines, mappedNodes[..k])
    {
      assert mappedNodes[..k + 1][..k] == mappedNodes[..k];
      circuit.AddNode(mappedNodes[k].0);
    }
    assert mappedNodes[..|mappedNodes|] == mappedNodes;
  }
}

/**
 * What reading a netlist guarantees, including behaviour the source's comments
 * do not announce: the list of lines is processed one at a time, every collected name
 * ends up registered, no current source is ever created, every MOSFET is an
 * NMOS, and without `.PLOTNV` lines every index that is handed out is 0.
 */
module NetListFacts {
  import opened CircuitTypes
  import Registry
  import opened Stamping
  import opened NetList

  /** Reading `a` and then `b` is reading `a + b`. */
  lemma {:induction false} ParseLinesAppend(s: CircuitState, a: seq<string>, b: seq<string>, num: string -> real)
    requires LinesDefined(a) && LinesDefined(b)
    ensures LinesDefined(a + b)
    ensures ParseLines(s, a + b, num) == ParseLines(ParseLines(s, a, num), b, num)
    decreases |b|
  {
    assert LinesDefined(a + b) by {
      forall k | 0 <= k < |a + b| ensures LineDefined((a + b)[k]) {
        if k >= |a| {
          assert (a + b)[k] == b[k - |a|];
        }
      }
    }
    if b == [] {
      assert a + b == a;
    } else {
      var b0 := b[..|b| - 1];
      assert (a + b)[..|a + b| - 1] == a + b0;
      assert (a + b)[|a + b| - 1] == b[|b| - 1];
      ParseLinesAppend(s, a, b0, num);
    }
  }

  /** Reading keeps the registry invariant: every index a device holds refers to a registered node. */
  lemma {:induction false} ParseKeepsWellFormed(s: CircuitState, lines: seq<string>, num: string -> real)
    requires LinesDefined(lines) && Registry.WellFormed(s)
    ensures Registry.WellFormed(ParseLines(s, lines, num))
    ensures Registry.WellFormed(NetlistSpec(s, lines, num))
    decreases |lines|
  {
    if lines != [] {
      ParseKeepsWellFormed(s, lines[..|lines| - 1], num);
      LineKeepsWellFormed(ParseLines(s, lines[..|lines| - 1], num), lines[|lines| - 1], num);
    }
    Registry.AddNodeKeepsWellFormed(ParseLines(s, lines, num), "GND");
  }

  lemma LineKeepsWellFormed(s: CircuitState, line: string, num: string -> real)
    requires LineDefined(line) && Registry.WellFormed(s)
    ensures Registry.WellFormed(LineEffect(s, line, num))
  {
    if !Skipped(line) {
      var ts := Tokens(line);
      DeviceKeepsWellFormed(s, ts, num);
      DirectiveKeepsWellFormed(DeviceEffect(s, ts, num), ts, num);
    }
  }

  lemma DeviceKeepsWellFormed(s: CircuitState, ts: seq<string>, num: string -> real)
    requires |ts| > 0 && IsWord(ts[0])
    requires ts[0][0] in "VRCL" ==> |ts| >= 4
    requires ts[0][0] == 'M' ==> |ts| >= 7
    requires Registry.WellFormed(s)
    ensures Registry.WellFormed(DeviceEffect(s, ts, num))
  {
    match ts[0][0]
    case 'V' => Registry.AddVoltageSourceKeepsWellFormed(s, ts[0], ts[1], ts[2], num(ts[3]));
    case 'R' => Registry.AddResistorKeepsWellFormed(s, ts[0], ts[1], ts[2], num(ts[3]));
    case 'C' => Registry.AddCapacityKeepsWellFormed(s, ts[0], ts[1], ts[2], num(ts[3]));
    case 'L' => Registry.AddInductorKeepsWellFormed(s, ts[0], ts[1], ts[2], num(ts[3]));
    case 'M' => Registry.AddMosfetKeepsWellFormed(s, ts[0], ts[1], ts[2], ts[3], ts[4], num(ts[5]), num(ts[6]));
    case _ =>
  }

  lemma DirectiveKeepsWellFormed(s: CircuitState, ts: seq<string>, num: string -> real)
    requires |ts| > 0
    requires ts[0] == ".MODEL" ==> |ts| >= 2 && ModelPairsComplete(ts)
    requires ts[0] == ".PLOTNV" ==> |ts| >= 2
    requires Registry.WellFormed(s)
    ensures Registry.WellFormed(DirectiveEffect(s, ts, num))
  {
    if ts[0] == ".MODEL" {
      Registry.AddMosfetModelKeepsWellFormed(s, ts[1], ModelValue(ts, "VT", num), ModelValue(ts, "MU", num),
                                             ModelValue(ts, "COX", num), ModelValue(ts, "LAMBDA", num), ModelValue(ts, "CJ0", num));
    } else if ts[0] == ".PLOTNV" {
      Registry.AddNodeKeepsWellFormed(s, ts[1]);
    }
  }

  /** A device line registers (at least) its terminal names; a directive never drops a name. */
  lemma LineRegistersTerminals(s: CircuitState, line: string, num: string -> real)
    requires LineDefined(line)
    ensures s.nodes.Keys <= LineEffect(s, line, num).nodes.Keys
    ensures forall k :: 0 <= k < |LineTerminals(line)| ==> LineTerminals(line)[k] in LineEffect(s, line, num).nodes
  {
    if !Skipped(line) {
      var ts := Tokens(line);
      var mid := DeviceEffect(s, ts, num);
      DeviceRegistersTerminals(s, ts, num);
      DirectiveKeepsNames(mid, ts, num);
    }
  }

  lemma DeviceRegistersTerminals(s: CircuitState, ts: seq<string>, num: string -> real)
    requires |ts| > 0 && IsWord(ts[0])
    requires ts[0][0] in "VRCL" ==> |ts| >= 4
    requires ts[0][0] == 'M' ==> |ts| >= 7
    ensures s.nodes.Keys <= DeviceEffect(s, ts, num).nodes.Keys
    ensures ts[0][0] in "VRCL" ==> ts[1] in DeviceEffect(s, ts, num).nodes && ts[2] in DeviceEffect(s, ts, num).nodes
    ensures ts[0][0] == 'M' ==> {ts[1], ts[2], ts[3]} <= DeviceEffect(s, ts, num).nodes.Keys
  {
    var r := DeviceEffect(s, ts, num);
    match ts[0][0]
    case 'V' => TwoTouchesKeep(s.nodes, ts[1], ts[2]);
    case 'R' => TwoTouchesKeep(s.nodes, ts[1], ts[2]);
    case 'C' => TwoTouchesKeep(s.nodes, ts[1], ts[2]);
    case 'L' => TwoTouchesKeep(s.nodes, ts[1], ts[2]);
    case 'M' =>
      TwoTouchesKeep(s.nodes, ts[1], ts[2]);
      assert r.nodes == Registry.Touch(Registry.Touch(Registry.Touch(s.nodes, ts[1]), ts[2]), ts[3]);
    case _ => assert r == s;
  }

  /** Two lookups in a row keep every key and add both names. */
  lemma TwoTouchesKeep(nodes: map<string, Node>, a: string, b: string)
    ensures Registry.Touch(Registry.Touch(nodes, a), b).Keys == nodes.Keys + {a, b}
  {
  }

  lemma DirectiveKeepsNames(s: CircuitState, ts: seq<string>, num: string -> real)
    requires |ts| > 0
    requires ts[0] == ".MODEL" ==> |ts| >= 2 && ModelPairsComplete(ts)
    requires ts[0] == ".PLOTNV" ==> |ts| >= 2
    ensures s.nodes.Keys <= DirectiveEffect(s, ts, num).nodes.Keys
  {
  }

  /** Every name a device line mentions is a key of the node map afterwards. */
  lemma {:induction false} TerminalsRegistered(s: CircuitState, lines: seq<string>, num: string -> real)
    requires LinesDefined(lines)
    ensures forall k :: 0 <= k < |TerminalNames(lines)| ==> TerminalNames(lines)[k] in ParseLines(s, lines, num).nodes
    ensures s.nodes.Keys <= ParseLines(s, lines, num).nodes.Keys
    decreases |lines|
  {
    if lines != [] {
      var init := lines[..|lines| - 1];
      var line := lines[|lines| - 1];
      TerminalsRegistered(s, init, num);
      var before := ParseLines(s, init, num);
      LineRegistersTerminals(before, line, num);
      assert TerminalNames(lines) == TerminalNames(init) + LineTerminals(line);
    }
  }

  /** The reader never creates a current source. */
  lemma {:induction false} ParseKeepsCurrentSources(s: CircuitState, lines: seq<string>, num: string -> real)
    requires LinesDefined(lines)
    ensures NetlistSpec(s, lines, num).currentSources == s.currentSources
    ensures ParseLines(s, lines, num).currentSources == s.currentSources
    decreases |lines|
  {
    if lines != [] {
      ParseKeepsCurrentSources(s, lines[..|lines| - 1], num);
    }
  }

  /** So the right-hand side assembled for a netlist read into a new circuit is zero everywhere. */
  lemma ParsedRightHandSideZero(lines: seq<string>, num: string -> real, i: int)
    requires LinesDefined(lines)
    requires 0 <= i < |NetlistSpec(EmptyCircuit(), lines, num).nodes| + |NetlistSpec(EmptyCircuit(), lines, num).voltageSources|
    ensures CSourcesFit(NetlistSpec(EmptyCircuit(), lines, num).currentSources,
                        |NetlistSpec(EmptyCircuit(), lines, num).nodes| + |NetlistSpec(EmptyCircuit(), lines, num).voltageSources|)
    ensures CurrentVectorSpec(NetlistSpec(EmptyCircuit(), lines, num))[i] == 0.0
  {
    var c := NetlistSpec(EmptyCircuit(), lines, num);
    ParseKeepsCurrentSources(EmptyCircuit(), lines, num);
    CurrentVectorCells(c, i);
  }

  predicate AllNmos(s: CircuitState) {
    forall k :: 0 <= k < |s.mosfets| ==> !s.mosfets[k].isPMOS
  }

  /** The reader only ever creates NMOS devices. */
  lemma {:induction false} ParsedMosfetsAreNmos(s: CircuitState, lines: seq<string>, num: string -> real)
    requires LinesDefined(lines) && AllNmos(s)
    ensures AllNmos(ParseLines(s, lines, num)) && AllNmos(NetlistSpec(s, lines, num))
    decreases |lines|
  {
    if lines != [] {
      ParsedMosfetsAreNmos(s, lines[..|lines| - 1], num);
      ParseKeepsNmosStep(ParseLines(s, lines[..|lines| - 1], num), lines[|lines| - 1], num);
    }
  }

  lemma ParseKeepsNmosStep(s: CircuitState, line: string, num: string -> real)
    requires LineDefined(line) && AllNmos(s)
    ensures AllNmos(LineEffect(s, line, num))
  {
    if !Skipped(line) {
      var ts := Tokens(line);
      DeviceKeepsNmos(s, ts, num);
    }
  }

  lemma DeviceKeepsNmos(s: CircuitState, ts: seq<string>, num: string -> real)
    requires |ts| > 0 && IsWord(ts[0])
    requires ts[0][0] in "VRCL" ==> |ts| >= 4
    requires ts[0][0] == 'M' ==> |ts| >= 7
    requires AllNmos(s)
    ensures AllNmos(DeviceEffect(s, ts, num))
  {
    var r := DeviceEffect(s, ts, num);
    match ts[0][0]
    case 'V' => assert r.mosfets == s.mosfets;
    case 'R' => assert r.mosfets == s.mosfets;
    case 'C' => assert r.mosfets == s.mosfets;
    case 'L' => assert r.mosfets == s.mosfets;
    case 'M' =>
      var added := Mosfet(ts[0], Registry.IndexOf(s.nodes, ts[1]), Registry.IndexOf(s.nodes, ts[2]),
                          Registry.IndexOf(s.nodes, ts[3]), ts[4], num(ts[5]), num(ts[6]), false);
      assert r.mosfets == s.mosfets + [added];
    case _ => assert r == s;
  }

  /** A `.PLOTNV` line: the only way the reader registers a node with a fresh index before the end. */
  predicate IsPlotLine(line: string) {
    !Skipped(line) && Tokens(line)[0] == ".PLOTNV"
  }

  /** Every registered node has index 0. */
  predicate NodesZero(nodes: map<string, Node>) {
    forall k :: k in nodes ==> nodes[k].index == 0
  }

  /** Every registered node and every device terminal has index 0 (the only index in [0, 1)). */
  predicate IndicesZero(s: CircuitState) {
    NodesZero(s.nodes) && Registry.DevicesWithin(s, 1)
  }

  lemma TouchZero(nodes: map<string, Node>, name: string)
    requires NodesZero(nodes)
    ensures NodesZero(Registry.Touch(nodes, name))
    ensures Registry.IndexOf(nodes, name) == 0
  {
  }

  lemma LineIndicesZero(s: CircuitState, line: string, num: string -> real)
    requires LineDefined(line) && IndicesZero(s) && !IsPlotLine(line)
    ensures IndicesZero(LineEffect(s, line, num))
  {
    if !Skipped(line) {
      var ts := Tokens(line);
      DeviceIndicesZero(s, ts, num);
    }
  }

  lemma DeviceIndicesZero(s: CircuitState, ts: seq<string>, num: string -> real)
    requires |ts| > 0 && IsWord(ts[0])
    requires ts[0][0] in "VRCL" ==> |ts| >= 4
    requires ts[0][0] == 'M' ==> |ts| >= 7
    requires IndicesZero(s)
    ensures IndicesZero(DeviceEffect(s, ts, num))
  {
    match ts[0][0]
    case 'V' => AddVoltageSourceIndicesZero(s, ts[0], ts[1], ts[2], num(ts[3]));
    case 'R' => AddResistorIndicesZero(s, ts[0], ts[1], ts[2], num(ts[3]));
    case 'C' => AddCapacityIndicesZero(s, ts[0], ts[1], ts[2], num(ts[3]));
    case 'L' => AddInductorIndicesZero(s, ts[0], ts[1], ts[2], num(ts[3]));
    case 'M' => AddMosfetIndicesZero(s, ts[0], ts[1], ts[2], ts[3], ts[4], num(ts[5]), num(ts[6]));
    case _ =>
  }

  lemma AddVoltageSourceIndicesZero(s: CircuitState, name: string, a: string, b: string, value: real)
    requires IndicesZero(s)
    ensures IndicesZero(Registry.AddVoltageSource(s, name, a, b, value))
  {
    TwoLookupsZero(s.nodes, a, b);
    Registry.AddVoltageSourceWithin(s, name, a, b, value, 1);
  }

  lemma AddResistorIndicesZero(s: CircuitState, name: string, a: string, b: string, value: real)
    requires IndicesZero(s)
    ensures IndicesZero(Registry.AddResistor(s, name, a, b, value))
  {
    TwoLookupsZero(s.nodes, a, b);
    Registry.AddResistorWithin(s, name, a, b, value, 1);
  }

  lemma AddCapacityIndicesZero(s: CircuitState, name: string, a: string, b: string, value: real)
    requires IndicesZero(s)
    ensures IndicesZero(Registry.AddCapacity(s, name, a, b, value))
  {
    TwoLookupsZero(s.nodes, a, b);
    Registry.AddCapacityWithin(s, name, a, b, value, 1);
  }

  lemma AddInductorIndicesZero(s: CircuitState, name: string, a: string, b: string, value: real)
    requires IndicesZero(s)
    ensures IndicesZero(Registry.AddInductor(s, name, a, b, value))
  {
    TwoLookupsZero(s.nodes, a, b);
    Registry.AddInductorWithin(s, name, a, b, value, 1);
  }

  lemma AddMosfetIndicesZero(s: CircuitState, name: string, nd: string, ng: string, ns: string,
                             modelID: string, width: real, length: real)
    requires IndicesZero(s)
    ensures IndicesZero(Registry.AddMosfet(s, name, nd, ng, ns, modelID, width, length))
  {
    TwoLookupsZero(s.nodes, nd, ng);
    TouchZero(Registry.Touch(Registry.Touch(s.nodes, nd), ng), ns);
    TouchZero(s.nodes, ns);
    Registry.AddMosfetWithin(s, name, nd, ng, ns, modelID, width, length, 1);
  }

  lemma TwoLookupsZero(nodes: map<string, Node>, a: string, b: string)
    requires NodesZero(nodes)
    ensures NodesZero(Registry.Touch(Registry.Touch(nodes, a), b))
    ensures Registry.IndexOf(nodes, a) == 0 && Registry.IndexOf(nodes, b) == 0
  {
    TouchZero(nodes, a);
    TouchZero(nodes, b);
    TouchZero(Registry.Touch(nodes, a), b);
  }

  /**
   * Device lines resolve their names before any node is registered, so without
   * `.PLOTNV` lines every node and every terminal the reader creates has index 0.
   */
  lemma {:induction false} WithoutPlotAllIndicesZero(s: CircuitState, lines: seq<string>, num: string -> real)
    requires LinesDefined(lines) && IndicesZero(s)
    requires forall k :: 0 <= k < |lines| ==> !IsPlotLine(lines[k])
    ensures IndicesZero(ParseLines(s, lines, num))
    decreases |lines|
  {
    if lines != [] {
      WithoutPlotAllIndicesZero(s, lines[..|lines| - 1], num);
      LineIndicesZero(ParseLines(s, lines[..|lines| - 1], num), lines[|lines| - 1], num);
    }
  }

  /**
   * Ground is registered last: it keeps index 0 when a device line mentioned
   * it, and otherwise gets the next index, the number of names read so far.
   */
  lemma GroundIndex(lines: seq<string>, num: string -> real)
    requires LinesDefined(lines)
    requires forall k :: 0 <= k < |lines| ==> !IsPlotLine(lines[k])
    ensures var read := ParseLines(EmptyCircuit(), lines, num);
            var final := NetlistSpec(EmptyCircuit(), lines, num);
            "GND" in final.nodes && final.nodes["GND"].index == if "GND" in read.nodes then 0 else |read.nodes|
  {
    ReadNodesZero(lines, num);
    AddGroundIndex(ParseLines(EmptyCircuit(), lines, num));
  }

  lemma ReadNodesZero(lines: seq<string>, num: string -> real)
    requires LinesDefined(lines)
    requires forall k :: 0 <= k < |lines| ==> !IsPlotLine(lines[k])
    ensures NodesZero(ParseLines(EmptyCircuit(), lines, num).nodes)
  {
    assert IndicesZero(EmptyCircuit());
    WithoutPlotAllIndicesZero(EmptyCircuit(), lines, num);
  }

  lemma AddGroundIndex(p: CircuitState)
    requires NodesZero(p.nodes)
    ensures "GND" in AddNodes(p, [("GND", 0)]).nodes
    ensures AddNodes(p, [("GND", 0)]).nodes["GND"].index == if "GND" in p.nodes then 0 else |p.nodes|
  {
    assert AddNodes(p, []) == p;
    assert AddNodes(p, [("GND", 0)]) == Registry.AddNode(p, "GND");
  }
}
