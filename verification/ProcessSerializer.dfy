/** Carrying a configured process from the server to a worker as plain data.
    A parameter value is what the script sees: a scalar, nothing, a list, or an object without a length.
    The JSON wire turns numbers that are not finite, and missing values, into null. */
module ProcessSerializer {
  import opened Wrappers

  datatype Number = Finite(value: real) | NotFinite

  datatype Value =
    | Num(n: Number)
    | Bool(b: bool)
    | Str(s: string)
    | Undefined
    | Null
    | List(items: seq<Value>)
    | Opaque

  type Params = map<string, Value>

  datatype Description = Description(id: string, params: Params)

  datatype Error =
    | NotDistributable
    | NoDescription
    | NotAllowed
    | WrongProcess
    | UnknownParameter(name: string)
    | MustBeTable(name: string)
    | MustBeScalar(name: string)

  const ALLOWLIST := {"StarAlignment", "ImageCalibration", "LocalNormalization", "ImageIntegration", "DrizzleIntegration"}

  predicate IsScalar(v: Value) {
    v.Num? || v.Bool? || v.Str?
  }

  /** The same scalar type. */
  predicate SameScalar(v: Value, def: Value) {
    (v.Num? && def.Num?) || (v.Bool? && def.Bool?) || (v.Str? && def.Str?)
  }

  // ---- plain copies ----

  function Letters(s: string): (cells: seq<Value>)
    ensures |cells| == |s| && forall k | 0 <= k < |s| :: cells[k] == Str([s[k]])
  {
    seq(|s|, k requires 0 <= k < |s| => Str([s[k]]))
  }

  /** The cells of a row. A string has a length and characters, so it counts as a row of one-letter cells. */
  function RowCells(r: Value): Option<seq<Value>> {
    match r
    case List(cells) => if forall k | 0 <= k < |cells| :: IsScalar(cells[k]) then Some(cells) else None
    case Str(s) => Some(Letters(s))
    case _ => None
  }

  /** A plain copy: scalars as they are, tables as lists of lists of scalars, nothing else. */
  function PlainValue(v: Value): Option<Value> {
    if IsScalar(v) then Some(v)
    else if v.List? then
      var rows := PlainRows(v.items);
      if rows.Some? then Some(List(rows.value)) else None
    else None
  }

  function PlainRows(items: seq<Value>): Option<seq<Value>> {
    if items == [] then Some([])
    else
      var (rest, cells) := (PlainRows(items[..|items| - 1]), RowCells(items[|items| - 1]));
      if rest.Some? && cells.Some? then Some(rest.value + [List(cells.value)]) else None
  }

  lemma {:induction false} PlainRowsAre(items: seq<Value>)
    ensures PlainRows(items).Some? <==> forall k | 0 <= k < |items| :: RowCells(items[k]).Some?
    ensures PlainRows(items).Some? ==>
              var rows := PlainRows(items).value;
              |rows| == |items| && forall k | 0 <= k < |items| :: rows[k] == List(RowCells(items[k]).value)
  {
    if items != [] {
      var before := items[..|items| - 1];
      PlainRowsAre(before);
      assert forall k | 0 <= k < |before| :: items[k] == before[k];
      if PlainRows(items).Some? {
        assert PlainRows(before).Some? && RowCells(items[|items| - 1]).Some?;
      }
    }
  }

  /** The loops of the plain copy. */
  method CopyPlain(v: Value) returns (r: Option<Value>)
    ensures r == PlainValue(v)
  {
    if IsScalar(v) {
      return Some(v);
    }
    if !v.List? {
      return None;
    }
    var rows: seq<Value> := [];
    for i := 0 to |v.items|
      invariant PlainRows(v.items[..i]) == Some(rows)
    {
      assert v.items[..i + 1][..i] == v.items[..i];
      var row := CopyRow(v.items[i]);
      if row.None? {
        PlainRowsAre(v.items);
        return None;
      }
      rows := rows + [List(row.value)];
    }
    assert v.items[..|v.items|] == v.items;
    r := Some(List(rows));
  }

  method CopyRow(r: Value) returns (cells: Option<seq<Value>>)
    ensures cells == RowCells(r)
  {
    match r {
      case List(items) =>
        var row: seq<Value> := [];
        for j := 0 to |items|
          invariant row == items[..j] && forall k | 0 <= k < j :: IsScalar(items[k])
        {
          if !IsScalar(items[j]) {
            return None;
          }
          row := row + [items[j]];
        }
        assert items[..|items|] == items;
        cells := Some(row);
      case Str(s) =>
        var row: seq<Value> := [];
        for j := 0 to |s|
          invariant |row| == j && forall k | 0 <= k < j :: row[k] == Str([s[k]])
        {
          row := row + [Str([s[j]])];
        }
        assert row == Letters(s);
        cells := Some(row);
      case _ =>
        cells := None;
    }
  }

  // ---- the wire ----

  function WireCell(c: Value): Value {
    match c
    case Num(NotFinite) => Null
    case Undefined => Null
    case _ => c
  }

  function WireCells(cells: seq<Value>): (r: seq<Value>)
    ensures |r| == |cells| && forall k | 0 <= k < |cells| :: r[k] == WireCell(cells[k])
  {
    seq(|cells|, k requires 0 <= k < |cells| => WireCell(cells[k]))
  }

  function WireRow(r: Value): Value {
    if r.List? then List(WireCells(r.items)) else WireCell(r)
  }

  /** A scalar or a table after a trip through JSON text. */
  function Wire(v: Value): Value {
    if v.List? then List(seq(|v.items|, k requires 0 <= k < |v.items| => WireRow(v.items[k]))) else WireCell(v)
  }

  function Transmit(d: Description): Description {
    Description(d.id, map n | n in d.params :: Wire(d.params[n]))
  }

  /** A finite scalar. */
  predicate IsPortableCell(c: Value) {
    (c.Num? && c.n.Finite?) || c.Bool? || c.Str?
  }

  predicate IsPortableRow(r: Value) {
    r.List? && forall k | 0 <= k < |r.items| :: IsPortableCell(r.items[k])
  }

  /** A finite scalar, or a table whose rows are lists of finite scalars. */
  predicate IsPortable(v: Value) {
    IsPortableCell(v) || (v.List? && forall k | 0 <= k < |v.items| :: IsPortableRow(v.items[k]))
  }

  lemma PortableRowsSurvive(r: Value)
    requires RowCells(r).Some?
    ensures WireRow(List(RowCells(r).value)) == r <==> IsPortableRow(r)
  {
    var sent := List(RowCells(r).value);
    if r.List? {
      assert WireRow(sent) == r <==> forall k | 0 <= k < |r.items| :: WireCell(r.items[k]) == r.items[k];
    }
  }

  /** Exactly the portable values arrive as they were: not a table with a string for a row, and nothing
      with a number that is not finite. */
  lemma PortableValuesSurvive(v: Value)
    ensures PlainValue(v).Some? && Wire(PlainValue(v).value) == v <==> IsPortable(v)
  {
    if v.List? {
      PlainRowsAre(v.items);
      forall k | 0 <= k < |v.items|
        ensures RowCells(v.items[k]).Some? && WireRow(List(RowCells(v.items[k]).value)) == v.items[k]
                <==> IsPortableRow(v.items[k])
      {
        if RowCells(v.items[k]).Some? {
          PortableRowsSurvive(v.items[k]);
        }
      }
      if PlainValue(v).Some? {
        var sent := PlainValue(v).value;
        assert Wire(sent).items == v.items <==> forall k | 0 <= k < |v.items| :: WireRow(sent.items[k]) == v.items[k];
      }
    }
  }

  // ---- the server's side ----

  /** A live process: its id, and the value of every parameter it exposes. */
  class Process {
    const id: string
    var params: Params

    constructor (id: string, params: Params)
      ensures this.id == id && this.params == params
    {
      this.id, this.params := id, params;
    }

    method Assign(name: string, v: Value)
      modifies this
      ensures params == old(params)[name := v]
    {
      params := params[name := v];
    }
  }

  /** The description sent for a process with these parameters. */
  function Described(params: Params): Params {
    map n | n in params && PlainValue(params[n]).Some? :: PlainValue(params[n]).value
  }

  /** `names` lists the parameters in the order of the source listing. */
  method SerializeProcess(p: Process, names: seq<string>) returns (r: Result<Description, Error>)
    requires forall n | n in names :: n in p.params
    requires forall n | n in p.params :: n in names
    ensures r == if p.id in ALLOWLIST then Ok(Description(p.id, Described(p.params))) else Err(NotDistributable)
  {
    if p.id !in ALLOWLIST {
      return Err(NotDistributable);
    }
    var params: Params := map[];
    for i := 0 to |names|
      invariant params == map n | n in Described(p.params) && n in names[..i] :: Described(p.params)[n]
    {
      var v := CopyPlain(p.params[names[i]]);
      assert forall n | n in names[..i + 1] :: n in names[..i] || n == names[i];
      if v.Some? {
        params := params[names[i] := v.value];
      }
    }
    assert names[..|names|] == names;
    assert params == Described(p.params);
    r := Ok(Description(p.id, params));
  }

  // ---- the worker's side ----

  /** A received value may replace this default. */
  predicate Fits(def: Value, v: Value) {
    if IsScalar(def) then SameScalar(v, def) else PlainValue(v).Some? && !IsScalar(v)
  }

  /** The whole description is accepted. */
  ghost predicate Accepts(defaults: map<string, Params>, d: Description, expected: Option<string>) {
    && d.id in ALLOWLIST && d.id in defaults && (expected.Some? ==> expected.value == d.id)
    && forall n | n in d.params :: n in defaults[d.id] && Fits(defaults[d.id][n], d.params[n])
  }

  /** Builds the process a description asks for: parameters are checked and assigned one by one, in any
      order, and the first that does not fit rejects the job. */
  method DeserializeProcess(defaults: map<string, Params>, data: Option<Description>, expected: Option<string>)
    returns (r: Result<Process, Error>)
    requires ALLOWLIST <= defaults.Keys
    ensures r.Ok? <==> data.Some? && Accepts(defaults, data.value, expected)
    ensures r.Ok? ==>
              && fresh(r.value) && r.value.id == data.value.id
              && r.value.params == defaults[data.value.id] + data.value.params
    ensures data.None? ==> r == Err(NoDescription)
    ensures data.Some? && data.value.id !in ALLOWLIST ==> r == Err(NotAllowed)
    ensures data.Some? && data.value.id in ALLOWLIST && expected.Some? && expected.value != data.value.id ==>
              r == Err(WrongProcess)
    ensures r.Err? && r.error.UnknownParameter? ==>
              r.error.name in data.value.params && r.error.name !in defaults[data.value.id]
    ensures r.Err? && (r.error.MustBeTable? || r.error.MustBeScalar?) ==>
              var (n, def) := (r.error.name, defaults[data.value.id]);
              n in data.value.params && n in def && !Fits(def[n], data.value.params[n])
              && (r.error.MustBeScalar? <==> IsScalar(def[n]))
  {
    if data.None? {
      return Err(NoDescription);
    }
    var d := data.value;
    if d.id !in ALLOWLIST {
      return Err(NotAllowed);
    }
    if expected.Some? && d.id != expected.value {
      return Err(WrongProcess);
    }
    var p := new Process(d.id, defaults[d.id]);
    var names := d.params.Keys;
    while names != {}
      invariant names <= d.params.Keys && fresh(p) && p.id == d.id
      invariant AllFit(defaults[d.id], d.params, names)
      invariant p.params == Assigned(defaults[d.id], d.params, names)
      decreases names
    {
      var name :| name in names;
      if name !in defaults[d.id] {
        return Err(UnknownParameter(name));
      }
      AssignedOneMore(defaults[d.id], d.params, names, name);
      var v, def := d.params[name], p.params[name];
      if !IsScalar(def) {
        var plain := CopyPlain(v);
        if plain.None? || IsScalar(v) {
          return Err(MustBeTable(name));
        }
      } else if !SameScalar(v, def) {
        return Err(MustBeScalar(name));
      }
      p.Assign(name, v);
      names := names - {name};
    }
    assert d.params == map n | n in d.params && n !in names :: d.params[n];
    r := Ok(p);
  }

  /** Every value outside `rest` fits its default. */
  ghost predicate AllFit(def: Params, params: Params, rest: set<string>) {
    forall n | n in params && n !in rest :: n in def && Fits(def[n], params[n])
  }

  /** The defaults with every value outside `rest` assigned. */
  function Assigned(def: Params, params: Params, rest: set<string>): Params {
    def + (map n | n in params && n !in rest :: params[n])
  }

  lemma AssignedOneMore(def: Params, params: Params, rest: set<string>, name: string)
    requires name in rest && name in params && name in def
    ensures name in Assigned(def, params, rest) && Assigned(def, params, rest)[name] == def[name]
    ensures Assigned(def, params, rest - {name}) == Assigned(def, params, rest)[name := params[name]]
  {
  }

  /** A table: a list of rows, each a list of numbers, booleans and strings, or a string. */
  predicate IsTable(v: Value) {
    v.List? && forall r | r in v.items ::
      r.Str? || (r.List? && forall c | c in r.items :: c.Num? || c.Bool? || c.Str?)
  }

  lemma TablesHavePlainCopies(v: Value)
    ensures PlainValue(v).Some? <==> v.Num? || v.Bool? || v.Str? || IsTable(v)
  {
    if v.List? {
      PlainRowsAre(v.items);
      forall k | 0 <= k < |v.items|
        ensures RowCells(v.items[k]).Some? <==>
                v.items[k].Str? || (v.items[k].List? && forall c | c in v.items[k].items :: c.Num? || c.Bool? || c.Str?)
      {
      }
    }
  }

  /** An accepted description changes known parameters only, to values of the default's kind: a number for a
      number, a boolean for a boolean, a string for a string, a table for anything else; every other
      parameter keeps its default. And it is refused for no other reason. */
  lemma AcceptedKeepsKinds(defaults: map<string, Params>, d: Description, expected: Option<string>)
    requires d.id in ALLOWLIST && d.id in defaults
    ensures Accepts(defaults, d, expected) <==>
            && (expected == None || expected == Some(d.id))
            && forall n | n in d.params :: n in defaults[d.id] && KeepsKind(defaults[d.id][n], d.params[n])
    ensures Accepts(defaults, d, expected) ==> (defaults[d.id] + d.params).Keys == defaults[d.id].Keys
  {
    forall n | n in d.params && n in defaults[d.id]
      ensures Fits(defaults[d.id][n], d.params[n]) <==> KeepsKind(defaults[d.id][n], d.params[n])
    {
      TablesHavePlainCopies(d.params[n]);
    }
    if Accepts(defaults, d, expected) {
      assert d.params.Keys <= defaults[d.id].Keys;
      assert (defaults[d.id] + d.params).Keys == defaults[d.id].Keys + d.params.Keys;
    }
  }

  predicate KeepsKind(def: Value, v: Value) {
    match def
    case Num(_) => v.Num?
    case Bool(_) => v.Bool?
    case Str(_) => v.Str?
    case _ => IsTable(v)
  }

  /** Five processes may run on a worker. */
  lemma FiveProcessesAllowed(id: string)
    ensures id in ALLOWLIST <==> id == "StarAlignment" || id == "ImageCalibration" || id == "LocalNormalization"
                                 || id == "ImageIntegration" || id == "DrizzleIntegration"
  {
  }

  /** This parameter value reaches the worker: it is portable and of the default's kind, or it has no plain
      copy at all and equals the default anyway. */
  predicate Reaches(def: Value, v: Value) {
    if IsPortable(v) then Fits(def, v) else PlainValue(v).None? && v == def
  }

  /** The round trip, for every allowlisted process: the worker accepts the description and rebuilds every
      parameter as it was, if and only if every parameter value reaches the worker. */
  lemma RoundTrip(defaults: map<string, Params>, id: string, params: Params)
    requires id in ALLOWLIST && ALLOWLIST <= defaults.Keys && params.Keys == defaults[id].Keys
    ensures var sent := Transmit(Description(id, Described(params)));
            Accepts(defaults, sent, Some(id)) && defaults[id] + sent.params == params
            <==> forall n | n in params :: Reaches(defaults[id][n], params[n])
  {
    var def, sent := defaults[id], Transmit(Description(id, Described(params)));
    forall n | n in params
      ensures Reaches(def[n], params[n]) <==>
              (n in sent.params ==> Fits(def[n], sent.params[n])) && (def + sent.params)[n] == params[n]
    {
      OneParameter(def, params, n);
    }
    assert (def + sent.params).Keys == params.Keys;
    if forall n | n in params :: Reaches(def[n], params[n]) {
      assert def + sent.params == params;
    }
  }

  lemma OneParameter(def: Params, params: Params, n: string)
    requires n in params && n in def
    ensures var sent := Transmit(Description("", Described(params))).params;
            Reaches(def[n], params[n]) <==>
            (n in sent ==> Fits(def[n], sent[n])) && (def + sent)[n] == params[n]
  {
    PortableValuesSurvive(params[n]);
  }

  predicate SameKind(def: Value, v: Value) {
    match v
    case Num(_) => def.Num?
    case Bool(_) => def.Bool?
    case Str(_) => def.Str?
    case _ => !def.Num? && !def.Bool? && !def.Str?
  }

  /** In particular: finite scalars of the default's type and tables of finite scalar rows all arrive. */
  lemma FiniteProcessesSurvive(defaults: map<string, Params>, id: string, params: Params)
    requires id in ALLOWLIST && ALLOWLIST <= defaults.Keys && params.Keys == defaults[id].Keys
    requires forall n | n in params :: IsPortable(params[n]) && SameKind(defaults[id][n], params[n])
    ensures Accepts(defaults, Transmit(Description(id, Described(params))), Some(id))
    ensures defaults[id] + Transmit(Description(id, Described(params))).params == params
  {
    forall n | n in params ensures Reaches(defaults[id][n], params[n]) {
      PortableValuesSurvive(params[n]);
    }
    RoundTrip(defaults, id, params);
  }

  predicate RowHoldsNotFinite(r: Value) {
    r.List? && Num(NotFinite) in r.items
  }

  /** A number that is not finite, by itself or in a cell of a table. */
  predicate HoldsNotFinite(v: Value) {
    v == Num(NotFinite) || (v.List? && exists k | 0 <= k < |v.items| :: RowHoldsNotFinite(v.items[k]))
  }

  lemma NotARowAnyMore(cells: seq<Value>)
    requires Num(NotFinite) in cells
    ensures RowCells(WireRow(List(cells))) == None
  {
    var j :| 0 <= j < |cells| && cells[j] == Num(NotFinite);
    assert WireCells(cells)[j] == Null;
  }

  lemma NotFiniteNeverFits(def: Value, v: Value)
    requires PlainValue(v).Some? && HoldsNotFinite(v)
    ensures !Fits(def, Wire(PlainValue(v).value))
  {
    if v.List? {
      PlainRowsAre(v.items);
      var sent := PlainValue(v).value;
      var k :| 0 <= k < |v.items| && RowHoldsNotFinite(v.items[k]);
      var got := Wire(sent).items;
      NotARowAnyMore(v.items[k].items);
      assert sent.items[k] == v.items[k] && got[k] == WireRow(v.items[k]);
      PlainRowsAre(got);
    }
  }

  /** A number that is not finite turns the whole job away, whatever the worker's defaults are: it arrives as
      null, which is neither a scalar nor a cell. */
  lemma NotFiniteRejectsJob(defaults: map<string, Params>, id: string, params: Params, n: string,
                            expected: Option<string>)
    requires n in params && PlainValue(params[n]).Some? && HoldsNotFinite(params[n])
    ensures !Accepts(defaults, Transmit(Description(id, Described(params))), expected)
  {
    var sent := Transmit(Description(id, Described(params)));
    assert n in sent.params && sent.params[n] == Wire(PlainValue(params[n]).value);
    if id in defaults && n in defaults[id] {
      NotFiniteNeverFits(defaults[id][n], params[n]);
    }
  }

  /** A table with a string for a row does not arrive as it was: the worker gets a row of letters. */
  lemma StringRowBecomesLetters()
    ensures var v := List([Str("ab")]);
            PlainValue(v).Some? && Wire(PlainValue(v).value) == List([List([Str("a"), Str("b")])])
  {
    var v := List([Str("ab")]);
    PlainRowsAre(v.items);
    assert Letters("ab") == [Str("a"), Str("b")];
    assert WireCells(Letters("ab")) == Letters("ab");
    var rows := PlainRows(v.items).value;
    assert rows == [List(Letters("ab"))];
    assert Wire(List(rows)).items == [List(Letters("ab"))];
  }
}
