/** The function registry of calculator.py: the callables that `globals()` makes
    visible, each with the ordered parameter list that `inspect.signature` reports,
    and the insertion-ordered parameter table (a Python dict) that `row1funcs`
    records for a function column. */
module Registry {

  datatype Option<+T> = None | Some(value: T)

  /** A declared default: `Empty` stands for `inspect._empty`, the marker a
      signature gives a parameter without one. */
  datatype Default = Empty | Value(v: string)

  /** A formal parameter: its name and its default. */
  datatype Param = Param(name: string, default: Default)

  type Signature = seq<Param>

  /** Function name -> ordered parameter list. */
  type Registry = map<string, Signature>

  predicate IsIdentChar(c: char) {
    'a' <= c <= 'z' || 'A' <= c <= 'Z' || '0' <= c <= '9' || c == '_'
  }

  /** A non-empty name made of ASCII letters, digits and '_'. It is narrower than
      Python's identifiers in allowing only ASCII, and broader in allowing a leading
      digit. What matters here is that such a name holds no parenthesis, comma, quote
      or '='. */
  predicate IsIdentifier(s: string) {
    |s| > 0 && forall i :: 0 <= i < |s| ==> IsIdentChar(s[i])
  }

  predicate DistinctNames(sig: Signature) {
    forall i, j :: 0 <= i < j < |sig| ==> sig[i].name != sig[j].name
  }

  /** What the model asks of a registry: function and parameter names as above,
      and no parameter named twice (Python itself forbids that). Every name in
      calculator.py meets it (ModuleRegistryWellFormed). */
  predicate WellFormed(reg: Registry) {
    forall f :: f in reg ==>
      IsIdentifier(f) &&
      (forall j :: 0 <= j < |reg[f]| ==> IsIdentifier(reg[f][j].name)) &&
      DistinctNames(reg[f])
  }

  /** The parameter names of a signature, in signature order. */
  function Names(sig: Signature): (ns: seq<string>)
    ensures |ns| == |sig|
    ensures forall j :: 0 <= j < |sig| ==> ns[j] == sig[j].name
  {
    if sig == [] then [] else [sig[0].name] + Names(sig[1..])
  }

  /** The value `row1funcs` records for a default: None (Python's `None`) for a
      parameter without one, the default itself otherwise (calculator.py:82-85). */
  function RecordedValue(d: Default): Option<string> {
    match d
    case Empty => None
    case Value(v) => Some(v)
  }

  /** One key/value pair of a parameter table. */
  datatype Entry = Entry(key: string, value: Option<string>)

  /** A Python dict from parameter name to recorded default, in insertion order. */
  type ParamTable = seq<Entry>

  function KeysOf(t: ParamTable): (ks: seq<string>)
    ensures |ks| == |t|
    ensures forall i :: 0 <= i < |t| ==> ks[i] == t[i].key
  {
    if t == [] then [] else [t[0].key] + KeysOf(t[1..])
  }

  /** `t[k] = v` on a dict: an existing key keeps its position and takes the new
      value, a new key goes at the end. */
  function Put(t: ParamTable, k: string, v: Option<string>): (r: ParamTable)
    ensures (forall i :: 0 <= i < |t| ==> t[i].key != k) ==> r == t + [Entry(k, v)]
    ensures forall i :: 0 <= i < |t| && t[i].key == k && (forall j :: 0 <= j < i ==> t[j].key != k) ==>
      r == t[i := Entry(k, v)]
  {
    if t == [] then [Entry(k, v)]
    else if t[0].key == k then [Entry(k, v)] + t[1..]
    else [t[0]] + Put(t[1..], k, v)
  }

  /** `t.get(k)`: Some(the recorded value) of the first entry with key k, None when k is absent. */
  function Lookup(t: ParamTable, k: string): (r: Option<Option<string>>)
    ensures r == None <==> forall i :: 0 <= i < |t| ==> t[i].key != k
    ensures forall i :: 0 <= i < |t| && t[i].key == k && (forall j :: 0 <= j < i ==> t[j].key != k) ==>
      r == Some(t[i].value)
  {
    if t == [] then None
    else if t[0].key == k then Some(t[0].value)
    else Lookup(t[1..], k)
  }

  /** The table `row1funcs` builds for one function: starting from `{}`, one
      assignment `fargs[coldex][pname] = default-or-None` per parameter, in
      signature order (calculator.py:76-85). */
  function Recorded(sig: Signature): ParamTable
  {
    if sig == [] then []
    else
      var p := sig[|sig| - 1];
      Put(Recorded(sig[..|sig| - 1]), p.name, RecordedValue(p.default))
  }

  /** The recorded table holds exactly one entry per parameter, in signature order,
      mapping it to its default or to None. */
  lemma {:induction false} RecordedEntries(sig: Signature)
    requires DistinctNames(sig)
    ensures |Recorded(sig)| == |sig|
    ensures forall j :: 0 <= j < |sig| ==> Recorded(sig)[j] == Entry(sig[j].name, RecordedValue(sig[j].default))
  {
    if sig != [] {
      var init := sig[..|sig| - 1];
      var p := sig[|sig| - 1];
      assert DistinctNames(init);
      RecordedEntries(init);
      var t := Recorded(init);
      forall i | 0 <= i < |t| ensures t[i].key != p.name {
        assert t[i].key == init[i].name == sig[i].name;
      }
      assert Recorded(sig) == t + [Entry(p.name, RecordedValue(p.default))];
      forall j | 0 <= j < |sig|
        ensures Recorded(sig)[j] == Entry(sig[j].name, RecordedValue(sig[j].default))
      {
        if j < |init| {
          assert init[j] == sig[j];
        }
      }
    }
  }

  /** The keys of the recorded table, in iteration order, are the parameter names in
      signature order. */
  lemma RecordedKeys(sig: Signature)
    requires DistinctNames(sig)
    ensures KeysOf(Recorded(sig)) == Names(sig)
  {
    RecordedEntries(sig);
  }

  /** Looking a parameter up in the recorded table gives its default, or None when it
      has none; a name that is no parameter is absent. */
  lemma RecordedLookup(sig: Signature, k: string)
    requires DistinctNames(sig)
    ensures forall j :: 0 <= j < |sig| && sig[j].name == k && sig[j].default == Empty ==>
      Lookup(Recorded(sig), k) == Some(None)
    ensures forall j :: 0 <= j < |sig| && sig[j].name == k && sig[j].default.Value? ==>
      Lookup(Recorded(sig), k) == Some(Some(sig[j].default.v))
    ensures (forall j :: 0 <= j < |sig| ==> sig[j].name != k) ==> Lookup(Recorded(sig), k) == None
  {
    RecordedEntries(sig);
    var t := Recorded(sig);
    forall j | 0 <= j < |sig| && sig[j].name == k
      ensures Lookup(t, k) == Some(RecordedValue(sig[j].default))
    {
      assert t[j].key == k;
      forall i | 0 <= i < j ensures t[i].key != k {
        assert t[i].key == sig[i].name;
      }
    }
  }

  /** Every function and parameter name of the module registry. */
  const ModuleNames: set<string> := {
    "main", "dosheet", "dorow", "evalfunc", "row1funcs", "Func1", "Func2",
    "dbsource", "rownum", "arow", "coldex", "param1", "param2", "status"
  }

  /** The callables defined at module level in calculator.py (lines 4, 11, 44, 58,
      72, 89, 93), with their signatures. */
  const ModuleRegistry: Registry := map[
    "main" := [],
    "dosheet" := [Param("dbsource", Empty)],
    "dorow" := [Param("rownum", Empty), Param("arow", Empty)],
    "evalfunc" := [Param("coldex", Empty), Param("arow", Empty)],
    "row1funcs" := [Param("arow", Empty)],
    "Func1" := [],
    "Func2" := [Param("param1", Empty), Param("param2", Value("")), Param("status", Value("Okay"))]
  ]

  /** The names that occur in the module registry are identifiers. */
  lemma ModuleNamesAreIdentifiers()
    ensures forall n :: n in ModuleNames ==> IsIdentifier(n)
  {
    forall n | n in ModuleNames ensures IsIdentifier(n) {
      assert n in ModuleNames;
    }
  }

  /** Every name in the module registry is an identifier and no function names a
      parameter twice. */
  lemma ModuleRegistryWellFormed()
    ensures WellFormed(ModuleRegistry)
  {
    ModuleNamesAreIdentifiers();
    forall f | f in ModuleRegistry
      ensures IsIdentifier(f)
      ensures forall j :: 0 <= j < |ModuleRegistry[f]| ==> IsIdentifier(ModuleRegistry[f][j].name)
      ensures DistinctNames(ModuleRegistry[f])
    {
      var sig := ModuleRegistry[f];
      assert f in ModuleNames;
      forall j | 0 <= j < |sig| ensures sig[j].name in ModuleNames {
      }
    }
  }

  /** Func2's recorded table, in signature order. */
  lemma Func2Table()
    ensures Recorded(ModuleRegistry["Func2"]) ==
      [Entry("param1", None), Entry("param2", Some("")), Entry("status", Some("Okay"))]
  {
    var sig := ModuleRegistry["Func2"];
    ModuleRegistryWellFormed();
    assert DistinctNames(sig);
    RecordedEntries(sig);
  }

  /** Func2's recorded table keeps the empty-string default of `param2` distinct from
      the missing default of `param1`. */
  lemma Func2Recorded()
    ensures Lookup(Recorded(ModuleRegistry["Func2"]), "param1") == Some(None)
    ensures Lookup(Recorded(ModuleRegistry["Func2"]), "param2") == Some(Some(""))
    ensures Lookup(Recorded(ModuleRegistry["Func2"]), "status") == Some(Some("Okay"))
    ensures Lookup(Recorded(ModuleRegistry["Func2"]), "other") == None
  {
    Func2Table();
    var t := Recorded(ModuleRegistry["Func2"]);
    assert t[0].key == "param1" && t[1].key == "param2" && t[2].key == "status";
    assert "param1" != "param2" && "param1" != "status" && "param2" != "status";
    assert forall i :: 0 <= i < |t| ==> |t[i].key| == 6;
  }
}
