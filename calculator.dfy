/** The row dispatcher of calculator.py: `dorow`, `row1funcs` and `evalfunc`, as a
    session whose state is the stored header row (`globs.funcs`), the parameter
    tables recorded for its function columns (`globs.fargs`) and the lines printed
    so far. */
module Calculator {
  import opened Registry
  import opened CallStrings

  /** The row key of the header row (calculator.py:45). */
  const HeaderKey: string := "1"

  /** The cell value that asks for a call (calculator.py:54). */
  const Marker: string := "?"

  function Min(a: nat, b: nat): nat {
    if a <= b then a else b
  }

  // ---------------------------------------------------------------------------
  // Specification of row1funcs

  /** The `fargs` table that `row1funcs` builds for a header row: one recorded
      parameter table for each column whose header names a registered function. */
  function FargsOf(reg: Registry, header: seq<string>): map<nat, ParamTable> {
    if header == [] then map[]
    else
      var i := |header| - 1;
      var m := FargsOf(reg, header[..i]);
      if header[i] in reg then m[i := Recorded(reg[header[i]])] else m
  }

  /** The keys of `fargs` are exactly the columns whose header is a registered
      function, and each holds that function's recorded table. */
  lemma {:induction false} FargsKeys(reg: Registry, header: seq<string>)
    ensures forall i: nat :: i in FargsOf(reg, header) <==> i < |header| && header[i] in reg
    ensures forall i: nat :: i in FargsOf(reg, header) ==>
      i < |header| && header[i] in reg && FargsOf(reg, header)[i] == Recorded(reg[header[i]])
  {
    if header != [] {
      var n := |header| - 1;
      FargsKeys(reg, header[..n]);
      assert forall i :: 0 <= i < n ==> header[..n][i] == header[i];
    }
  }

  lemma FargsEntry(reg: Registry, header: seq<string>, coldex: nat)
    requires coldex in FargsOf(reg, header)
    ensures coldex < |header| && header[coldex] in reg
    ensures FargsOf(reg, header)[coldex] == Recorded(reg[header[coldex]])
  {
    FargsKeys(reg, header);
  }

  lemma FargsHas(reg: Registry, header: seq<string>, coldex: nat)
    requires coldex < |header| && header[coldex] in reg
    ensures coldex in FargsOf(reg, header)
  {
    FargsKeys(reg, header);
  }

  /** Column `coldex` of a recorded header lists its function's parameters in
      signature order, each with its default or None; an empty-string default is
      kept apart from a missing one. */
  lemma FargsColumn(reg: Registry, header: seq<string>, coldex: nat)
    requires WellFormed(reg)
    requires coldex < |header| && header[coldex] in reg
    ensures coldex in FargsOf(reg, header)
    ensures var sig := reg[header[coldex]]; var t := FargsOf(reg, header)[coldex];
      |t| == |sig| && KeysOf(t) == Names(sig) &&
      forall j :: 0 <= j < |sig| ==>
        t[j].value == if sig[j].default == Empty then None else Some(sig[j].default.v)
  {
    FargsKeys(reg, header);
    RecordedEntries(reg[header[coldex]]);
    RecordedKeys(reg[header[coldex]]);
  }

  // ---------------------------------------------------------------------------
  // Specification of dorow on a data row

  /** The columns of a data row that `dorow` hands to `evalfunc`, in the order it
      does so (calculator.py:49-55). */
  function DispatchedColumns(reg: Registry, header: seq<string>, row: seq<string>): seq<nat>
    requires |row| <= |header|
  {
    if row == [] then []
    else
      var i := |row| - 1;
      DispatchedColumns(reg, header, row[..i]) + (if header[i] in reg && row[i] == Marker then [i] else [])
  }

  /** A column is dispatched exactly when its header is a registered function and its
      cell is exactly "?" (an empty cell or any other literal is skipped), and the
      dispatched columns come in ascending order. */
  lemma {:induction false} DispatchedColumnsSpec(reg: Registry, header: seq<string>, row: seq<string>)
    requires |row| <= |header|
    ensures forall i :: i in DispatchedColumns(reg, header, row) <==>
      0 <= i < |row| && header[i] in reg && row[i] == Marker
    ensures forall k, l :: 0 <= k < l < |DispatchedColumns(reg, header, row)| ==>
      DispatchedColumns(reg, header, row)[k] < DispatchedColumns(reg, header, row)[l]
  {
    if row != [] {
      var n := |row| - 1;
      DispatchedColumnsSpec(reg, header, row[..n]);
      assert forall i :: 0 <= i < n ==> row[..n][i] == row[i];
      var d := DispatchedColumns(reg, header, row[..n]);
      forall k | 0 <= k < |d| ensures d[k] < n {
        assert d[k] in d;
      }
    }
  }

  lemma DispatchStep(reg: Registry, header: seq<string>, row: seq<string>, i: nat)
    requires i < |row| && i < |header|
    ensures DispatchedColumns(reg, header, row[..i + 1]) ==
      DispatchedColumns(reg, header, row[..i]) + (if header[i] in reg && row[i] == Marker then [i] else [])
  {
    assert row[..i + 1][..i] == row[..i];
  }

  /** What `evalfunc` prints for the function in a column: its call text with every
      parameter in signature order, or nothing when it has no parameters. */
  function Emitted(reg: Registry, fname: string): seq<string> {
    if fname in reg && reg[fname] != [] then [CallText(fname, Names(reg[fname]))] else []
  }

  /** `evalfunc` prints one line exactly when the function has parameters; that line
      reads back as the function's name and its parameter names in signature order,
      each given the literal 'xxx', with one ", " fewer than there are parameters. */
  lemma EmittedParses(reg: Registry, fname: string)
    requires WellFormed(reg) && fname in reg
    ensures Emitted(reg, fname) == [] <==> reg[fname] == []
    ensures reg[fname] != [] ==>
      |Emitted(reg, fname)| == 1 &&
      ParseCall(Emitted(reg, fname)[0]) == Some(Call(fname, Names(reg[fname]))) &&
      Count(Emitted(reg, fname)[0], ',') == |reg[fname]| - 1
  {
    var sig := reg[fname];
    if sig != [] {
      var names := Names(sig);
      assert AllIdentifiers(names);
      ParseCallRoundTrip(fname, names);
      SeparatorCount(fname, names);
    }
  }

  /** The lines printed when `evalfunc` runs on the given columns in turn. */
  function CallsFor(reg: Registry, header: seq<string>, cols: seq<nat>): (out: seq<string>)
    ensures |out| <= |cols|
  {
    if cols == [] then []
    else
      var n := |cols| - 1;
      CallsFor(reg, header, cols[..n]) + (if cols[n] < |header| then Emitted(reg, header[cols[n]]) else [])
  }

  /** `line` is the call text of column c's function, which has parameters. */
  predicate IsCallOf(reg: Registry, header: seq<string>, c: nat, line: string) {
    c < |header| && header[c] in reg && reg[header[c]] != [] &&
    line == CallText(header[c], Names(reg[header[c]]))
  }

  /** Every printed line is the call text of one of the columns, naming that
      column's function and all of its parameters. */
  lemma {:induction false} CallsForLines(reg: Registry, header: seq<string>, cols: seq<nat>)
    ensures forall k :: 0 <= k < |CallsFor(reg, header, cols)| ==>
      exists j :: 0 <= j < |cols| && IsCallOf(reg, header, cols[j], CallsFor(reg, header, cols)[k])
  {
    if cols != [] {
      var n := |cols| - 1;
      var init := cols[..n];
      CallsForLines(reg, header, init);
      var before := CallsFor(reg, header, init);
      var out := CallsFor(reg, header, cols);
      forall k | 0 <= k < |out|
        ensures exists j :: 0 <= j < |cols| && IsCallOf(reg, header, cols[j], out[k])
      {
        if k < |before| {
          var j :| 0 <= j < |init| && IsCallOf(reg, header, init[j], before[k]);
          assert cols[j] == init[j];
        } else {
          assert IsCallOf(reg, header, cols[n], out[k]);
        }
      }
      assert out == CallsFor(reg, header, cols);
    } else {
      assert CallsFor(reg, header, cols) == [];
    }
  }

  lemma CallsForAppend(reg: Registry, header: seq<string>, cols: seq<nat>, c: nat)
    requires c < |header|
    ensures CallsFor(reg, header, cols + [c]) == CallsFor(reg, header, cols) + Emitted(reg, header[c])
  {
    assert (cols + [c])[..|cols|] == cols;
  }

  /** Handling column i of a row adds the output of that column, if it is dispatched,
      to the output of the columns before it. */
  lemma RowStep(reg: Registry, header: seq<string>, row: seq<string>, i: nat)
    requires i < |row| && i < |header|
    ensures CallsFor(reg, header, DispatchedColumns(reg, header, row[..i + 1])) ==
      CallsFor(reg, header, DispatchedColumns(reg, header, row[..i])) +
      (if header[i] in reg && row[i] == Marker then Emitted(reg, header[i]) else [])
  {
    var done := DispatchedColumns(reg, header, row[..i]);
    DispatchStep(reg, header, row, i);
    if header[i] in reg && row[i] == Marker {
      CallsForAppend(reg, header, done, i);
    } else {
      assert done + [] == done;
    }
  }

  /** The log after handling column i of a row, in terms of the columns up to i. */
  lemma LogStep(reg: Registry, header: seq<string>, row: seq<string>, i: nat,
                start: seq<string>, before: seq<string>, after: seq<string>)
    requires i < |row| && i < |header|
    requires before == start + CallsFor(reg, header, DispatchedColumns(reg, header, row[..i]))
    requires after == before + (if header[i] in reg && row[i] == Marker then Emitted(reg, header[i]) else [])
    ensures after == start + CallsFor(reg, header, DispatchedColumns(reg, header, row[..i + 1]))
  {
    RowStep(reg, header, row, i);
  }

  // ---------------------------------------------------------------------------
  // The session

  class Session {
    /** The callables visible to `globals()`, with their signatures. */
    const registry: Registry
    /** `globs.funcs`: the stored header row. */
    var funcs: seq<string>
    /** `globs.fargs`: column index -> recorded parameter table. */
    var fargs: map<nat, ParamTable>
    /** The lines printed so far. */
    var log: seq<string>

    ghost predicate Valid()
      reads this`funcs, this`fargs
    {
      WellFormed(registry) && fargs == FargsOf(registry, funcs)
    }

    /** A session before any header row: empty `funcs` and `fargs`. */
    constructor (reg: Registry)
      requires WellFormed(reg)
      ensures Valid() && registry == reg && funcs == [] && fargs == map[] && log == []
    {
      registry := reg;
      funcs := [];
      fargs := map[];
      log := [];
    }

    /** Rebuilds `fargs` from a header row (calculator.py:72-86). */
    method RowOneFuncs(arow: seq<string>)
      modifies this`fargs
      ensures fargs == FargsOf(registry, arow)
    {
      var table: map<nat, ParamTable> := map[];
      var coldex := 0;
      while coldex < |arow|
        invariant coldex <= |arow|
        invariant table == FargsOf(registry, arow[..coldex])
      {
        var fname := arow[coldex];
        assert arow[..coldex + 1][..coldex] == arow[..coldex];
        if fname in registry {
          var before := table;
          table := table[coldex := []];
          var sig := registry[fname];
          var j := 0;
          while j < |sig|
            invariant j <= |sig|
            invariant table == before[coldex := Recorded(sig[..j])]
          {
            var param := sig[j];
            var recorded: Option<string>;
            if param.default == Empty {
              recorded := None;
            } else {
              recorded := Some(param.default.v);
            }
            table := table[coldex := Put(table[coldex], param.name, recorded)];
            assert sig[..j + 1][..j] == sig[..j];
            j := j + 1;
          }
          assert sig[..j] == sig;
        }
        coldex := coldex + 1;
      }
      assert arow[..coldex] == arow;
      fargs := table;
    }

    /** Prints the call text for column `coldex`, or nothing when its function has
      no parameters (calculator.py:58-69). */
    method EvalFunc(coldex: nat, arow: seq<string>)
      requires Valid() && coldex in fargs
      modifies this`log
      ensures coldex < |funcs| && funcs[coldex] in registry
      ensures log == old(log) + Emitted(registry, funcs[coldex])
    {
      FargsEntry(registry, funcs, coldex);
      var fname := funcs[coldex];
      var table := fargs[coldex];
      var keys := KeysOf(table);
      RecordedKeys(registry[fname]);
      assert keys == Names(registry[fname]);
      var evalme := fname + "(";
      if |table| > 0 {
        var i := 0;
        while i < |table|
          invariant i <= |table|
          invariant log == old(log)
          invariant evalme == Accumulated(fname, keys[..i])
        {
          var anarg := table[i].key;
          AccumulatedStep(fname, keys, i);
          evalme := evalme + (anarg + "='xxx', ");
          i := i + 1;
        }
        assert keys[..i] == keys;
        TrimAccumulated(fname, keys, evalme);
        evalme := evalme[..|evalme| - 2] + ")";
        assert |registry[fname]| == |keys| > 0;
        assert Emitted(registry, fname) == [CallText(fname, keys)];
        log := log + [evalme];
      } else {
        assert |registry[fname]| == |keys| == 0;
      }
    }

    /** Handles one row: the header row is stored and its parameter tables
        recorded; on any other row every "?" cell under a function column is
        handed, left to right, to `evalfunc` (calculator.py:44-55). `ok` is false
        when the row is longer than the stored header, where `globs.funcs[coldex]`
        raises IndexError after the earlier columns were handled. */
    method DoRow(rownum: string, arow: seq<string>) returns (ok: bool)
      requires Valid()
      modifies this`funcs, this`fargs, this`log
      ensures Valid()
      ensures rownum == HeaderKey ==> ok && funcs == arow && fargs == FargsOf(registry, arow) && log == old(log)
      ensures rownum != HeaderKey ==> funcs == old(funcs) && fargs == old(fargs)
      ensures rownum != HeaderKey ==> (ok <==> |arow| <= |funcs|)
      ensures rownum != HeaderKey ==>
        log == old(log) + CallsFor(registry, funcs, DispatchedColumns(registry, funcs, arow[..Min(|arow|, |funcs|)]))
    {
      if rownum == HeaderKey {
        funcs := arow;
        RowOneFuncs(arow);
        ok := true;
      } else {
        ok := DataRow(arow);
      }
    }

    /** One iteration of the data-row loop of `dorow` (calculator.py:50-55): a "?"
        cell under a registered function is handed to `evalfunc`; an empty cell,
        any other literal, or a column whose header is no function prints nothing. */
    method DoCell(coldex: nat, arow: seq<string>)
      requires Valid() && coldex < |arow| && coldex < |funcs|
      modifies this`log
      ensures log == old(log) +
        (if funcs[coldex] in registry && arow[coldex] == Marker then Emitted(registry, funcs[coldex]) else [])
    {
      var acell := arow[coldex];
      if funcs[coldex] in registry {
        if acell == "" {
        } else {
          if acell == Marker {
            FargsHas(registry, funcs, coldex);
            EvalFunc(coldex, arow);
          }
        }
      }
    }

    /** The data-row branch of `dorow` (calculator.py:48-55): the cells are visited
        left to right and each "?" under a function column is handed to `evalfunc`.
        `ok` is false when the row is longer than the stored header, where
        `globs.funcs[coldex]` raises IndexError after the earlier columns were handled. */
    method DataRow(arow: seq<string>) returns (ok: bool)
      requires Valid()
      modifies this`log
      ensures ok <==> |arow| <= |funcs|
      ensures log == old(log) + CallsFor(registry, funcs, DispatchedColumns(registry, funcs, arow[..Min(|arow|, |funcs|)]))
    {
      ok := true;
      var coldex := 0;
      assert arow[..0] == [];
      assert log == old(log) + CallsFor(registry, funcs, DispatchedColumns(registry, funcs, arow[..0]));
      while coldex < |arow|
        invariant coldex <= |arow| && coldex <= |funcs|
        invariant ok
        invariant log == old(log) + CallsFor(registry, funcs, DispatchedColumns(registry, funcs, arow[..coldex]))
      {
        if coldex >= |funcs| {
          ok := false;
          break;
        }
        ghost var before := log;
        DoCell(coldex, arow);
        LogStep(registry, funcs, arow, coldex, old(log), before, log);
        coldex := coldex + 1;
      }
      assert arow[..coldex] == arow[..Min(|arow|, |funcs|)];
    }
  }

  // ---------------------------------------------------------------------------
  // The example from calculator.py:89-94

  /** Header ["Func1", "Func2", "param1", "param2"] with data row ["?", "?", "X", "Y"]:
      both marker cells are dispatched, the argument columns are not. */
  lemma ExampleDispatch()
    ensures DispatchedColumns(ModuleRegistry, ["Func1", "Func2", "param1", "param2"], ["?", "?", "X", "Y"]) == [0, 1]
  {
    var header := ["Func1", "Func2", "param1", "param2"];
    var row := ["?", "?", "X", "Y"];
    assert "param1" !in ModuleRegistry && "param2" !in ModuleRegistry;
    assert row[..3][..2] == row[..2] && row[..2][..1] == row[..1] && row[..1][..0] == [];
    assert DispatchedColumns(ModuleRegistry, header, row[..1]) == [0];
    assert DispatchedColumns(ModuleRegistry, header, row[..2]) == [0, 1];
    assert DispatchedColumns(ModuleRegistry, header, row[..3]) == [0, 1];
    assert row[..4] == row;
  }

  // The next three lemmas are the steps of Func2Call. Each is kept apart so that its
  // string-literal equality is proved in a context of its own.

  /** ArgList unfolded over Func2's three parameter names. */
  lemma Func2Args()
    ensures ArgList(["param1", "param2", "status"]) == "param1='xxx'" + (", " + ("param2='xxx'" + (", " + "status='xxx'")))
  {
    var names := ["param1", "param2", "status"];
    assert names[1..] == ["param2", "status"] && names[1..][1..] == ["status"];
    assert Arg("status") == "status='xxx'";
    assert Arg("param2") == "param2='xxx'";
    assert Arg("param1") == "param1='xxx'";
  }

  lemma Func2Names()
    ensures Names(ModuleRegistry["Func2"]) == ["param1", "param2", "status"]
  {
  }

  /** The pieces joined into one literal. */
  lemma Func2ArgsJoined()
    ensures "param1='xxx'" + (", " + ("param2='xxx'" + (", " + "status='xxx'"))) ==
      "param1='xxx', param2='xxx', status='xxx'"
  {
  }

  /** The name and parentheses put around the joined arguments. */
  lemma Func2CallJoined(x: string)
    requires x == "param1='xxx', param2='xxx', status='xxx'"
    ensures "Func2" + "(" + x + ")" == "Func2(param1='xxx', param2='xxx', status='xxx')"
  {
  }

  /** Func2's call text names its three parameters in signature order. */
  lemma Func2Call()
    ensures CallText("Func2", ["param1", "param2", "status"]) == "Func2(param1='xxx', param2='xxx', status='xxx')"
  {
    Func2Args();
    Func2ArgsJoined();
    Func2CallJoined(ArgList(["param1", "param2", "status"]));
  }

  /** On that row, Func1 (no parameters) prints nothing and Func2 prints its call. */
  lemma ExampleRow()
    ensures var header := ["Func1", "Func2", "param1", "param2"];
      CallsFor(ModuleRegistry, header, DispatchedColumns(ModuleRegistry, header, ["?", "?", "X", "Y"])) ==
        ["Func2(param1='xxx', param2='xxx', status='xxx')"]
  {
    var header := ["Func1", "Func2", "param1", "param2"];
    ExampleDispatch();
    Func2Names();
    Func2Call();
    assert Emitted(ModuleRegistry, "Func1") == [];
    assert Emitted(ModuleRegistry, "Func2") == ["Func2(param1='xxx', param2='xxx', status='xxx')"];
    assert [0, 1][..1] == [0] && [0][..0] == [];
    assert CallsFor(ModuleRegistry, header, [0]) == [];
  }

  /** The example run through a fresh session: the header row prints nothing and
      the data row prints Func2's call alone. */
  method ExampleSession() returns (ok: bool, printed: seq<string>)
    ensures ok && printed == ["Func2(param1='xxx', param2='xxx', status='xxx')"]
  {
    ModuleRegistryWellFormed();
    var s := new Session(ModuleRegistry);
    var headerOk := s.DoRow("1", ["Func1", "Func2", "param1", "param2"]);
    ok := s.DoRow("2", ["?", "?", "X", "Y"]);
    ExampleRow();
    assert ["?", "?", "X", "Y"][..4] == ["?", "?", "X", "Y"];
    printed := s.log;
  }
}
