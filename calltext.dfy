/** The call string that `evalfunc` builds and prints for a dispatched cell
    (calculator.py:58-69): `fname(p1='xxx', p2='xxx', ...)`, and a parser that
    reads such a string back. */
module CallStrings {
  import opened Registry

  /** The literal written for every argument, whatever default was recorded. */
  const ArgValue: string := "'xxx'"

  /** One argument: `name='xxx'`. */
  function Arg(name: string): string {
    name + "=" + ArgValue
  }

  /** The arguments separated by ", ", with no separator after the last one. */
  function ArgList(names: seq<string>): string {
    if |names| == 0 then ""
    else if |names| == 1 then Arg(names[0])
    else Arg(names[0]) + ", " + ArgList(names[1..])
  }

  /** The intended shape of the printed text. */
  function CallText(fname: string, names: seq<string>): string {
    fname + "(" + ArgList(names) + ")"
  }

  /** What `evalme` holds in `evalfunc` once its loop has visited the given keys:
      `fname(` followed by each argument and ", " (calculator.py:61-65). */
  function Accumulated(fname: string, names: seq<string>): string {
    if names == [] then fname + "("
    else Accumulated(fname, names[..|names| - 1]) + (names[|names| - 1] + "='xxx', ")
  }

  /** One more iteration of the loop appends one argument and a separator. */
  lemma AccumulatedStep(fname: string, names: seq<string>, i: nat)
    requires i < |names|
    ensures Accumulated(fname, names[..i + 1]) == Accumulated(fname, names[..i]) + (names[i] + "='xxx', ")
  {
    assert names[..i + 1][..i] == names[..i];
  }

  lemma {:induction false} ArgListSnoc(names: seq<string>, x: string)
    requires |names| > 0
    ensures ArgList(names + [x]) == ArgList(names) + ", " + Arg(x)
  {
    if |names| == 1 {
      assert (names + [x])[1..] == [x];
    } else {
      assert (names + [x])[1..] == names[1..] + [x];
      ArgListSnoc(names[1..], x);
    }
  }

  lemma {:induction false} AccumulatedArgList(fname: string, names: seq<string>)
    requires |names| > 0
    ensures Accumulated(fname, names) == fname + "(" + ArgList(names) + ", "
  {
    var init := names[..|names| - 1];
    var last := names[|names| - 1];
    if |names| == 1 {
      assert init == [];
      assert names == [last];
    } else {
      AccumulatedArgList(fname, init);
      ArgListSnoc(init, last);
      assert init + [last] == names;
      var a := fname + "(" + ArgList(init);
      calc {
        Accumulated(fname, names);
        (a + ", ") + (last + "='xxx', ");
        a + (", " + Arg(last)) + ", ";
        fname + "(" + ArgList(names) + ", ";
      }
    }
  }

  /** Slicing off the trailing ", " of the accumulated text and closing the
      parenthesis gives exactly the call text (calculator.py:68). */
  lemma TrimAccumulated(fname: string, names: seq<string>, s: string)
    requires |names| > 0 && s == Accumulated(fname, names)
    ensures |s| >= 2 && s[..|s| - 2] + ")" == CallText(fname, names)
  {
    AccumulatedArgList(fname, names);
    assert s[..|s| - 2] == fname + "(" + ArgList(names);
  }

  // ---------------------------------------------------------------------------
  // Reading a call text back

  /** The index of the first `c` in `s`, or |s| when there is none. */
  function Find(s: string, c: char): (k: nat)
    ensures k <= |s|
    ensures k < |s| ==> s[k] == c
    ensures forall j :: 0 <= j < k ==> s[j] != c
  {
    if s == [] then 0
    else if s[0] == c then 0
    else 1 + Find(s[1..], c)
  }

  lemma FindAfter(a: string, b: string, c: char)
    requires forall j :: 0 <= j < |a| ==> a[j] != c
    requires |b| > 0 && b[0] == c
    ensures Find(a + b, c) == |a|
  {
    assert (a + b)[|a|] == c;
    assert forall j :: 0 <= j < |a| ==> (a + b)[j] == a[j];
  }

  /** Parses `n1='xxx', n2='xxx', ...` into the names; anything else is None. */
  function ParseArgs(s: string): Option<seq<string>>
    decreases |s|
  {
    var k := Find(s, '=');
    if k == |s| || |s| - k < 6 || s[k..k + 6] != "='xxx'" then None
    else
      var tail := s[k + 6..];
      if tail == "" then Some([s[..k]])
      else if |tail| >= 2 && tail[..2] == ", " then
        match ParseArgs(tail[2..])
        case Some(rest) => Some([s[..k]] + rest)
        case None => None
      else None
  }

  datatype Call = Call(fname: string, args: seq<string>)

  /** Parses `fname(args)`; anything else is None. */
  function ParseCall(s: string): Option<Call> {
    var k := Find(s, '(');
    if k == |s| || s[|s| - 1] != ')' then None
    else
      match ParseArgs(s[k + 1..|s| - 1])
      case Some(args) => Some(Call(s[..k], args))
      case None => None
  }

  predicate AllIdentifiers(names: seq<string>) {
    forall i :: 0 <= i < |names| ==> IsIdentifier(names[i])
  }

  /** A single argument parses back to its name. */
  lemma ParseArgsOne(n: string)
    requires IsIdentifier(n)
    ensures ParseArgs(Arg(n)) == Some([n])
  {
    var s := Arg(n);
    assert s == n + "='xxx'";
    FindAfter(n, "='xxx'", '=');
    var k := Find(s, '=');
    assert s[..k] == n;
    assert s[k..k + 6] == "='xxx'";
    assert s[k + 6..] == "";
  }

  /** An argument followed by ", " parses to its name in front of what the rest parses to. */
  lemma ParseArgsCons(n: string, more: string, names: seq<string>)
    requires IsIdentifier(n)
    requires ParseArgs(more) == Some(names)
    ensures ParseArgs(Arg(n) + ", " + more) == Some([n] + names)
  {
    var s := Arg(n) + ", " + more;
    assert s == n + ("='xxx'" + ", " + more);
    FindAfter(n, "='xxx'" + ", " + more, '=');
    var k := Find(s, '=');
    assert s[..k] == n;
    assert s[k..k + 6] == "='xxx'";
    var tail := s[k + 6..];
    assert tail == ", " + more;
    assert tail[..2] == ", ";
    assert tail[2..] == more;
  }

  lemma {:induction false} ParseArgsRoundTrip(names: seq<string>)
    requires |names| > 0 && AllIdentifiers(names)
    ensures ParseArgs(ArgList(names)) == Some(names)
  {
    var n := names[0];
    assert IsIdentifier(n);
    if |names| == 1 {
      ParseArgsOne(n);
      assert names == [n];
    } else {
      assert AllIdentifiers(names[1..]);
      ParseArgsRoundTrip(names[1..]);
      ParseArgsCons(n, ArgList(names[1..]), names[1..]);
      assert names == [n] + names[1..];
    }
  }

  /** The printed text reads back as the function name and its parameter names,
      every argument being the literal 'xxx'. */
  lemma ParseCallRoundTrip(fname: string, names: seq<string>)
    requires IsIdentifier(fname) && |names| > 0 && AllIdentifiers(names)
    ensures ParseCall(CallText(fname, names)) == Some(Call(fname, names))
  {
    var args := ArgList(names);
    var s := CallText(fname, names);
    assert s == fname + ("(" + args + ")");
    FindAfter(fname, "(" + args + ")", '(');
    var k := Find(s, '(');
    assert k == |fname|;
    assert s[|s| - 1] == ')';
    assert s[k + 1..|s| - 1] == args;
    assert s[..k] == fname;
    ParseArgsRoundTrip(names);
  }

  // ---------------------------------------------------------------------------
  // Separators

  function Count(s: string, c: char): nat {
    if s == [] then 0
    else (if s[0] == c then 1 else 0) + Count(s[1..], c)
  }

  lemma {:induction false} CountAppend(a: string, b: string, c: char)
    ensures Count(a + b, c) == Count(a, c) + Count(b, c)
  {
    if a != [] {
      assert (a + b)[0] == a[0];
      assert (a + b)[1..] == a[1..] + b;
      CountAppend(a[1..], b, c);
    } else {
      assert a + b == b;
    }
  }

  lemma {:induction false} CountIdentifier(s: string)
    requires forall i :: 0 <= i < |s| ==> IsIdentChar(s[i])
    ensures Count(s, ',') == 0
  {
    if s != [] {
      CountIdentifier(s[1..]);
    }
  }

  lemma {:induction false} ArgListCommas(names: seq<string>)
    requires |names| > 0 && AllIdentifiers(names)
    ensures Count(ArgList(names), ',') == |names| - 1
  {
    var n := names[0];
    CountIdentifier(n);
    CountAppend(n, "=" + ArgValue, ',');
    assert Count("=" + ArgValue, ',') == 0;
    assert Arg(n) == n + ("=" + ArgValue);
    if |names| > 1 {
      assert AllIdentifiers(names[1..]);
      ArgListCommas(names[1..]);
      CountAppend(Arg(n), ", ", ',');
      CountAppend(Arg(n) + ", ", ArgList(names[1..]), ',');
    }
  }

  /** A function with n parameters gets n-1 separators and none after the last argument. */
  lemma SeparatorCount(fname: string, names: seq<string>)
    requires IsIdentifier(fname) && |names| > 0 && AllIdentifiers(names)
    ensures Count(CallText(fname, names), ',') == |names| - 1
    ensures CallText(fname, names)[|CallText(fname, names)| - 2..] == "')"
  {
    ArgListCommas(names);
    CountIdentifier(fname);
    CountAppend(fname, "(", ',');
    CountAppend(fname + "(", ArgList(names), ',');
    CountAppend(fname + "(" + ArgList(names), ")", ',');
    var init := names[..|names| - 1];
    var last := names[|names| - 1];
    if |names| > 1 {
      ArgListSnoc(init, last);
      assert init + [last] == names;
    }
    assert ArgList(names)[|ArgList(names)| - 1] == '\'';
  }
}
