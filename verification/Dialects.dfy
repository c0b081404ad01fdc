/** Whether a built-in module is written in the report style (netbox_scripts/migration/dialects.py). */
module Dialects {

  /** One class declaration: its method names, and the bare names of its bases. */
  datatype Class = Class(name: string, methods: set<string>, bases: seq<string>)

  type Classes = map<string, Class>

  /** Unseen bases that are known to carry no run method. */
  const BASES_WITHOUT_RUN := {"Report", "object"}

  function AsSet(names: seq<string>): set<string> { set n | n in names }

  /** _bases_supply_run: seen is the chain of local classes walked to get here. */
  predicate BasesSupplyRun(bases: seq<string>, classes: Classes, seen: seq<string>)
    decreases |classes.Keys - AsSet(seen)|, |bases|
  {
    if bases == [] then false
    else
      var name := bases[0];
      (if name in seen then false
       else if name in classes then
         Descends(classes, seen, name);
         "run" in classes[name].methods || BasesSupplyRun(classes[name].bases, classes, seen + [name])
       else name !in BASES_WITHOUT_RUN)
      || BasesSupplyRun(bases[1..], classes, seen)
  }

  /** Walking into a class not seen yet leaves fewer to see. */
  lemma {:induction false} Descends(classes: Classes, seen: seq<string>, name: string)
    requires name in classes && name !in seen
    ensures |classes.Keys - AsSet(seen + [name])| < |classes.Keys - AsSet(seen)|
  {
    var left := classes.Keys - AsSet(seen);
    assert classes.Keys - AsSet(seen + [name]) == left - {name};
  }

  // ----- What it decides -----------------------------------------------------------------------------

  /** A base that defines run itself, or that the module does not declare and that may carry one. */
  predicate MaySupply(classes: Classes, name: string) {
    if name in classes then "run" in classes[name].methods else name !in BASES_WITHOUT_RUN
  }

  /** A chain of bases, each declared locally by the one before it. */
  ghost predicate Chain(classes: Classes, bases: seq<string>, path: seq<string>) {
    && path != [] && path[0] in bases
    && (forall k :: 0 <= k < |path| - 1 ==> path[k] in classes && path[k + 1] in classes[path[k]].bases)
  }

  ghost predicate Avoids(path: seq<string>, seen: seq<string>) {
    forall k :: 0 <= k < |path| ==> path[k] !in seen
  }

  ghost predicate Simple(path: seq<string>) {
    forall i, k :: 0 <= i < k < |path| ==> path[i] != path[k]
  }

  ghost predicate Supplying(classes: Classes, bases: seq<string>, path: seq<string>) {
    Chain(classes, bases, path) && MaySupply(classes, path[|path| - 1])
  }

  /** Some base reachable through local inheritance may supply a run method. */
  ghost predicate Reaches(classes: Classes, bases: seq<string>) {
    exists path :: Supplying(classes, bases, path)
  }

  lemma {:induction false} FoundIsReached(bases: seq<string>, classes: Classes, seen: seq<string>)
    requires BasesSupplyRun(bases, classes, seen)
    ensures Reaches(classes, bases)
    decreases |classes.Keys - AsSet(seen)|, |bases|
  {
    var name := bases[0];
    if BasesSupplyRun(bases[1..], classes, seen) {
      FoundIsReached(bases[1..], classes, seen);
      var path :| Supplying(classes, bases[1..], path);
      assert Supplying(classes, bases, path);
    } else if MaySupply(classes, name) {
      assert Supplying(classes, bases, [name]);
    } else {
      Descends(classes, seen, name);
      FoundIsReached(classes[name].bases, classes, seen + [name]);
      var path :| Supplying(classes, classes[name].bases, path);
      assert forall k :: 0 < k < |path| ==> ([name] + path)[k] == path[k - 1];
      assert Supplying(classes, bases, [name] + path);
    }
  }

  lemma {:induction false} ReachedIsFound(bases: seq<string>, classes: Classes, seen: seq<string>, path: seq<string>)
    requires Supplying(classes, bases, path) && Simple(path) && Avoids(path, seen)
    ensures BasesSupplyRun(bases, classes, seen)
    decreases |path|, |bases|
  {
    var name := bases[0];
    if path[0] != name {
      ReachedIsFound(bases[1..], classes, seen, path);
    } else if |path| > 1 {
      Descends(classes, seen, name);
      assert Avoids(path[1..], seen + [name]);
      ReachedIsFound(classes[name].bases, classes, seen + [name], path[1..]);
    }
  }

  lemma {:induction false} CutStands(classes: Classes, bases: seq<string>, path: seq<string>, i: nat, k: nat)
    requires Supplying(classes, bases, path) && i < k < |path| && path[i] == path[k]
    ensures Supplying(classes, bases, path[..i] + path[k..])
  {
    var cut := path[..i] + path[k..];
    assert cut[0] == path[0] && cut[|cut| - 1] == path[|path| - 1];
    forall j | 0 <= j < |cut| - 1 ensures cut[j] in classes && cut[j + 1] in classes[cut[j]].bases {
      var was := if j < i then j else j - i + k;
      assert cut[j] == path[was] && cut[j + 1] == path[was + 1];
    }
  }

  /** A chain that meets a class twice can be cut short. */
  lemma {:induction false} Shorten(classes: Classes, bases: seq<string>, path: seq<string>) returns (short: seq<string>)
    requires Supplying(classes, bases, path)
    ensures Supplying(classes, bases, short) && Simple(short)
    decreases |path|
  {
    if Simple(path) {
      return path;
    }
    var i, k :| 0 <= i < k < |path| && path[i] == path[k];
    CutStands(classes, bases, path, i, k);
    short := Shorten(classes, bases, path[..i] + path[k..]);
  }

  /**
   On any class graph, cyclic or self-based, the walk ends, and it answers yes exactly when some
   base reachable through local inheritance defines run or is an unseen name that may carry one.
   */
  lemma {:induction false} SupplyIsReachability(bases: seq<string>, classes: Classes)
    ensures BasesSupplyRun(bases, classes, []) <==> Reaches(classes, bases)
  {
    if BasesSupplyRun(bases, classes, []) {
      FoundIsReached(bases, classes, []);
    }
    if Reaches(classes, bases) {
      var path :| Supplying(classes, bases, path);
      var short := Shorten(classes, bases, path);
      ReachedIsFound(bases, classes, [], short);
    }
  }

  // ----- The report shape ------------------------------------------------------------------------------

  /** The module's classes by name, the last declaration of a name winning. */
  function ByName(declared: seq<Class>): Classes {
    if declared == [] then map[]
    else ByName(declared[..|declared| - 1])[declared[|declared| - 1].name := declared[|declared| - 1]]
  }

  lemma {:induction false} LastDeclarationWins(declared: seq<Class>, k: nat)
    requires k < |declared| && forall i :: k < i < |declared| ==> declared[i].name != declared[k].name
    ensures declared[k].name in ByName(declared) && ByName(declared)[declared[k].name] == declared[k]
  {
    var n := |declared| - 1;
    if k < n {
      assert declared[..n][k] == declared[k];
      LastDeclarationWins(declared[..n], k);
    }
  }

  predicate Tests(c: Class) {
    "run" !in c.methods && exists m :: m in c.methods && "test_" <= m
  }

  /** Some method's name begins with "test_". */
  ghost predicate DeclaresTest(c: Class) {
    exists m :: m in c.methods && 5 <= |m| && m[..5] == "test_"
  }

  lemma {:induction false} TestsChecked(c: Class)
    ensures Tests(c) <==> "run" !in c.methods && DeclaresTest(c)
  {
    assert |"test_"| == 5;
    assert forall m :: m in c.methods ==> ("test_" <= m <==> 5 <= |m| && m[..5] == "test_");
  }

  /**
   A base outside the module may carry run unless it is Report or object; one inside carries it when
   it declares it.
   */
  lemma {:induction false} SuppliersExactly(classes: Classes, name: string)
    ensures name in classes ==> (MaySupply(classes, name) <==> "run" in classes[name].methods)
    ensures name !in classes ==> (MaySupply(classes, name) <==> name != "Report" && name != "object")
  {
  }

  /** _has_report_shape. */
  method HasReportShape(declared: seq<Class>) returns (report: bool)
    ensures report <==> exists c :: c in declared && "run" !in c.methods && DeclaresTest(c)
                                    && !Reaches(ByName(declared), c.bases)
  {
    var classes := ByName(declared);
    forall c: Class { TestsChecked(c); }
    for i := 0 to |declared|
      invariant forall c :: c in declared[..i] && Tests(c) ==> Reaches(classes, c.bases)
    {
      SupplyIsReachability(declared[i].bases, classes);
      if Tests(declared[i]) && !BasesSupplyRun(declared[i].bases, classes, []) {
        return true;
      }
    }
    return false;
  }
}
