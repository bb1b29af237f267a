/** The shell's path normalisation. */
module ShellPath {
  import opened Pieces

  /** Components of a path: the non-empty pieces between slashes. */
  function Names(path: string): seq<string> {
    Kept(Split(path, '/'))
  }

  function Kept(parts: seq<string>): (r: seq<string>)
    ensures forall i :: 0 <= i < |r| ==> r[i] != []
  {
    if parts == [] then [] else (if parts[0] != [] then [parts[0]] else []) + Kept(parts[1..])
  }

  function TrimLeft(path: string): string {
    if path != [] && path[0] == '/' then TrimLeft(path[1..]) else path
  }

  function TrimRight(path: string): string {
    if path != [] && path[|path| - 1] == '/' then TrimRight(path[..|path| - 1]) else path
  }

  function Apply(components: seq<string>, part: string): seq<string> {
    if part == "." then components
    else if part == ".." then if components == [] then [] else components[..|components| - 1]
    else components + [part]
  }

  function Fold(components: seq<string>, parts: seq<string>): seq<string>
    decreases |parts|
  {
    if parts == [] then components else Fold(Apply(components, parts[0]), parts[1..])
  }

  predicate IsAbsolute(path: string) {
    path != [] && path[0] == '/'
  }

  /** The components that a target is applied to. */
  function Base(cwd: string, target: string): seq<string> {
    if IsAbsolute(target) then [] else Names(TrimRight(TrimLeft(cwd)))
  }

  function Render(components: seq<string>, absolute: bool): string {
    if absolute then (if components == [] then "/" else "/" + Join(components, '/'))
    else if components == [] then "." else Join(components, '/')
  }

  function Normalize(cwd: string, target: string): string {
    Render(Fold(Base(cwd, target), Names(target)), IsAbsolute(target) || IsAbsolute(cwd))
  }

  // ---------------------------------------------------------------------
  // Splitting and rendering
  // ---------------------------------------------------------------------

  /** Non-empty and without a slash. */
  predicate Clean(components: seq<string>) {
    forall i :: 0 <= i < |components| ==> components[i] != [] && '/' !in components[i]
  }

  /** Neither of these is a name. */
  predicate Plain(components: seq<string>) {
    forall i :: 0 <= i < |components| ==> components[i] != "." && components[i] != ".."
  }

  lemma {:induction false} KeptJoin(a: seq<string>, b: seq<string>)
    ensures Kept(a + b) == Kept(a) + Kept(b)
    decreases |a|
  {
    if a == [] {
      assert a + b == b;
    } else {
      assert (a + b)[1..] == a[1..] + b;
      KeptJoin(a[1..], b);
    }
  }

  lemma {:induction false} KeptClean(parts: seq<string>)
    requires forall i :: 0 <= i < |parts| ==> '/' !in parts[i]
    ensures Clean(Kept(parts))
  {
    if parts != [] {
      KeptClean(parts[1..]);
    }
  }

  lemma {:induction false} KeptSame(parts: seq<string>)
    requires Clean(parts)
    ensures Kept(parts) == parts
  {
    if parts != [] {
      KeptSame(parts[1..]);
    }
  }

  lemma NamesClean(path: string)
    ensures Clean(Names(path))
  {
    PiecesHaveNoSeparator(path, '/');
    KeptClean(Split(path, '/'));
  }

  /** A slash between two paths separates their names. */
  lemma NamesMiddle(a: string, b: string)
    ensures Names(a + "/" + b) == Names(a) + Names(b)
  {
    SplitMiddle(a, '/', b);
    assert a + ['/'] + b == a + "/" + b;
    KeptJoin(Split(a, '/'), Split(b, '/'));
  }

  lemma NamesSlash(path: string)
    ensures Names("/" + path) == Names(path) && Names(path + "/") == Names(path)
  {
    assert Names("") == [];
    NamesMiddle("", path);
    assert "" + "/" + path == "/" + path;
    NamesMiddle(path, "");
    assert path + "/" + "" == path + "/";
  }

  lemma {:induction false} NamesTrimLeft(path: string)
    ensures Names(TrimLeft(path)) == Names(path)
  {
    if path != [] && path[0] == '/' {
      NamesSlash(path[1..]);
      assert path == "/" + path[1..];
      NamesTrimLeft(path[1..]);
    }
  }

  lemma {:induction false} NamesTrimRight(path: string)
    ensures Names(TrimRight(path)) == Names(path)
    decreases |path|
  {
    if path != [] && path[|path| - 1] == '/' {
      NamesSlash(path[..|path| - 1]);
      assert path == path[..|path| - 1] + "/";
      NamesTrimRight(path[..|path| - 1]);
    }
  }

  /** Trimming slashes makes no difference to the names. */
  lemma BaseIs(cwd: string, target: string)
    ensures Base(cwd, target) == if IsAbsolute(target) then [] else Names(cwd)
  {
    NamesTrimRight(TrimLeft(cwd));
    NamesTrimLeft(cwd);
  }

  /** The names of a rendered absolute path are its components. */
  lemma NamesOfRendered(components: seq<string>)
    requires Clean(components)
    ensures Names(Render(components, true)) == components
  {
    if components == [] {
      assert Split("/", '/') == [[], []];
    } else {
      NamesSlash(Join(components, '/'));
      SplitOfJoin(components, '/');
      KeptSame(components);
    }
  }

  // ---------------------------------------------------------------------
  // Folding
  // ---------------------------------------------------------------------

  lemma {:induction false} FoldJoin(components: seq<string>, a: seq<string>, b: seq<string>)
    ensures Fold(components, a + b) == Fold(Fold(components, a), b)
    decreases |a|
  {
    if a == [] {
      assert a + b == b;
    } else {
      assert (a + b)[0] == a[0] && (a + b)[1..] == a[1..] + b;
      FoldJoin(Apply(components, a[0]), a[1..], b);
    }
  }

  lemma {:induction false} FoldClean(components: seq<string>, parts: seq<string>)
    requires Clean(components) && Clean(parts)
    ensures Clean(Fold(components, parts))
    ensures Plain(components) ==> Plain(Fold(components, parts))
    decreases |parts|
  {
    if parts != [] {
      FoldClean(Apply(components, parts[0]), parts[1..]);
    }
  }

  /** Folding names that are all plain appends them. */
  lemma {:induction false} FoldPlain(components: seq<string>, parts: seq<string>)
    requires Plain(parts)
    ensures Fold(components, parts) == components + parts
    decreases |parts|
  {
    if parts == [] {
      assert components + [] == components;
    } else {
      FoldPlain(Apply(components, parts[0]), parts[1..]);
      assert components + parts == (components + [parts[0]]) + parts[1..];
    }
  }

  // ---------------------------------------------------------------------
  // The laws
  // ---------------------------------------------------------------------

  /** An absolute path that is written as its own names, none of them "." or "..". */
  predicate Normal(path: string) {
    path == Render(Names(path), true) && Plain(Names(path))
  }

  /** From an absolute directory: the names of the result, and its form. */
  lemma ResultNames(cwd: string, target: string)
    requires IsAbsolute(cwd)
    ensures IsAbsolute(Normalize(cwd, target)) && Clean(Names(Normalize(cwd, target)))
    ensures Names(Normalize(cwd, target)) == Fold(if IsAbsolute(target) then [] else Names(cwd), Names(target))
    ensures Normalize(cwd, target) == Render(Names(Normalize(cwd, target)), true)
    ensures Plain(Names(cwd)) || IsAbsolute(target) ==> Plain(Names(Normalize(cwd, target)))
  {
    BaseIs(cwd, target);
    NamesClean(cwd);
    NamesClean(target);
    var base := Base(cwd, target);
    FoldClean(base, Names(target));
    NamesOfRendered(Fold(base, Names(target)));
  }

  /** The result is normal for every target exactly when the directory's own names are plain. */
  lemma NormalResult(cwd: string)
    requires IsAbsolute(cwd)
    ensures Plain(Names(cwd)) <==> forall target :: Normal(Normalize(cwd, target))
  {
    if Plain(Names(cwd)) {
      forall target ensures Normal(Normalize(cwd, target)) {
        ResultNames(cwd, target);
      }
    } else {
      ResultNames(cwd, "");
      assert Names("") == [];
      assert !Normal(Normalize(cwd, ""));
    }
  }

  /** In the directory "/..", the path "x" becomes "/../x". */
  lemma DotsOfTheDirectoryStay()
    ensures Normalize("/..", "x") == "/../x" && !Normal("/../x")
  {
    SplitOne("..", '/');
    SplitOne("x", '/');
    assert TrimLeft("/..") == ".." && TrimRight("..") == "..";
    assert Fold([".."], ["x"]) == ["..", "x"];
    assert Join(["..", "x"], '/') == "../x";
    ResultNames("/..", "x");
    assert Names("/..") == [".."];
  }

  /** A normal path is its own normal form, from wherever it is looked at. */
  lemma NormalIsFixed(cwd: string, path: string)
    requires Normal(path)
    ensures Normalize(cwd, path) == path
  {
    BaseIs(cwd, path);
    FoldPlain([], Names(path));
    assert [] + Names(path) == Names(path);
  }

  /** Normalising twice is normalising once. */
  lemma Idempotent(cwd: string, target: string)
    requires IsAbsolute(cwd) && Plain(Names(cwd))
    ensures Normalize(cwd, Normalize(cwd, target)) == Normalize(cwd, target)
  {
    ResultNames(cwd, target);
    NormalIsFixed(cwd, Normalize(cwd, target));
  }

  /** Going to p and then to q is going to p/q. */
  lemma Composes(cwd: string, p: string, q: string)
    requires IsAbsolute(cwd) && p != "" && !IsAbsolute(q)
    ensures Normalize(Normalize(cwd, p), q) == Normalize(cwd, p + "/" + q)
  {
    var middle := Normalize(cwd, p);
    ResultNames(cwd, p);
    ResultNames(middle, q);
    ResultNames(cwd, p + "/" + q);
    NamesMiddle(p, q);
    assert (p + "/" + q)[0] == p[0];
    FoldJoin(if IsAbsolute(p) then [] else Names(cwd), Names(p), Names(q));
  }

  lemma NamesOfOne(x: string)
    requires x != "" && '/' !in x
    ensures Names(x) == [x] && !IsAbsolute(x)
  {
    SplitOne(x, '/');
    KeptSame([x]);
  }

  lemma FoldOne(components: seq<string>, x: string)
    ensures Fold(components, [x]) ==
            if x == "." then components
            else if x == ".." then if |components| > 0 then components[..|components| - 1] else []
            else components + [x]
  {
    assert [x][1..] == [];
  }

  /** Going to "." stays, going to ".." drops the last name if there is one, and going to a name adds
      it. With `Composes` this says where every path leads. */
  lemma OneStep(cwd: string, x: string)
    requires IsAbsolute(cwd) && x != "" && '/' !in x
    ensures var names, result := Names(cwd), Names(Normalize(cwd, x));
            if x == "." then result == names
            else if x == ".." then result == if |names| > 0 then names[..|names| - 1] else []
            else result == names + [x]
  {
    NamesOfOne(x);
    ResultNames(cwd, x);
    FoldOne(Names(cwd), x);
  }

  /** Going to a name and up again is staying; at the root, so is going up. */
  lemma UpAgain(cwd: string, x: string)
    requires IsAbsolute(cwd) && x != "" && '/' !in x && x != "." && x != ".."
    ensures Normalize(cwd, x + "/..") == Normalize(cwd, ".")
    ensures Normalize("/", "..") == "/"
  {
    hide Normalize;
    hide Names;
    hide Render;
    hide Fold;
    ResultNames(cwd, ".");
    ResultNames(cwd, x);
    ResultNames(Normalize(cwd, x), "..");
    OneStep(cwd, ".");
    OneStep(cwd, x);
    OneStep(Normalize(cwd, x), "..");
    Composes(cwd, x, "..");
    assert x + "/" + ".." == x + "/..";
    assert (Names(cwd) + [x])[..|Names(cwd) + [x]| - 1] == Names(cwd);
    UpAtTheRoot();
  }

  lemma UpAtTheRoot()
    ensures Normalize("/", "..") == "/"
  {
    hide Normalize;
    OneStep("/", "..");
    ResultNames("/", "..");
    assert Names("/") == [];
  }

  /** From "/a/b", ".." leads to "/a". */
  lemma UpFromB()
    ensures Normalize("/a/b", "..") == "/a"
  {
    hide Normalize;
    hide Fold;
    NamesOfAB();
    OneStep("/a/b", "..");
    ResultNames("/a/b", "..");
    assert ["a", "b"][..1] == ["a"] && Render(["a"], true) == "/a";
  }

  lemma NamesOfAB()
    ensures Names("/a/b") == ["a", "b"]
  {
    hide Names;
    NamesOfOne("a");
    NamesOfOne("b");
    NamesMiddle("a", "b");
    assert "a" + "/" + "b" == "a/b" && "/" + "a/b" == "/a/b";
    NamesSlash("a/b");
  }

  /** Where neither the directory nor the target is absolute, nor is the result: its names are the fold,
      or "." if nothing is left. */
  lemma RelativeResult(cwd: string, target: string)
    requires !IsAbsolute(cwd) && !IsAbsolute(target)
    ensures var names, result := Fold(Names(cwd), Names(target)), Normalize(cwd, target);
            !IsAbsolute(result) && Names(result) == if names == [] then ["."] else names
  {
    BaseIs(cwd, target);
    NamesClean(cwd);
    NamesClean(target);
    FoldClean(Names(cwd), Names(target));
    var names := Fold(Names(cwd), Names(target));
    if names == [] {
      NamesOfOne(".");
    } else {
      SplitOfJoin(names, '/');
      KeptSame(names);
      assert Join(names, '/')[0] == names[0][0];
    }
  }

  /** Why the law asks for a non-empty p and a relative q: otherwise the two sides start from
      different components. */
  lemma WithoutTheConditions(cwd: string, p: string, q: string)
    requires IsAbsolute(cwd)
    ensures !IsAbsolute(q) ==> Names(Normalize(Normalize(cwd, ""), q)) == Fold(Names(cwd), Names(q))
    ensures Names(Normalize(cwd, "" + "/" + q)) == Fold([], Names(q))
    ensures IsAbsolute(q) ==> Names(Normalize(Normalize(cwd, p), q)) == Fold([], Names(q))
    ensures p != "" ==> Names(Normalize(cwd, p + "/" + q)) == Fold(Names(Normalize(cwd, p)), Names(q))
  {
    ResultNames(cwd, "");
    assert Names("") == [];
    ResultNames(Normalize(cwd, ""), q);
    assert IsAbsolute("" + "/" + q);
    ResultNames(cwd, "" + "/" + q);
    NamesMiddle("", q);
    assert [] + Names(q) == Names(q);
    ResultNames(cwd, p);
    ResultNames(Normalize(cwd, p), q);
    if p != "" {
      ResultNames(cwd, p + "/" + q);
      NamesMiddle(p, q);
      assert (p + "/" + q)[0] == p[0];
      FoldJoin(if IsAbsolute(p) then [] else Names(cwd), Names(p), Names(q));
    }
  }

  // ---------------------------------------------------------------------
  // The loops
  // ---------------------------------------------------------------------

  method ApplyAll(base: seq<string>, parts: seq<string>) returns (components: seq<string>)
    ensures components == Fold(base, parts)
  {
    components := base;
    var i := 0;
    assert parts[0..] == parts;
    while i < |parts|
      invariant 0 <= i <= |parts|
      invariant Fold(components, parts[i..]) == Fold(base, parts)
    {
      assert parts[i..][0] == parts[i] && parts[i..][1..] == parts[i + 1..];
      if parts[i] == "." {
      } else if parts[i] == ".." {
        if components != [] {
          components := components[..|components| - 1];
        }
      } else {
        components := components + [parts[i]];
      }
      i := i + 1;
    }
  }

  method NormalizePath(cwd: string, target: string) returns (r: string)
    ensures r == Normalize(cwd, target)
  {
    var components: seq<string>, absolute := [], false;
    if target != [] && target[0] == '/' {
      absolute := true;
    } else {
      absolute := cwd != [] && cwd[0] == '/';
      components := Names(TrimRight(TrimLeft(cwd)));
    }
    components := ApplyAll(components, Names(target));
    if absolute {
      r := if components == [] then "/" else "/" + Join(components, '/');
    } else {
      r := if components == [] then "." else Join(components, '/');
    }
  }
}
