/** Lexical path handling: Go's filepath.Clean, IsLocal and Join for Unix as a machine that pushes path
    components onto a stack, and the driver's containment checks built on them. */
module Paths {
  import opened Text
  import opened GrpcErrors

  predicate Rooted(s: string)
  {
    s != "" && s[0] == '/'
  }

  /** One component processed by Clean. Leading ".." components pile up only when the path is relative. */
  function Push(rooted: bool, stack: seq<string>, part: string): seq<string>
  {
    if part == "" || part == "." then stack
    else if part != ".." then stack + [part]
    else if stack != [] && stack[|stack| - 1] != ".." then stack[..|stack| - 1]
    else if rooted then stack
    else stack + [".."]
  }

  function PushAll(rooted: bool, stack: seq<string>, parts: seq<string>): seq<string>
    decreases |parts|
  {
    if parts == [] then stack else PushAll(rooted, Push(rooted, stack, parts[0]), parts[1..])
  }

  /** The components of the cleaned path. */
  function Components(s: string): seq<string>
  {
    PushAll(Rooted(s), [], Split(s, '/'))
  }

  function Show(rooted: bool, parts: seq<string>): string
  {
    if rooted then "/" + Join(parts, '/')
    else if parts == [] then "."
    else Join(parts, '/')
  }

  /** filepath.Clean. */
  function Clean(s: string): string
  {
    Show(Rooted(s), Components(s))
  }

  /** filepath.IsLocal: not empty, not absolute, and not leaving the directory it is evaluated in. */
  predicate IsLocal(s: string)
  {
    s != "" && !Rooted(s) && (Components(s) == [] || Components(s)[0] != "..")
  }

  /** filepath.Join of two elements; empty elements are ignored. */
  function JoinPath(a: string, b: string): string
  {
    if a == "" && b == "" then ""
    else if a == "" then Clean(b)
    else if b == "" then Clean(a + "/")
    else Clean(a + "/" + b)
  }

  /** ensureStrictSubpath. */
  predicate IsStrictSubpath(s: string)
  {
    IsLocal(s) && Clean(s) != "."
  }

  // ---- Facts about the component stack ----

  predicate Atom(part: string)
  {
    part != "" && part != "." && '/' !in part
  }

  /** A cleaned component list: ".." only at the front, and only in a relative path. */
  predicate Normal(rooted: bool, parts: seq<string>)
  {
    && (forall p | p in parts :: Atom(p))
    && (forall i | 0 <= i < |parts| && parts[i] == ".." :: !rooted && forall j | 0 <= j < i :: parts[j] == "..")
  }

  lemma {:induction false} PushAllAppend(rooted: bool, stack: seq<string>, a: seq<string>, b: seq<string>)
    ensures PushAll(rooted, stack, a + b) == PushAll(rooted, PushAll(rooted, stack, a), b)
    decreases |a|
  {
    if a == [] {
      assert a + b == b;
    } else {
      assert (a + b)[1..] == a[1..] + b;
      PushAllAppend(rooted, Push(rooted, stack, a[0]), a[1..], b);
    }
  }

  lemma {:induction false} PushAllNormal(rooted: bool, stack: seq<string>, parts: seq<string>)
    requires Normal(rooted, stack)
    requires forall p | p in parts :: '/' !in p
    ensures Normal(rooted, PushAll(rooted, stack, parts))
    decreases |parts|
  {
    if parts != [] {
      PushNormal(rooted, stack, parts[0]);
      PushAllNormal(rooted, Push(rooted, stack, parts[0]), parts[1..]);
    }
  }

  lemma PushNormal(rooted: bool, stack: seq<string>, part: string)
    requires Normal(rooted, stack) && '/' !in part
    ensures Normal(rooted, Push(rooted, stack, part))
  {
    var next := Push(rooted, stack, part);
    if next != stack && part == ".." && |next| > |stack| && stack != [] {
      assert stack[|stack| - 1] == "..";
    }
  }

  /** Pushing an already cleaned list onto an empty stack rebuilds it. */
  lemma {:induction false} PushAllFixpoint(rooted: bool, done: seq<string>, parts: seq<string>)
    requires Normal(rooted, done + parts)
    ensures PushAll(rooted, done, parts) == done + parts
    decreases |parts|
  {
    if parts == [] {
      assert done + parts == done;
    } else {
      var part := parts[0];
      assert (done + parts)[|done|] == part;
      assert Atom(part);
      assert part == ".." && done != [] ==> (done + parts)[|done| - 1] == "..";
      assert Push(rooted, done, part) == done + [part];
      assert done + [part] + parts[1..] == done + parts;
      PushAllFixpoint(rooted, done + [part], parts[1..]);
    }
  }

  /** In a relative path, a ".." at the bottom of the stack stays there. */
  lemma {:induction false} EscapeStays(stack: seq<string>, parts: seq<string>)
    requires stack != [] && stack[0] == ".."
    ensures var s := PushAll(false, stack, parts); s != [] && s[0] == ".."
    decreases |parts|
  {
    if parts != [] {
      EscapeStays(Push(false, stack, parts[0]), parts[1..]);
    }
  }

  /** A relative path that does not escape only adds to whatever stack it is pushed onto. */
  lemma {:induction false} LocalOnlyAdds(rooted: bool, base: seq<string>, own: seq<string>, parts: seq<string>)
    requires forall i | 0 <= i < |own| :: own[i] != ".."
    requires var s := PushAll(false, own, parts); s == [] || s[0] != ".."
    ensures PushAll(rooted, base + own, parts) == base + PushAll(false, own, parts)
    ensures forall p | p in PushAll(false, own, parts) :: p != ".."
    decreases |parts|
  {
    if parts != [] {
      var part := parts[0];
      var next := Push(false, own, part);
      if part == ".." && own == [] {
        EscapeStays(next, parts[1..]);
        assert false;
      }
      assert Push(rooted, base + own, part) == base + next by {
        if part == ".." {
          assert (base + own)[|base + own| - 1] == own[|own| - 1];
          assert (base + own)[..|base + own| - 1] == base + own[..|own| - 1];
        } else if part != "" && part != "." {
          assert base + own + [part] == base + (own + [part]);
        }
      }
      LocalOnlyAdds(rooted, base, next, parts[1..]);
    }
  }

  // ---- Cleaning as a whole ----

  lemma ComponentsNormal(s: string)
    ensures Normal(Rooted(s), Components(s))
  {
    PushAllNormal(Rooted(s), [], Split(s, '/'));
  }

  lemma JoinFirst(parts: seq<string>)
    requires forall p | p in parts :: Atom(p)
    ensures parts != [] ==> Join(parts, '/') != "" && Join(parts, '/')[0] != '/'
  {
    if parts != [] {
      assert Atom(parts[0]);
      assert parts[0][0] in parts[0];
    }
  }

  /** Printing a cleaned component list and cleaning the text gives the list back. */
  lemma ShowRoundTrip(rooted: bool, parts: seq<string>)
    requires Normal(rooted, parts)
    ensures Rooted(Show(rooted, parts)) == rooted
    ensures Components(Show(rooted, parts)) == parts
  {
    JoinFirst(parts);
    assert [] + parts == parts;
    PushAllFixpoint(rooted, [], parts);
    if parts == [] {
      assert Split("/", '/') == ["", ""] && Split(".", '/') == ["."] by {
        assert "/"[1..] == "";
        SplitAtom(".", '/');
      }
      assert PushAll(rooted, [], ["", ""]) == [] by {
        assert ["", ""][1..] == [""];
      }
      assert PushAll(rooted, [], ["."]) == [];
      assert "/" + Join(parts, '/') == "/";
    } else {
      forall p | p in parts ensures '/' !in p { assert Atom(p); }
      SplitJoin(parts, '/');
      if rooted {
        var text := Join(parts, '/');
        assert ("/" + text)[1..] == text;
        assert Split("/" + text, '/') == [""] + parts;
        assert ([""] + parts)[1..] == parts;
      }
    }
  }

  lemma CleanRoundTrip(s: string)
    ensures Rooted(Clean(s)) == Rooted(s) && Components(Clean(s)) == Components(s)
    ensures Clean(Clean(s)) == Clean(s)
  {
    ComponentsNormal(s);
    ShowRoundTrip(Rooted(s), Components(s));
  }

  /** Joining a path that does not escape appends its components to those of the base. */
  lemma JoinAppends(base: string, sub: string)
    requires IsLocal(sub)
    ensures Rooted(JoinPath(base, sub)) == Rooted(base)
    ensures Components(JoinPath(base, sub)) == Components(base) + Components(sub)
    ensures forall p | p in Components(sub) :: p != ".."
  {
    LocalOnlyAdds(Rooted(base), Components(base), [], Split(sub, '/'));
    assert Components(base) + [] == Components(base);
    if base == "" {
      assert Components("") == [] by { assert Split("", '/') == [""]; }
      assert [] + Components(sub) == Components(sub);
      CleanRoundTrip(sub);
    } else {
      var whole := base + "/" + sub;
      assert Rooted(whole) == Rooted(base);
      SplitAppend(base, sub, '/');
      PushAllAppend(Rooted(base), [], Split(base, '/'), Split(sub, '/'));
      CleanRoundTrip(whole);
    }
  }

  /** The rules of Clean: a name is added, "." and repeated slashes are dropped, ".." takes away the name before it,
      and stays at the front of a relative path only. */
  lemma CleanRules(p: string, x: string)
    requires p != "" && Atom(x) && x != ".."
    ensures Components(p + "/" + x) == Components(p) + [x]
    ensures Components(p + "/" + x + "/..") == Components(p)
    ensures Components(p + "/.") == Components(p) && Components(p + "/") == Components(p)
    ensures Components("/..") == [] && Components("..") == [".."] && Components("../..") == ["..", ".."]
  {
    hide Components, PushAll, Split;
    var q := p + "/" + x;
    OneMoreComponent(p, x);
    OneMoreComponent(q, "..");
    OneMoreComponent(p, ".");
    OneMoreComponent(p, "");
    assert p + "/" + "" == p + "/" && p + "/" + "." == p + "/." && q + "/" + ".." == p + "/" + x + "/..";
    var all := Components(p) + [x];
    assert all[..|all| - 1] == Components(p);
    ParentRules();
  }

  lemma ParentRules()
    ensures Components("/..") == [] && Components("..") == [".."] && Components("../..") == ["..", ".."]
  {
    hide Components, Split, PushAll;
    ParentAlone();
    ParentOfRoot();
    OneMoreComponent("..", "..");
    assert ".." + "/" + ".." == "../..";
  }

  lemma ParentAlone()
    ensures Components("..") == [".."]
  {
    SplitAtom("..", '/');
    hide Split;
    assert [".."][1..] == [];
  }

  lemma ParentOfRoot()
    ensures Components("/..") == []
  {
    SplitAppend("", "..", '/');
    SplitAtom("..", '/');
    SplitAtom("", '/');
    hide Split;
    assert ("" + ['/'] + "..") == "/..";
    assert Split("/..", '/') == ["", ".."] && ["", ".."][1..] == [".."] && [".."][1..] == [];
  }

  lemma OneMoreComponent(p: string, x: string)
    requires p != "" && '/' !in x
    ensures Components(p + "/" + x) == Push(Rooted(p), Components(p), x)
  {
    SplitAppend(p, x, '/');
    SplitAtom(x, '/');
    PushAllAppend(Rooted(p), [], Split(p, '/'), [x]);
    hide Split, Push;
    assert [x][1..] == [];
    assert Rooted(p + "/" + x) == Rooted(p);
    var stack := Components(p);
    assert PushAll(Rooted(p), stack, [x]) == PushAll(Rooted(p), Push(Rooted(p), stack, x), []);
  }

  /** The check is exactly that some component remains and none of them is "..". */
  lemma StrictSubpathMeaning(s: string)
    ensures IsStrictSubpath(s) <==>
            s != "" && !Rooted(s) && Components(s) != [] && Components(s)[0] != ".."
    ensures IsStrictSubpath(s) ==> forall p | p in Components(s) :: Atom(p) && p != ".."
  {
    ComponentsNormal(s);
    CleanRoundTrip(s);
    if IsStrictSubpath(s) {
      JoinAppends("", s);
    }
    if !Rooted(s) && Clean(s) == "." {
      assert Components(".") == [] by { SplitAtom(".", '/'); }
    }
  }

  // ---- The driver's paths ----

  /** getInternalMountPath. */
  function InternalMountPath(workingDir: string, target: string): Result<string>
  {
    var inner := Trim(target, '/');
    if IsStrictSubpath(inner) then Ok(JoinPath(workingDir, inner)) else Err(INTERNAL)
  }

  /** getInternalVolumePath. */
  function InternalVolumePath(workingDir: string, target: string, subDir: string): Result<string>
  {
    match InternalMountPath(workingDir, target)
    case Err(e) => Err(e)
    case Ok(mountPath) =>
      if IsStrictSubpath(subDir) then Ok(JoinPath(mountPath, subDir)) else Err(INVALID)
  }

  /** Path containment: for every working directory, target and sub-directory that pass the checks, the
      components of the path are those of the working directory, then those of the target, then those of
      the sub-directory; both additions are non-empty and free of "..". */
  lemma VolumePathContainment(workingDir: string, target: string, subDir: string)
    ensures InternalVolumePath(workingDir, target, subDir).Ok? <==>
            IsStrictSubpath(Trim(target, '/')) && IsStrictSubpath(subDir)
    ensures InternalVolumePath(workingDir, target, subDir).Err? ==>
              InternalVolumePath(workingDir, target, subDir).error ==
              Status(if IsStrictSubpath(Trim(target, '/')) then InvalidArgument else Internal, PLAIN)
    ensures InternalVolumePath(workingDir, target, subDir).Ok? ==>
              var inner := Components(Trim(target, '/'));
              var added := Components(subDir);
              var path := InternalVolumePath(workingDir, target, subDir).value;
              && Components(path) == Components(workingDir) + inner + added
              && Rooted(path) == Rooted(workingDir)
              && inner != [] && added != [] && ".." !in inner && ".." !in added
              && Components(InternalMountPath(workingDir, target).value) == Components(workingDir) + inner
  {
    if InternalVolumePath(workingDir, target, subDir).Ok? {
      var inner := Trim(target, '/');
      StrictSubpathMeaning(inner);
      StrictSubpathMeaning(subDir);
      JoinAppends(workingDir, inner);
      JoinAppends(JoinPath(workingDir, inner), subDir);
    }
  }

  /** getSourceString. */
  function SourceString(address: string, filesystem: string): string
  {
    address + "@tcp:/" + filesystem
  }

  /** The components of a filesystem's source, for an address without slash. */
  lemma SourceComponents(address: string)
    requires '/' !in address
    ensures Components(address + "@tcp:/lustrefs") == [address + "@tcp:", "lustrefs"]
  {
    var host := address + "@tcp:";
    var all := address + "@tcp:/lustrefs";
    assert host[|host| - 1] == ':' && |"lustrefs"| == 8;
    assert Atom(host) && Atom("lustrefs") && host != "..";
    TwoComponents(all, host, "lustrefs") by {
      assert all == host + ['/'] + "lustrefs";
    }
  }

  lemma TwoComponents(all: string, a: string, b: string)
    requires Atom(a) && Atom(b) && a != ".." && b != ".." && all == a + ['/'] + b
    ensures Components(all) == [a, b]
  {
    SplitAppend(a, b, '/');
    SplitAtom(a, '/');
    SplitAtom(b, '/');
    hide Split, PushAll;
    assert Split(all, '/') == [a, b];
    assert [] + [a, b] == [a, b];
    PushAllFixpoint(Rooted(all), [], [a, b]);
  }

  /** The mount source of a volume with a sub-directory lies strictly below that of the filesystem,
      whatever text the sub-directory has become. */
  lemma SourceContainment(address: string, filesystem: string, subDir: string)
    requires IsStrictSubpath(subDir)
    ensures var root := Components(SourceString(address, filesystem));
            var source := Components(JoinPath(SourceString(address, filesystem), subDir));
            && root < source && source[|root|..] == Components(subDir)
            && ".." !in source[|root|..]
  {
    StrictSubpathMeaning(subDir);
    JoinAppends(SourceString(address, filesystem), subDir);
  }
}
