/** The declared write scope of a handoff: its normalization, and the exact check of what really changed. */
module WriteScope {
  import opened Walks
  import opened Text

  const MAX_ENTRIES := 50

  /** os.name decides path identity (str.lower or nothing), and str.isalpha knows the letters of all scripts. */
  datatype Platform = Platform(identity: string -> string, isAlpha: char -> bool)

  datatype Scope = Scope(entries: seq<string>, required: seq<string>)
  datatype Built = Built(scope: Scope) | Rejected
  datatype Normalized = Path(path: string) | BadPath
  datatype Verdict = Passed | IgnoredPresent | OutOfScope(path: string) | RequiredMissing(path: string)

  // ---------------------------------------------------------------- paths

  /** raw.replace("\\", "/") */
  function Slashes(raw: string): (path: string)
    ensures |path| == |raw| && '\\' !in path
    ensures forall i :: 0 <= i < |raw| ==> path[i] == if raw[i] == '\\' then '/' else raw[i]
  {
    seq(|raw|, i requires 0 <= i < |raw| => if raw[i] == '\\' then '/' else raw[i])
  }

  /** A project-relative file: not absolute, not on a drive, never above the project, not a directory. */
  predicate RelativeFile(path: string, platform: Platform) {
    && path != "" && path[0] != '/' && path[|path| - 1] != '/'
    && !(|path| >= 2 && path[1] == ':' && platform.isAlpha(path[0]))
    && ".." !in Split(path, '/')
  }

  function Normalize(raw: string, platform: Platform): Normalized {
    var path := Slashes(raw);
    if raw == "" then BadPath
    else if path[0] == '/' then BadPath
    else if |path| >= 2 && path[1] == ':' && platform.isAlpha(path[0]) then BadPath
    else if ".." in Split(path, '/') then BadPath
    else if path[|path| - 1] == '/' then BadPath
    else Path(path)
  }

  /**
   * Normalization accepts exactly the spellings of project-relative files, and what it returns it accepts unchanged.
   */
  lemma NormalizeIsExact(raw: string, platform: Platform)
    ensures Normalize(raw, platform).Path? <==> RelativeFile(Slashes(raw), platform)
    ensures Normalize(raw, platform).Path? ==>
              var path := Normalize(raw, platform).path;
              RelativeFile(path, platform) && Normalize(path, platform) == Path(path)
  {
    var path := Slashes(raw);
    assert Slashes(path) == path;
  }

  // ---------------------------------------------------------------- building a scope

  ghost predicate AllNormal(raws: seq<string>, paths: seq<string>, platform: Platform) {
    |paths| == |raws| && forall i :: 0 <= i < |raws| ==> Normalize(raws[i], platform) == Path(paths[i])
  }

  function Identities(paths: seq<string>, platform: Platform): seq<string> {
    seq(|paths|, i requires 0 <= i < |paths| => platform.identity(paths[i]))
  }

  /** The scope that a declaration stands for. */
  ghost predicate Declares(writeScope: seq<string>, required: seq<string>, platform: Platform, scope: Scope) {
    && |writeScope| <= MAX_ENTRIES
    && AllNormal(writeScope, scope.entries, platform) && AllNormal(required, scope.required, platform)
    && Distinct(Identities(scope.entries, platform))
    && (forall i :: 0 <= i < |required| ==> platform.identity(scope.required[i]) in Identities(scope.entries, platform))
  }

  /** The path is the declared one with slashes for backslashes, relative to the project and the name of a file. */
  ghost predicate SpeltAs(raw: string, path: string, platform: Platform) {
    && |path| == |raw| > 0
    && (forall i :: 0 <= i < |raw| ==> path[i] == if raw[i] == '\\' then '/' else raw[i])
    && path[0] != '/' && path[|path| - 1] != '/'
    && !(|path| >= 2 && path[1] == ':' && platform.isAlpha(path[0]))
    && !(exists a: nat :: PartAt(path, '/', "..", a))
  }

  lemma NormalizeMeans(raw: string, path: string, platform: Platform)
    ensures Normalize(raw, platform) == Path(path) <==> SpeltAs(raw, path, platform)
  {
    SplitHas(Slashes(raw), '/', "..");
    if SpeltAs(raw, path, platform) {
      assert path == Slashes(raw);
    }
  }

  /**
   * A declaration of a scope: at most fifty paths, each spelt as a file of the project, none twice under path identity,
   * and the required ones, spelt so too, among them.
   */
  lemma DeclaresMeans(writeScope: seq<string>, required: seq<string>, platform: Platform, scope: Scope)
    ensures Declares(writeScope, required, platform, scope) <==>
              && |writeScope| <= 50 && |scope.entries| == |writeScope| && |scope.required| == |required|
              && (forall i :: 0 <= i < |writeScope| ==> SpeltAs(writeScope[i], scope.entries[i], platform))
              && (forall i :: 0 <= i < |required| ==> SpeltAs(required[i], scope.required[i], platform))
              && (forall i, j :: 0 <= i < j < |scope.entries| ==>
                    platform.identity(scope.entries[i]) != platform.identity(scope.entries[j]))
              && (forall i :: 0 <= i < |scope.required| ==>
                    exists j :: 0 <= j < |scope.entries| &&
                                platform.identity(scope.entries[j]) == platform.identity(scope.required[i]))
  {
    SpeltAll(writeScope, scope.entries, platform);
    SpeltAll(required, scope.required, platform);
    var idents := Identities(scope.entries, platform);
    assert forall i :: 0 <= i < |scope.entries| ==> idents[i] == platform.identity(scope.entries[i]);
    forall x ensures x in idents <==> exists j :: 0 <= j < |scope.entries| && platform.identity(scope.entries[j]) == x {
      if x in idents {
        var j :| 0 <= j < |idents| && idents[j] == x;
      }
    }
  }

  lemma SpeltAll(raws: seq<string>, paths: seq<string>, platform: Platform)
    ensures AllNormal(raws, paths, platform) <==>
              |paths| == |raws| && forall i :: 0 <= i < |raws| ==> SpeltAs(raws[i], paths[i], platform)
  {
    if |paths| == |raws| {
      forall i | 0 <= i < |raws|
        ensures Normalize(raws[i], platform) == Path(paths[i]) <==> SpeltAs(raws[i], paths[i], platform)
      {
        NormalizeMeans(raws[i], paths[i], platform);
      }
    }
  }

  method NormalizeAll(raws: seq<string>, platform: Platform) returns (ok: bool, paths: seq<string>)
    ensures ok <==> exists ps :: AllNormal(raws, ps, platform)
    ensures ok ==> AllNormal(raws, paths, platform)
  {
    paths := [];
    for i := 0 to |raws|
      invariant AllNormal(raws[..i], paths, platform)
    {
      var n := Normalize(raws[i], platform);
      if n.BadPath? {
        forall ps ensures !AllNormal(raws, ps, platform) {
          assert |ps| == |raws| ==> Normalize(raws[i], platform) != Path(ps[i]);
        }
        return false, [];
      }
      paths := paths + [n.path];
    }
    ok := true;
    assert raws[..|raws|] == raws;
  }

  /** Accepts exactly the declarations of a scope, and returns the one they declare. */
  method BuildWriteScope(writeScope: seq<string>, required: seq<string>, platform: Platform) returns (r: Built)
    ensures r.Built? ==> Declares(writeScope, required, platform, r.scope)
    ensures r.Rejected? ==> forall scope :: !Declares(writeScope, required, platform, scope)
  {
    if |writeScope| > MAX_ENTRIES {
      return Rejected;
    }
    var ok, normalized := NormalizeAll(writeScope, platform);
    if !ok {
      return Rejected;
    }
    forall scope | Declares(writeScope, required, platform, scope) ensures scope.entries == normalized {
      SameNormal(writeScope, scope.entries, normalized, platform);
    }
    var distinct, seen := CollectIdentities(normalized, platform);
    if !distinct {
      return Rejected;
    }
    var subset;
    ok, subset := NormalizeAll(required, platform);
    if !ok {
      return Rejected;
    }
    forall scope | Declares(writeScope, required, platform, scope) ensures scope.required == subset {
      SameNormal(required, scope.required, subset, platform);
    }
    for i := 0 to |subset|
      invariant forall j :: 0 <= j < i ==> platform.identity(subset[j]) in Identities(normalized, platform)
    {
      if platform.identity(subset[i]) !in seen {
        return Rejected;
      }
    }
    return Built(Scope(normalized, subset));
  }

  /** The loop that rejects a duplicate under path identity. */
  method CollectIdentities(paths: seq<string>, platform: Platform) returns (distinct: bool, seen: set<string>)
    ensures distinct <==> Distinct(Identities(paths, platform))
    ensures distinct ==> forall x :: x in seen <==> x in Identities(paths, platform)
  {
    ghost var idents := Identities(paths, platform);
    seen := {};
    for i := 0 to |paths|
      invariant forall x :: x in seen <==> x in idents[..i]
      invariant Distinct(idents[..i])
    {
      var ident := platform.identity(paths[i]);
      assert idents[..i + 1] == idents[..i] + [ident];
      if ident in seen {
        var j :| 0 <= j < i && platform.identity(paths[j]) == ident;
        assert idents[j] == idents[i];
        return false, seen;
      }
      seen := seen + {ident};
    }
    distinct := true;
    assert idents[..|paths|] == idents;
  }

  lemma SameNormal(raws: seq<string>, a: seq<string>, b: seq<string>, platform: Platform)
    requires AllNormal(raws, a, platform) && AllNormal(raws, b, platform)
    ensures a == b
  {
    forall i | 0 <= i < |raws| ensures a[i] == b[i] {
      assert Normalize(raws[i], platform) == Path(a[i]) == Path(b[i]);
    }
  }

  // ---------------------------------------------------------------- checking what changed

  /** Nothing ignored, nothing outside the scope, everything required: exact membership under path identity. */
  ghost predicate WithinScope(scope: Scope, changed: set<string>, ignored: set<string>, platform: Platform) {
    && ignored == {}
    && (forall p :: p in changed ==> exists e :: e in scope.entries && platform.identity(e) == platform.identity(p))
    && (forall r :: r in scope.required ==> exists p :: p in changed && platform.identity(p) == platform.identity(r))
  }

  method CheckWriteScope(scope: Scope, changed: set<string>, ignored: set<string>, platform: Platform)
    returns (v: Verdict)
    ensures v == Passed <==> WithinScope(scope, changed, ignored, platform)
    ensures v == IgnoredPresent <==> ignored != {}
    ensures v.OutOfScope? ==>
              v.path in changed && forall e :: e in scope.entries ==> platform.identity(e) != platform.identity(v.path)
    ensures v.RequiredMissing? ==>
              v.path in scope.required && forall p :: p in changed ==> platform.identity(p) != platform.identity(v.path)
  {
    if ignored != {} {
      return IgnoredPresent;
    }
    var scopeIdents := set e | e in scope.entries :: platform.identity(e);
    var left := changed;
    while left != {}
      invariant left <= changed
      invariant forall p :: p in changed - left ==> platform.identity(p) in scopeIdents
    {
      var path :| path in left;
      if platform.identity(path) !in scopeIdents {
        return OutOfScope(path);
      }
      left := left - {path};
    }
    var actualIdents := set p | p in changed :: platform.identity(p);
    for i := 0 to |scope.required|
      invariant forall j :: 0 <= j < i ==> platform.identity(scope.required[j]) in actualIdents
    {
      if platform.identity(scope.required[i]) !in actualIdents {
        return RequiredMissing(scope.required[i]);
      }
    }
    return Passed;
  }
}
