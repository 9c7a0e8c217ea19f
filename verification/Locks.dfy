/** Resource locks and the ready batch (packages/agent/src/execution/locks.ts). */
module Locks {
  import opened Wrappers
  import opened ExecutionTypes
  import opened JsText

  datatype Mode = Read | Write

  datatype Lock = Lock(kind: string, scope: string, mode: Option<Mode>)

  function ParseLock(raw: string): Lock {
    if "fs-read:" <= raw then Lock("fs", raw[|"fs-read:"|..], Some(Read))
    else if "fs-write:" <= raw then Lock("fs", raw[|"fs-write:"|..], Some(Write))
    else if "sandbox-workdir:" <= raw then Lock("sandbox-workdir", raw[|"sandbox-workdir:"|..], None)
    else if "integration-write:" <= raw then Lock("integration-write", raw[|"integration-write:"|..], None)
    else Lock(raw, raw, None)
  }

  predicate NoDoubleSlash(s: string) {
    |s| < 2 || (!(s[0] == '/' && s[1] == '/') && NoDoubleSlash(s[1..]))
  }

  lemma {:induction false} NoDoubleSlashPrefix(s: string, n: nat)
    requires NoDoubleSlash(s) && n <= |s|
    ensures NoDoubleSlash(s[..n])
  {
    if n >= 2 {
      NoDoubleSlashPrefix(s[1..], n - 1);
      assert s[..n][1..] == s[1..][..n - 1];
    }
  }

  lemma {:induction false} NoDoubleSlashAt(s: string, i: nat)
    requires NoDoubleSlash(s) && 0 < i < |s|
    ensures !(s[i - 1] == '/' && s[i] == '/')
  {
    if i > 1 {
      NoDoubleSlashAt(s[1..], i - 1);
    }
  }

  /** Every run of slashes becomes one slash. */
  function CollapseSlashes(s: string): (r: string)
    ensures |r| <= |s| && (s != [] ==> r != [] && r[0] == s[0] && r[|r| - 1] == s[|s| - 1])
    ensures NoDoubleSlash(r)
  {
    if |s| < 2 then s
    else if s[0] == '/' && s[1] == '/' then CollapseSlashes(s[1..])
    else
      var rest := CollapseSlashes(s[1..]);
      assert ([s[0]] + rest)[1..] == rest;
      [s[0]] + rest
  }

  function NormalizePath(path: string): (r: string)
    ensures r != [] && NoDoubleSlash(r)
  {
    var trimmed := Trim(path);
    if trimmed == [] then "/"
    else
      var collapsed := CollapseSlashes(trimmed);
      if collapsed[|collapsed| - 1] == '/' && collapsed != "/" then
        assert |collapsed| > 1;
        NoDoubleSlashPrefix(collapsed, |collapsed| - 1);
        collapsed[..|collapsed| - 1]
      else collapsed
  }

  /**
   * A normalised path has no doubled slash, none at its end unless it is the root, and no white space at its head; nor at
   * its end, unless that stood before the slash that was dropped.
   */
  lemma NormalizedShape(path: string)
    ensures var r := NormalizePath(path);
            && r != [] && NoDoubleSlash(r) && (r == "/" || r[|r| - 1] != '/')
            && !BlankChar(r[0])
            && (BlankChar(r[|r| - 1]) <==> UncoversWhitespace(CollapseSlashes(Trim(path))))
  {
    var trimmed := Trim(path);
    if trimmed != [] {
      ShapeOf(CollapseSlashes(trimmed), NormalizePath(path));
    }
  }

  lemma ShapeOf(c: string, r: string)
    requires c != [] && NoDoubleSlash(c) && !BlankChar(c[0]) && !BlankChar(c[|c| - 1])
    requires r == if c[|c| - 1] == '/' && c != "/" then c[..|c| - 1] else c
    ensures r != [] && (r == "/" || r[|r| - 1] != '/') && r[0] == c[0]
    ensures BlankChar(r[|r| - 1]) <==> UncoversWhitespace(c)
  {
    if |c| > 1 {
      NoDoubleSlashAt(c, |c| - 1);
    }
  }

  /** The names of the directories on a path, without the empty ones that doubled, leading and trailing slashes make. */
  function NamesAmong(parts: seq<string>): seq<string> {
    if parts == [] then []
    else if parts[0] == "" then NamesAmong(parts[1..])
    else [parts[0]] + NamesAmong(parts[1..])
  }

  lemma {:induction false} NamesAppend(a: seq<string>, b: seq<string>)
    ensures NamesAmong(a + b) == NamesAmong(a) + NamesAmong(b)
  {
    if a == [] {
      assert a + b == b;
    } else {
      assert (a + b)[1..] == a[1..] + b;
      NamesAppend(a[1..], b);
    }
  }

  lemma {:induction false} CollapseKeepsNames(s: string)
    ensures Split(CollapseSlashes(s), '/')[0] == Split(s, '/')[0]
    ensures NamesAmong(Split(CollapseSlashes(s), '/')[1..]) == NamesAmong(Split(s, '/')[1..])
  {
    if |s| >= 2 {
      var rest := s[1..];
      CollapseKeepsNames(rest);
      if s[0] == '/' && s[1] == '/' {
        assert Split(s, '/')[1..] == Split(rest, '/');
        assert Split(rest, '/')[0] == "";
      } else {
        var c := CollapseSlashes(s);
        assert c[0] == s[0] && c[1..] == CollapseSlashes(rest);
        if s[0] == '/' {
          assert Split(c, '/')[1..] == Split(c[1..], '/') && Split(s, '/')[1..] == Split(rest, '/');
        } else {
          assert Split(c, '/')[1..] == Split(c[1..], '/')[1..] && Split(s, '/')[1..] == Split(rest, '/')[1..];
        }
      }
    }
  }

  lemma NamesOf(s: string, t: string)
    requires Split(s, '/')[0] == Split(t, '/')[0] && NamesAmong(Split(s, '/')[1..]) == NamesAmong(Split(t, '/')[1..])
    ensures NamesAmong(Split(s, '/')) == NamesAmong(Split(t, '/'))
  {
  }

  /** Normalising a path keeps the names on it, in order, and whether it is absolute; the empty path is the root. */
  lemma NormalizeKeepsNames(path: string)
    ensures NamesAmong(Split(NormalizePath(path), '/')) == NamesAmong(Split(Trim(path), '/'))
    ensures NormalizePath(path)[0] == '/' <==> Trim(path) == "" || Trim(path)[0] == '/'
  {
    var trimmed := Trim(path);
    if trimmed == "" {
      assert Split("/", '/') == ["", ""] by {
        assert "/"[1..] == "";
      }
    } else {
      var c := CollapseSlashes(trimmed);
      CollapseKeepsNames(trimmed);
      NamesOf(c, trimmed);
      if c[|c| - 1] == '/' && c != "/" {
        assert c == c[..|c| - 1] + ['/'];
        SplitTrailing(c[..|c| - 1], '/');
        NamesAppend(Split(c[..|c| - 1], '/'), [""]);
        assert NamesAmong([""]) == [];
      }
    }
  }

  predicate PathsOverlap(left: string, right: string) {
    SameOrBelow(NormalizePath(left), NormalizePath(right), "/")
  }

  /** One of the two is the other, or extends it after a separator. */
  predicate SameOrBelow(a: string, b: string, separator: string) {
    a == b || b + separator <= a || a + separator <= b
  }

  predicate LocksConflict(left: string, right: string) {
    Excludes(ParseLock(left), ParseLock(right))
  }

  predicate Excludes(left: Lock, right: Lock) {
    if left.kind != right.kind then false
    else if left.kind == "computer-desktop" || left.kind == "memory-write" then true
    else if left.kind == "fs" then
      if left.mode == Some(Read) && right.mode == Some(Read) then false
      else PathsOverlap(left.scope, right.scope)
    else if left.kind == "sandbox-workdir" then PathsOverlap(left.scope, right.scope)
    else if left.kind == "integration-write" then SameOrBelow(left.scope, right.scope, ":")
    else left.scope == right.scope
  }

  predicate SomeRelated(related: (string, string) -> bool, left: seq<string>, right: seq<string>) {
    exists l | l in left :: exists r | r in right :: related(l, r)
  }

  predicate TaskConflicts(task: Task, activeLocks: seq<string>) {
    SomeRelated(LocksConflict, task.resourceLocks, activeLocks)
  }

  // ------------------------------------------------------------------
  // What a lock denotes
  // ------------------------------------------------------------------

  /** A path as the list of directories from the root down. The root is the single empty component. */
  function Components(path: string): seq<string> {
    var n := NormalizePath(path);
    if n == "/" then [""] else Split(n, '/')
  }

  predicate Nested(a: seq<string>, b: seq<string>) {
    a <= b || b <= a
  }

  /** One of the two is the root and the other is an absolute path below it. */
  predicate RootAgainstAbsolute(left: string, right: string) {
    var a, b := NormalizePath(left), NormalizePath(right);
    a != b && ((a == "/" && b[0] == '/') || (b == "/" && a[0] == '/'))
  }

  /** A lock read as the resource it names, on component lists and not on strings. */
  datatype Resource =
    | Files(path: seq<string>, readOnly: bool)
    | Workdir(path: seq<string>)
    | Integration(scope: seq<string>)
    | Named(name: string)

  function Denote(raw: string): Resource {
    DenoteLock(ParseLock(raw))
  }

  function DenoteLock(lock: Lock): Resource {
    if lock.kind == "fs" then Files(Components(lock.scope), lock.mode == Some(Read))
    else if lock.kind == "sandbox-workdir" then Workdir(Components(lock.scope))
    else if lock.kind == "integration-write" then Integration(Split(lock.scope, ':'))
    else Named(lock.kind)
  }

  predicate Clash(a: Resource, b: Resource) {
    match (a, b)
    case (Files(p, r), Files(q, s)) => !(r && s) && Nested(p, q)
    case (Workdir(p), Workdir(q)) => Nested(p, q)
    case (Integration(p), Integration(q)) => Nested(p, q)
    case (Named(m), Named(n)) => m == n
    case _ => false
  }

  /** The two locks name paths, one of them the root and the other an absolute path below it. */
  predicate RootMissed(left: string, right: string) {
    var a, b := ParseLock(left), ParseLock(right);
    OnPaths(a) && RootAgainstAbsolute(a.scope, b.scope)
  }

  /**
   * The string-prefix test agrees with nesting of component lists exactly when it is not asked about the root and
   * an absolute path below it: the test does not see that "/" contains "/src".
   */
  lemma {:induction false} PathsOverlapIsNesting(left: string, right: string)
    ensures (PathsOverlap(left, right) <==> Nested(Components(left), Components(right)))
       <==> !RootAgainstAbsolute(left, right)
  {
    var a, b := NormalizePath(left), NormalizePath(right);
    SplitPrefix(a, b, '/');
    SplitPrefix(b, a, '/');
    if a == "/" && b != "/" {
      RootIsAlone(b);
    } else if b == "/" && a != "/" {
      RootIsAlone(a);
    }
  }

  lemma RootIsAlone(n: string)
    requires n != [] && n != "/" && NoDoubleSlash(n)
    ensures !("/" + "/" <= n) && !(n + "/" <= "/")
    ensures Nested([""], Split(n, '/')) <==> n[0] == '/'
  {
    assert |n| > 1 ==> !(n[0] == '/' && n[1] == '/');
    assert |n + "/"| > |"/"|;
    var parts := Split(n, '/');
    PrefixByHead([""], parts);
    if parts <= [""] {
      PrefixByHead(parts, [""]);
    }
    if n[0] != '/' {
      assert |parts[0]| > 0;
    }
  }

  /** Two locks conflict exactly when the resources they denote clash, but for the root that the test misses. */
  lemma LocksConflictIsClash(left: string, right: string)
    ensures LocksConflict(left, right) <==> Clash(Denote(left), Denote(right)) && !RootMissed(left, right)
  {
    ParseShape(left);
    ParseShape(right);
    ExcludesIsClash(ParseLock(left), ParseLock(right));
  }

  /** A lock of no known kind is its own scope. */
  predicate WellShaped(lock: Lock) {
    lock.kind in {"fs", "sandbox-workdir", "integration-write"} || lock.scope == lock.kind
  }

  lemma ParseShape(raw: string)
    ensures WellShaped(ParseLock(raw))
  {
  }

  predicate OnPaths(lock: Lock) {
    lock.kind == "fs" || lock.kind == "sandbox-workdir"
  }

  lemma ExcludesIsClash(a: Lock, b: Lock)
    requires WellShaped(a) && WellShaped(b)
    ensures Excludes(a, b) <==>
            Clash(DenoteLock(a), DenoteLock(b)) && !(OnPaths(a) && RootAgainstAbsolute(a.scope, b.scope))
  {
    if a.kind != b.kind {
      KindsKeepApart(a, b);
    } else if OnPaths(a) {
      PathLocks(a, b);
    } else {
      OtherLocks(a, b);
    }
  }

  lemma PathLocks(a: Lock, b: Lock)
    requires a.kind == b.kind && OnPaths(a)
    ensures Excludes(a, b) <==> Clash(DenoteLock(a), DenoteLock(b)) && !RootAgainstAbsolute(a.scope, b.scope)
  {
    OverlapExactly(a.scope, b.scope);
    if a.kind == "fs" {
      assert DenoteLock(a) == Files(Components(a.scope), a.mode == Some(Read));
      assert DenoteLock(b) == Files(Components(b.scope), b.mode == Some(Read));
      assert Excludes(a, b) <==> !(a.mode == Some(Read) && b.mode == Some(Read)) && PathsOverlap(a.scope, b.scope);
    }
  }

  lemma OtherLocks(a: Lock, b: Lock)
    requires a.kind == b.kind && !OnPaths(a) && WellShaped(a) && WellShaped(b)
    ensures Excludes(a, b) <==> Clash(DenoteLock(a), DenoteLock(b))
  {
    ScopesNest(a.scope, b.scope);
  }

  lemma OverlapExactly(left: string, right: string)
    ensures PathsOverlap(left, right) <==> Nested(Components(left), Components(right)) && !RootAgainstAbsolute(left, right)
  {
    PathsOverlapIsNesting(left, right);
    RootOverlapsNothingBelow(left, right);
  }

  lemma ScopesNest(left: string, right: string)
    ensures SameOrBelow(left, right, ":") <==> Nested(Split(left, ':'), Split(right, ':'))
  {
    SplitPrefix(left, right, ':');
    SplitPrefix(right, left, ':');
  }

  /** The kind of the locks that denote a resource. */
  function KindOfResource(r: Resource): string {
    match r
    case Files(_, _) => "fs"
    case Workdir(_) => "sandbox-workdir"
    case Integration(_) => "integration-write"
    case Named(name) => name
  }

  lemma DenotesKind(lock: Lock)
    ensures KindOfResource(DenoteLock(lock)) == lock.kind
  {
  }

  lemma ClashSameKind(a: Resource, b: Resource)
    requires Clash(a, b)
    ensures KindOfResource(a) == KindOfResource(b)
  {
  }

  lemma KindsKeepApart(a: Lock, b: Lock)
    requires a.kind != b.kind
    ensures !Clash(DenoteLock(a), DenoteLock(b)) && !Excludes(a, b)
  {
    DenotesKind(a);
    DenotesKind(b);
    var left, right := DenoteLock(a), DenoteLock(b);
    if Clash(left, right) {
      ClashSameKind(left, right);
      assert false;
    }
  }

  lemma RootOverlapsNothingBelow(left: string, right: string)
    ensures RootAgainstAbsolute(left, right) ==> !PathsOverlap(left, right)
  {
    var a, b := NormalizePath(left), NormalizePath(right);
    if RootAgainstAbsolute(left, right) {
      RootIsAlone(if a == "/" then b else a);
    }
  }

  lemma LocksConflictSymmetric(left: string, right: string)
    ensures LocksConflict(left, right) == LocksConflict(right, left)
  {
    ExcludesSymmetric(ParseLock(left), ParseLock(right));
  }

  lemma ExcludesSymmetric(a: Lock, b: Lock)
    ensures Excludes(a, b) == Excludes(b, a)
  {
    OverlapSymmetric(a.scope, b.scope);
  }

  lemma OverlapSymmetric(left: string, right: string)
    ensures PathsOverlap(left, right) == PathsOverlap(right, left)
  {
  }

  /**
   * A builder without path hints holds "sandbox-workdir:/", which is meant to cover the whole sandbox. It excludes no
   * lock on a directory below the root.
   */
  lemma RootWorkdirExcludesNothingBelow(path: string)
    requires NormalizePath(path) != "/" && NormalizePath(path)[0] == '/'
    ensures Clash(Denote("sandbox-workdir:" + "/"), Denote("sandbox-workdir:" + path))
    ensures !LocksConflict("sandbox-workdir:" + "/", "sandbox-workdir:" + path)
  {
    ParseWorkdir("/");
    ParseWorkdir(path);
    RootAgainst(path);
  }

  lemma RootAgainst(path: string)
    requires NormalizePath(path) != "/" && NormalizePath(path)[0] == '/'
    ensures Nested(Components("/"), Components(path)) && !PathsOverlap("/", path)
  {
    NormalizeFixpoint("/");
    RootIsAlone(NormalizePath(path));
    RootOverlapsNothingBelow("/", path);
  }

  /** Readers of files share them; a reader and a writer, or two writers, exclude each other where their paths overlap. */
  lemma FileLocks(p: string, q: string)
    ensures !LocksConflict("fs-read:" + p, "fs-read:" + q)
    ensures LocksConflict("fs-read:" + p, "fs-write:" + q) <==> PathsOverlap(p, q)
    ensures LocksConflict("fs-write:" + p, "fs-read:" + q) <==> PathsOverlap(p, q)
    ensures LocksConflict("fs-write:" + p, "fs-write:" + q) <==> PathsOverlap(p, q)
  {
    ParseFiles(p);
    ParseFiles(q);
  }

  lemma ParseFiles(path: string)
    ensures ParseLock("fs-read:" + path) == Lock("fs", path, Some(Read))
    ensures ParseLock("fs-write:" + path) == Lock("fs", path, Some(Write))
  {
    var reading, writing := "fs-read:" + path, "fs-write:" + path;
    assert writing[3] == 'w' && writing[|"fs-write:"|..] == path;
    assert reading[|"fs-read:"|..] == path;
  }

  /** Locks on working directories exclude each other where they overlap, and integration scopes where one extends the other. */
  lemma ScopedLocks(p: string, q: string)
    ensures LocksConflict("sandbox-workdir:" + p, "sandbox-workdir:" + q) <==> PathsOverlap(p, q)
    ensures LocksConflict("integration-write:" + p, "integration-write:" + q) <==> Nested(Split(p, ':'), Split(q, ':'))
    ensures !LocksConflict("sandbox-workdir:" + p, "fs-write:" + q) && !LocksConflict("sandbox-workdir:" + p, "fs-read:" + q)
  {
    ParseWorkdir(p);
    ParseWorkdir(q);
    ParseFiles(q);
    IntegrationLocks(p, q);
    KindsKeepApart(Lock("sandbox-workdir", p, None), Lock("fs", q, Some(Write)));
    KindsKeepApart(Lock("sandbox-workdir", p, None), Lock("fs", q, Some(Read)));
  }

  lemma IntegrationLocks(p: string, q: string)
    ensures LocksConflict("integration-write:" + p, "integration-write:" + q) <==> Nested(Split(p, ':'), Split(q, ':'))
  {
    ParseIntegrationLock(p);
    ParseIntegrationLock(q);
    ScopesNest(p, q);
  }

  lemma ParseIntegrationLock(scope: string)
    ensures ParseLock("integration-write:" + scope) == Lock("integration-write", scope, None)
  {
    var raw := "integration-write:" + scope;
    assert raw[0] == 'i' && raw[|"integration-write:"|..] == scope;
  }

  lemma ParseWorkdir(scope: string)
    ensures ParseLock("sandbox-workdir:" + scope) == Lock("sandbox-workdir", scope, None)
  {
    var raw := "sandbox-workdir:" + scope;
    assert raw[0] == 's' && raw[|"sandbox-workdir:"|..] == scope;
  }

  /** Normalising twice changes nothing, unless dropping the trailing slash uncovers whitespace. */
  lemma {:induction false} NormalizeIdempotent(path: string)
    ensures NormalizePath(NormalizePath(path)) == NormalizePath(path)
       <==> !UncoversWhitespace(CollapseSlashes(Trim(path)))
  {
    var trimmed := Trim(path);
    if trimmed == [] {
      NormalizeFixpoint("/");
    } else {
      Renormalized(CollapseSlashes(trimmed), NormalizePath(path));
    }
  }

  /** Dropping the slash of "a /" leaves a blank at the end, which the next normalisation drops as well. */
  lemma NormalizedTwiceDiffers()
    ensures NormalizePath("a /") == "a " && NormalizePath("a ") == "a"
  {
    TrimFixpoint("a /");
    CollapseFixpoint("a /");
    TrimsBlank();
    CollapseFixpoint("a");
  }

  lemma TrimsBlank()
    ensures Trim("a ") == "a"
  {
    assert TrimStart("a ", BlankChar) == "a ";
    assert "a "[..1] == "a" && TrimEnd("a", BlankChar) == "a";
  }

  lemma Renormalized(c: string, n: string)
    requires c != [] && NoDoubleSlash(c) && !BlankChar(c[0]) && !BlankChar(c[|c| - 1])
    requires n == if c[|c| - 1] == '/' && c != "/" then c[..|c| - 1] else c
    requires n != [] && NoDoubleSlash(n)
    ensures NormalizePath(n) == n <==> !UncoversWhitespace(c)
  {
    if UncoversWhitespace(c) {
      NormalizedShrinks(n);
    } else {
      if |c| > 1 {
        NoDoubleSlashAt(c, |c| - 1);
      }
      NormalizeFixpoint(n);
    }
  }

  lemma NormalizedNoLonger(path: string)
    requires Trim(path) != []
    ensures |NormalizePath(path)| <= |Trim(path)|
  {
  }

  lemma NormalizedShrinks(n: string)
    requires n != [] && !BlankChar(n[0]) && BlankChar(n[|n| - 1])
    ensures NormalizePath(n) != n
  {
    TrimKeepsHead(n);
    NormalizedNoLonger(n);
  }

  lemma NormalizeFixpoint(n: string)
    requires n != [] && NoDoubleSlash(n) && (n == "/" || n[|n| - 1] != '/')
    requires !BlankChar(n[0]) && !BlankChar(n[|n| - 1])
    ensures NormalizePath(n) == n
  {
    TrimFixpoint(n);
    CollapseFixpoint(n);
  }

  predicate UncoversWhitespace(s: string) {
    |s| > 1 && s[|s| - 1] == '/' && BlankChar(s[|s| - 2])
  }

  lemma {:induction false} CollapseFixpoint(s: string)
    requires NoDoubleSlash(s)
    ensures CollapseSlashes(s) == s
  {
    if |s| >= 2 {
      CollapseFixpoint(s[1..]);
      assert s == [s[0]] + s[1..];
    }
  }

  // ------------------------------------------------------------------
  // The ready batch
  // ------------------------------------------------------------------

  type Completed = map<string, TaskResult>

  predicate DependencyAllows(completed: Completed, id: string) {
    id in completed && !Fatal(completed[id].status)
  }

  predicate Ready(task: Task, completed: Completed, activeLocks: seq<string>) {
    && (forall d | d in task.dependencies :: DependencyAllows(completed, d))
    && !TaskConflicts(task, activeLocks)
  }

  function LocksOf(tasks: seq<Task>): seq<string> {
    if tasks == [] then [] else LocksOf(tasks[..|tasks| - 1]) + tasks[|tasks| - 1].resourceLocks
  }

  function Filter(pending: seq<Task>, completed: Completed, activeLocks: seq<string>): seq<Task> {
    if pending == [] then []
    else
      var rest := Filter(pending[..|pending| - 1], completed, activeLocks);
      var last := pending[|pending| - 1];
      if Ready(last, completed, activeLocks) then rest + [last] else rest
  }

  /** The tasks of `ready` in turn, each kept if there is room and it conflicts with nothing kept before it. */
  function Greedy(ready: seq<Task>, activeLocks: seq<string>, cap: int): seq<Task> {
    if ready == [] then []
    else
      var batch := Greedy(ready[..|ready| - 1], activeLocks, cap);
      var last := ready[|ready| - 1];
      if |batch| >= cap || TaskConflicts(last, activeLocks + LocksOf(batch)) then batch else batch + [last]
  }

  function ReadyBatch(pending: seq<Task>, completed: Completed, inFlight: seq<Task>, cap: int): seq<Task> {
    var activeLocks := LocksOf(inFlight);
    Greedy(Filter(pending, completed, activeLocks), activeLocks, cap)
  }

  method BuildReadyBatch(pending: seq<Task>, completed: Completed, inFlight: seq<Task>, cap: int)
    returns (batch: seq<Task>)
    ensures batch == ReadyBatch(pending, completed, inFlight, cap)
  {
    var activeLocks := LocksOf(inFlight);
    var ready: seq<Task> := [];
    for i := 0 to |pending|
      invariant ready == Filter(pending[..i], completed, activeLocks)
    {
      assert pending[..i + 1][..i] == pending[..i];
      if Ready(pending[i], completed, activeLocks) {
        ready := ready + [pending[i]];
      }
    }
    assert pending[..|pending|] == pending;
    batch := PickGreedily(ready, activeLocks, cap);
  }

  method PickGreedily(ready: seq<Task>, activeLocks: seq<string>, cap: int) returns (batch: seq<Task>)
    ensures batch == Greedy(ready, activeLocks, cap)
  {
    batch := [];
    for k := 0 to |ready|
      invariant batch == Greedy(ready[..k], activeLocks, cap)
    {
      if |batch| >= cap {
        FullBatchStays(ready, k, activeLocks, cap);
        return;
      }
      assert ready[..k + 1][..k] == ready[..k];
      if TaskConflicts(ready[k], activeLocks + LocksOf(batch)) {
        continue;
      }
      batch := batch + [ready[k]];
    }
    assert ready[..|ready|] == ready;
  }

  lemma {:induction false} FullBatchStays(ready: seq<Task>, k: nat, activeLocks: seq<string>, cap: int)
    requires k <= |ready| && |Greedy(ready[..k], activeLocks, cap)| >= cap
    ensures Greedy(ready, activeLocks, cap) == Greedy(ready[..k], activeLocks, cap)
  {
    if k < |ready| {
      var shorter := ready[..|ready| - 1];
      assert shorter[..k] == ready[..k];
      FullBatchStays(shorter, k, activeLocks, cap);
    } else {
      assert ready[..k] == ready;
    }
  }

  predicate TasksConflict(a: Task, b: Task) {
    TaskConflicts(a, b.resourceLocks)
  }

  ghost predicate ConflictFree(tasks: seq<Task>) {
    forall i, j | 0 <= i < |tasks| && 0 <= j < |tasks| && i != j :: !TasksConflict(tasks[i], tasks[j])
  }

  lemma TasksConflictSymmetric(a: Task, b: Task)
    ensures TasksConflict(a, b) == TasksConflict(b, a)
  {
    forall l, r ensures LocksConflict(l, r) == LocksConflict(r, l) {
      LocksConflictSymmetric(l, r);
    }
    RelatedBothWays(LocksConflict, a.resourceLocks, b.resourceLocks);
  }

  lemma ConflictWithAny(task: Task, activeLocks: seq<string>, tasks: seq<Task>)
    ensures TaskConflicts(task, activeLocks + LocksOf(tasks))
       <==> TaskConflicts(task, activeLocks) || exists t | t in tasks :: TasksConflict(task, t)
  {
    RelatedToAny(LocksConflict, task.resourceLocks, activeLocks, tasks);
    assert forall t | t in tasks :: TasksConflict(task, t) == SomeRelated(LocksConflict, task.resourceLocks, t.resourceLocks);
  }

  predicate RelatedToOne(related: (string, string) -> bool, locks: seq<string>, tasks: seq<Task>) {
    exists t | t in tasks :: SomeRelated(related, locks, t.resourceLocks)
  }

  lemma {:induction false} RelatedToAny(
    related: (string, string) -> bool, locks: seq<string>, activeLocks: seq<string>, tasks: seq<Task>)
    ensures SomeRelated(related, locks, activeLocks + LocksOf(tasks))
       <==> SomeRelated(related, locks, activeLocks) || RelatedToOne(related, locks, tasks)
  {
    if tasks == [] {
      assert activeLocks + LocksOf(tasks) == activeLocks;
    } else {
      var shorter, last := tasks[..|tasks| - 1], tasks[|tasks| - 1];
      RelatedToAny(related, locks, activeLocks, shorter);
      RelatedSplits(related, locks, activeLocks + LocksOf(shorter), last.resourceLocks);
      LocksAdd(activeLocks, LocksOf(shorter), last.resourceLocks);
      assert tasks == shorter + [last];
      RelatedToLast(related, locks, shorter, last);
    }
  }

  lemma LocksAdd(a: seq<string>, b: seq<string>, c: seq<string>)
    ensures a + (b + c) == a + b + c
  {
  }

  lemma RelatedToLast(related: (string, string) -> bool, locks: seq<string>, shorter: seq<Task>, last: Task)
    ensures RelatedToOne(related, locks, shorter + [last])
       <==> RelatedToOne(related, locks, shorter) || SomeRelated(related, locks, last.resourceLocks)
  {
    assert forall t :: t in shorter + [last] <==> t in shorter || t == last;
  }

  lemma RelatedBothWays(related: (string, string) -> bool, a: seq<string>, b: seq<string>)
    requires forall l, r :: related(l, r) == related(r, l)
    ensures SomeRelated(related, a, b) == SomeRelated(related, b, a)
  {
  }

  lemma RelatedSplits(related: (string, string) -> bool, locks: seq<string>, a: seq<string>, b: seq<string>)
    ensures SomeRelated(related, locks, a + b) <==> SomeRelated(related, locks, a) || SomeRelated(related, locks, b)
  {
  }

  lemma {:induction false} FilterMembers(pending: seq<Task>, completed: Completed, activeLocks: seq<string>)
    ensures forall t :: t in Filter(pending, completed, activeLocks) <==> t in pending && Ready(t, completed, activeLocks)
  {
    if pending != [] {
      FilterMembers(pending[..|pending| - 1], completed, activeLocks);
      assert pending == pending[..|pending| - 1] + [pending[|pending| - 1]];
    }
  }

  /** No two tasks of a batch, and no task of it and one in flight, conflict; nor does it exceed the cap. */
  lemma {:induction false} BatchConflictFree(pending: seq<Task>, completed: Completed, inFlight: seq<Task>, cap: int)
    ensures ConflictFree(ReadyBatch(pending, completed, inFlight, cap))
    ensures cap >= 0 ==> |ReadyBatch(pending, completed, inFlight, cap)| <= cap
    ensures forall t | t in ReadyBatch(pending, completed, inFlight, cap) ::
              && t in pending
              && (forall d | d in t.dependencies :: DependencyAllows(completed, d))
              && (forall f | f in inFlight :: !TasksConflict(t, f))
  {
    var activeLocks := LocksOf(inFlight);
    var ready := Filter(pending, completed, activeLocks);
    FilterMembers(pending, completed, activeLocks);
    GreedyConflictFree(ready, activeLocks, cap);
    GreedyMembers(ready, activeLocks, cap);
    forall t | t in ready ensures forall f | f in inFlight :: !TasksConflict(t, f) {
      ConflictWithAny(t, [], inFlight);
      assert [] + activeLocks == activeLocks;
    }
  }

  lemma {:induction false} GreedyMembers(ready: seq<Task>, activeLocks: seq<string>, cap: int)
    ensures forall t | t in Greedy(ready, activeLocks, cap) :: t in ready
    ensures cap >= 0 ==> |Greedy(ready, activeLocks, cap)| <= cap
  {
    if ready != [] {
      GreedyMembers(ready[..|ready| - 1], activeLocks, cap);
    }
  }

  lemma {:induction false} GreedyConflictFree(ready: seq<Task>, activeLocks: seq<string>, cap: int)
    ensures ConflictFree(Greedy(ready, activeLocks, cap))
  {
    if ready != [] {
      var shorter, last := ready[..|ready| - 1], ready[|ready| - 1];
      GreedyConflictFree(shorter, activeLocks, cap);
      var batch := Greedy(shorter, activeLocks, cap);
      if !(|batch| >= cap || TaskConflicts(last, activeLocks + LocksOf(batch))) {
        ConflictWithAny(last, activeLocks, batch);
        forall i | 0 <= i < |batch|
          ensures !TasksConflict(last, batch[i]) && !TasksConflict(batch[i], last)
        {
          TasksConflictSymmetric(last, batch[i]);
        }
      }
    }
  }

  /**
   * A batch is greedy-maximal: a ready task left out came when the batch was full, or conflicts with a task in flight
   * or with one that stood before it and was chosen.
   */
  lemma {:induction false} BatchMaximal(
      pending: seq<Task>, completed: Completed, inFlight: seq<Task>, cap: int, k: nat)
    requires k < |pending| && (forall d | d in pending[k].dependencies :: DependencyAllows(completed, d))
    requires pending[k] !in ReadyBatch(pending, completed, inFlight, cap)
    ensures || |ReadyBatch(pending, completed, inFlight, cap)| >= cap
            || (exists f | f in inFlight :: TasksConflict(pending[k], f))
            || exists b | b in ReadyBatch(pending, completed, inFlight, cap) :: b in pending[..k] && TasksConflict(pending[k], b)
  {
    var activeLocks := LocksOf(inFlight);
    var task, before := pending[k], Filter(pending[..k], completed, activeLocks);
    var ready := Filter(pending, completed, activeLocks);
    if TaskConflicts(task, activeLocks) {
      ConflictWithAny(task, [], inFlight);
      assert [] + activeLocks == activeLocks;
    } else {
      assert pending[..k + 1][..k] == pending[..k];
      FilterPrefix(pending, k + 1, completed, activeLocks);
      assert before + [task] <= ready;
      if |Greedy(ready, activeLocks, cap)| < cap {
        LeftOut(ready, before, task, activeLocks, cap);
      }
      GreedyMembers(before, activeLocks, cap);
      FilterMembers(pending[..k], completed, activeLocks);
    }
  }

  lemma LeftOut(ready: seq<Task>, before: seq<Task>, task: Task, activeLocks: seq<string>, cap: int)
    requires before + [task] <= ready && !TaskConflicts(task, activeLocks)
    requires task !in Greedy(ready, activeLocks, cap) && |Greedy(ready, activeLocks, cap)| < cap
    ensures exists b | b in Greedy(ready, activeLocks, cap) :: b in Greedy(before, activeLocks, cap) && TasksConflict(task, b)
  {
    var upto := before + [task];
    assert ready[..|upto|] == upto && upto[..|before|] == before;
    GreedyGrows(ready, |upto|, activeLocks, cap);
    GreedyGrows(upto, |before|, activeLocks, cap);
    GreedyStep(before, task, activeLocks, cap);
    var chosen := Greedy(before, activeLocks, cap);
    ConflictWithAny(task, activeLocks, chosen);
    var b :| b in chosen && TasksConflict(task, b);
    assert b in Greedy(ready, activeLocks, cap);
  }

  lemma GreedyStep(ready: seq<Task>, last: Task, activeLocks: seq<string>, cap: int)
    ensures var batch := Greedy(ready, activeLocks, cap);
            Greedy(ready + [last], activeLocks, cap)
              == if |batch| >= cap || TaskConflicts(last, activeLocks + LocksOf(batch)) then batch else batch + [last]
  {
    assert (ready + [last])[..|ready|] == ready;
  }

  lemma {:induction false} FilterPrefix(pending: seq<Task>, k: nat, completed: Completed, activeLocks: seq<string>)
    requires k <= |pending|
    ensures Filter(pending[..k], completed, activeLocks) <= Filter(pending, completed, activeLocks)
  {
    if k < |pending| {
      var shorter := pending[..|pending| - 1];
      FilterPrefix(shorter, k, completed, activeLocks);
      assert shorter[..k] == pending[..k];
    } else {
      assert pending[..k] == pending;
    }
  }

  lemma {:induction false} GreedyGrows(ready: seq<Task>, k: nat, activeLocks: seq<string>, cap: int)
    requires k <= |ready|
    ensures Greedy(ready[..k], activeLocks, cap) <= Greedy(ready, activeLocks, cap)
  {
    if k < |ready| {
      var shorter := ready[..|ready| - 1];
      GreedyGrows(shorter, k, activeLocks, cap);
      assert shorter[..k] == ready[..k];
    } else {
      assert ready[..k] == ready;
    }
  }

  /** With nothing in flight and room for one, a batch is empty only when no task is ready. */
  lemma {:induction false} BatchProgress(pending: seq<Task>, completed: Completed, cap: int)
    ensures ReadyBatch(pending, completed, [], cap) == [] <==>
              cap < 1 || forall t | t in pending :: exists d | d in t.dependencies :: !DependencyAllows(completed, d)
  {
    var ready := Filter(pending, completed, []);
    FilterMembers(pending, completed, []);
    if ready != [] {
      assert ready[0] in ready && Ready(ready[0], completed, []);
      GreedyGrows(ready, 1, [], cap);
      assert ready[..1][..0] == [] && [] + LocksOf([]) == [];
    }
    if cap < 1 {
      GreedyEmpty(ready, cap);
    }
    forall t | t in pending && t !in ready ensures exists d | d in t.dependencies :: !DependencyAllows(completed, d) {
      assert !TaskConflicts(t, []);
    }
  }

  lemma {:induction false} GreedyEmpty(ready: seq<Task>, cap: int)
    requires cap < 1
    ensures Greedy(ready, [], cap) == []
  {
    if ready != [] {
      GreedyEmpty(ready[..|ready| - 1], cap);
    }
  }
}
