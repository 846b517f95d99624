/**
  The passes of the OMK build over a tree of directories, for every order in which the makes
  may run their targets, in parallel or not.  A recipe runs a make of its own, so there is a
  make process per directory and pass; a make runs a target at most once, and knows nothing of
  the others.  The passes are ordered in the top-level make only.
*/
module OmkPasses {

  datatype Pass = Include | Library | Binary

  /** A directory: whether it has something to build in each pass, and its SUBDIRS. */
  datatype Dir = Dir(headers: bool, libraries: bool, programs: bool, subdirs: seq<Dir>)

  /** A directory of the tree, as the way down from the top. */
  type Path = seq<nat>

  /** The targets with a recipe, as they are named in the make of one directory. */
  datatype Target =
    | Top(pass: Pass)               // include-pass, library-pass, binary-pass
    | Subdir(pass: Pass, i: nat)    // <pass>-<subdir>-subdir
    | ThisDir(pass: Pass)           // <pass>-this-dir
    | Extra                         // extra-rules-subdirs
    | Local(pass: Pass)             // <pass>-local: the rules of the directory

  /** A process: the one the user starts, or one run by a recipe; `pid` tells such runs apart. */
  datatype Make = Main | Sub(parent: Make, target: Target, pid: nat)

  datatype Goal = Default | Submakes(pass: Pass) | LocalRules(pass: Pass)

  datatype Event = Start(make: Make, target: Target) | Spawn(make: Make) | Finish(make: Make, target: Target)

  /** The recipes that run a make. */
  predicate Recursive(t: Target) {
    t.Top? || t.Subdir? || t.ThisDir?
  }

  /** What a make is asked for on its command line. */
  function GoalOf(m: Make): Goal {
    match m
    case Main => Default
    case Sub(_, t, _) =>
      if t.Top? || t.Subdir? then Submakes(t.pass) else if t.ThisDir? then LocalRules(t.pass) else Default
  }

  /** The directory it works in: the subdirectory a Subdir recipe names, else the one it was run in. */
  function DirOf(m: Make): Path {
    match m
    case Main => []
    case Sub(parent, t, _) => if t.Subdir? then DirOf(parent) + [t.i] else DirOf(parent)
  }

  function At(tree: Dir, path: Path): (d: seq<Dir>)
    ensures |d| <= 1
    decreases path
  {
    if path == [] then [tree]
    else if path[0] < |tree.subdirs| then At(tree.subdirs[path[0]], path[1..])
    else []
  }

  predicate IsDir(tree: Dir, path: Path) {
    At(tree, path) != []
  }

  /** The local enable condition of the pass template. */
  predicate Enabled(tree: Dir, pass: Pass, path: Path) {
    IsDir(tree, path) &&
    var d := At(tree, path)[0];
    match pass
    case Include => d.headers
    case Library => d.libraries
    case Binary => d.programs
  }

  predicate Before(p: Pass, q: Pass) {
    (p.Include? && !q.Include?) || (p.Library? && q.Binary?)
  }

  /** The targets a goal in `path` asks for, directly or as prerequisites. */
  predicate Wanted(tree: Dir, goal: Goal, path: Path, t: Target) {
    match goal
    case Default => t.Top?
    case Submakes(pass) =>
      || (t.Subdir? && t.pass == pass && IsDir(tree, path + [t.i]))
      || (t == ThisDir(pass) && Enabled(tree, pass, path))
      || (t.Extra? && pass.Include?)
    case LocalRules(pass) => t == Local(pass)
  }

  /** `r` is a prerequisite of `t` in the make of `path`. */
  predicate Needs(tree: Dir, path: Path, t: Target, r: Target) {
    match t
    case Top(pass) => (pass.Library? && r == Top(Include)) || (pass.Binary? && r == Top(Library))
    case Subdir(pass, _) => pass.Include? && r.Extra?
    case ThisDir(pass) =>
      || (r.Subdir? && r.pass == pass && IsDir(tree, path + [r.i]))
      || (r.Extra? && pass.Include?)
    case _ => false
  }

  // ---------- What a build may do next ----------

  predicate Running(events: seq<Event>, m: Make) {
    m.Main? || Spawn(m) in events
  }

  predicate Finished(events: seq<Event>, m: Make, t: Target) {
    Finish(m, t) in events
  }

  /** The make has brought its goal up to date. */
  ghost predicate Done(tree: Dir, events: seq<Event>, m: Make) {
    forall t :: Wanted(tree, GoalOf(m), DirOf(m), t) ==> Finished(events, m, t)
  }

  /** The make that the recipe of `t` in `m` has run. */
  predicate IsRunBy(c: Make, m: Make, t: Target) {
    c.Sub? && c.parent == m && c.target == t
  }

  /**
    One make runs a target of its goal at most once, after its prerequisites; a recipe runs its
    make once and ends with it.  Nothing is said about targets of different makes.
  */
  ghost predicate Admits(tree: Dir, events: seq<Event>, e: Event) {
    match e
    case Start(m, t) =>
      && Running(events, m) && Wanted(tree, GoalOf(m), DirOf(m), t) && Start(m, t) !in events
      && forall r :: Needs(tree, DirOf(m), t, r) ==> Finished(events, m, r)
    case Spawn(c) =>
      && c.Sub? && Recursive(c.target)
      && Start(c.parent, c.target) in events && !Finished(events, c.parent, c.target)
      && forall d :: IsRunBy(d, c.parent, c.target) ==> Spawn(d) !in events
    case Finish(m, t) =>
      && Start(m, t) in events && !Finished(events, m, t)
      && (Recursive(t) ==> exists c :: IsRunBy(c, m, t) && Spawn(c) in events && Done(tree, events, c))
  }

  ghost predicate Schedule(tree: Dir, events: seq<Event>) {
    forall k :: 0 <= k < |events| ==> Admits(tree, events[..k], events[k])
  }

  // ---------- What has happened when something has ----------

  lemma SchedulePrefix(tree: Dir, events: seq<Event>, n: nat)
    requires Schedule(tree, events) && n <= |events|
    ensures Schedule(tree, events[..n])
  {
    forall k | 0 <= k < n ensures Admits(tree, events[..n][..k], events[..n][k]) {
      assert events[..n][..k] == events[..k];
    }
  }

  lemma WhenStarted(tree: Dir, events: seq<Event>, m: Make, t: Target)
    requires Schedule(tree, events) && Start(m, t) in events
    ensures Running(events, m) && Wanted(tree, GoalOf(m), DirOf(m), t)
    ensures forall r :: Needs(tree, DirOf(m), t, r) ==> Finished(events, m, r)
  {
    var k :| 0 <= k < |events| && events[k] == Start(m, t);
    assert Admits(tree, events[..k], events[k]);
  }

  lemma WhenSpawned(tree: Dir, events: seq<Event>, c: Make)
    requires Schedule(tree, events) && Spawn(c) in events
    ensures c.Sub? && Recursive(c.target) && Start(c.parent, c.target) in events
  {
    var k :| 0 <= k < |events| && events[k] == Spawn(c);
    assert Admits(tree, events[..k], events[k]);
  }

  lemma WhenFinished(tree: Dir, events: seq<Event>, m: Make, t: Target)
    requires Schedule(tree, events) && Finished(events, m, t)
    ensures Start(m, t) in events
    ensures Recursive(t) ==> exists c :: IsRunBy(c, m, t) && Spawn(c) in events && Done(tree, events, c)
  {
    var k :| 0 <= k < |events| && events[k] == Finish(m, t);
    assert Admits(tree, events[..k], events[k]);
    if Recursive(t) {
      var c :| IsRunBy(c, m, t) && Spawn(c) in events[..k] && Done(tree, events[..k], c);
      assert Spawn(c) in events && Done(tree, events, c);
    }
  }

  /** Only one make is run by one execution of a recipe. */
  lemma OneSpawn(tree: Dir, events: seq<Event>, c: Make, d: Make)
    requires Schedule(tree, events) && Spawn(c) in events && Spawn(d) in events
    requires c.Sub? && d.Sub? && c.parent == d.parent && c.target == d.target
    ensures c == d
  {
    var i :| 0 <= i < |events| && events[i] == Spawn(c);
    var k :| 0 <= k < |events| && events[k] == Spawn(d);
    assert Admits(tree, events[..i], events[i]) && Admits(tree, events[..k], events[k]);
    assert IsRunBy(c, d.parent, d.target) && IsRunBy(d, c.parent, c.target);
  }

  // ---------- One make for each directory and goal ----------

  /** A make's directory and goal say which recipe of which directory ran it. */
  lemma SameRecipe(c: Make, d: Make, tree: Dir)
    requires c.Sub? && d.Sub? && Recursive(c.target) && Recursive(d.target)
    requires GoalOf(c) == GoalOf(d) && DirOf(c) == DirOf(d)
    requires Wanted(tree, GoalOf(c.parent), DirOf(c.parent), c.target)
    requires Wanted(tree, GoalOf(d.parent), DirOf(d.parent), d.target)
    requires c.parent.Sub? ==> Recursive(c.parent.target)
    requires d.parent.Sub? ==> Recursive(d.parent.target)
    ensures c.target == d.target && GoalOf(c.parent) == GoalOf(d.parent) && DirOf(c.parent) == DirOf(d.parent)
    ensures c.parent.Main? <==> d.parent.Main?
  {
    if c.target.Subdir? {
      assert DirOf(c)[|DirOf(c)| - 1] == c.target.i;
      assert d.target.Subdir?;
      assert DirOf(c.parent) == DirOf(c)[..|DirOf(c)| - 1] && DirOf(d.parent) == DirOf(d)[..|DirOf(d)| - 1];
    }
  }

  /** No two makes ever work in the same directory for the same goal. */
  lemma {:induction false} OneMake(tree: Dir, events: seq<Event>, c: Make, d: Make)
    requires Schedule(tree, events) && Running(events, c) && Running(events, d)
    requires GoalOf(c) == GoalOf(d) && DirOf(c) == DirOf(d)
    ensures c == d
    decreases c
  {
    MakeIsSub(tree, events, c);
    MakeIsSub(tree, events, d);
    if c.Main? {
    } else {
      MakeIsSub(tree, events, c.parent);
      MakeIsSub(tree, events, d.parent);
      SameRecipe(c, d, tree);
      OneMake(tree, events, c.parent, d.parent);
      OneSpawn(tree, events, c, d);
    }
  }

  lemma MakeIsSub(tree: Dir, events: seq<Event>, c: Make)
    requires Schedule(tree, events) && Running(events, c)
    ensures c.Main? <==> GoalOf(c).Default?
    ensures c.Sub? ==> Recursive(c.target) && Running(events, c.parent)
    ensures c.Sub? ==> Wanted(tree, GoalOf(c.parent), DirOf(c.parent), c.target)
  {
    if c.Sub? {
      WhenSpawned(tree, events, c);
      WhenStarted(tree, events, c.parent, c.target);
    }
  }

  // ---------- Main results ----------

  /** The local rules of directory `x` have run to their end, in whatever make. */
  ghost predicate LocalDone(events: seq<Event>, pass: Pass, x: Path) {
    exists m :: DirOf(m) == x && Finished(events, m, Local(pass))
  }

  /** A target belongs to makes of one goal. */
  function AskedBy(t: Target): Goal {
    match t
    case Top(_) => Default
    case Subdir(pass, _) => Submakes(pass)
    case ThisDir(pass) => Submakes(pass)
    case Extra => Submakes(Include)
    case Local(pass) => LocalRules(pass)
  }

  /**
    Whatever the tree and the order of execution, a target of a directory, its local rules of a
    pass in particular, runs at most once in the whole build, though each make only keeps
    count of its own targets.
  */
  lemma RunsOnce(tree: Dir, events: seq<Event>, i: nat, k: nat, m: Make, n: Make, t: Target)
    requires Schedule(tree, events) && i < |events| && k < |events|
    requires events[i] == Start(m, t) && events[k] == Start(n, t) && DirOf(m) == DirOf(n)
    ensures i == k && m == n
  {
    WhenStarted(tree, events, m, t);
    WhenStarted(tree, events, n, t);
    assert GoalOf(m) == AskedBy(t) && GoalOf(n) == AskedBy(t);
    OneMake(tree, events, m, n);
    assert Admits(tree, events[..i], events[i]) && Admits(tree, events[..k], events[k]);
  }

  lemma {:induction false} PassStarted(tree: Dir, events: seq<Event>, m: Make, pass: Pass)
    requires Schedule(tree, events) && Running(events, m)
    requires GoalOf(m) == Submakes(pass) || GoalOf(m) == LocalRules(pass)
    ensures Start(Main, Top(pass)) in events
    decreases m
  {
    MakeIsSub(tree, events, m);
    WhenSpawned(tree, events, m);
    if m.target.Top? {
      MakeIsSub(tree, events, m.parent);
    } else {
      PassStarted(tree, events, m.parent, pass);
    }
  }

  lemma EarlierPassFinished(tree: Dir, events: seq<Event>, p: Pass, q: Pass)
    requires Schedule(tree, events) && Before(p, q) && Start(Main, Top(q)) in events
    ensures Finished(events, Main, Top(p))
  {
    WhenStarted(tree, events, Main, Top(q));
    assert q.Library? ==> Needs(tree, [], Top(q), Top(Include));
    assert q.Binary? ==> Needs(tree, [], Top(q), Top(Library));
    if p.Include? && q.Binary? {
      WhenFinished(tree, events, Main, Top(Library));
      WhenStarted(tree, events, Main, Top(Library));
      assert Needs(tree, [], Top(Library), Top(Include));
    }
  }

  lemma {:induction false} AtChild(tree: Dir, path: Path, i: nat)
    requires IsDir(tree, path)
    ensures At(tree, path + [i]) == (var d := At(tree, path)[0]; if i < |d.subdirs| then [d.subdirs[i]] else [])
    decreases path
  {
    if path == [] {
      assert (path + [i])[1..] == [];
    } else {
      assert (path + [i])[1..] == path[1..] + [i];
      AtChild(tree.subdirs[path[0]], path[1..], i);
    }
  }

  lemma {:induction false} PrefixIsDir(tree: Dir, path: Path, n: nat)
    requires IsDir(tree, path) && n <= |path|
    ensures IsDir(tree, path[..n])
    decreases path
  {
    if n == 0 {
    } else {
      PrefixIsDir(tree.subdirs[path[0]], path[1..], n - 1);
      assert path[..n][1..] == path[1..][..n - 1];
    }
  }

  lemma ThisDirDone(tree: Dir, events: seq<Event>, m: Make, pass: Pass)
    requires Schedule(tree, events) && Finished(events, m, ThisDir(pass))
    ensures LocalDone(events, pass, DirOf(m))
  {
    WhenFinished(tree, events, m, ThisDir(pass));
    var c :| IsRunBy(c, m, ThisDir(pass)) && Spawn(c) in events && Done(tree, events, c);
    assert Wanted(tree, GoalOf(c), DirOf(c), Local(pass));
    assert DirOf(c) == DirOf(m) && Finished(events, c, Local(pass));
  }

  /** Once the make of a directory has ended, so have the local rules of all directories below. */
  lemma {:induction false} AllBelow(tree: Dir, events: seq<Event>, m: Make, pass: Pass, down: Path)
    requires Schedule(tree, events) && Done(tree, events, m) && GoalOf(m) == Submakes(pass)
    requires Enabled(tree, pass, DirOf(m) + down)
    ensures LocalDone(events, pass, DirOf(m) + down)
    decreases down
  {
    var path := DirOf(m);
    if down == [] {
      assert path + down == path;
      assert Wanted(tree, GoalOf(m), path, ThisDir(pass));
      ThisDirDone(tree, events, m, pass);
    } else {
      OneDown(path, down);
      PrefixIsDir(tree, path + down, |path| + 1);
      assert (path + down)[..|path| + 1] == path + [down[0]];
      assert Wanted(tree, GoalOf(m), path, Subdir(pass, down[0]));
      SubdirBelow(tree, events, m, pass, down);
    }
  }

  lemma OneDown(path: Path, down: Path)
    requires down != []
    ensures path + [down[0]] + down[1..] == path + down
  {
  }

  lemma SubdirBelow(tree: Dir, events: seq<Event>, m: Make, pass: Pass, down: Path)
    requires Schedule(tree, events) && down != [] && Finished(events, m, Subdir(pass, down[0]))
    requires Enabled(tree, pass, DirOf(m) + down)
    ensures LocalDone(events, pass, DirOf(m) + down)
    decreases down, 0
  {
    WhenFinished(tree, events, m, Subdir(pass, down[0]));
    var c :| IsRunBy(c, m, Subdir(pass, down[0])) && Spawn(c) in events && Done(tree, events, c);
    OneDown(DirOf(m), down);
    AllBelow(tree, events, c, pass, down[1..]);
  }

  lemma TopBelow(tree: Dir, events: seq<Event>, pass: Pass, x: Path)
    requires Schedule(tree, events) && Finished(events, Main, Top(pass)) && Enabled(tree, pass, x)
    ensures LocalDone(events, pass, x)
  {
    WhenFinished(tree, events, Main, Top(pass));
    var c :| IsRunBy(c, Main, Top(pass)) && Spawn(c) in events && Done(tree, events, c);
    assert [] + x == x;
    AllBelow(tree, events, c, pass, x);
  }

  lemma PassInOrder(tree: Dir, events: seq<Event>, k: nat, m: Make, q: Pass, p: Pass, x: Path)
    requires Schedule(tree, events) && k < |events| && events[k] == Start(m, Local(q))
    requires Before(p, q) && Enabled(tree, p, x)
    ensures LocalDone(events[..k], p, x)
  {
    var before := events[..k];
    SchedulePrefix(tree, events, k);
    assert Admits(tree, before, events[k]);
    PassStarted(tree, before, m, q);
    EarlierPassFinished(tree, before, p, q);
    TopBelow(tree, before, p, x);
  }

  /**
    Whatever the tree and the order of execution: when the local rules of any directory start
    in the library or binary pass, those of every directory with headers have ended in the
    include pass, and when they start in the binary pass, those of every directory with
    libraries in the library pass.  So a library may use the headers, and a program the
    libraries, of any directory, even mutually.
  */
  lemma PassesInOrder(tree: Dir, events: seq<Event>, k: nat, m: Make, q: Pass, x: Path)
    requires Schedule(tree, events) && k < |events| && events[k] == Start(m, Local(q)) && IsDir(tree, x)
    ensures !q.Include? && At(tree, x)[0].headers ==> LocalDone(events[..k], Include, x)
    ensures q.Binary? && At(tree, x)[0].libraries ==> LocalDone(events[..k], Library, x)
  {
    if !q.Include? && At(tree, x)[0].headers {
      PassInOrder(tree, events, k, m, q, Include, x);
    }
    if q.Binary? && At(tree, x)[0].libraries {
      PassInOrder(tree, events, k, m, q, Library, x);
    }
  }

  /** The local rules of a directory run for a this-dir target whose prerequisites have ended. */
  lemma LocalRunBy(tree: Dir, events: seq<Event>, k: nat, m: Make, pass: Pass)
    requires Schedule(tree, events) && k < |events| && events[k] == Start(m, Local(pass))
    ensures Schedule(tree, events[..k]) && m.Sub? && Running(events[..k], m)
    ensures DirOf(m.parent) == DirOf(m) && Start(m.parent, ThisDir(pass)) in events[..k]
    ensures forall r :: Needs(tree, DirOf(m), ThisDir(pass), r) ==> Finished(events[..k], m.parent, r)
  {
    SchedulePrefix(tree, events, k);
    assert Admits(tree, events[..k], events[k]);
    WhenSpawned(tree, events[..k], m);
    WhenStarted(tree, events[..k], m.parent, m.target);
  }

  /** Within a pass the local rules of a directory start when those of all directories below have ended. */
  lemma DescendantsFirst(tree: Dir, events: seq<Event>, k: nat, m: Make, pass: Pass, down: Path)
    requires Schedule(tree, events) && k < |events| && events[k] == Start(m, Local(pass))
    requires down != [] && Enabled(tree, pass, DirOf(m) + down)
    ensures LocalDone(events[..k], pass, DirOf(m) + down)
  {
    LocalRunBy(tree, events, k, m, pass);
    PrefixIsDir(tree, DirOf(m) + down, |DirOf(m)| + 1);
    assert (DirOf(m) + down)[..|DirOf(m)| + 1] == DirOf(m) + [down[0]];
    assert Needs(tree, DirOf(m), ThisDir(pass), Subdir(pass, down[0]));
    SubdirBelow(tree, events[..k], m.parent, pass, down);
  }

  /** The extra rules of `x` have ended, in whatever make. */
  ghost predicate ExtraDone(events: seq<Event>, x: Path) {
    exists m :: DirOf(m) == x && Finished(events, m, Extra)
  }

  lemma {:induction false} ExtraAbove(tree: Dir, events: seq<Event>, m: Make, n: nat)
    requires Schedule(tree, events) && Running(events, m) && GoalOf(m) == Submakes(Include) && n < |DirOf(m)|
    ensures ExtraDone(events, DirOf(m)[..n])
    decreases m
  {
    MakeIsSub(tree, events, m);
    WhenSpawned(tree, events, m);
    MakeIsSub(tree, events, m.parent);
    WhenStarted(tree, events, m.parent, m.target);
    assert m.target.Subdir?;
    if n == |DirOf(m)| - 1 {
      assert DirOf(m)[..n] == DirOf(m.parent);
      assert Needs(tree, DirOf(m.parent), m.target, Extra);
    } else {
      assert DirOf(m)[..n] == DirOf(m.parent)[..n];
      ExtraAbove(tree, events, m.parent, n);
    }
  }

  /** The extra rules of a directory have ended before its include pass, or any below, starts a local rule. */
  lemma ExtraRulesFirst(tree: Dir, events: seq<Event>, k: nat, m: Make, n: nat)
    requires Schedule(tree, events) && k < |events| && events[k] == Start(m, Local(Include)) && n <= |DirOf(m)|
    ensures ExtraDone(events[..k], DirOf(m)[..n])
  {
    LocalRunBy(tree, events, k, m, Include);
    var before := events[..k];
    if n == |DirOf(m)| {
      assert DirOf(m)[..n] == DirOf(m.parent);
      assert Needs(tree, DirOf(m.parent), ThisDir(Include), Extra);
    } else {
      WhenStarted(tree, before, m.parent, ThisDir(Include));
      ExtraAbove(tree, before, m.parent, n);
    }
  }

  lemma PassBuildsAll(tree: Dir, events: seq<Event>, pass: Pass, x: Path)
    requires Schedule(tree, events) && Done(tree, events, Main)
    ensures LocalDone(events, pass, x) <==> Enabled(tree, pass, x)
  {
    if Enabled(tree, pass, x) {
      assert Wanted(tree, Default, [], Top(pass));
      TopBelow(tree, events, pass, x);
    }
    if LocalDone(events, pass, x) {
      var m :| DirOf(m) == x && Finished(events, m, Local(pass));
      WhenFinished(tree, events, m, Local(pass));
      WhenStarted(tree, events, m, Local(pass));
      MakeIsSub(tree, events, m);
    }
  }

  /** Once the include pass of a directory has ended, so have the extra rules of all directories below. */
  lemma {:induction false} ExtraBelow(tree: Dir, events: seq<Event>, m: Make, down: Path)
    requires Schedule(tree, events) && Done(tree, events, m) && GoalOf(m) == Submakes(Include)
    requires IsDir(tree, DirOf(m) + down)
    ensures ExtraDone(events, DirOf(m) + down)
    decreases down
  {
    var path := DirOf(m);
    if down == [] {
      assert path + down == path;
      assert Wanted(tree, GoalOf(m), path, Extra);
    } else {
      OneDown(path, down);
      PrefixIsDir(tree, path + down, |path| + 1);
      assert (path + down)[..|path| + 1] == path + [down[0]];
      assert Wanted(tree, GoalOf(m), path, Subdir(Include, down[0]));
      WhenFinished(tree, events, m, Subdir(Include, down[0]));
      var c :| IsRunBy(c, m, Subdir(Include, down[0])) && Spawn(c) in events && Done(tree, events, c);
      ExtraBelow(tree, events, c, down[1..]);
    }
  }

  lemma ExtraBuildsAll(tree: Dir, events: seq<Event>, x: Path)
    requires Schedule(tree, events) && Done(tree, events, Main)
    ensures ExtraDone(events, x) <==> IsDir(tree, x)
  {
    if IsDir(tree, x) {
      assert Wanted(tree, Default, [], Top(Include));
      WhenFinished(tree, events, Main, Top(Include));
      var c :| IsRunBy(c, Main, Top(Include)) && Spawn(c) in events && Done(tree, events, c);
      assert [] + x == x;
      ExtraBelow(tree, events, c, x);
    }
    if ExtraDone(events, x) {
      var m :| DirOf(m) == x && Finished(events, m, Extra);
      WhenFinished(tree, events, m, Extra);
      WhenStarted(tree, events, m, Extra);
      MakeInTree(tree, events, m);
    }
  }

  /**
    When `default` has ended, the local rules of exactly the directories with headers have run
    in the include pass, with libraries in the library pass and with programs in the binary
    pass, and the extra rules of every directory.
  */
  lemma DefaultBuildsAll(tree: Dir, events: seq<Event>, x: Path)
    requires Schedule(tree, events) && Done(tree, events, Main)
    ensures LocalDone(events, Include, x) <==> IsDir(tree, x) && At(tree, x)[0].headers
    ensures LocalDone(events, Library, x) <==> IsDir(tree, x) && At(tree, x)[0].libraries
    ensures LocalDone(events, Binary, x) <==> IsDir(tree, x) && At(tree, x)[0].programs
    ensures ExtraDone(events, x) <==> IsDir(tree, x)
  {
    PassBuildsAll(tree, events, Include, x);
    PassBuildsAll(tree, events, Library, x);
    PassBuildsAll(tree, events, Binary, x);
    ExtraBuildsAll(tree, events, x);
  }

  // ---------- The build never gets stuck ----------

  /** The recipe of a started target runs its make, or ends once that is done. */
  lemma RecipeGoes(tree: Dir, events: seq<Event>, m: Make, t: Target) returns (c: Make)
    requires Recursive(t) && Start(m, t) in events && !Finished(events, m, t)
    ensures IsRunBy(c, m, t)
    ensures Spawn(c) !in events ==> Admits(tree, events, Spawn(c))
    ensures Spawn(c) in events && Done(tree, events, c) ==> Admits(tree, events, Finish(m, t))
  {
    if d :| IsRunBy(d, m, t) && Spawn(d) in events {
      c := d;
    } else {
      c := Sub(m, t, 0);
    }
  }

  lemma LocalGoes(tree: Dir, events: seq<Event>, m: Make, pass: Pass) returns (e: Event)
    requires Start(m, ThisDir(pass)) in events && !Finished(events, m, ThisDir(pass))
    ensures Admits(tree, events, e)
  {
    var c := RecipeGoes(tree, events, m, ThisDir(pass));
    if Spawn(c) !in events {
      e := Spawn(c);
    } else if Finished(events, c, Local(pass)) {
      e := Finish(m, ThisDir(pass));
    } else {
      e := if Start(c, Local(pass)) in events then Finish(c, Local(pass)) else Start(c, Local(pass));
    }
  }

  lemma ThisDirReady(tree: Dir, events: seq<Event>, m: Make, pass: Pass)
    requires IsDir(tree, DirOf(m)) && (pass.Include? ==> Finished(events, m, Extra))
    requires forall i: nat :: i < |At(tree, DirOf(m))[0].subdirs| ==> Finished(events, m, Subdir(pass, i))
    ensures forall r :: Needs(tree, DirOf(m), ThisDir(pass), r) ==> Finished(events, m, r)
    ensures GoalOf(m) == Submakes(pass) && (Enabled(tree, pass, DirOf(m)) ==> Finished(events, m, ThisDir(pass))) ==>
              Done(tree, events, m)
  {
    forall i: nat | IsDir(tree, DirOf(m) + [i]) ensures Finished(events, m, Subdir(pass, i)) {
      AtChild(tree, DirOf(m), i);
    }
  }

  /** A make that is not done can go on, in its own directory or below. */
  lemma {:induction false} Advance(tree: Dir, d: Dir, events: seq<Event>, m: Make, pass: Pass) returns (e: Event)
    requires At(tree, DirOf(m)) == [d] && Running(events, m) && GoalOf(m) == Submakes(pass)
    ensures !Done(tree, events, m) ==> Admits(tree, events, e)
    decreases d
  {
    if pass.Include? && !Finished(events, m, Extra) {
      e := if Start(m, Extra) in events then Finish(m, Extra) else Start(m, Extra);
    } else if i: nat :| i < |d.subdirs| && !Finished(events, m, Subdir(pass, i)) {
      AtChild(tree, DirOf(m), i);
      if Start(m, Subdir(pass, i)) !in events {
        e := Start(m, Subdir(pass, i));
      } else {
        var c := RecipeGoes(tree, events, m, Subdir(pass, i));
        if Spawn(c) !in events {
          e := Spawn(c);
        } else if Done(tree, events, c) {
          e := Finish(m, Subdir(pass, i));
        } else {
          e := Advance(tree, d.subdirs[i], events, c, pass);
        }
      }
    } else {
      ThisDirReady(tree, events, m, pass);
      if Start(m, ThisDir(pass)) in events && !Finished(events, m, ThisDir(pass)) {
        e := LocalGoes(tree, events, m, pass);
      } else {
        e := Start(m, ThisDir(pass));
      }
    }
  }

  lemma TopGoes(tree: Dir, events: seq<Event>, pass: Pass) returns (e: Event)
    requires !Finished(events, Main, Top(pass))
    requires forall p :: Before(p, pass) ==> Finished(events, Main, Top(p))
    ensures Admits(tree, events, e)
  {
    if Start(Main, Top(pass)) !in events {
      assert Before(Include, Library) && Before(Library, Binary);
      e := Start(Main, Top(pass));
    } else {
      var c := RecipeGoes(tree, events, Main, Top(pass));
      if Spawn(c) !in events {
        e := Spawn(c);
      } else if Done(tree, events, c) {
        e := Finish(Main, Top(pass));
      } else {
        e := Advance(tree, tree, events, c, pass);
      }
    }
  }

  /** As long as `default` has not ended some make can start a target, run a make or end a target. */
  lemma NeverStuck(tree: Dir, events: seq<Event>) returns (e: Event)
    requires Schedule(tree, events) && !Done(tree, events, Main)
    ensures Schedule(tree, events + [e])
  {
    var pass :| !Finished(events, Main, Top(pass));
    var first :=
      if !Finished(events, Main, Top(Include)) then Include
      else if !Finished(events, Main, Top(Library)) then Library
      else pass;
    e := TopGoes(tree, events, first);
    var longer := events + [e];
    forall k | 0 <= k < |longer| ensures Admits(tree, longer[..k], longer[k]) {
      assert longer[..k] == if k < |events| then events[..k] else events;
    }
  }

  // ---------- The build always ends ----------

  /** The number of directories of a tree, and of the first `n` trees. */
  function Size(d: Dir): nat
    decreases d
  {
    1 + Sizes(d.subdirs, |d.subdirs|)
  }

  function Sizes(ds: seq<Dir>, n: nat): nat
    requires n <= |ds|
    decreases ds, n
  {
    if n == 0 then 0 else Sizes(ds, n - 1) + Size(ds[n - 1])
  }

  /** The directories of a tree in the order of a walk. */
  function Number(tree: Dir, path: Path): nat
    requires IsDir(tree, path)
    decreases path
  {
    if path == [] then 0
    else 1 + Sizes(tree.subdirs, path[0]) + Number(tree.subdirs[path[0]], path[1..])
  }

  lemma {:induction false} SizesGrow(ds: seq<Dir>, i: nat, n: nat)
    requires i < n <= |ds|
    ensures Sizes(ds, i) + Size(ds[i]) <= Sizes(ds, n)
    decreases n
  {
    if i == n - 1 {
    } else {
      SizesGrow(ds, i, n - 1);
    }
  }

  lemma {:induction false} NumberInTree(tree: Dir, path: Path)
    requires IsDir(tree, path)
    ensures Number(tree, path) < Size(tree)
    decreases path
  {
    if path == [] {
    } else {
      NumberInTree(tree.subdirs[path[0]], path[1..]);
      SizesGrow(tree.subdirs, path[0], |tree.subdirs|);
    }
  }

  lemma {:induction false} NumberInjective(tree: Dir, p: Path, q: Path)
    requires IsDir(tree, p) && IsDir(tree, q) && Number(tree, p) == Number(tree, q)
    ensures p == q
    decreases p
  {
    if p == [] || q == [] {
    } else {
      NumberInTree(tree.subdirs[p[0]], p[1..]);
      NumberInTree(tree.subdirs[q[0]], q[1..]);
      if p[0] < q[0] {
        SizesGrow(tree.subdirs, p[0], q[0]);
      } else if q[0] < p[0] {
        SizesGrow(tree.subdirs, q[0], p[0]);
      } else {
        NumberInjective(tree.subdirs[p[0]], p[1..], q[1..]);
        assert p == [p[0]] + p[1..] && q == [q[0]] + q[1..];
      }
    }
  }

  lemma {:induction false} MakeInTree(tree: Dir, events: seq<Event>, m: Make)
    requires Schedule(tree, events) && Running(events, m)
    ensures IsDir(tree, DirOf(m))
    decreases m
  {
    MakeIsSub(tree, events, m);
    if m.Sub? {
      MakeInTree(tree, events, m.parent);
    }
  }

  /** The make and target an event is about. */
  function MakeOf(e: Event): Make {
    match e
    case Start(m, _) => m
    case Spawn(c) => if c.Sub? then c.parent else c
    case Finish(m, _) => m
  }

  function TargetOf(e: Event): Target {
    match e
    case Start(_, t) => t
    case Spawn(c) => if c.Sub? then c.target else Extra
    case Finish(_, t) => t
  }

  /** The directory an event is counted for: that of the make, or the subdirectory it goes to. */
  function Home(e: Event): Path {
    if TargetOf(e).Subdir? then DirOf(MakeOf(e)) + [TargetOf(e).i] else DirOf(MakeOf(e))
  }

  function PassNumber(p: Pass): nat {
    match p
    case Include => 0
    case Library => 1
    case Binary => 2
  }

  /** The targets counted for one directory; a pass enters it from the top or from above. */
  function TargetNumber(t: Target): (n: nat)
    ensures n < 10 && (Recursive(t) ==> n < 6)
  {
    match t
    case Top(pass) => PassNumber(pass)
    case Subdir(pass, _) => PassNumber(pass)
    case ThisDir(pass) => 3 + PassNumber(pass)
    case Local(pass) => 6 + PassNumber(pass)
    case Extra => 9
  }

  /** The kinds of events in one directory: 10 starts, 10 ends and 6 makes. */
  function Kind(e: Event): nat {
    match e
    case Start(_, t) => TargetNumber(t)
    case Finish(_, t) => 10 + TargetNumber(t)
    case Spawn(_) => 20 + TargetNumber(TargetOf(e))
  }

  lemma WhenHappened(tree: Dir, events: seq<Event>, e: Event)
    requires Schedule(tree, events) && e in events
    ensures Start(MakeOf(e), TargetOf(e)) in events && Running(events, MakeOf(e))
    ensures Wanted(tree, GoalOf(MakeOf(e)), DirOf(MakeOf(e)), TargetOf(e))
    ensures e.Spawn? ==> e.make.Sub? && Recursive(TargetOf(e))
  {
    if e.Spawn? {
      WhenSpawned(tree, events, e.make);
    } else if e.Finish? {
      WhenFinished(tree, events, e.make, e.target);
    }
    WhenStarted(tree, events, MakeOf(e), TargetOf(e));
  }

  lemma HomeInTree(tree: Dir, events: seq<Event>, e: Event)
    requires Schedule(tree, events) && e in events
    ensures IsDir(tree, Home(e)) && Kind(e) < 26
    ensures Home(e) == [] ==> !TargetOf(e).Subdir?
    ensures Home(e) != [] ==> !TargetOf(e).Top?
  {
    WhenHappened(tree, events, e);
    MakeInTree(tree, events, MakeOf(e));
    MakeIsSub(tree, events, MakeOf(e));
  }

  /** One event of each kind for each directory. */
  lemma SameEvent(tree: Dir, events: seq<Event>, e: Event, f: Event)
    requires Schedule(tree, events) && e in events && f in events
    requires Home(e) == Home(f) && Kind(e) == Kind(f)
    ensures e == f
  {
    HomeInTree(tree, events, e);
    HomeInTree(tree, events, f);
    WhenHappened(tree, events, e);
    WhenHappened(tree, events, f);
    SameTarget(e, f);
    var m, n, t := MakeOf(e), MakeOf(f), TargetOf(e);
    assert GoalOf(m) == AskedBy(t) && GoalOf(n) == AskedBy(t);
    OneMake(tree, events, m, n);
    if e.Spawn? {
      OneSpawn(tree, events, e.make, f.make);
    }
  }

  lemma SameTarget(e: Event, f: Event)
    requires Home(e) == Home(f) && Kind(e) == Kind(f)
    requires e.Spawn? ==> Recursive(TargetOf(e))
    requires f.Spawn? ==> Recursive(TargetOf(f))
    requires TargetOf(e).Subdir? <==> TargetOf(f).Subdir?
    ensures TargetOf(e) == TargetOf(f) && DirOf(MakeOf(e)) == DirOf(MakeOf(f))
    ensures (e.Start? <==> f.Start?) && (e.Spawn? <==> f.Spawn?)
  {
    var t, u := TargetOf(e), TargetOf(f);
    assert TargetNumber(t) == TargetNumber(u);
    if t.Subdir? {
      var p, q := DirOf(MakeOf(e)), DirOf(MakeOf(f));
      assert (p + [t.i])[|p|] == t.i && (q + [u.i])[|q|] == u.i;
      assert p == (p + [t.i])[..|p|] && q == (q + [u.i])[..|q|];
    }
  }

  lemma HappensOnce(tree: Dir, events: seq<Event>, i: nat, k: nat)
    requires Schedule(tree, events) && i < k < |events|
    ensures events[i] != events[k]
  {
    assert Admits(tree, events[..k], events[k]);
    assert events[..k][i] == events[i];
    if events[k].Spawn? {
      assert IsRunBy(events[k].make, events[k].make.parent, events[k].make.target);
    }
  }

  /** The number of an event: one for each directory and kind. */
  function Slot(tree: Dir, e: Event): nat
    requires IsDir(tree, Home(e))
  {
    26 * Number(tree, Home(e)) + Kind(e)
  }

  lemma SlotInRange(tree: Dir, events: seq<Event>, e: Event)
    requires Schedule(tree, events) && e in events
    ensures IsDir(tree, Home(e)) && Slot(tree, e) < 26 * Size(tree)
  {
    HomeInTree(tree, events, e);
    NumberInTree(tree, Home(e));
  }

  lemma SlotsDiffer(tree: Dir, events: seq<Event>, i: nat, k: nat)
    requires Schedule(tree, events) && i < k < |events|
    requires IsDir(tree, Home(events[i])) && IsDir(tree, Home(events[k]))
    ensures Slot(tree, events[i]) != Slot(tree, events[k])
  {
    var e, f := events[i], events[k];
    HomeInTree(tree, events, e);
    HomeInTree(tree, events, f);
    HappensOnce(tree, events, i, k);
    if Slot(tree, e) == Slot(tree, f) {
      NumberInjective(tree, Home(e), Home(f));
      SameEvent(tree, events, e, f);
    }
  }

  ghost predicate Below(slots: seq<nat>, n: nat) {
    forall i :: 0 <= i < |slots| ==> slots[i] < n
  }

  lemma NoneBelowZero(slots: seq<nat>)
    requires slots != []
    ensures !Below(slots, 0)
  {
    assert slots[0] >= 0;
  }

  /** Different numbers below `n` are at most `n` many. */
  lemma {:induction false} Pigeonhole(slots: seq<nat>, n: nat)
    requires Below(slots, n)
    requires forall i, k :: 0 <= i < k < |slots| ==> slots[i] != slots[k]
    ensures |slots| <= n
    decreases n
  {
    if n == 0 {
      if slots != [] {
        NoneBelowZero(slots);
      }
    } else if i :| 0 <= i < |slots| && slots[i] == n - 1 {
      var rest := slots[..i] + slots[i + 1..];
      Pigeonhole(rest, n - 1);
    } else {
      Pigeonhole(slots, n - 1);
    }
  }

  /** No schedule is longer than 26 events for each directory of the tree. */
  lemma BuildBounded(tree: Dir, events: seq<Event>)
    requires Schedule(tree, events)
    ensures |events| <= 26 * Size(tree)
  {
    forall k | 0 <= k < |events| ensures IsDir(tree, Home(events[k])) && Slot(tree, events[k]) < 26 * Size(tree) {
      SlotInRange(tree, events, events[k]);
    }
    var slots := seq(|events|, k requires 0 <= k < |events| => Slot(tree, events[k]));
    forall i, k | 0 <= i < k < |slots| ensures slots[i] != slots[k] {
      SlotsDiffer(tree, events, i, k);
    }
    Pigeonhole(slots, 26 * Size(tree));
  }

  /** Every schedule can be continued to a finished build, within the bound. */
  lemma {:induction false} Completes(tree: Dir, events: seq<Event>) returns (all: seq<Event>)
    requires Schedule(tree, events)
    ensures Schedule(tree, all) && events <= all && Done(tree, all, Main) && |all| <= 26 * Size(tree)
    decreases 26 * Size(tree) - |events|
  {
    BuildBounded(tree, events);
    if Done(tree, events, Main) {
      all := events;
    } else {
      var e := NeverStuck(tree, events);
      BuildBounded(tree, events + [e]);
      all := Completes(tree, events + [e]);
    }
  }

  lemma {:induction false} AllDone(tree: Dir, events: seq<Event>, m: Make)
    requires Schedule(tree, events) && Done(tree, events, Main) && Running(events, m)
    ensures Done(tree, events, m)
    decreases m
  {
    if m.Main? {
    } else {
      MakeIsSub(tree, events, m);
      AllDone(tree, events, m.parent);
      WhenFinished(tree, events, m.parent, m.target);
      var c :| IsRunBy(c, m.parent, m.target) && Spawn(c) in events && Done(tree, events, c);
      OneSpawn(tree, events, c, m);
    }
  }

  /** Nothing is left to happen exactly when `default` has ended: no make goes on after it. */
  lemma OverIffDone(tree: Dir, events: seq<Event>)
    requires Schedule(tree, events)
    ensures (forall e :: !Admits(tree, events, e)) <==> Done(tree, events, Main)
  {
    if !Done(tree, events, Main) {
      var e := NeverStuck(tree, events);
      assert (events + [e])[..|events|] == events;
      assert Admits(tree, events, e);
    } else if e :| Admits(tree, events, e) {
      if e.Start? {
        AllDone(tree, events, e.make);
        WhenFinished(tree, events, e.make, e.target);
      } else {
        WhenStarted(tree, events, MakeOf(e), TargetOf(e));
        AllDone(tree, events, MakeOf(e));
      }
      assert false;
    }
  }
}
