/**
 Which project a directory belongs to, for the permission-trust resolver of
 main/src/index.ts. Paths are strings as POSIX path.resolve and path.relative read them.
 */
module TrustResolver {
  import opened Options

  type Path = seq<string>

  const UP := ".."

  predicate StartsWith(s: string, prefix: string) {
    |prefix| <= |s| && s[..|prefix|] == prefix
  }

  // ----- path.resolve -----

  /** The parts of a string that begins with `c`, from the parts of the remainder. */
  function Prepended(c: char, parts: seq<string>): seq<string>
    requires parts != []
  {
    if c == '/' then [""] + parts else [[c] + parts[0]] + parts[1..]
  }

  function Split(s: string): (parts: seq<string>)
    ensures |parts| > 0 && forall p | p in parts :: '/' !in p
  {
    if s == "" then [""] else Prepended(s[0], Split(s[1..]))
  }

  predicate IsComponent(c: string) {
    c != "" && '/' !in c && c != "." && c != UP
  }

  predicate IsPath(p: Path) {
    forall i :: 0 <= i < |p| ==> IsComponent(p[i])
  }

  /** One part after another; `..` at the root stays there. */
  function Normalized(base: Path, parts: seq<string>): (p: Path)
    requires IsPath(base) && forall q | q in parts :: '/' !in q
    ensures IsPath(p)
    decreases |parts|
  {
    if parts == [] then base
    else
      var c := parts[0];
      assert c in parts;
      assert forall q | q in parts[1..] :: q in parts;
      var next := if c == "" || c == "." then base
                  else if c == UP then (if base == [] then [] else base[..|base| - 1])
                  else base + [c];
      Normalized(next, parts[1..])
  }

  /** `cwd`: the process's working directory. */
  function Resolve(cwd: Path, s: string): (p: Path)
    requires IsPath(cwd)
    ensures IsPath(p)
  {
    Normalized(if StartsWith(s, "/") then [] else cwd, Split(s))
  }

  function Join(p: Path): string {
    if p == [] then "" else if |p| == 1 then p[0] else p[0] + "/" + Join(p[1..])
  }

  function Render(p: Path): string {
    "/" + Join(p)
  }

  // ----- path.relative -----

  function Ups(n: nat): Path {
    seq(n, _ => UP)
  }

  /** The common leading components go; one `..` for each further component of `from`. */
  function Route(from: Path, to: Path): Path {
    if from != [] && to != [] && from[0] == to[0] then Route(from[1..], to[1..])
    else Ups(|from|) + to
  }

  function Relative(cwd: Path, from: string, to: string): string
    requires IsPath(cwd)
  {
    Join(Route(Resolve(cwd, from), Resolve(cwd, to)))
  }

  /** The callback of the containment search. */
  predicate Contains(cwd: Path, project: string, dir: string)
    requires IsPath(cwd)
  {
    var relative := Relative(cwd, project, dir);
    relative == "" || (!StartsWith(relative, UP) && !StartsWith(relative, "/"))
  }

  // ----- what containment means -----

  lemma {:induction false} RouteStrips(from: Path, to: Path)
    ensures from <= to ==> Route(from, to) == to[|from|..]
    ensures !(from <= to) ==> Route(from, to) != [] && Route(from, to)[0] == UP
  {
    if from != [] && to != [] && from[0] == to[0] {
      RouteStrips(from[1..], to[1..]);
      assert from == [from[0]] + from[1..] && to == [to[0]] + to[1..];
      assert from <= to <==> from[1..] <= to[1..];
      assert from <= to ==> to[1..][|from| - 1..] == to[|from|..];
    } else if from == [] {
      assert Route(from, to) == to;
    }
  }

  lemma JoinStarts(p: Path)
    requires p != [] && p[0] != ""
    ensures Join(p) != "" && Join(p)[0] == p[0][0]
    ensures '/' !in p[0] && p[0] != "." ==> (StartsWith(Join(p), UP) <==> StartsWith(p[0], UP))
  {
    var j := Join(p);
    if |p| > 1 {
      assert j == p[0] + ("/" + Join(p[1..]));
      if |p[0]| == 1 {
        assert j[1] == '/';
        assert j[..2] == [j[0], '/'];
      } else {
        assert j[..2] == p[0][..2];
      }
    }
  }

  /**
   A project contains a directory exactly when its path is a component-wise prefix of the
   directory's and the first further component, if any, does not begin with two dots.
   */
  lemma ContainsIffComponentPrefix(cwd: Path, project: string, dir: string)
    requires IsPath(cwd)
    ensures var p, d := Resolve(cwd, project), Resolve(cwd, dir);
            Contains(cwd, project, dir) <==> p <= d && (|p| < |d| ==> !StartsWith(d[|p|], UP))
  {
    var p, d := Resolve(cwd, project), Resolve(cwd, dir);
    var route := Route(p, d);
    RouteStrips(p, d);
    if p <= d {
      if route != [] {
        assert route[0] == d[|p|] && IsComponent(d[|p|]);
        JoinStarts(route);
        assert Join(route)[0] != '/';
      }
    } else {
      JoinStarts(route);
    }
  }

  // ----- against prefixes of strings -----

  lemma {:induction false} SplitJoin(p: Path)
    requires IsPath(p) && p != []
    ensures Split(Join(p)) == p
  {
    if |p| == 1 {
      SplitName(p[0]);
    } else {
      SplitJoin(p[1..]);
      SplitNameThen(p[0], Join(p[1..]));
      assert p[0] + ("/" + Join(p[1..])) == Join(p);
      assert [p[0]] + p[1..] == p;
    }
  }

  lemma {:induction false} SplitName(c: string)
    requires '/' !in c
    ensures Split(c) == [c]
  {
    if c != "" {
      SplitName(c[1..]);
      assert [c[0]] + c[1..] == c;
    }
  }

  lemma PrependedThen(c: char, x: seq<string>, y: seq<string>)
    requires x != []
    ensures Prepended(c, x + y) == Prepended(c, x) + y
  {
    assert (x + y)[1..] == x[1..] + y;
  }

  lemma {:induction false} SplitTwo(a: string, b: string)
    ensures Split(a + "/" + b) == Split(a) + Split(b)
  {
    var s := a + "/" + b;
    if a == "" {
      assert s[1..] == b;
    } else {
      SplitTwo(a[1..], b);
      assert s[1..] == a[1..] + "/" + b;
      PrependedThen(a[0], Split(a[1..]), Split(b));
    }
  }

  lemma SplitNameThen(c: string, rest: string)
    requires '/' !in c
    ensures Split(c + "/" + rest) == [c] + Split(rest)
  {
    SplitTwo(c, rest);
    SplitName(c);
  }

  lemma {:induction false} NormalizedKeeps(base: Path, p: Path)
    requires IsPath(base) && IsPath(p) && forall q | q in p :: '/' !in q
    ensures Normalized(base, p) == base + p
    decreases |p|
  {
    if p != [] {
      assert IsComponent(p[0]);
      forall q | q in p[1..] ensures '/' !in q {
        assert q in p;
      }
      NormalizedKeeps(base + [p[0]], p[1..]);
      assert base + [p[0]] + p[1..] == base + p;
    } else {
      assert base + p == base;
    }
  }

  /** Resolving inverts rendering: a normalized absolute path denotes its own components. */
  lemma ResolveInvertsRender(cwd: Path, p: Path)
    requires IsPath(cwd) && IsPath(p)
    ensures Resolve(cwd, Render(p)) == p
  {
    var s := Render(p);
    SplitNameThen("", Join(p));
    assert s == "" + "/" + Join(p);
    assert Split(s)[1..] == Split(Join(p));
    if p == [] {
      assert Split("") == [""];
      assert [""][1..] == [];
    } else {
      SplitJoin(p);
      forall q | q in p ensures '/' !in q {
        var i :| 0 <= i < |p| && p[i] == q;
        assert IsComponent(p[i]);
      }
      NormalizedKeeps([], p);
      assert [] + p == p;
    }
  }

  lemma {:induction false} NormalizedSplits(base: Path, a: seq<string>, b: seq<string>)
    requires IsPath(base) && (forall q | q in a :: '/' !in q) && (forall q | q in b :: '/' !in q)
    ensures forall q | q in a + b :: '/' !in q
    ensures Normalized(base, a + b) == Normalized(Normalized(base, a), b)
    decreases |a|
  {
    if a == [] {
      assert a + b == b;
    } else {
      var c := a[0];
      assert c in a;
      assert forall q | q in a[1..] :: q in a;
      assert (a + b)[1..] == a[1..] + b;
      var next := if c == "" || c == "." then base
                  else if c == UP then (if base == [] then [] else base[..|base| - 1])
                  else base + [c];
      NormalizedSplits(next, a[1..], b);
    }
  }

  lemma ResolveThen(cwd: Path, p: Path, part: string)
    requires IsPath(cwd) && IsPath(p) && '/' !in part
    ensures Resolve(cwd, Render(p) + "/" + part) == Normalized(p, [part])
  {
    var s := Render(p) + "/" + part;
    SplitTwo(Render(p), part);
    SplitName(part);
    NormalizedSplits([], Split(Render(p)), [part]);
    ResolveInvertsRender(cwd, p);
    assert Render(p)[..1] == "/" && s[..1] == "/";
  }

  /** What path.resolve does with the parts that are no names: a trailing slash, `.` and `..`, the last going nowhere at the root. */
  lemma ResolveReadsDots(cwd: Path, p: Path)
    requires IsPath(cwd) && IsPath(p)
    ensures Resolve(cwd, Render(p) + "/" + "") == p && Resolve(cwd, Render(p) + "/" + ".") == p
    ensures Resolve(cwd, Render(p) + "/" + "..") == if p == [] then [] else p[..|p| - 1]
  {
    ResolveThen(cwd, p, "");
    ResolveThen(cwd, p, ".");
    ResolveThen(cwd, p, "..");
  }

  /** A relative string is read from the working directory. */
  lemma ResolveIsFromCwd(cwd: Path, s: string)
    requires IsPath(cwd) && !StartsWith(s, "/")
    ensures Resolve(cwd, s) == Resolve([], Render(cwd) + "/" + s)
  {
    SplitTwo(Render(cwd), s);
    NormalizedSplits([], Split(Render(cwd)), Split(s));
    ResolveInvertsRender([], cwd);
    var absolute := Render(cwd) + "/" + s;
    assert Render(cwd)[..1] == "/" && absolute[..1] == "/";
  }

  lemma {:induction false} JoinSplits(p: Path, q: Path)
    requires p != [] && q != []
    ensures Join(p + q) == Join(p) + "/" + Join(q)
  {
    if |p| == 1 {
      assert (p + q)[1..] == q;
    } else {
      JoinSplits(p[1..], q);
      assert (p + q)[1..] == p[1..] + q;
    }
  }

  /** Component-wise prefix, read off the strings: equal, or continued by a slash. */
  lemma PrefixOnStrings(p: Path, d: Path)
    requires IsPath(p) && IsPath(d) && p != []
    ensures p <= d <==> Render(d) == Render(p) || StartsWith(Render(d), Render(p) + "/")
  {
    var rp, rd := Render(p), Render(d);
    if p <= d && p != d {
      var q := d[|p|..];
      assert d == p + q;
      JoinSplits(p, q);
      assert rd == (rp + "/") + Join(q);
    }
    if rd == rp {
      ResolveInvertsRender([], p);
      ResolveInvertsRender([], d);
    } else if StartsWith(rd, rp + "/") {
      SlashContinues(p, d);
    }
  }

  lemma SlashContinues(p: Path, d: Path)
    requires IsPath(p) && IsPath(d) && p != []
    requires StartsWith(Render(d), Render(p) + "/")
    ensures p <= d
  {
    var jp, jd := Join(p), Join(d);
    var b := Render(d)[|Render(p)| + 1..];
    assert Render(d) == Render(p) + "/" + b;
    assert jd == Render(d)[1..];
    assert jd == jp + "/" + b;
    SplitTwo(jp, b);
    SplitJoin(p);
    if d != [] {
      SplitJoin(d);
    }
  }

  /** So a sibling whose name merely begins with the project's name never matches, however deep the directory. */
  lemma SiblingNeverMatches(cwd: Path, parent: Path, name: string, suffix: string, below: Path)
    requires IsPath(cwd) && IsPath(parent) && IsPath(below)
    requires IsComponent(name) && IsComponent(name + suffix) && suffix != ""
    ensures StartsWith(Render(parent + [name + suffix] + below), Render(parent + [name]))
    ensures !Contains(cwd, Render(parent + [name]), Render(parent + [name + suffix] + below))
  {
    var p, d := parent + [name], parent + [name + suffix] + below;
    ResolveInvertsRender(cwd, p);
    ResolveInvertsRender(cwd, d);
    ContainsIffComponentPrefix(cwd, Render(p), Render(d));
    assert p[|parent|] == name && d[|parent|] == name + suffix;
    JoinPrefix(parent, name, [name + suffix] + below);
    assert d == parent + ([name + suffix] + below);
  }

  lemma JoinPrefix(parent: Path, name: string, rest: Path)
    requires rest != [] && StartsWith(rest[0], name)
    ensures StartsWith(Render(parent + rest), Render(parent + [name]))
  {
    assert StartsWith(Join(rest), name) by {
      if |rest| > 1 {
        assert Join(rest) == rest[0] + ("/" + Join(rest[1..]));
      }
    }
    assert Join([name]) == name;
    if parent == [] {
      assert parent + rest == rest && parent + [name] == [name];
    } else {
      JoinSplits(parent, rest);
      JoinSplits(parent, [name]);
      var before := Join(parent) + "/";
      assert Join(parent + rest) == before + Join(rest);
      assert Join(parent + [name]) == before + name;
    }
  }

  // ----- the resolver -----

  type ProjectId = int

  datatype Trust = Trusted | Untrusted | Unset

  datatype Project = Project(id: ProjectId, path: string, trust: Trust)

  /** `projectId`: the column is nullable. */
  datatype Session = Session(worktreePath: string, projectId: Option<ProjectId>)

  /** What the three queries return; None is a query that throws. */
  datatype Database = Database(
    sessionByWorktree: Option<map<string, Session>>,
    projectById: Option<map<ProjectId, Project>>,
    allProjects: Option<seq<Project>>)

  function Find(projects: seq<Project>, accepts: Project -> bool): (found: Option<Project>)
    ensures found.None? <==> forall i :: 0 <= i < |projects| ==> !accepts(projects[i])
    ensures found.Some? ==> exists i :: IsFirst(projects, accepts, i) && projects[i] == found.value
  {
    if projects == [] then None
    else if accepts(projects[0]) then
      assert IsFirst(projects, accepts, 0);
      Some(projects[0])
    else
      var found := Find(projects[1..], accepts);
      assert forall i :: 1 <= i < |projects| ==> projects[i] == projects[1..][i - 1];
      assert found.Some? ==> exists i :: IsFirst(projects[1..], accepts, i) && projects[1..][i] == found.value && IsFirst(projects, accepts, i + 1);
      found
  }

  predicate IsFirst(projects: seq<Project>, accepts: Project -> bool, i: int) {
    0 <= i < |projects| && accepts(projects[i]) && forall j :: 0 <= j < i ==> !accepts(projects[j])
  }

  function TrustOf(found: Option<Project>): bool {
    found.Some? && found.value.trust.Trusted?
  }

  function Exactly(dir: string): Project -> bool {
    (p: Project) => p.path == dir
  }

  function Containing(cwd: Path, dir: string): Project -> bool
    requires IsPath(cwd)
  {
    (p: Project) => Contains(cwd, p.path, dir)
  }

  /** Any throw reads as untrusted. */
  predicate Trusts(cwd: Path, db: Database, dir: string)
    requires IsPath(cwd)
  {
    if db.sessionByWorktree.None? then false
    else if dir in db.sessionByWorktree.value then
      // a session without a project has project_id null, which is not undefined
      var session := db.sessionByWorktree.value[dir];
      db.projectById.Some? && session.projectId.Some?
      && session.projectId.value in db.projectById.value
      && db.projectById.value[session.projectId.value].trust.Trusted?
    else if db.allProjects.None? then false
    else
      var exact := Find(db.allProjects.value, Exactly(dir));
      if exact.Some? then TrustOf(exact)
      else TrustOf(Find(db.allProjects.value, Containing(cwd, dir)))
  }

  /** The row that decides. */
  datatype Decider = SessionProject(id: ProjectId) | Listed(index: nat) | Nobody

  ghost predicate Decides(cwd: Path, db: Database, dir: string, d: Decider)
    requires IsPath(cwd) && db.sessionByWorktree.Some? && db.projectById.Some? && db.allProjects.Some?
  {
    var sessions, projects := db.sessionByWorktree.value, db.allProjects.value;
    match d
    case SessionProject(id) =>
      dir in sessions && sessions[dir].projectId == Some(id) && id in db.projectById.value
    case Listed(i) =>
      && dir !in sessions
      && 0 <= i < |projects|
      && ((projects[i].path == dir && forall j :: 0 <= j < i ==> projects[j].path != dir)
          || ((forall j :: 0 <= j < |projects| ==> projects[j].path != dir)
              && Contains(cwd, projects[i].path, dir) && forall j :: 0 <= j < i ==> !Contains(cwd, projects[j].path, dir)))
    case Nobody =>
      if dir in sessions then sessions[dir].projectId.None? || sessions[dir].projectId.value !in db.projectById.value
      else forall j :: 0 <= j < |projects| ==> projects[j].path != dir && !Contains(cwd, projects[j].path, dir)
  }

  /**
   With working queries exactly one row decides: the session's project, else the first exact match, else
   the first containing project; the directory is trusted exactly when that row is.
   */
  lemma OneRowDecides(cwd: Path, db: Database, dir: string) returns (d: Decider)
    requires IsPath(cwd) && db.sessionByWorktree.Some? && db.projectById.Some? && db.allProjects.Some?
    ensures Decides(cwd, db, dir, d)
    ensures forall e :: Decides(cwd, db, dir, e) ==> e == d
    ensures Trusts(cwd, db, dir) <==>
            match d
            case SessionProject(id) => db.projectById.value[id].trust.Trusted?
            case Listed(i) => db.allProjects.value[i].trust.Trusted?
            case Nobody => false
  {
    var sessions, projects := db.sessionByWorktree.value, db.allProjects.value;
    if dir in sessions {
      var s := sessions[dir];
      d := if s.projectId.Some? && s.projectId.value in db.projectById.value then SessionProject(s.projectId.value) else Nobody;
    } else {
      var exact := Find(projects, Exactly(dir));
      var containing := Find(projects, Containing(cwd, dir));
      if exact.Some? {
        var i :| IsFirst(projects, Exactly(dir), i) && projects[i] == exact.value;
        d := Listed(i);
      } else if containing.Some? {
        var i :| IsFirst(projects, Containing(cwd, dir), i) && projects[i] == containing.value;
        d := Listed(i);
      } else {
        d := Nobody;
      }
    }
  }

  /** Helper, fail-closed: losing any of the queries can take trust away but never give it. */
  lemma FailsClosed(cwd: Path, db: Database, broken: Database, dir: string)
    requires IsPath(cwd)
    requires broken.sessionByWorktree.None? || broken.sessionByWorktree == db.sessionByWorktree
    requires broken.projectById.None? || broken.projectById == db.projectById
    requires broken.allProjects.None? || broken.allProjects == db.allProjects
    ensures Trusts(cwd, broken, dir) ==> Trusts(cwd, db, dir)
  {
  }
}
