/** The reloadable theme (src/reloadable.rs): a theme that is either fixed or
    tied to a watched file, the transitions `set_path` and `reload`, and the
    event filter of its reload stream. */
module Reloadable {
  import opened Wrappers
  import opened Themes

  /** The world the file-backed operations depend on: the readable files, whether
      a watcher can be created at all, and the paths a watcher can register. */
  datatype Env = Env(cfg: Config, files: map<Path, Text>, watcherAvailable: bool, watchable: set<Path>)

  /** `Inner`: a fixed theme, or a theme read from `path` with the set of paths
      its watcher has registered. */
  datatype Inner =
    | Static(theme: Theme)
    | Reloading(theme: Theme, path: Path, watched: set<Path>)

  /** A file-backed theme's watcher watches exactly its path. */
  predicate Watching(s: Inner) {
    s.Reloading? ==> s.watched == {s.path}
  }

  /** `ReloadableTheme::from_str`: a fixed theme. */
  function FromStr(cfg: Config, text: Text): Result<Inner, ErrorKind> {
    var theme :- Themes.FromStr(cfg, text);
    Success(Static(theme))
  }

  /** `ReloadableTheme::from_file`: the file is parsed first; then the watcher is
      created and the path registered, either of which can fail. */
  function Open(env: Env, p: Path): Result<Inner, ErrorKind> {
    var theme :- Themes.FromFile(env.cfg, env.files, p);
    if !env.watcherAvailable then Failure(Notify)
    else if p !in env.watchable then Failure(Notify)
    else Success(Reloading(theme, p, {p}))
  }

  /** The outcome of `set_path(p)` from state `s`: the result and the new state. */
  function SetPathStep(env: Env, s: Inner, p: Path): (Result<(), ErrorKind>, Inner) {
    match s
    case Static(_) =>
      (match Open(env, p)
       case Failure(e) => (Failure(e), s)
       case Success(t) => (Success(()), t))
    case Reloading(theme, current, watched) =>
      if p == current then (Success(()), s)
      else
        match Themes.FromFile(env.cfg, env.files, p)
        case Failure(e) => (Failure(e), s)
        case Success(next) =>
          if p !in env.watchable then (Failure(Notify), s)
          else (Success(()), Reloading(next, p, watched + {p} - {current}))
  }

  /** The outcome of `reload()` from state `s`. */
  function ReloadStep(env: Env, s: Inner): (Result<(), ErrorKind>, Inner) {
    match s
    case Static(_) => (Success(()), s)
    case Reloading(_, path, watched) =>
      match Themes.FromFile(env.cfg, env.files, path)
      case Failure(e) => (Failure(e), s)
      case Success(next) => (Success(()), Reloading(next, path, watched))
  }

  /** `ReloadableTheme`. */
  class ReloadableTheme {
    var inner: Inner

    /** `ReloadableTheme(inner)`: wraps a state whose watcher is on its path. */
    constructor Of(s: Inner)
      requires Watching(s)
      ensures inner == s
      ensures Valid()
    {
      inner := s;
    }

    /** `From<Theme>`. */
    constructor FromTheme(t: Theme)
      ensures inner == Static(t)
    {
      inner := Static(t);
    }

    /** `Default`: the default theme, fixed. */
    constructor Default()
      ensures inner == Static(DefaultTheme)
    {
      inner := Static(DefaultTheme);
    }

    ghost predicate Valid()
      reads this
    {
      Watching(inner)
    }

    /** `path()`: the file a file-backed theme was read from. */
    function CurrentPath(): Option<Path>
      reads this
    {
      if inner.Reloading? then Some(inner.path) else None
    }

    /** `Deref`: the current theme in either state. */
    function Deref(): Theme
      reads this
    {
      match inner
      case Static(t) => t
      case Reloading(t, _, _) => t
    }

    /** `set_path`: a new path replaces path and theme together once it has been
        parsed and registered; on any failure nothing changes. */
    method SetPath(env: Env, p: Path) returns (r: Result<(), ErrorKind>)
      requires Valid()
      modifies this
      ensures (r, inner) == SetPathStep(env, old(inner), p)
      ensures Valid()
      ensures r.Success? ==> CurrentPath() == Some(p)
      ensures r.Success? && old(CurrentPath()) == Some(p) ==> Deref() == old(Deref())
      ensures r.Success? && old(CurrentPath()) != Some(p) ==>
                Themes.FromFile(env.cfg, env.files, p).Success? &&
                Deref() == Themes.FromFile(env.cfg, env.files, p).value
      ensures r.Failure? ==> CurrentPath() == old(CurrentPath()) && Deref() == old(Deref())
    {
      match inner
      case Static(_) =>
        var attempt := Open(env, p);
        if attempt.Failure? {
          return Failure(attempt.error);
        }
        inner := attempt.value;
        r := Success(());
      case Reloading(theme, current, watched) =>
        if p != current {
          var next := Themes.FromFile(env.cfg, env.files, p);
          if next.Failure? {
            return Failure(next.error);
          }
          if p !in env.watchable {
            return Failure(Notify);
          }
          var registered := watched + {p};
          // `unwatch` of the previous path; its error is ignored
          registered := registered - {current};
          inner := Reloading(next.value, p, registered);
        }
        r := Success(());
    }

    /** `reload`: a file-backed theme re-reads its path; a fixed one is left alone. */
    method Reload(env: Env) returns (r: Result<(), ErrorKind>)
      requires Valid()
      modifies this
      ensures (r, inner) == ReloadStep(env, old(inner))
      ensures Valid()
      ensures CurrentPath() == old(CurrentPath())
      ensures old(CurrentPath()).None? ==> r.Success? && Deref() == old(Deref())
      ensures old(CurrentPath()).Some? ==>
                var parsed := Themes.FromFile(env.cfg, env.files, old(CurrentPath()).value);
                (r.Success? <==> parsed.Success?) &&
                Deref() == (if parsed.Success? then parsed.value else old(Deref()))
    {
      if inner.Reloading? {
        var next := Themes.FromFile(env.cfg, env.files, inner.path);
        if next.Failure? {
          return Failure(next.error);
        }
        inner := inner.(theme := next.value);
      }
      r := Success(());
    }
  }

  /** `ReloadableTheme::from_str`, allocating. */
  method NewFromStr(cfg: Config, text: Text) returns (r: Result<ReloadableTheme, ErrorKind>)
    ensures r.Failure? <==> FromStr(cfg, text).Failure?
    ensures r.Failure? ==> r.error == FromStr(cfg, text).error
    ensures r.Success? ==> fresh(r.value) && r.value.inner == FromStr(cfg, text).value && r.value.Valid()
    ensures r.Success? ==> r.value.CurrentPath() == None && r.value.Deref() == Themes.FromStr(cfg, text).value
  {
    var s := FromStr(cfg, text);
    if s.Failure? {
      return Failure(s.error);
    }
    var t := new ReloadableTheme.FromTheme(s.value.theme);
    r := Success(t);
  }

  /** `ReloadableTheme::from_file`, allocating. */
  method NewFromFile(env: Env, p: Path) returns (r: Result<ReloadableTheme, ErrorKind>)
    ensures r.Failure? <==> Open(env, p).Failure?
    ensures r.Failure? ==> r.error == Open(env, p).error
    ensures r.Success? ==> fresh(r.value) && r.value.inner == Open(env, p).value && r.value.Valid()
    ensures r.Success? ==> r.value.CurrentPath() == Some(p) && r.value.Deref() == Themes.FromFile(env.cfg, env.files, p).value
  {
    var s := Open(env, p);
    if s.Failure? {
      return Failure(s.error);
    }
    var t := new ReloadableTheme.Of(s.value);
    r := Success(t);
  }

  // ---------------------------------------------------------------------------
  // Properties of the transitions

  /** A fixed theme from text has no path. */
  lemma FromStrHasNoPath(cfg: Config, text: Text)
    requires FromStr(cfg, text).Success?
    ensures FromStr(cfg, text).value.Static?
    ensures FromStr(cfg, text).value.theme == Themes.FromStr(cfg, text).value
  {
  }

  /** `from_file` succeeds exactly when the file parses, a watcher exists and the
      path can be registered; its failures come in that order, and a success
      watches the path it read. */
  lemma OpenMeaning(env: Env, p: Path)
    ensures Themes.FromFile(env.cfg, env.files, p).Failure? ==>
              Open(env, p) == Failure(Themes.FromFile(env.cfg, env.files, p).error)
    ensures Themes.FromFile(env.cfg, env.files, p).Success? && (!env.watcherAvailable || p !in env.watchable) ==>
              Open(env, p) == Failure(Notify)
    ensures Open(env, p).Success? <==>
              Themes.FromFile(env.cfg, env.files, p).Success? && env.watcherAvailable && p in env.watchable
    ensures Open(env, p).Success? ==>
              Open(env, p).value == Reloading(Themes.FromFile(env.cfg, env.files, p).value, p, {p})
    ensures Open(env, p).Success? ==> Watching(Open(env, p).value)
  {
  }

  /** Setting the current path again does nothing. */
  lemma SetSamePathIsNoop(env: Env, s: Inner)
    requires s.Reloading?
    ensures SetPathStep(env, s, s.path) == (Success(()), s)
  {
  }

  /** A failing `set_path` leaves the state as it was, in either state. */
  lemma SetPathFailureUnchanged(env: Env, s: Inner, p: Path)
    requires SetPathStep(env, s, p).0.Failure?
    ensures SetPathStep(env, s, p).1 == s
  {
  }

  /** On a file-backed theme, `set_path` to another path fails with the parse
      error when the file does not parse, fails with a watch error when it parses
      but cannot be registered, and otherwise replaces theme and path together
      and moves the watch from the old path to the new one. */
  lemma SetPathOnFileBacked(env: Env, s: Inner, p: Path)
    requires s.Reloading? && p != s.path && Watching(s)
    ensures Themes.FromFile(env.cfg, env.files, p).Failure? ==>
              SetPathStep(env, s, p).0 == Failure(Themes.FromFile(env.cfg, env.files, p).error)
    ensures Themes.FromFile(env.cfg, env.files, p).Success? && p !in env.watchable ==>
              SetPathStep(env, s, p).0 == Failure(Notify)
    ensures SetPathStep(env, s, p).0.Success? ==>
              SetPathStep(env, s, p).1 == Reloading(Themes.FromFile(env.cfg, env.files, p).value, p, {p})
  {
  }

  /** On a fixed theme, `set_path` is `from_file`. */
  lemma SetPathOnStatic(env: Env, s: Inner, p: Path)
    requires s.Static?
    ensures SetPathStep(env, s, p).0.Success? <==> Open(env, p).Success?
    ensures Open(env, p).Success? ==> SetPathStep(env, s, p).1 == Open(env, p).value
  {
  }

  /** `set_path` keeps the watcher on exactly the current path. */
  lemma SetPathKeepsWatching(env: Env, s: Inner, p: Path)
    requires Watching(s)
    ensures Watching(SetPathStep(env, s, p).1)
  {
  }

  /** `reload` re-reads the current file and keeps the path and watches; a
      fixed theme is untouched; a failure keeps the old theme. */
  lemma ReloadMeaning(env: Env, s: Inner)
    ensures s.Static? ==> ReloadStep(env, s) == (Success(()), s)
    ensures ReloadStep(env, s).0.Failure? ==> ReloadStep(env, s).1 == s
    ensures s.Reloading? ==>
      var parsed := Themes.FromFile(env.cfg, env.files, s.path);
      (ReloadStep(env, s).0.Success? <==> parsed.Success?) &&
      (parsed.Success? ==> ReloadStep(env, s).1 == s.(theme := parsed.value))
    ensures Watching(s) ==> Watching(ReloadStep(env, s).1)
  {
  }

  // ---------------------------------------------------------------------------
  // The reload stream

  /** `notify::EventKind`. */
  datatype EventKind = AnyKind | Access | Create | Modify | Remove | Other

  /** One value the stream observes on the channel: an event or a watcher error. */
  datatype Observed = Event(kind: EventKind) | WatchError

  predicate Triggers(o: Observed) {
    o.Event? && (o.kind.Modify? || o.kind.Create?)
  }

  /** How many reload events a sequence of observations should yield. */
  function Reloads(obs: seq<Observed>): nat {
    if obs == [] then 0 else Reloads(obs[..|obs| - 1]) + (if Triggers(obs[|obs| - 1]) then 1 else 0)
  }

  /** The number of reload events the stream of `subscription()` yields: a fixed
      theme's stream never yields; a file-backed one yields once per observed
      modification or creation and skips other kinds and errors. */
  method StreamYields(s: Inner, obs: seq<Observed>) returns (count: nat)
    ensures count == (if s.Static? then 0 else Reloads(obs))
  {
    if s.Static? {
      return 0;
    }
    count := 0;
    var i := 0;
    while i < |obs|
      invariant 0 <= i <= |obs|
      invariant count == Reloads(obs[..i])
    {
      assert obs[..i + 1][..i] == obs[..i];
      if !Triggers(obs[i]) {
        i := i + 1;
        continue;
      }
      count := count + 1;
      i := i + 1;
    }
    assert obs[..|obs|] == obs;
  }

  /** The count over two stretches of observations adds up. */
  lemma {:induction false} ReloadsAppend(a: seq<Observed>, b: seq<Observed>)
    ensures Reloads(a + b) == Reloads(a) + Reloads(b)
    decreases |b|
  {
    if b != [] {
      var last := b[|b| - 1];
      assert (a + b)[..|a + b| - 1] == a + b[..|b| - 1];
      ReloadsAppend(a, b[..|b| - 1]);
      assert (a + b)[|a + b| - 1] == last;
    } else {
      assert a + b == a;
    }
  }

  /** At most one reload per observation, exactly one per observation when each
      is a modification or creation, and none when none is. */
  lemma {:induction false} ReloadsBounds(obs: seq<Observed>)
    ensures Reloads(obs) <= |obs|
    ensures (forall i :: 0 <= i < |obs| ==> Triggers(obs[i])) ==> Reloads(obs) == |obs|
    ensures (forall i :: 0 <= i < |obs| ==> !Triggers(obs[i])) ==> Reloads(obs) == 0
  {
    if obs != [] {
      var init := obs[..|obs| - 1];
      ReloadsBounds(init);
      assert forall i :: 0 <= i < |init| ==> init[i] == obs[i];
    }
  }
}
