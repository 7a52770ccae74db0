/**
 Demand-driven artifact capture: a projection is run again and again, and whenever it asks for an
 artifact whose bytes are not captured yet, they are fetched before the next run.
*/
module Hydration {
  import opened Wrappers

  type Path = string
  type Bytes = seq<int>

  datatype Action<+R> = Done(value: R) | Throw(error: string) | Read(path: Path)

  /** A deterministic projection: what it does next depends on the bytes it has read so far. */
  type Projection<+R> = seq<Bytes> -> Action<R>

  datatype Outcome<+R> = Returned(value: R) | Threw(error: string)

  /** Where an artifact comes from: captured before, or the catalog. */
  datatype Source = Source(captured: map<Path, Bytes>, readArtifact: Path -> Result<Bytes>) {
    function At(path: Path): Result<Bytes> {
      if path in captured then Success(captured[path]) else readArtifact(path)
    }
  }

  /** From the bytes read so far, the projection ends after at most `limit` more reads of its source. */
  predicate Ends<R>(project: Projection<R>, source: Source, h: seq<Bytes>, limit: nat)
    decreases limit
  {
    match project(h)
    case Read(path) =>
      (match source.At(path)
       case Failure(_) => true
       case Success(bytes) => limit > 0 && Ends(project, source, h + [bytes], limit - 1))
    case _ => true
  }

  /** Running the projection with every artifact at hand. */
  function Eager<R>(project: Projection<R>, source: Source, h: seq<Bytes>, limit: nat): Outcome<R>
    requires Ends(project, source, h, limit)
    decreases limit
  {
    match project(h)
    case Done(value) => Returned(value)
    case Throw(error) => Threw(error)
    case Read(path) =>
      match source.At(path)
      case Failure(error) => Threw(error)
      case Success(bytes) => Eager(project, source, h + [bytes], limit - 1)
  }

  /** The artifacts the eager run reads. */
  function PathsRead<R>(project: Projection<R>, source: Source, h: seq<Bytes>, limit: nat): set<Path>
    requires Ends(project, source, h, limit)
    decreases limit
  {
    match project(h)
    case Read(path) =>
      {path} + (match source.At(path) case Failure(_) => {} case Success(bytes) => PathsRead(project, source, h + [bytes], limit - 1))
    case _ => {}
  }

  /** The number of reads allowed is only a measure: any that suffices gives the same run. */
  lemma {:induction false} LimitIsOnlyAMeasure<R>(project: Projection<R>, source: Source, h: seq<Bytes>, limit: nat, other: nat)
    requires Ends(project, source, h, limit) && Ends(project, source, h, other)
    ensures Eager(project, source, h, limit) == Eager(project, source, h, other)
    ensures PathsRead(project, source, h, limit) == PathsRead(project, source, h, other)
    decreases limit
  {
    match project(h)
    case Read(path) =>
      if source.At(path).Success? {
        LimitIsOnlyAMeasure(project, source, h + [source.At(path).value], limit - 1, other - 1);
      }
    case _ =>
  }

  /** The projection has read exactly these bytes of its source so far, artifact after artifact. */
  predicate HasRead<R>(project: Projection<R>, source: Source, h: seq<Bytes>) {
    h != [] ==>
      var n := |h| - 1;
      && HasRead(project, source, h[..n])
      && match project(h[..n])
         case Read(path) => source.At(path) == Success(h[n])
         case _ => false
  }

  /**
   The eager run ends as the projection does once it has read all it asks for: with its value, with its
   own error, or with the error of the artifact that cannot be had.
  */
  lemma {:induction false} EagerEndsAsTheProjection<R>(project: Projection<R>, source: Source, h: seq<Bytes>, limit: nat, k: nat)
    requires k <= |h| && HasRead(project, source, h) && Ends(project, source, h[..k], limit)
    ensures project(h).Done? ==> Eager(project, source, h[..k], limit) == Returned(project(h).value)
    ensures project(h).Throw? ==> Eager(project, source, h[..k], limit) == Threw(project(h).error)
    ensures project(h).Read? && source.At(project(h).path).Failure? ==>
              Eager(project, source, h[..k], limit) == Threw(source.At(project(h).path).error)
    decreases |h| - k
  {
    if k == |h| {
      assert h[..k] == h;
    } else {
      ReadBefore(project, source, h, k);
      assert h[..k + 1] == h[..k] + [h[k]];
      EagerEndsAsTheProjection(project, source, h, limit - 1, k + 1);
    }
  }

  lemma {:induction false} ReadBefore<R>(project: Projection<R>, source: Source, h: seq<Bytes>, k: nat)
    requires k < |h| && HasRead(project, source, h)
    ensures project(h[..k]).Read? && source.At(project(h[..k]).path) == Success(h[k])
    decreases |h|
  {
    var n := |h| - 1;
    if k < n {
      ReadBefore(project, source, h[..n], k);
      assert h[..n][..k] == h[..k];
    }
  }

  predicate Agrees(captured: map<Path, Bytes>, source: Source) {
    forall path | path in captured :: source.At(path) == Success(captured[path])
  }

  /** How one run over captured bytes ends; `Missing` is the request for an artifact that is not captured. */
  datatype Attempt<+R> = Ended(outcome: Outcome<R>) | Missing(path: Path)

  /** What a run over captured bytes says about the eager run from the same point. */
  predicate Faithful<R(==)>(a: Attempt<R>, captured: map<Path, Bytes>, source: Source, eager: Outcome<R>, paths: set<Path>) {
    match a
    case Ended(outcome) => outcome == eager
    case Missing(path) => path !in captured && path in paths && (source.At(path).Failure? ==> eager == Threw(source.At(path).error))
  }

  /** After `runs` runs: as many artifacts fetched, all of them read by the projection, all from their source. */
  predicate Progress(before: map<Path, Bytes>, now: map<Path, Bytes>, source: Source, paths: set<Path>, runs: int) {
    && Agrees(now, source)
    && before.Keys <= now.Keys <= before.Keys + paths
    && runs == |now.Keys - before.Keys|
  }

  lemma OneMore(before: set<Path>, now: set<Path>, paths: set<Path>, path: Path)
    requires before <= now <= before + paths && path !in now && path in paths
    ensures before <= now + {path} <= before + paths
    ensures |now + {path} - before| == |now - before| + 1
  {
    assert now + {path} - before == (now - before) + {path};
  }

  lemma OneLess(paths: set<Path>, keys: set<Path>, path: Path)
    requires path in paths && path !in keys
    ensures |paths - (keys + {path})| < |paths - keys|
  {
    assert paths - keys == (paths - (keys + {path})) + {path};
  }

  lemma KeysOfUpdate(m: map<Path, Bytes>, path: Path, bytes: Bytes)
    ensures m[path := bytes].Keys == m.Keys + {path}
  {
  }

  lemma StillAgrees(now: map<Path, Bytes>, source: Source, path: Path, bytes: Bytes)
    requires Agrees(now, source) && source.At(path) == Success(bytes)
    ensures Agrees(now[path := bytes], source)
  {
  }

  lemma Fetched(now: map<Path, Bytes>, source: Source, paths: set<Path>, runs: nat, path: Path, bytes: Bytes)
    requires Progress(source.captured, now, source, paths, runs)
    requires path !in now && path in paths && source.At(path) == Success(bytes)
    ensures Progress(source.captured, now[path := bytes], source, paths, runs + 1)
  {
    OneMore(source.captured.Keys, now.Keys, paths, path);
    StillAgrees(now, source, path, bytes);
    KeysOfUpdate(now, path, bytes);
  }

  class QueryArtifactCapture {
    var artifactBytes: map<Path, Bytes>
    const readArtifact: Path -> Result<Bytes>

    constructor (artifactBytes: map<Path, Bytes>, readArtifact: Path -> Result<Bytes>)
      ensures this.artifactBytes == artifactBytes && this.readArtifact == readArtifact
    {
      this.artifactBytes := artifactBytes;
      this.readArtifact := readArtifact;
    }

    /** One run of the projection over what is captured. */
    method Run<R(==)>(project: Projection<R>, ghost limit: nat, ghost source: Source) returns (a: Attempt<R>)
      requires Ends(project, source, [], limit) && Agrees(artifactBytes, source)
      ensures Faithful(a, artifactBytes, source, Eager(project, source, [], limit), PathsRead(project, source, [], limit))
    {
      var h: seq<Bytes> := [];
      ghost var left := limit;
      var action := project(h);
      while action.Read? && action.path in artifactBytes
        invariant action == project(h) && Ends(project, source, h, left)
        invariant Eager(project, source, [], limit) == Eager(project, source, h, left)
        invariant PathsRead(project, source, h, left) <= PathsRead(project, source, [], limit)
        decreases left
      {
        h := h + [artifactBytes[action.path]];
        left := left - 1;
        action := project(h);
      }
      match action
      case Done(value) => return Ended(Returned(value));
      case Throw(error) => return Ended(Threw(error));
      case Read(path) => return Missing(path);
    }

    /** One run; it ends the hydration, or one more artifact is captured. */
    method RunOrFetch<R(==)>(project: Projection<R>, ghost limit: nat, ghost source: Source, ghost eager: Outcome<R>, ghost paths: set<Path>,
                             ghost runs: nat) returns (ended: Option<Outcome<R>>)
      requires Ends(project, source, [], limit) && eager == Eager(project, source, [], limit) && paths == PathsRead(project, source, [], limit)
      requires Progress(source.captured, artifactBytes, source, paths, runs) && source.readArtifact == readArtifact
      modifies this
      ensures ended.Some? ==> ended.value == eager && artifactBytes == old(artifactBytes)
      ensures ended.None? ==> Progress(source.captured, artifactBytes, source, paths, runs + 1)
      ensures ended.None? ==> |paths - artifactBytes.Keys| < |paths - old(artifactBytes.Keys)|
    {
      var a := Run(project, limit, source);
      match a
      case Ended(outcome) => return Some(outcome);
      case Missing(path) =>
        if path in artifactBytes { assert false; }
        var fetched := readArtifact(path);
        if fetched.Failure? { return Some(Threw(fetched.error)); }
        Fetched(artifactBytes, source, paths, runs, path, fetched.value);
        KeysOfUpdate(artifactBytes, path, fetched.value);
        OneLess(paths, artifactBytes.Keys, path);
        artifactBytes := artifactBytes[path := fetched.value];
        return None;
    }

    /**
     For any projection whose eager run on this source ends, however many reads that takes: returns what
     the eager run returns, fetches nothing the eager run does not read, fetches nothing twice, and runs
     the projection once per fetched artifact and once more.
    */
    method Hydrate<R(==)>(project: Projection<R>, ghost limit: nat) returns (outcome: Outcome<R>, runs: nat)
      requires Ends(project, Source(artifactBytes, readArtifact), [], limit)
      modifies this
      ensures var source := Source(old(artifactBytes), readArtifact);
              && outcome == Eager(project, source, [], limit)
              && Progress(old(artifactBytes), artifactBytes, source, PathsRead(project, source, [], limit), runs - 1)
    {
      ghost var source := Source(artifactBytes, readArtifact);
      ghost var eager := Eager(project, source, [], limit);
      ghost var paths := PathsRead(project, source, [], limit);
      runs := 0;
      while true
        invariant Progress(source.captured, artifactBytes, source, paths, runs)
        decreases |paths - artifactBytes.Keys|
      {
        var ended := RunOrFetch(project, limit, source, eager, paths, runs);
        runs := runs + 1;
        if ended.Some? { return ended.value, runs; }
      }
    }
  }
}
