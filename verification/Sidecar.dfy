/** The sidecar cache of peerdist.js: hashes stored next to an installer, keyed on size and modification time with a
    tolerance, over any run of rewrites, touches and lookups of that installer. */
module Sidecar {
  import opened Prelude
  import opened Bytes
  import opened PeerDist

  const TOLERANCE_MS: int := 1000

  /** An installer file and its sidecar; None stands for a sidecar that is missing or does not parse. */
  datatype Disk = Disk(content: Bytes, mtimeMs: real, sidecar: Option<Tree>)

  datatype Version = Version(content: Bytes, mtimeMs: real)

  function Distance(a: int, b: int): nat {
    if a <= b then b - a else a - b
  }

  /** readSidecar: the stored tree when its schema and size match and its time is close enough. */
  function ReadSidecar(d: Disk): Option<Tree> {
    if d.sidecar.None? || d.sidecar.value.schemaVersion != SIDECAR_SCHEMA_VERSION then None
    else if d.sidecar.value.fileSize != |d.content| then None
    else if Distance(d.sidecar.value.mtimeMs, d.mtimeMs.Floor) > TOLERANCE_MS then None
    else d.sidecar
  }

  /** The tree loadOrCompute returns; None when the file is too large to hash. */
  function Served(h: Bytes -> Digest, d: Disk): Option<Tree> {
    if ReadSidecar(d).Some? then ReadSidecar(d)
    else if |d.content| <= MAX_HASHABLE_SIZE then Some(TreeOf(h, d.content, d.mtimeMs.Floor))
    else None
  }

  datatype Event = Write(content: Bytes, mtimeMs: real) | Touch(newTime: real) | Lookup(writable: bool)

  /** A lookup writes a sidecar only when it had to compute one; a failing write is only logged. */
  function Apply(h: Bytes -> Digest, d: Disk, e: Event): Disk {
    match e
    case Write(content, mtimeMs) => d.(content := content, mtimeMs := mtimeMs)
    case Touch(newTime) => d.(mtimeMs := newTime)
    case Lookup(writable) =>
      if writable && ReadSidecar(d).None? && Served(h, d).Some? then d.(sidecar := Served(h, d)) else d
  }

  function Run(h: Bytes -> Digest, d: Disk, events: seq<Event>): Disk {
    if events == [] then d else Apply(h, Run(h, d, events[..|events| - 1]), events[|events| - 1])
  }

  function Current(d: Disk): Version {
    Version(d.content, d.mtimeMs)
  }

  /** Every version the file has had. */
  ghost function Versions(h: Bytes -> Digest, d: Disk, events: seq<Event>): set<Version> {
    (if events == [] then {} else Versions(h, d, events[..|events| - 1])) + {Current(Run(h, d, events))}
  }

  /** The sidecar, if readSidecar could accept it at all, was computed from some version. */
  ghost predicate FromVersion(h: Bytes -> Digest, sidecar: Option<Tree>, versions: set<Version>) {
    sidecar.Some? && sidecar.value.schemaVersion == 2 ==>
      exists v :: v in versions && TreeFrom(h, sidecar.value, v)
  }

  predicate TreeFrom(h: Bytes -> Digest, tree: Tree, v: Version) {
    |v.content| <= MAX_HASHABLE_SIZE && tree == TreeOf(h, v.content, v.mtimeMs.Floor)
  }

  lemma {:induction false} SidecarFromVersion(h: Bytes -> Digest, d: Disk, events: seq<Event>)
    requires FromVersion(h, d.sidecar, {Current(d)})
    ensures FromVersion(h, Run(h, d, events).sidecar, Versions(h, d, events))
  {
    if events == [] {
    } else {
      var init, last := events[..|events| - 1], events[|events| - 1];
      SidecarFromVersion(h, d, init);
      var before, after := Run(h, d, init), Run(h, d, events);
      hide TreeOf;
      if after.sidecar == before.sidecar {
        assert Versions(h, d, init) <= Versions(h, d, events);
      } else {
        assert Current(after) == Current(before) && Current(after) in Versions(h, d, events);
        assert TreeFrom(h, after.sidecar.value, Current(after));
      }
    }
  }

  /** `v` could have been mistaken for the current version: it has its size, and in whole milliseconds its time up to
      1000. */
  predicate CloseTo(v: Version, d: Disk) {
    |v.content| == |d.content| && -1000 <= v.mtimeMs.Floor - d.mtimeMs.Floor <= 1000
  }

  /** Whatever the run, a lookup serves the hashes of some version of the current size whose time is within 1000 ms of
      the current time: hits do not rewrite the sidecar, so staleness does not add up over lookups. */
  lemma ServedIsClose(h: Bytes -> Digest, d: Disk, events: seq<Event>)
    requires FromVersion(h, d.sidecar, {Current(d)})
    ensures var now := Run(h, d, events);
      Served(h, now).Some? ==>
        exists v :: v in Versions(h, d, events) && CloseTo(v, now) && TreeFrom(h, Served(h, now).value, v)
  {
    var now := Run(h, d, events);
    SidecarFromVersion(h, d, events);
    if ReadSidecar(now).Some? {
      var v :| v in Versions(h, d, events) && TreeFrom(h, now.sidecar.value, v);
      assert CloseTo(v, now);
    } else if Served(h, now).Some? {
      assert Current(now) in Versions(h, d, events) && CloseTo(Current(now), now);
    }
  }

  /** Different versions of one size are always more than 1000 whole milliseconds apart. */
  ghost predicate Separated(versions: set<Version>) {
    forall v, w :: v in versions && w in versions && |v.content| == |w.content| && v.content != w.content ==>
      v.mtimeMs.Floor - w.mtimeMs.Floor < -1000 || v.mtimeMs.Floor - w.mtimeMs.Floor > 1000
  }

  /** Under that condition a lookup serves what a fresh computation would, and always serves hashable files. */
  lemma ServedIsFresh(h: Bytes -> Digest, d: Disk, events: seq<Event>)
    requires FromVersion(h, d.sidecar, {Current(d)}) && Separated(Versions(h, d, events))
    ensures var now := Run(h, d, events);
      && (Served(h, now).Some? <==> |now.content| <= MAX_HASHABLE_SIZE)
      && (Served(h, now).Some? ==>
            && Served(h, now).value.fileSize == |now.content|
            && Served(h, now).value.segments == TreeOf(h, now.content, now.mtimeMs.Floor).segments)
  {
    var now := Run(h, d, events);
    ServedIsClose(h, d, events);
    if Served(h, now).Some? {
      var v :| v in Versions(h, d, events) && CloseTo(v, now) && TreeFrom(h, Served(h, now).value, v);
      assert Current(now) in Versions(h, d, events);
    }
  }

  /** The condition is needed, and exactly so: after a lookup and a rewrite, the old hashes are served precisely when
      the size is the same and the whole-millisecond times are at most 1000 apart. */
  lemma StaleIff(h: Bytes -> Digest, v: Version, w: Version)
    requires |v.content| <= MAX_HASHABLE_SIZE && |w.content| <= MAX_HASHABLE_SIZE
    ensures var d := Run(h, Disk(v.content, v.mtimeMs, None), [Lookup(true), Write(w.content, w.mtimeMs)]);
      Served(h, d) == Some(if CloseTo(v, d) then TreeOf(h, v.content, v.mtimeMs.Floor)
                           else TreeOf(h, w.content, w.mtimeMs.Floor))
  {
    var start := Disk(v.content, v.mtimeMs, None);
    var events := [Lookup(true), Write(w.content, w.mtimeMs)];
    assert events[..1] == [Lookup(true)] && [Lookup(true)][..0] == [];
    assert Run(h, start, []) == start;
    assert Run(h, start, [Lookup(true)]).sidecar == Some(TreeOf(h, v.content, v.mtimeMs.Floor));
  }

  /** Times are floored before they are compared, so a gap of a little over 1000 ms can still be taken for none. */
  lemma FractionsCanHideAGap(h: Bytes -> Digest)
    ensures var v, w := Version([1], 0.0), Version([2], 1000.5);
      && w.mtimeMs - v.mtimeMs > 1000.0
      && Served(h, Run(h, Disk(v.content, v.mtimeMs, None), [Lookup(true), Write(w.content, w.mtimeMs)]))
         == Some(TreeOf(h, v.content, 0))
  {
    StaleIff(h, Version([1], 0.0), Version([2], 1000.5));
  }

  /** The files on disk, as the two exported functions change them. */
  class Installer {
    var content: Bytes
    var mtimeMs: real
    var sidecar: Option<Tree>
    const h: Bytes -> Digest

    constructor (h: Bytes -> Digest, content: Bytes, mtimeMs: real, sidecar: Option<Tree>)
      ensures this.h == h && Contents() == Disk(content, mtimeMs, sidecar)
    {
      this.h, this.content, this.mtimeMs, this.sidecar := h, content, mtimeMs, sidecar;
    }

    ghost function Contents(): Disk
      reads this
    {
      Disk(content, mtimeMs, sidecar)
    }

    method ReadStored() returns (hit: Option<Tree>)
      ensures hit == ReadSidecar(Contents())
    {
      if sidecar.None? {
        return None;
      }
      if sidecar.value.schemaVersion != SIDECAR_SCHEMA_VERSION || sidecar.value.fileSize != |content| {
        return None;
      }
      if Distance(sidecar.value.mtimeMs, mtimeMs.Floor) > TOLERANCE_MS {
        return None;
      }
      hit := sidecar;
    }

    /** loadOrCompute: serve the sidecar or compute and try to store. */
    method LoadOrCompute(writable: bool) returns (tree: Result<Tree, HashError>)
      modifies this
      ensures Contents() == Apply(h, old(Contents()), Lookup(writable))
      ensures (if tree.Ok? then Some(tree.value) else None) == Served(h, old(Contents()))
      ensures tree.Err? ==> tree.error == TooLarge(|content|)
    {
      var hit := ReadStored();
      if hit.Some? {
        return Ok(hit.value);
      }
      assert content[..|content|] == content;
      tree := ComputePeerDistHashes(h, |content|, mtimeMs, content);
      if tree.Ok? && writable {
        sidecar := Some(tree.value);
      }
    }
  }
}
