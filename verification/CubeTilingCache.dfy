/**
 The one-entry cache in front of the cube tiling. Calls return what an uncached call would,
 and the global tiling bytes, which a hit does not restore, are right nevertheless.
 */
module CubeTilingCache {

  /** The dynamic shape variables of a call. */
  type Shape = seq<nat>

  /** What the inner tiling computes. */
  datatype Tiling = Tiling(wsSize: int, blockDim: nat, tilingKey: int, baseM: nat, baseN: nat, bytes: seq<nat>)

  /** What a call hands to its caller; the tiling data has a fixed number of bytes. */
  datatype Outputs = Outputs(wsSize: int, blockDim: nat, tilingKey: int, baseM: nat, baseN: nat, data: seq<nat>)

  function Zeros(n: nat): (z: seq<nat>)
    ensures |z| == n && forall i | 0 <= i < n :: z[i] == 0
  {
    if n == 0 then [] else Zeros(n - 1) + [0]
  }

  /** The bytes cut or filled up with zeros to `n`. */
  function Fitted(bytes: seq<nat>, n: nat): (r: seq<nat>)
    ensures |r| == n
  {
    if |bytes| < n then bytes + Zeros(n - |bytes|) else bytes[..n]
  }

  /** An outcome of a call: what it returns, and the global bytes after it. */
  datatype Outcome = Outcome(out: Outputs, globalBytes: seq<nat>)

  function UncachedOutcome(t: Tiling, n: nat): Outcome {
    Outcome(Uncached(t, n), t.bytes)
  }

  /** A call without a cache. */
  function Uncached(t: Tiling, n: nat): Outputs {
    Outputs(t.wsSize, t.blockDim, t.tilingKey, t.baseM, t.baseN, Fitted(t.bytes, n))
  }

  class CubeTiling {
    /** The inner tiling depends on the shape alone. */
    const inner: Shape -> Tiling
    const dataSize: nat
    var cacheValid: bool
    var cacheShape: Shape
    var cache: Outputs
    /** The bytes of the last tiling, which constant generation reads. */
    var globalBytes: seq<nat>

    constructor (inner: Shape -> Tiling, dataSize: nat)
      ensures this.inner == inner && this.dataSize == dataSize && !cacheValid && Valid()
    {
      this.inner, this.dataSize := inner, dataSize;
      cacheValid, cacheShape, cache, globalBytes := false, [], Outputs(0, 0, 0, 0, 0, []), [];
    }

    /** The entry belongs to its shape, and so do the global bytes. */
    predicate Valid()
      reads this
    {
      cacheValid ==> cache == Uncached(inner(cacheShape), dataSize) && globalBytes == inner(cacheShape).bytes
    }

    method CallCubeTiling(shape: Shape) returns (out: Outputs)
      requires Valid()
      modifies this
      ensures Valid() && cacheValid && cacheShape == shape
      ensures out == Uncached(inner(shape), dataSize)
      ensures globalBytes == inner(shape).bytes
    {
      if cacheValid && cacheShape == shape {
        return cache;
      }
      var result := inner(shape);
      globalBytes := result.bytes;
      var data := CopyBytes(result.bytes, dataSize);
      out := Outputs(result.wsSize, result.blockDim, result.tilingKey, result.baseM, result.baseN, data);
      cacheValid, cacheShape, cache := true, shape, out;
    }

    /** Any sequence of calls: each returns what it would without a cache, and after each the global bytes
        are those of its shape. */
    method CallAll(shapes: seq<Shape>) returns (outcomes: seq<Outcome>)
      requires Valid()
      modifies this
      ensures Valid() && outcomes == UncachedOutcomes(inner, dataSize, shapes, |shapes|)
    {
      outcomes := [];
      var i := 0;
      while i < |shapes|
        invariant 0 <= i <= |shapes| && Valid() && outcomes == UncachedOutcomes(inner, dataSize, shapes, i)
      {
        var out := CallCubeTiling(shapes[i]);
        outcomes := outcomes + [Outcome(out, globalBytes)];
        i := i + 1;
      }
    }
  }

  /** The outcomes of the first `n` calls without a cache. */
  function UncachedOutcomes(inner: Shape -> Tiling, size: nat, shapes: seq<Shape>, n: nat): seq<Outcome>
    requires n <= |shapes|
  {
    if n == 0 then [] else UncachedOutcomes(inner, size, shapes, n - 1) + [UncachedOutcome(inner(shapes[n - 1]), size)]
  }

  /** Clears the data, then copies as many bytes as fit. */
  method CopyBytes(bytes: seq<nat>, n: nat) returns (data: seq<nat>)
    ensures data == Fitted(bytes, n)
  {
    var buffer := new nat[n](_ => 0);
    var size := if |bytes| < n then |bytes| else n;
    forall i | 0 <= i < size {
      buffer[i] := bytes[i];
    }
    data := buffer[..];
  }
}
