/**
 The rotating log writer (internal/dockerworker/logs.go).  Every file operation may fail; `Faults`
 says which ones do during one write, and the results hold for all of them.
 */
module RotatingLog {
  import opened Text

  function Contents(file: Option<Bytes>): Bytes {
    if file.None? then [] else file.value
  }

  predicate IsSuffix(tail: Bytes, all: Bytes) {
    |tail| <= |all| && all[|all| - |tail|..] == tail
  }

  datatype Faults = Faults(close: bool, remove: bool, rename: bool, reopen: bool, accepted: nat)

  class LogWriter {
    const max: nat
    /** The files at the log path and at the path with ".1" appended. */
    var current: Option<Bytes>
    var previous: Option<Bytes>
    /** Whether the handle is usable, and the tracked size. */
    var isOpen: bool
    var size: nat
    /** Everything that was ever written, starting with what was on disk. */
    ghost var stream: Bytes

    ghost predicate Valid()
      reads this
    {
      && IsSuffix(Contents(previous) + Contents(current), stream)
      && (isOpen ==> current.Some? && size == |current.value|)
    }

    /** Nothing has been dropped yet, or more than a whole file's worth is still on disk. */
    ghost predicate Retains()
      reads this
    {
      Contents(previous) + Contents(current) == stream || |Contents(previous)| + |Contents(current)| > max
    }

    constructor (max: nat, current: Option<Bytes>, previous: Option<Bytes>)
      ensures Valid() && Retains() && isOpen && this.max == max
      ensures this.current == Some(Contents(current)) && this.previous == previous
      ensures stream == Contents(previous) + Contents(current)
    {
      this.max := max;
      this.current := Some(Contents(current));
      this.previous := previous;
      isOpen := true;
      size := |Contents(current)|;
      stream := Contents(previous) + Contents(current);
    }

    method Rotate(faults: Faults) returns (ok: bool)
      requires Valid()
      modifies this
      ensures Valid() && stream == old(stream)
      ensures ok ==> isOpen && current == Some([]) && size == 0
      ensures ok && old(current).Some? ==> previous == old(current)
      ensures |Contents(current)| <= |Contents(old(current))|
      ensures ok <==> old(isOpen) && !RotationFails(faults)
      ensures !ok ==> !isOpen
      ensures old(isOpen) && !faults.close ==>
                && previous == (if !faults.rename then old(current) else if faults.remove then old(previous) else None)
                && (faults.rename ==> current == old(current))
      ensures faults.close ==> current == old(current) && previous == old(previous)
      ensures !old(isOpen) ==> current == old(current) && previous == old(previous)
    {
      hide IsSuffix;
      SuffixParts(Contents(previous), Contents(current), stream);
      if !isOpen {
        return false;
      }
      isOpen := false;
      if faults.close {
        return false;
      }
      if !faults.remove {
        previous := None;
      }
      if faults.rename {
        return false;
      }
      previous := current;
      current := None;
      if faults.reopen {
        return false;
      }
      current, size, isOpen := Some([]), 0, true;
      return true;
    }

    method Write(data: Bytes, faults: Faults) returns (count: nat, ok: bool)
      requires Valid() && faults.accepted <= |data|
      modifies this
      ensures Valid()
      ensures count <= |data| && stream == old(stream) + data[..count]
      ensures ok ==> count == |data|
      ensures !old(isOpen) ==> count == 0 && !ok && !isOpen && current == old(current) && previous == old(previous)
      ensures old(isOpen) && !Overflows(old(size), data) ==>
                previous == old(previous) && Contents(current) == Contents(old(current)) + data[..count]
      ensures ok && Overflows(old(size), data) ==> previous == old(current) && current == Some(data)
      ensures old(isOpen) ==> (isOpen <==> !(Overflows(old(size), data) && RotationFails(faults)))
      ensures !isOpen ==> count == 0 && !ok
      ensures |Contents(old(current))| <= max && |data| <= max ==> |Contents(current)| <= max
      ensures old(isOpen) && !RotationFails(faults) && faults.accepted == |data| ==>
                ok && isOpen && (old(Retains()) ==> Retains())
    {
      hide IsSuffix;
      if size > 0 && size + |data| > max {
        var rotated := Rotate(faults);
        if !rotated {
          return 0, false;
        }
      }
      if !isOpen {
        return 0, false;
      }
      count := faults.accepted;
      assert [] + data[..count] == data[..count] && data[..|data|] == data;
      SuffixGrows(Contents(previous), Contents(current), stream, data[..count]);
      current := Some(current.value + data[..count]);
      size := size + count;
      stream := stream + data[..count];
      ok := count == |data|;
    }

    /** The write would take a non-empty file past the limit. */
    ghost predicate Overflows(size: nat, data: Bytes) {
      size > 0 && size + |data| > max
    }

    /**
     Any series of writes; it goes on after errors, as the caller does.  Once a rotation has failed the
     handle stays closed: nothing more is written and neither file changes again.
     */
    method WriteAll(chunks: seq<Bytes>, faults: nat -> Faults)
      requires Valid() && forall i :: 0 <= i < |chunks| ==> faults(i).accepted <= |chunks[i]|
      modifies this
      ensures Valid()
      ensures |Contents(old(current))| <= max && (forall i :: 0 <= i < |chunks| ==> |chunks[i]| <= max) ==>
                |Contents(current)| <= max
      ensures old(isOpen) && (forall i :: 0 <= i < |chunks| ==> FaultFree(faults(i), chunks[i])) ==>
                stream == old(stream) + Concat(chunks) && (old(Retains()) ==> Retains())
      ensures !old(isOpen) ==>
                !isOpen && current == old(current) && previous == old(previous) && stream == old(stream)
    {
      hide IsSuffix, Concat;
      ConcatGrows(chunks);
      ghost var clean := isOpen && forall i :: 0 <= i < |chunks| ==> FaultFree(faults(i), chunks[i]);
      assert chunks[..0] == [];
      for k := 0 to |chunks|
        invariant Valid()
        invariant |Contents(old(current))| <= max && (forall i :: 0 <= i < |chunks| ==> |chunks[i]| <= max) ==>
                    |Contents(current)| <= max
        invariant !old(isOpen) ==>
                    !isOpen && current == old(current) && previous == old(previous) && stream == old(stream)
        invariant clean ==> isOpen && stream == old(stream) + Concat(chunks[..k]) && (old(Retains()) ==> Retains())
      {
        var count, ok := Write(chunks[k], faults(k));
        assert chunks[k][..|chunks[k]|] == chunks[k];
      }
      assert chunks[..|chunks|] == chunks;
    }
  }

  predicate RotationFails(f: Faults) {
    f.close || f.rename || f.reopen
  }

  predicate FaultFree(f: Faults, data: Bytes) {
    !RotationFails(f) && f.accepted == |data|
  }

  function Concat(chunks: seq<Bytes>): Bytes {
    if chunks == [] then [] else Concat(chunks[..|chunks| - 1]) + chunks[|chunks| - 1]
  }

  lemma ConcatGrows(chunks: seq<Bytes>)
    ensures Concat([]) == []
    ensures forall k :: 0 <= k < |chunks| ==> Concat(chunks[..k + 1]) == Concat(chunks[..k]) + chunks[k]
  {
    forall k | 0 <= k < |chunks|
      ensures Concat(chunks[..k + 1]) == Concat(chunks[..k]) + chunks[k]
    {
      assert chunks[..k + 1][..k] == chunks[..k];
    }
  }

  /** Dropping the older file leaves a suffix, and so does moving the newer one in its place. */
  lemma SuffixParts(previous: Bytes, current: Bytes, stream: Bytes)
    requires IsSuffix(previous + current, stream)
    ensures IsSuffix([] + current, stream) && IsSuffix(current + [], stream)
  {
    var tail := previous + current;
    assert tail[|previous|..] == current;
    assert stream[|stream| - |current|..] == stream[|stream| - |tail|..][|previous|..];
    assert [] + current == current && current + [] == current;
  }

  lemma SuffixGrows(previous: Bytes, current: Bytes, stream: Bytes, data: Bytes)
    requires IsSuffix(previous + current, stream)
    ensures IsSuffix(previous + (current + data), stream + data)
  {
    var tail := previous + current;
    assert previous + (current + data) == tail + data;
    assert (stream + data)[|stream| - |tail|..] == stream[|stream| - |tail|..] + data;
  }
}
