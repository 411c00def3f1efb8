/**
 * The buffer-growth loop of `readlink` in `src/sys/linux/fs.rs`.  readlink(2)
 * writes at most as many bytes as the buffer holds and does not say whether
 * it truncated, so the loop retries with a larger buffer until the kernel
 * writes strictly fewer bytes than the capacity.
 *
 * The kernel is an oracle: the link's text (or the error it reports for the
 * path), assumed unchanged between calls.  How `Vec::reserve(1)` grows a full
 * buffer is a parameter: the loop relies only on the new capacity being
 * larger.
 */
module Readlink {
  import opened Io
  import CStr

  /** `readlink` starts with a buffer of 256 bytes. */
  const INITIAL_CAPACITY: nat := 256

  /** What readlink(2) writes into a buffer of `capacity` bytes: as much of the link's text as fits. */
  function KernelReadlink(text: seq<byte>, capacity: nat): (written: seq<byte>)
    ensures |written| == if |text| < capacity then |text| else capacity
    ensures written == text[..|written|]
  {
    if |text| < capacity then text else text[..capacity]
  }

  /** Each capacity after the first is the growth of the one before it, and larger. */
  predicate Grown(capacities: seq<nat>, grow: nat -> nat) {
    forall i :: 0 < i < |capacities| ==>
      capacities[i - 1] < capacities[i] && capacities[i] == grow(capacities[i - 1])
  }

  /** Every call but the last filled its buffer completely. */
  predicate FilledBeforeLast(text: seq<byte>, capacities: seq<nat>) {
    forall i :: 0 <= i < |capacities| - 1 ==> |KernelReadlink(text, capacities[i])| == capacities[i]
  }

  /**
   * `readlink(p)`.  `link` is the kernel's view of the path: its text, or
   * the error readlink(2) reports.  `capacities` lists the buffer capacity
   * of every readlink(2) call the loop made, in order.
   */
  method Readlink(path: seq<byte>, link: Result<seq<byte>>, initialCapacity: nat, grow: nat -> nat)
    returns (r: Result<seq<byte>>, capacities: seq<nat>)
    requires forall c: nat :: grow(c) > c
    // A path with an interior NUL is refused before any syscall.
    ensures 0 in path ==> r == Err(Simple(InvalidInput)) && capacities == []
    ensures 0 !in path ==> |capacities| > 0 && capacities[0] == initialCapacity
    // Each retry uses a strictly larger buffer, grown from the previous one.
    ensures Grown(capacities, grow)
    // A kernel error ends the loop at once.
    ensures 0 !in path && link.Err? ==> r == Err(link.error) && |capacities| == 1
    // The result is the whole link text, whatever the initial capacity.
    ensures 0 !in path && link.Ok? ==> r == Ok(link.value)
    // The loop stops only on a call that wrote fewer bytes than the capacity,
    // and retries only after a call that filled the buffer.
    ensures 0 !in path && link.Ok? ==> |KernelReadlink(link.value, capacities[|capacities| - 1])| < capacities[|capacities| - 1]
    ensures link.Ok? ==> FilledBeforeLast(link.value, capacities)
  {
    if CStr.ToCString(path).Err? {
      return CStr.ToCString(path), [];
    }
    var capacity := initialCapacity;
    capacities := [capacity];
    while true
      invariant |capacities| > 0 && capacities[0] == initialCapacity
      invariant capacities[|capacities| - 1] == capacity
      invariant Grown(capacities, grow)
      invariant link.Err? ==> |capacities| == 1
      invariant link.Ok? ==> FilledBeforeLast(link.value, capacities)
      decreases if link.Ok? && capacity <= |link.value| then |link.value| + 1 - capacity else 0
    {
      if link.Err? {
        return Err(link.error), capacities;
      }
      var read := KernelReadlink(link.value, capacity);
      if |read| != capacity {
        return Ok(read), capacities;
      }
      ghost var previous := capacities;
      capacity := grow(capacity);
      capacities := capacities + [capacity];
      assert capacities[..|previous|] == previous;
    }
  }
}
