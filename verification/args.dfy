/**
 * Command-line argument capture, `src/sys/linux/args.rs`: a process-wide
 * store that `init` fills from the raw `argc`/`argv` pair, `cleanup` empties
 * and `args` copies into an owned, double-ended, exact-size iterator.
 *
 * The singleton is modelled as an explicit value threaded through the
 * calls; the Rust code's requirement that init and cleanup run while no other
 * thread reads the store is what makes that sequential model faithful.
 */
module Args {
  import opened Io
  import CStr

  /** `ARGS`: `None` before `init` and after `cleanup`. */
  type Store = Option<seq<seq<byte>>>

  /** The raw vector: `argv` holds at least `argc` pointers, each to a NUL-terminated string. */
  predicate ArgvValid(argc: int, argv: seq<seq<byte>>) {
    argc <= |argv| && forall i :: 0 <= i < argc ==> 0 in argv[i]
  }

  /** The number of arguments `0..argc` ranges over: none for a negative count. */
  function Count(argc: int): nat {
    if argc < 0 then 0 else argc
  }

  /** `imp::init`: copies each argument up to its NUL, in index order, replacing whatever was stored. */
  function Init(argc: int, argv: seq<seq<byte>>): (s: Store)
    requires ArgvValid(argc, argv)
    ensures s.Some? && |s.value| == Count(argc)
    ensures forall i :: 0 <= i < |s.value| ==>
              |s.value[i]| < |argv[i]| && s.value[i] == argv[i][..|s.value[i]|]
              && 0 !in s.value[i] && argv[i][|s.value[i]|] == 0
  {
    var n := Count(argc);
    Some(seq(n, i requires 0 <= i < n => CStr.Prefix(argv[i])))
  }

  /** `imp::cleanup`: forgets the stored arguments. */
  function Cleanup(): (s: Store)
    ensures s.None?
  {
    None
  }

  /** `Args`: the owned arguments not yet taken from either end. */
  datatype ArgsIter = ArgsIter(remaining: seq<seq<byte>>)

  /** `imp::args`: a copy of the stored arguments, or none at all when nothing is stored. */
  function ArgsOf(s: Store): (a: ArgsIter)
    ensures s.None? ==> a.remaining == []
    ensures s.Some? ==> a.remaining == s.value
  {
    match s
    case None => ArgsIter([])
    case Some(v) => ArgsIter(v)
  }

  /** `ExactSizeIterator::len`. */
  function Len(a: ArgsIter): nat {
    |a.remaining|
  }

  /** `Iterator::next`: takes from the front. */
  function Next(a: ArgsIter): (r: (Option<seq<byte>>, ArgsIter))
    ensures Len(a) == 0 ==> r.0.None? && r.1 == a
    ensures Len(a) > 0 ==> r.0 == Some(a.remaining[0]) && Len(r.1) == Len(a) - 1
    ensures Len(a) > 0 ==> a.remaining == [r.0.value] + r.1.remaining
  {
    if |a.remaining| == 0 then (None, a)
    else (Some(a.remaining[0]), ArgsIter(a.remaining[1..]))
  }

  /** `DoubleEndedIterator::next_back`: takes from the back. */
  function NextBack(a: ArgsIter): (r: (Option<seq<byte>>, ArgsIter))
    ensures Len(a) == 0 ==> r.0.None? && r.1 == a
    ensures Len(a) > 0 ==> r.0 == Some(a.remaining[Len(a) - 1]) && Len(r.1) == Len(a) - 1
    ensures Len(a) > 0 ==> a.remaining == r.1.remaining + [r.0.value]
  {
    var n := |a.remaining|;
    if n == 0 then (None, a)
    else (Some(a.remaining[n - 1]), ArgsIter(a.remaining[..n - 1]))
  }

  /** Everything `next` yields until it answers `None`. */
  function CollectFront(a: ArgsIter): seq<seq<byte>>
    decreases Len(a)
  {
    var (item, rest) := Next(a);
    match item
    case None => []
    case Some(x) => [x] + CollectFront(rest)
  }

  /** Everything `next_back` yields until it answers `None`. */
  function CollectBack(a: ArgsIter): seq<seq<byte>>
    decreases Len(a)
  {
    var (item, rest) := NextBack(a);
    match item
    case None => []
    case Some(x) => [x] + CollectBack(rest)
  }

  /** Draining from the front yields the arguments in index order. */
  lemma {:induction false} CollectFrontInOrder(a: ArgsIter)
    ensures CollectFront(a) == a.remaining
    decreases Len(a)
  {
    if Len(a) > 0 {
      CollectFrontInOrder(Next(a).1);
    }
  }

  /** Draining from the back yields the arguments in reverse index order. */
  lemma {:induction false} CollectBackReversed(a: ArgsIter)
    ensures |CollectBack(a)| == Len(a)
    ensures forall i :: 0 <= i < Len(a) ==> CollectBack(a)[i] == a.remaining[Len(a) - 1 - i]
    decreases Len(a)
  {
    if Len(a) > 0 {
      var rest := NextBack(a).1;
      CollectBackReversed(rest);
      forall i | 0 <= i < Len(a)
        ensures CollectBack(a)[i] == a.remaining[Len(a) - 1 - i]
      {
        if i > 0 {
          assert CollectBack(a)[i] == CollectBack(rest)[i - 1];
        }
      }
    }
  }

  /** One call into the argument store, as the runtime makes them. */
  datatype Call =
    | InitCall(argc: int, argv: seq<seq<byte>>)
    | CleanupCall
    | ArgsCall

  predicate CallValid(c: Call) {
    c.InitCall? ==> ArgvValid(c.argc, c.argv)
  }

  predicate CallsValid(calls: seq<Call>) {
    forall i :: 0 <= i < |calls| ==> CallValid(calls[i])
  }

  /** One call: the store it leaves behind and the iterator it returned, if it was `args`. */
  function Apply(s: Store, c: Call): (Store, seq<ArgsIter>)
    requires CallValid(c)
  {
    match c
    case InitCall(argc, argv) => (Init(argc, argv), [])
    case CleanupCall => (Cleanup(), [])
    case ArgsCall => (s, [ArgsOf(s)])
  }

  /** Runs `calls` in order from store `s`: the final store and the iterators the `args` calls returned. */
  function Replay(s: Store, calls: seq<Call>): (Store, seq<ArgsIter>)
    requires CallsValid(calls)
    decreases |calls|
  {
    if |calls| == 0 then (s, [])
    else
      var (s1, out1) := Apply(s, calls[0]);
      var (s2, out2) := Replay(s1, calls[1..]);
      (s2, out1 + out2)
  }

  /** Running a single call is applying it. */
  lemma ReplayOne(s: Store, c: Call)
    requires CallValid(c)
    ensures CallsValid([c])
    ensures Replay(s, [c]) == Apply(s, c)
  {
    assert [c][1..] == [];
    assert Apply(s, c).1 + [] == Apply(s, c).1;
  }

  /** Running two call sequences one after the other is running their concatenation. */
  lemma {:induction false} ReplayAppend(s: Store, first: seq<Call>, second: seq<Call>)
    requires CallsValid(first) && CallsValid(second)
    ensures CallsValid(first + second)
    ensures Replay(s, first + second).0 == Replay(Replay(s, first).0, second).0
    ensures Replay(s, first + second).1 == Replay(s, first).1 + Replay(Replay(s, first).0, second).1
    decreases |first|
  {
    assert CallsValid(first + second) by {
      forall i | 0 <= i < |first + second| ensures CallValid((first + second)[i]) {
        if i >= |first| {
          assert (first + second)[i] == second[i - |first|];
        }
      }
    }
    if |first| > 0 {
      assert (first + second)[1..] == first[1..] + second;
      assert (first + second)[0] == first[0];
      var (s1, out1) := Apply(s, first[0]);
      assert CallsValid(first[1..]) by {
        forall i | 0 <= i < |first[1..]| ensures CallValid(first[1..][i]) {
          assert first[1..][i] == first[i + 1];
        }
      }
      ReplayAppend(s1, first[1..], second);
      var mid := Replay(s1, first[1..]);
      var last := Replay(mid.0, second);
      assert Replay(s, first) == (mid.0, out1 + mid.1);
      assert Replay(s, first + second).1 == out1 + (mid.1 + last.1);
      assert out1 + (mid.1 + last.1) == (out1 + mid.1) + last.1;
    } else {
      assert first + second == second;
    }
  }

  /** Before any `init`, whatever `cleanup` and `args` calls are made, `args` yields nothing. */
  lemma ArgsBeforeInit(calls: seq<Call>)
    requires CallsValid(calls) && forall i :: 0 <= i < |calls| ==> !calls[i].InitCall?
    ensures forall j :: 0 <= j < |Replay(None, calls).1| ==> Replay(None, calls).1[j].remaining == []
    ensures Replay(None, calls).0.None?
  {
    if |calls| > 0 {
      assert CallsValid(calls[1..]) by {
        forall i | 0 <= i < |calls[1..]| ensures CallValid(calls[1..][i]) {
          assert calls[1..][i] == calls[i + 1];
        }
      }
      ArgsBeforeInit(calls[1..]);
    }
  }

  /**
   * Whatever happened before, an `init` followed by `args` yields exactly
   * the new arguments: nothing of an earlier `init` survives.
   */
  lemma InitReplacesStore(s: Store, before: seq<Call>, argc: int, argv: seq<seq<byte>>)
    requires CallsValid(before) && ArgvValid(argc, argv)
    ensures CallsValid(before + [InitCall(argc, argv), ArgsCall])
    ensures var out := Replay(s, before + [InitCall(argc, argv), ArgsCall]).1;
            |out| > 0 && out[|out| - 1] == ArgsOf(Init(argc, argv))
  {
    var tail := [InitCall(argc, argv), ArgsCall];
    assert CallsValid(tail);
    assert tail[1..] == [tail[1]] && tail[1..][1..] == [];
    ReplayAppend(s, before, tail);
    ReplayOne(Init(argc, argv), ArgsCall);
    assert Replay(Replay(s, before).0, tail).1 == [] + [ArgsOf(Init(argc, argv))];
  }

  /** `args` leaves the store as it was, so two calls in a row yield the same arguments. */
  lemma ArgsIsSnapshot(s: Store, before: seq<Call>)
    requires CallsValid(before)
    ensures CallsValid(before + [ArgsCall, ArgsCall])
    ensures var (s', out) := Replay(s, before + [ArgsCall, ArgsCall]);
            |out| >= 2 && out[|out| - 1] == out[|out| - 2] && s' == Replay(s, before).0
  {
    var tail := [ArgsCall, ArgsCall];
    assert CallsValid(tail);
    assert tail[1..] == [tail[1]] && tail[1..][1..] == [];
    ReplayAppend(s, before, tail);
  }

  /** After `cleanup`, `args` yields nothing. */
  lemma ArgsAfterCleanup(s: Store, before: seq<Call>)
    requires CallsValid(before)
    ensures CallsValid(before + [CleanupCall, ArgsCall])
    ensures var out := Replay(s, before + [CleanupCall, ArgsCall]).1;
            |out| > 0 && out[|out| - 1].remaining == []
  {
    var tail := [CleanupCall, ArgsCall];
    assert CallsValid(tail);
    assert tail[1..] == [tail[1]] && tail[1..][1..] == [];
    ReplayAppend(s, before, tail);
  }
}
