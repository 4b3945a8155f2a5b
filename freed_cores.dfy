/** The sequence of freed availability cores the inclusion step hands to the scheduler:
    the cores whose availability concluded, then the cores that timed out. */
module FreedCores {
  import opened Primitives

  /** Every core of `cores`, in order, paired with `reason`. */
  function Tagged(cores: seq<CoreIndex>, reason: FreedReason): (r: seq<FreedCore>)
    ensures |r| == |cores|
    ensures forall i :: 0 <= i < |r| ==> r[i] == FreedCore(cores[i], reason)
  {
    if cores == [] then [] else [FreedCore(cores[0], reason)] + Tagged(cores[1..], reason)
  }

  /** The freed cores passed to `schedule`: concluded ones first, then timed-out ones. */
  function Freed(concluded: seq<CoreIndex>, timedOut: seq<CoreIndex>): (r: seq<FreedCore>)
    ensures |r| == |concluded| + |timedOut|
    ensures forall i :: 0 <= i < |concluded| ==> r[i] == FreedCore(concluded[i], Concluded)
    ensures forall i :: 0 <= i < |timedOut| ==> r[|concluded| + i] == FreedCore(timedOut[i], TimedOut)
  {
    Tagged(concluded, Concluded) + Tagged(timedOut, TimedOut)
  }

  /** The cores of the freed entries whose reason is `reason`, in order. */
  function CoresFreedFor(freed: seq<FreedCore>, reason: FreedReason): seq<CoreIndex> {
    if freed == [] then []
    else (if freed[0].reason == reason then [freed[0].core] else []) + CoresFreedFor(freed[1..], reason)
  }

  /** The cores of all freed entries, in order. */
  function CoresOf(freed: seq<FreedCore>): seq<CoreIndex> {
    if freed == [] then [] else [freed[0].core] + CoresOf(freed[1..])
  }

  lemma {:induction false} CoresFreedForAppend(a: seq<FreedCore>, b: seq<FreedCore>, reason: FreedReason)
    ensures CoresFreedFor(a + b, reason) == CoresFreedFor(a, reason) + CoresFreedFor(b, reason)
  {
    if a == [] {
      assert a + b == b;
    } else {
      var ab := a + b;
      var head := if a[0].reason == reason then [a[0].core] else [];
      assert ab[0] == a[0] && ab[1..] == a[1..] + b;
      CoresFreedForAppend(a[1..], b, reason);
      calc {
        CoresFreedFor(ab, reason);
        head + CoresFreedFor(a[1..] + b, reason);
        head + (CoresFreedFor(a[1..], reason) + CoresFreedFor(b, reason));
        (head + CoresFreedFor(a[1..], reason)) + CoresFreedFor(b, reason);
        CoresFreedFor(a, reason) + CoresFreedFor(b, reason);
      }
    }
  }

  lemma {:induction false} CoresOfAppend(a: seq<FreedCore>, b: seq<FreedCore>)
    ensures CoresOf(a + b) == CoresOf(a) + CoresOf(b)
  {
    if a == [] {
      assert a + b == b;
    } else {
      assert (a + b)[1..] == a[1..] + b;
      CoresOfAppend(a[1..], b);
    }
  }

  /** Tagging keeps exactly the given cores under their own reason and none under the other. */
  lemma {:induction false} CoresFreedForTagged(cores: seq<CoreIndex>, reason: FreedReason, other: FreedReason)
    ensures CoresFreedFor(Tagged(cores, reason), reason) == cores
    ensures other != reason ==> CoresFreedFor(Tagged(cores, reason), other) == []
    ensures CoresOf(Tagged(cores, reason)) == cores
  {
    if cores != [] {
      var t := Tagged(cores, reason);
      assert t[1..] == Tagged(cores[1..], reason);
      CoresFreedForTagged(cores[1..], reason, other);
    }
  }

  /** Selecting by reason recovers the two inputs: the concluded cores and the timed-out
      cores each reach the scheduler complete, in their original order, and with their
      own reason. */
  lemma FreedSeparates(concluded: seq<CoreIndex>, timedOut: seq<CoreIndex>)
    ensures CoresFreedFor(Freed(concluded, timedOut), Concluded) == concluded
    ensures CoresFreedFor(Freed(concluded, timedOut), TimedOut) == timedOut
    ensures CoresOf(Freed(concluded, timedOut)) == concluded + timedOut
  {
    var c, t := Tagged(concluded, Concluded), Tagged(timedOut, TimedOut);
    CoresFreedForAppend(c, t, Concluded);
    CoresFreedForAppend(c, t, TimedOut);
    CoresOfAppend(c, t);
    CoresFreedForTagged(concluded, Concluded, TimedOut);
    CoresFreedForTagged(timedOut, TimedOut, Concluded);
  }

  /** No concluded core follows a timed-out one. */
  lemma ConcludedBeforeTimedOut(concluded: seq<CoreIndex>, timedOut: seq<CoreIndex>, i: nat, j: nat)
    requires i < j < |Freed(concluded, timedOut)|
    requires Freed(concluded, timedOut)[i].reason == TimedOut
    ensures Freed(concluded, timedOut)[j].reason == TimedOut
  {
    var r := Freed(concluded, timedOut);
    assert r[|concluded| + (j - |concluded|)] == FreedCore(timedOut[j - |concluded|], TimedOut);
  }
}
