/** Queues of bounded length: pushing onto a full one drops the oldest. */
module Buffers {
  function Push<T>(queue: seq<T>, limit: nat, x: T): seq<T> {
    if |queue| + 1 > limit then (queue + [x])[1..] else queue + [x]
  }

  function PushAll<T>(queue: seq<T>, limit: nat, xs: seq<T>): seq<T> {
    if xs == [] then queue else Push(PushAll(queue, limit, xs[..|xs| - 1]), limit, xs[|xs| - 1])
  }

  /** The last `limit` of a sequence, or all. */
  function Newest<T>(all: seq<T>, limit: nat): (r: seq<T>)
    ensures |r| <= limit && |r| <= |all| && (|all| >= limit ==> |r| == limit) && r == all[|all| - |r|..]
  {
    if |all| <= limit then all else all[|all| - limit..]
  }

  /** However many are pushed, exactly the newest are kept. */
  lemma {:induction false} PushesKeepNewest<T>(queue: seq<T>, limit: nat, xs: seq<T>)
    requires |queue| <= limit && limit > 0
    ensures PushAll(queue, limit, xs) == Newest(queue + xs, limit)
  {
    if xs == [] {
      assert queue + xs == queue;
    } else {
      var front, last := xs[..|xs| - 1], xs[|xs| - 1];
      PushesKeepNewest(queue, limit, front);
      assert queue + xs == queue + front + [last];
    }
  }

  /** The members of a suffix. */
  lemma InSuffix<T>(s: seq<T>, from: nat)
    requires from <= |s|
    ensures forall i :: from <= i < |s| ==> s[i] in s[from..]
    ensures forall x :: x in s[from..] ==> exists i :: from <= i < |s| && s[i] == x
  {
    forall i | from <= i < |s| ensures s[i] in s[from..] {
      assert s[from..][i - from] == s[i];
    }
  }
}
