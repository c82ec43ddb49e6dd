/** The list of subscribed clients of `src/server/server.c`: at most 64 descriptors. */
module Subscribers {
  const MAX_CLIENTS := 64

  /** A full list takes nobody else. */
  function Added(fds: seq<int>, fd: int): seq<int> {
    if |fds| < MAX_CLIENTS then fds + [fd] else fds
  }

  /** Index of the first `fd`, or the length when there is none. */
  function First(fds: seq<int>, fd: int): (i: nat)
    ensures i <= |fds| && (i < |fds| ==> fds[i] == fd) && forall k :: 0 <= k < i ==> fds[k] != fd
  {
    if fds == [] || fds[0] == fd then 0 else 1 + First(fds[1..], fd)
  }

  /** The last descriptor takes the place of the one that leaves. */
  function Removed(fds: seq<int>, fd: int): (r: seq<int>)
    ensures |r| <= |fds|
  {
    var i, n := First(fds, fd), |fds|;
    if i == n then fds else fds[i := fds[n - 1]][..n - 1]
  }

  lemma Cancel(a: multiset<int>, b: multiset<int>, x: int)
    requires a + multiset{x} == b + multiset{x}
    ensures a == b
  {
    forall y ensures a[y] == b[y] {
      assert (a + multiset{x})[y] == (b + multiset{x})[y];
    }
  }

  /** Leaving takes out exactly one entry of the client, whatever happens to the order. */
  lemma RemovedOnce(fds: seq<int>, fd: int)
    ensures multiset(Removed(fds, fd)) == multiset(fds) - multiset{fd}
  {
    var i, n := First(fds, fd), |fds|;
    if i < n {
      var last := fds[n - 1];
      var swapped := fds[i := last];
      var kept := swapped[..n - 1];
      assert swapped == kept + [last];
      assert multiset(kept + [last]) == multiset(kept) + multiset{last};
      assert multiset(swapped) == multiset(fds) - multiset{fd} + multiset{last};
      Cancel(multiset(kept), multiset(fds) - multiset{fd}, last);
    } else {
      assert fd !in fds;
    }
  }

  lemma RemovedCounts(fds: seq<int>, fd: int, x: int)
    ensures multiset(Removed(fds, fd))[x] == multiset(fds)[x] - if x == fd && x in fds then 1 else 0
  {
    RemovedOnce(fds, fd);
  }

  lemma AddedCounts(fds: seq<int>, fd: int, x: int)
    ensures multiset(Added(fds, fd))[x] == multiset(fds)[x] + if x == fd && |fds| < MAX_CLIENTS then 1 else 0
  {
  }

  /** A client that has left is still in the list exactly if it had subscribed more than once. */
  lemma StaysSubscribedIff(fds: seq<int>, fd: int)
    ensures fd in Removed(fds, fd) <==> multiset(fds)[fd] >= 2
  {
    RemovedOnce(fds, fd);
    assert fd in Removed(fds, fd) <==> multiset(Removed(fds, fd))[fd] >= 1;
  }

  class ClientList {
    const fds: array<int>
    var count: nat

    ghost predicate Valid()
      reads this
    {
      fds.Length == MAX_CLIENTS && count <= MAX_CLIENTS
    }

    ghost function Contents(): (s: seq<int>)
      requires Valid()
      reads this, fds
      ensures |s| == count
    {
      fds[..count]
    }

    constructor ()
      ensures Valid() && Contents() == [] && fresh(fds)
    {
      fds := new int[MAX_CLIENTS](_ => 0);
      count := 0;
    }

    method Subscribe(fd: int)
      requires Valid()
      modifies this, fds
      ensures Valid() && Contents() == Added(old(Contents()), fd)
      ensures Contents() == if old(count) < 64 then old(Contents()) + [fd] else old(Contents())
    {
      if count < MAX_CLIENTS {
        fds[count] := fd;
        count := count + 1;
      }
    }

    method Leave(fd: int)
      requires Valid()
      modifies this, fds
      ensures Valid() && Contents() == Removed(old(Contents()), fd)
    {
      ghost var before := Contents();
      var i := 0;
      while i < count
        invariant i <= count == old(count) && Valid() && Contents() == before
        invariant forall k :: 0 <= k < i ==> before[k] != fd
      {
        if fds[i] == fd {
          assert First(before, fd) == i;
          count := count - 1;
          fds[i] := fds[count];
          return;
        }
        i := i + 1;
      }
    }
  }
}
