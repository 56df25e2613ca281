/**
 Closing lists of descriptors: the loop shared by the proxy's early returns, its
 connections' drop, its context's drop and both transports.
 */
module Closing {
  import opened Prelude

  /** Every valid descriptor listed in `fds` and not in `spared`, once. */
  function Once(fds: seq<Fd>, spared: seq<Fd>): multiset<Fd> {
    multiset(set fd | fd in fds && fd >= 0 && fd !in spared)
  }

  /** Close each listed descriptor that is not spared, once however often it is listed. */
  method CloseEach(fds: seq<Fd>, spared: seq<Fd>) returns (closed: seq<Fd>)
    ensures forall fd :: fd in closed <==> fd in fds && fd >= 0 && fd !in spared
    ensures forall i, j | 0 <= i < j < |closed| :: closed[i] != closed[j]
    ensures multiset(closed) == Once(fds, spared)
  {
    closed := [];
    var seen: set<Fd> := {};
    for i := 0 to |fds|
      invariant forall fd :: fd in closed <==> fd in fds[..i] && fd >= 0 && fd !in spared
      invariant forall fd :: fd in closed <==> fd in seen
      invariant forall j, k | 0 <= j < k < |closed| :: closed[j] != closed[k]
    {
      if fds[i] >= 0 && fds[i] !in spared && fds[i] !in seen {
        seen := seen + {fds[i]};
        closed := closed + [fds[i]];
      }
      assert fds[..i + 1] == fds[..i] + [fds[i]];
    }
    assert fds[..|fds|] == fds;
    DistinctCounts(closed);
    assert forall fd :: multiset(closed)[fd] == Once(fds, spared)[fd];
  }

  lemma {:induction false} DistinctCounts(fds: seq<Fd>)
    requires forall i, j | 0 <= i < j < |fds| :: fds[i] != fds[j]
    ensures forall fd :: multiset(fds)[fd] == if fd in fds then 1 else 0
  {
    if fds != [] {
      var init, last := fds[..|fds| - 1], fds[|fds| - 1];
      DistinctCounts(init);
      assert fds == init + [last];
      assert last !in init;
    }
  }
}
