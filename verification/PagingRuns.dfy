/** One handler of the paging protocol that runs to its end without being interrupted. */
module PagingRuns {
  import opened PagingProtocol

  /** The steps of a handler that runs to its end without being interrupted. */
  function Uninterrupted(h: nat, p: nat, stored: bool, sendOk: bool): seq<Step> {
    [Deliver(h, p), Store(h, stored), Mark(h), Read(h), Trigger(h), Send(h, sendOk), Finish(h)]
  }

  lemma ToSnapshot(T: nat, n: Net, h: nat, p: nat, stored: bool)
    requires T > 0 && h !in n.handlers && p in n.sent
    ensures var n' := Apply(T, Apply(T, Apply(T, Apply(T, n, Deliver(h, p)), Store(h, stored)), Mark(h)), Read(h));
      h in n'.handlers && n'.handlers[h] == Handler(p, Snapshot(n.received + {p})) &&
      n'.received == n.received + {p} && n'.triggers == n.triggers && n'.sent == n.sent && n'.cleaned == n.cleaned &&
      n'.handlers.Keys == n.handlers.Keys + {h}
  {
    hide MaxPage;
    var n1 := Apply(T, n, Deliver(h, p));
    var n2 := Apply(T, n1, Store(h, stored));
    var n3 := Apply(T, n2, Mark(h));
    assert n3.handlers[h] == Handler(p, Marked);
  }

  lemma ToDecision(T: nat, n: Net, h: nat, p: nat, seen: set<nat>, sendOk: bool)
    requires h in n.handlers && n.handlers[h] == Handler(p, Snapshot(seen))
    ensures var n' := Apply(T, Apply(T, n, Trigger(h)), Send(h, sendOk));
      var next := MaxPage(seen) + 1;
      var wins := next <= T && next !in n.triggers;
      h in n'.handlers && n'.handlers[h] == Handler(p, Deciding(seen)) &&
      n'.received == n.received && n'.cleaned == n.cleaned && n'.handlers.Keys == n.handlers.Keys &&
      n'.triggers == n.triggers + (if wins then {next} else {}) &&
      n'.sent == n.sent + (if wins && sendOk then [next] else [])
  {
    hide MaxPage;
  }

  /** The page is marked, the next page requested unless it was, and a full count leads to the cleanup. */
  ghost predicate RanAlone(T: nat, n: Net, n': Net, h: nat, p: nat, sendOk: bool) {
    var seen := n.received + {p};
    var next := MaxPage(seen) + 1;
    var wins := next <= T && next !in n.triggers;
    n'.received == seen &&
    n'.triggers == (if wins then n.triggers + {next} else n.triggers) &&
    n'.sent == (if wins && sendOk then n.sent + [next] else n.sent) &&
    n'.cleaned == (n.cleaned || |seen| == T) && n'.handlers.Keys == n.handlers.Keys + {h}
  }

  lemma RunAlone(T: nat, n: Net, h: nat, p: nat, stored: bool, sendOk: bool)
    requires T > 0 && h !in n.handlers && p in n.sent
    ensures RanAlone(T, n, Exec(T, n, Uninterrupted(h, p, stored, sendOk)), h, p, sendOk)
  {
    hide Exec;
    hide MaxPage;
    ExecSeven(T, n, Uninterrupted(h, p, stored, sendOk));
    ToSnapshot(T, n, h, p, stored);
    hide Apply;
    var n4 := Apply(T, Apply(T, Apply(T, Apply(T, n, Deliver(h, p)), Store(h, stored)), Mark(h)), Read(h));
    ToDecision(T, n4, h, p, n.received + {p}, sendOk);
    var n6 := Apply(T, Apply(T, n4, Trigger(h)), Send(h, sendOk));
    FinishDecides(T, n6, h);
  }

  lemma FinishDecides(T: nat, n: Net, h: nat)
    requires h in n.handlers && n.handlers[h].at.Deciding?
    ensures var n' := Apply(T, n, Finish(h));
      n'.received == n.received && n'.triggers == n.triggers && n'.sent == n.sent &&
      n'.handlers.Keys == n.handlers.Keys &&
      n'.cleaned == (n.cleaned || |n.handlers[h].at.seen| == T)
  {}

  lemma ExecSeven(T: nat, n: Net, s: seq<Step>)
    requires |s| == 7
    ensures Exec(T, n, s) ==
      Apply(T, Apply(T, Apply(T, Apply(T, Apply(T, Apply(T, Apply(T, n, s[0]), s[1]), s[2]), s[3]), s[4]), s[5]), s[6])
  {
    hide Apply;
    var first, rest := [s[0], s[1], s[2], s[3]], [s[4], s[5], s[6]];
    assert s == first + rest;
    ExecAppend(T, n, first, rest);
    Exec4(T, n, s[0], s[1], s[2], s[3]);
    Exec3(T, Exec(T, n, first), s[4], s[5], s[6]);
  }
}
