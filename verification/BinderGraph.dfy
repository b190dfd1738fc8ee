/** The graph of binder calls: who can be reached by calls, and how a call is handed over from thread to
    thread. */
module BinderGraph {

  datatype ThreadId = ThreadId(pid: int, tid: int)

  datatype BinderInfo = BinderInfo(client: ThreadId, server: ThreadId)

  /** Calls by client pid, in the order of the kernel's report. */
  type Manager = map<int, seq<BinderInfo>>

  function Calls(manager: Manager, pid: int): seq<BinderInfo> { if pid in manager then manager[pid] else [] }

  /** Some call of `pid` is served by `next`. */
  ghost predicate CallsInto(manager: Manager, pid: int, next: int) {
    exists k :: 0 <= k < |Calls(manager, pid)| && Calls(manager, pid)[k].server.pid == next
  }

  /** `path` lists the pids after `pid` on a chain of one or more calls. */
  ghost predicate IsChain(manager: Manager, pid: int, path: seq<int>)
    decreases |path|
  {
    path != [] && CallsInto(manager, pid, path[0]) && (|path| > 1 ==> IsChain(manager, path[0], path[1..]))
  }

  ghost predicate Reachable(manager: Manager, pid: int, target: int) {
    exists path :: IsChain(manager, pid, path) && path[|path| - 1] == target
  }

  /** Every pid that serves some call. */
  function Servers(manager: Manager): set<int> {
    set pid, k | pid in manager && 0 <= k < |manager[pid]| :: manager[pid][k].server.pid
  }

  lemma ServersHas(manager: Manager, pid: int, k: nat)
    requires k < |Calls(manager, pid)|
    ensures Calls(manager, pid)[k].server.pid in Servers(manager)
  {
    assert pid in manager;
  }

  lemma OneCall(manager: Manager, pid: int, next: int)
    requires CallsInto(manager, pid, next)
    ensures Reachable(manager, pid, next)
  {
    assert IsChain(manager, pid, [next]);
  }

  lemma CallThen(manager: Manager, pid: int, next: int, target: int)
    requires CallsInto(manager, pid, next) && Reachable(manager, next, target)
    ensures Reachable(manager, pid, target)
  {
    var path :| IsChain(manager, next, path) && path[|path| - 1] == target;
    var longer := [next] + path;
    assert longer[1..] == path;
    assert IsChain(manager, pid, longer);
  }

  /** All of `pid`'s calls lead into `pids`. */
  ghost predicate Covered(manager: Manager, pid: int, pids: set<int>) {
    forall next :: CallsInto(manager, pid, next) ==> next in pids
  }

  lemma {:induction false} ClosedHasChains(manager: Manager, pid: int, pids: set<int>, path: seq<int>)
    requires Covered(manager, pid, pids) && (forall q :: q in pids ==> Covered(manager, q, pids))
    requires IsChain(manager, pid, path)
    ensures path[|path| - 1] in pids
    decreases |path|
  {
    if |path| > 1 {
      ClosedHasChains(manager, path[0], pids, path[1..]);
    }
  }

  // Threads -------------------------------------------------------------------------------

  ghost predicate IsCall(manager: Manager, info: BinderInfo) {
    exists pid, k :: 0 <= k < |Calls(manager, pid)| && Calls(manager, pid)[k] == info
  }

  /** A chain of calls from thread `from` to thread `to`: each hop's client thread is the previous
      hop's server thread. */
  ghost predicate IsHandover(manager: Manager, from: ThreadId, to: ThreadId, hops: seq<BinderInfo>)
    decreases |hops|
  {
    && hops != [] && IsCall(manager, hops[0]) && hops[0].client == from
    && if |hops| == 1 then hops[0].server == to else IsHandover(manager, hops[0].server, to, hops[1..])
  }

  ghost predicate HandsOver(manager: Manager, from: ThreadId, to: ThreadId) {
    exists hops :: IsHandover(manager, from, to, hops)
  }

  lemma {:induction false} JoinHops(manager: Manager, a: ThreadId, b: ThreadId, c: ThreadId,
                                   first: seq<BinderInfo>, second: seq<BinderInfo>)
    requires IsHandover(manager, a, b, first) && IsHandover(manager, b, c, second)
    ensures IsHandover(manager, a, c, first + second)
    decreases |first|
  {
    assert (first + second)[1..] == first[1..] + second;
    if |first| > 1 {
      JoinHops(manager, first[0].server, b, c, first[1..], second);
    } else {
      assert first[1..] + second == second;
    }
  }

  lemma HandoverJoins(manager: Manager, a: ThreadId, b: ThreadId, c: ThreadId)
    requires HandsOver(manager, a, b) && HandsOver(manager, b, c)
    ensures HandsOver(manager, a, c)
  {
    var first :| IsHandover(manager, a, b, first);
    var second :| IsHandover(manager, b, c, second);
    JoinHops(manager, a, b, c, first, second);
  }

  lemma HopOn(manager: Manager, from: ThreadId, info: BinderInfo)
    requires IsCall(manager, info) && (info.client == from || HandsOver(manager, from, info.client))
    ensures HandsOver(manager, from, info.server)
  {
    assert IsHandover(manager, info.client, info.server, [info]);
    if info.client != from {
      HandoverJoins(manager, from, info.client, info.server);
    }
  }

  /** Where the terminal may be: where it was, or handed over to from there or from the event thread. */
  ghost predicate Terminal(manager: Manager, event: ThreadId, before: ThreadId, after: ThreadId) {
    after == before || HandsOver(manager, event, after) || HandsOver(manager, before, after)
  }

  lemma TerminalHop(manager: Manager, event: ThreadId, before: ThreadId, current: ThreadId, info: BinderInfo)
    requires IsCall(manager, info) && Terminal(manager, event, before, current)
    requires info.client == event || info.client == current
    ensures Terminal(manager, event, before, info.server)
  {
    if info.client == event || HandsOver(manager, event, current) {
      HopOn(manager, event, info);
    } else {
      HopOn(manager, before, info);
    }
  }

  lemma TerminalJoins(manager: Manager, event: ThreadId, a: ThreadId, b: ThreadId, c: ThreadId)
    requires Terminal(manager, event, a, b) && Terminal(manager, event, b, c)
    ensures Terminal(manager, event, a, c)
  {
    if c != b && !HandsOver(manager, event, c) && b != a {
      if HandsOver(manager, event, b) {
        HandoverJoins(manager, event, b, c);
      } else {
        HandoverJoins(manager, a, b, c);
      }
    }
  }

  /** The walk meets `pid` before it looks at the k-th call of its start: an earlier call leads there. */
  ghost predicate MetBefore(manager: Manager, start: int, k: nat, pid: int) {
    exists j: nat :: j < k && j < |Calls(manager, start)| && Leads(manager, Calls(manager, start)[j].server.pid, pid)
  }

  ghost predicate Leads(manager: Manager, from: int, pid: int) { pid == from || Reachable(manager, from, pid) }

  /** The k-th call of `start` is followed: its server has not been met by then. */
  ghost predicate Followed(manager: Manager, start: int, k: nat) {
    k < |Calls(manager, start)| && !MetBefore(manager, start, k, Calls(manager, start)[k].server.pid)
  }

  /** Among the first `n` calls of `start`, a followed one comes from `thread`. */
  ghost predicate Opens(manager: Manager, start: int, n: nat, thread: ThreadId) {
    exists k: nat :: k < n && Followed(manager, start, k) && Calls(manager, start)[k].client == thread
  }

  lemma ClosedHasLeads(manager: Manager, from: int, pid: int, pids: set<int>)
    requires from in pids && (forall q :: q in pids ==> Covered(manager, q, pids)) && Leads(manager, from, pid)
    ensures pid in pids
  {
    if pid != from {
      var path :| IsChain(manager, from, path) && path[|path| - 1] == pid;
      ClosedHasChains(manager, from, pids, path);
    }
  }

  /** From an empty visited set, the pids visited before the k-th call are those met before it. */
  ghost predicate Visited(manager: Manager, start: int, k: nat, pids: set<int>) {
    forall q :: q in pids <==> MetBefore(manager, start, k, q)
  }

  lemma VisitedStep(manager: Manager, start: int, k: nat, before: set<int>, after: set<int>)
    requires k < |Calls(manager, start)| && Visited(manager, start, k, before) && before <= after
    requires forall q :: q in after ==> Covered(manager, q, after)
    requires var server := Calls(manager, start)[k].server.pid;
      server in after && forall q :: q in after && q !in before ==> Leads(manager, server, q)
    ensures Visited(manager, start, k + 1, after)
  {
    var server := Calls(manager, start)[k].server.pid;
    forall q ensures q in after <==> MetBefore(manager, start, k + 1, q) {
      if q in after && q in before {
        assert MetBefore(manager, start, k, q);
      }
      if MetBefore(manager, start, k + 1, q) && !MetBefore(manager, start, k, q) {
        assert Leads(manager, server, q);
        ClosedHasLeads(manager, server, q, after);
      }
    }
  }

  lemma OpensStep(manager: Manager, start: int, k: nat, thread: ThreadId)
    requires k < |Calls(manager, start)|
    ensures Opens(manager, start, k + 1, thread) <==>
      Opens(manager, start, k, thread) || (Followed(manager, start, k) && Calls(manager, start)[k].client == thread)
  {
  }

  lemma TerminalStays(manager: Manager, event: ThreadId, before: ThreadId, after: ThreadId)
    requires HandsOver(manager, event, before) && Terminal(manager, event, before, after)
    ensures HandsOver(manager, event, after)
  {
    if after != before && !HandsOver(manager, event, after) {
      HandoverJoins(manager, event, before, after);
    }
  }

  /** What one call may do to the visited set and the terminal. */
  ghost predicate Moves(manager: Manager, event: ThreadId, call: BinderInfo, getTerminal: bool,
                        before: set<int>, after: set<int>, mid: ThreadId, terminal: ThreadId) {
    && before <= after && call.server.pid in after && Terminal(manager, event, mid, terminal)
    && (forall q :: q in after && q !in before ==> Leads(manager, call.server.pid, q))
    && (getTerminal && call.client == event && call.server.pid !in before ==> HandsOver(manager, event, terminal))
    && (call.server.pid in before || (call.client != event && call.client != mid) ==> terminal == mid)
  }

  /** A walk that began with nothing `visited` and the terminal `was`, after `k` calls of its start. */
  ghost predicate Fresh(manager: Manager, event: ThreadId, start: int, k: nat, getTerminal: bool,
                        visited: set<int>, pids: set<int>, was: ThreadId, terminal: ThreadId) {
    visited == {} ==>
    && Visited(manager, start, k, pids)
    && (getTerminal && Opens(manager, start, k, event) ==> HandsOver(manager, event, terminal))
    && (!Opens(manager, start, k, event) && !Opens(manager, start, k, was) ==> terminal == was)
  }

  lemma FreshStart(manager: Manager, event: ThreadId, start: int, getTerminal: bool, visited: set<int>, was: ThreadId)
    ensures Fresh(manager, event, start, 0, getTerminal, visited, visited, was, was)
  {
  }

  lemma FreshStep(manager: Manager, event: ThreadId, start: int, k: nat, getTerminal: bool, visited: set<int>,
                  before: set<int>, after: set<int>, was: ThreadId, mid: ThreadId, terminal: ThreadId)
    requires k < |Calls(manager, start)| && Fresh(manager, event, start, k, getTerminal, visited, before, was, mid)
    requires Moves(manager, event, Calls(manager, start)[k], getTerminal, before, after, mid, terminal)
    requires forall q :: q in after && q !in visited ==> Covered(manager, q, after)
    ensures Fresh(manager, event, start, k + 1, getTerminal, visited, after, was, terminal)
  {
    if visited != {} {
      return;
    }
    VisitedStep(manager, start, k, before, after);
    OpensStep(manager, start, k, event);
    OpensStep(manager, start, k, was);
    assert Followed(manager, start, k) <==> Calls(manager, start)[k].server.pid !in before;
    if HandsOver(manager, event, mid) {
      TerminalStays(manager, event, mid, terminal);
    }
  }

  /** A walk of `pid` from `visited` and `was`, after `k` of its calls. */
  ghost predicate Progress(manager: Manager, event: ThreadId, pid: int, k: nat, getTerminal: bool,
                           visited: set<int>, pids: set<int>, was: ThreadId, terminal: ThreadId) {
    && visited <= pids
    && (forall j :: 0 <= j < k && j < |Calls(manager, pid)| ==> Calls(manager, pid)[j].server.pid in pids)
    && (forall q :: q in pids && q !in visited ==> Reachable(manager, pid, q) && Covered(manager, q, pids))
    && (Covered(manager, pid, visited) ==> pids == visited && terminal == was)
    && (!getTerminal ==> terminal == was) && Terminal(manager, event, was, terminal)
  }

  /** The k-th call of `pid` did what a call may do, and what it reached is covered. */
  ghost predicate CallMoves(manager: Manager, event: ThreadId, pid: int, k: nat, getTerminal: bool,
                            before: set<int>, after: set<int>, mid: ThreadId, terminal: ThreadId)
    requires k < |Calls(manager, pid)|
  {
    && Moves(manager, event, Calls(manager, pid)[k], getTerminal, before, after, mid, terminal)
    && (forall q :: q in after && q !in before ==> Reachable(manager, pid, q) && Covered(manager, q, after))
    && (Calls(manager, pid)[k].server.pid in before ==> after == before)
    && (!getTerminal ==> terminal == mid)
  }

  lemma ProgressStep(manager: Manager, event: ThreadId, pid: int, k: nat, getTerminal: bool, visited: set<int>,
                     before: set<int>, after: set<int>, was: ThreadId, mid: ThreadId, terminal: ThreadId)
    requires k < |Calls(manager, pid)| && Progress(manager, event, pid, k, getTerminal, visited, before, was, mid)
    requires CallMoves(manager, event, pid, k, getTerminal, before, after, mid, terminal)
    ensures Progress(manager, event, pid, k + 1, getTerminal, visited, after, was, terminal)
  {
    assert CallsInto(manager, pid, Calls(manager, pid)[k].server.pid);
    TerminalJoins(manager, event, was, mid, terminal);
  }

  /** The visited set and the terminal between two calls of a walk. */
  datatype Stage = Stage(pids: set<int>, terminal: ThreadId)

  ghost predicate StageMoves(manager: Manager, event: ThreadId, pid: int, k: nat, getTerminal: bool, a: Stage, b: Stage)
    requires k < |Calls(manager, pid)|
  {
    CallMoves(manager, event, pid, k, getTerminal, a.pids, b.pids, a.terminal, b.terminal)
  }

  /** The stages of a walk of `pid`: one before each of its first `k` calls, and one after. */
  ghost predicate Staged(manager: Manager, event: ThreadId, pid: int, k: nat, getTerminal: bool, stages: seq<Stage>) {
    && |stages| == k + 1 && k <= |Calls(manager, pid)|
    && forall j, n :: 0 <= j < k && 0 <= n <= k && n == j + 1 ==>
         StageMoves(manager, event, pid, j, getTerminal, stages[j], stages[n])
  }

  lemma StagedMore(manager: Manager, event: ThreadId, pid: int, k: nat, getTerminal: bool,
                   stages: seq<Stage>, next: Stage)
    requires Staged(manager, event, pid, k, getTerminal, stages) && k < |Calls(manager, pid)|
    requires StageMoves(manager, event, pid, k, getTerminal, stages[k], next)
    ensures Staged(manager, event, pid, k + 1, getTerminal, stages + [next])
  {
  }

  /** From an empty visited set, the stages tell what was visited and whether the terminal moved. */
  lemma {:induction false} StagesAreFresh(manager: Manager, event: ThreadId, pid: int, k: nat, getTerminal: bool,
                                          stages: seq<Stage>)
    requires Staged(manager, event, pid, k, getTerminal, stages) && stages[0].pids == {}
    ensures Fresh(manager, event, pid, k, getTerminal, {}, stages[k].pids, stages[0].terminal, stages[k].terminal)
    ensures forall q :: q in stages[k].pids ==> Covered(manager, q, stages[k].pids)
    decreases k
  {
    if k == 0 {
      FreshStart(manager, event, pid, getTerminal, {}, stages[0].terminal);
    } else {
      var init, a, b := stages[..k], stages[k - 1], stages[k];
      assert Staged(manager, event, pid, k - 1, getTerminal, init) by {
        assert forall j :: 0 <= j < k ==> init[j] == stages[j];
      }
      StagesAreFresh(manager, event, pid, k - 1, getTerminal, init);
      assert StageMoves(manager, event, pid, k - 1, getTerminal, a, b);
      CoveredMore(manager, a.pids, b.pids);
      var was := stages[0].terminal;
      FreshStep(manager, event, pid, k - 1, getTerminal, {}, a.pids, b.pids, was, a.terminal, b.terminal);
    }
  }

  lemma CoveredMore(manager: Manager, before: set<int>, after: set<int>)
    requires before <= after && (forall q :: q in before ==> Covered(manager, q, before))
    requires forall q :: q in after && q !in before ==> Covered(manager, q, after)
    ensures forall q :: q in after ==> Covered(manager, q, after)
  {
  }
}
