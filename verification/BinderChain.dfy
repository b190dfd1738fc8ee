/** The binder call-chain search: a depth-first walk over a multigraph of calls that may be
    cyclic, sharing one visited set and one terminal thread among all recursive calls. */
module BinderChain {
  import opened BinderGraph
  import opened BinderTrail

  class CallChain {
    const manager: Manager
    const event: ThreadId
    var pids: set<int>
    var terminal: ThreadId
    ghost const walk: Walk
    ghost var trail: seq<Hop>
    ghost var looks: Looks

    /** A walk about to start at `start`. */
    constructor (manager: Manager, event: ThreadId, pids: set<int>, terminal: ThreadId, ghost start: int)
      ensures this.manager == manager && this.event == event && this.pids == pids && this.terminal == terminal
      ensures walk == Walk(manager, event, start, pids, terminal) && trail == [] && looks == map[] && Valid()
    {
      this.manager, this.event, this.pids, this.terminal := manager, event, pids, terminal;
      walk, trail, looks := Walk(manager, event, start, pids, terminal), [], map[];
    }

    /** The trail accounts for the visited pids and the terminal. */
    ghost predicate Valid()
      reads this
    {
      walk.manager == manager && walk.event == event && Follows(walk, trail, looks, pids, terminal)
    }

    /** Everything the walk from `pid` adds is reachable from it and has its own calls covered, as
        has `pid` itself.  A second walk from a covered pid adds nothing; without `getTerminal`
        the terminal stays.  From an empty visited set, a followed call of the event thread moves
        the terminal down its chain, and the terminal stays if no followed call matches.  The trail
        keeps account of every call that is followed. */
    method Parse(pid: int, getTerminal: bool) returns (ghost stages: seq<Stage>)
      requires Valid() && Ready(walk, looks, pids, pid, getTerminal)
      modifies this
      ensures Valid() && Grows(old(looks), looks)
      ensures Covered(manager, pid, pids)
      ensures
        Progress(manager, event, pid, |Calls(manager, pid)|, getTerminal, old(pids), pids, old(terminal), terminal)
      ensures Staged(manager, event, pid, |Calls(manager, pid)|, getTerminal, stages)
      ensures stages[0] == old(Stage(pids, terminal)) && stages[|Calls(manager, pid)|] == Stage(pids, terminal)
      decreases Servers(manager) - pids, 1
    {
      var calls := Calls(manager, pid);
      stages := [Stage(pids, terminal)];
      for k := 0 to |calls|
        invariant Valid() && Grows(old(looks), looks) && old(pids) <= pids
        invariant Progress(manager, event, pid, k, getTerminal, old(pids), pids, old(terminal), terminal)
        invariant Staged(manager, event, pid, k, getTerminal, stages)
        invariant stages[0] == old(Stage(pids, terminal)) && stages[k] == Stage(pids, terminal)
      {
        ghost var before, mid, had := pids, terminal, looks;
        ReadyStays(walk, old(looks), old(pids), looks, pids, pid, getTerminal);
        assert pids == old(pids) || Servers(manager) - pids <= Servers(manager) - old(pids);
        Visit(pid, k, getTerminal);
        GrowsOn(old(looks), had, looks);
        ProgressStep(manager, event, pid, k, getTerminal, old(pids), before, pids, old(terminal), mid, terminal);
        StagedMore(manager, event, pid, k, getTerminal, stages, Stage(pids, terminal));
        stages := stages + [Stage(pids, terminal)];
      }
    }

    /** The loop body: the k-th call of `pid`. */
    method Visit(pid: int, k: nat, getTerminal: bool)
      requires k < |Calls(manager, pid)| && Valid() && Ready(walk, looks, pids, pid, getTerminal)
      modifies this
      ensures Valid() && Grows(old(looks), looks)
      ensures old(pids) <= pids
      ensures CallMoves(manager, event, pid, k, getTerminal, old(pids), pids, old(terminal), terminal)
      decreases Servers(manager) - pids, 0
    {
      var each := Calls(manager, pid)[k];
      var server := each.server.pid;
      if server in pids {
        return;
      }
      ServersHas(manager, pid, k);
      var matched := Enter(pid, k, getTerminal);
      ghost var mid, entered := terminal, pids;
      Descend(server, matched);
      VisitEffect(pid, k, getTerminal, matched, old(pids), entered, pids, old(terminal), mid, terminal);
    }

    /** Marks the server of a call as visited, and hands the terminal over if the call matches. */
    method Enter(pid: int, k: nat, getTerminal: bool) returns (matched: bool)
      requires k < |Calls(manager, pid)| && Calls(manager, pid)[k].server.pid !in pids
      requires Valid() && Ready(walk, looks, pids, pid, getTerminal)
      modifies this
      ensures var call := Calls(manager, pid)[k];
        && matched == (getTerminal && (call.client == event || call.client == old(terminal)))
        && pids == old(pids) + {call.server.pid} && terminal == (if matched then call.server else old(terminal))
        && Valid() && call.server.pid !in old(looks) && looks == old(looks)[call.server.pid := matched]
    {
      var each := Calls(manager, pid)[k];
      AddHop(walk, trail, looks, pids, terminal, pid, k, getTerminal);
      trail := trail + [Hop(pid, k, getTerminal, terminal)];
      pids := pids + {each.server.pid};
      matched := false;
      if getTerminal && (each.client == event || each.client == terminal) {
        terminal := each.server;
        matched := true;
      }
      looks := looks[each.server.pid := matched];
    }

    /** Walks a process that has just been entered: first, if its call matched, looking for the terminal. */
    method Descend(server: int, matched: bool)
      requires Valid() && server in looks && looks[server] == matched
      modifies this
      ensures Valid() && Grows(old(looks), looks)
      ensures old(pids) <= pids && Covered(manager, server, pids)
      ensures forall q :: q in pids && q !in old(pids) ==> Reachable(manager, server, q) && Covered(manager, q, pids)
      ensures !matched ==> terminal == old(terminal)
      ensures Terminal(manager, event, old(terminal), terminal)
      decreases Servers(manager) - pids, 2
    {
      ghost var walked, once := false, {};
      if matched {
        ghost var _ := Parse(server, true);
        walked, once := true, pids;
      }
      assert Servers(manager) - pids <= Servers(manager) - old(pids);
      ghost var _ := Parse(server, false);
      assert walked ==> pids == once;   // after the first walk the second adds nothing
    }

    /** What entering a process and walking it amounts to. */
    lemma VisitEffect(pid: int, k: nat, getTerminal: bool, matched: bool,
                      before: set<int>, entered: set<int>, after: set<int>, was: ThreadId, mid: ThreadId, now: ThreadId)
      requires k < |Calls(manager, pid)|
      requires var call := Calls(manager, pid)[k];
        && call.server.pid !in before && entered == before + {call.server.pid} && entered <= after
        && matched == (getTerminal && (call.client == event || call.client == was))
        && mid == (if matched then call.server else was)
        && (forall q :: q in after && q !in entered ==> Reachable(manager, call.server.pid, q))
      requires Terminal(manager, event, mid, now) && (!matched ==> now == mid)
      ensures forall q :: q in after && q !in before ==> Reachable(manager, pid, q)
      ensures Terminal(manager, event, was, now)
      ensures Moves(manager, event, Calls(manager, pid)[k], getTerminal, before, after, was, now)
    {
      var call := Calls(manager, pid)[k];
      forall q | q in after && q !in before ensures Reachable(manager, pid, q) {
        assert CallsInto(manager, pid, call.server.pid);
        if q == call.server.pid {
          OneCall(manager, pid, q);
        } else {
          CallThen(manager, pid, call.server.pid, q);
        }
      }
      if matched {
        assert IsCall(manager, call);
        TerminalHop(manager, event, was, was, call);
        TerminalJoins(manager, event, was, mid, now);
        if call.client == event {
          HopOn(manager, event, call);
          TerminalStays(manager, event, mid, now);
        }
      }
    }
  }

  /** From an empty visited set the walk leaves exactly the pids reachable by one or more calls.
      If no call comes from the initial terminal, the terminal moves exactly when a followed call
      of `pid` comes from the event thread, and then to the end of a chain of calls from there.
      No call of a thread to which the terminal has moved was followed; so if every process is called
      only once, and `pid` not at all, that thread calls nobody. */
  method SyncPids(manager: Manager, pid: int, event: ThreadId, terminal: ThreadId)
      returns (pids: set<int>, last: ThreadId, ghost trail: seq<Hop>, ghost looks: Looks)
    ensures forall q :: q in pids <==> Reachable(manager, pid, q)
    ensures Terminal(manager, event, terminal, last)
    ensures (forall info :: IsCall(manager, info) ==> info.client != terminal) ==>
      if Opens(manager, pid, |Calls(manager, pid)|, event) then HandsOver(manager, event, last) else last == terminal
    ensures Follows(Walk(manager, event, pid, {}, terminal), trail, looks, pids, last)
    ensures Keyed(manager) && last != terminal && last.pid != pid ==> NoneFrom(manager, trail, last)
    ensures Keyed(manager) && CalledOnce(manager) && Uncalled(manager, pid) && last != terminal ==>
      forall info :: IsCall(manager, info) ==> info.client != last
  {
    var chain := new CallChain(manager, event, {}, terminal, pid);
    ghost var stages := chain.Parse(pid, true);
    pids, last, trail, looks := chain.pids, chain.terminal, chain.trail, chain.looks;
    ReachesAll(manager, event, pid, pids, terminal, last);
    MovesIffOpens(manager, event, pid, stages);
    EndsAtLast(chain.walk, trail, looks, pids, last);
  }

  lemma ReachesAll(manager: Manager, event: ThreadId, pid: int, pids: set<int>, was: ThreadId, last: ThreadId)
    requires Progress(manager, event, pid, |Calls(manager, pid)|, true, {}, pids, was, last)
    requires Covered(manager, pid, pids)
    ensures forall q :: q in pids <==> Reachable(manager, pid, q)
    ensures forall q :: q in pids ==> Covered(manager, q, pids)
    ensures Terminal(manager, event, was, last)
  {
    forall q | Reachable(manager, pid, q) ensures q in pids {
      var path :| IsChain(manager, pid, path) && path[|path| - 1] == q;
      ClosedHasChains(manager, pid, pids, path);
    }
  }

  lemma MovesIffOpens(manager: Manager, event: ThreadId, pid: int, stages: seq<Stage>)
    requires Staged(manager, event, pid, |Calls(manager, pid)|, true, stages) && stages[0].pids == {}
    ensures var was, last := stages[0].terminal, stages[|Calls(manager, pid)|].terminal;
      (forall info :: IsCall(manager, info) ==> info.client != was) ==>
        if Opens(manager, pid, |Calls(manager, pid)|, event) then HandsOver(manager, event, last) else last == was
  {
    var was := stages[0].terminal;
    StagesAreFresh(manager, event, pid, |Calls(manager, pid)|, true, stages);
    if forall info :: IsCall(manager, info) ==> info.client != was {
      NoneOpens(manager, pid, was);
    }
  }

  lemma EndsAtLast(w: Walk, trail: seq<Hop>, looks: Looks, pids: set<int>, last: ThreadId)
    requires Follows(w, trail, looks, pids, last) && w.visited == {}
    requires forall q :: q in pids ==> Covered(w.manager, q, pids)
    ensures Keyed(w.manager) && last != w.first && last.pid != w.start ==> NoneFrom(w.manager, trail, last)
    ensures Keyed(w.manager) && CalledOnce(w.manager) && Uncalled(w.manager, w.start) && last != w.first ==>
      forall info :: IsCall(w.manager, info) ==> info.client != last
  {
    if Keyed(w.manager) && last != w.first {
      LastIsLeft(w, trail, looks, pids, last);
      if CalledOnce(w.manager) && Uncalled(w.manager, w.start) {
        LastIsEnd(w, trail, looks, pids, last);
      }
    }
  }

  lemma NoneOpens(manager: Manager, pid: int, thread: ThreadId)
    requires forall info :: IsCall(manager, info) ==> info.client != thread
    ensures !Opens(manager, pid, |Calls(manager, pid)|, thread)
  {
    forall k: nat | k < |Calls(manager, pid)| ensures Calls(manager, pid)[k].client != thread {
      assert IsCall(manager, Calls(manager, pid)[k]);
    }
  }
}
