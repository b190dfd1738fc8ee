/** The trail of a walk: the calls it has followed, in order, and what each did to the terminal. */
module BinderTrail {
  import opened BinderGraph

  /** Where and how a walk began. */
  datatype Walk = Walk(manager: Manager, event: ThreadId, start: int, visited: set<int>, first: ThreadId)

  /** The k-th call of `pid` was followed, by a walk that looks for the terminal if `offered`, while
      the terminal was `before`. */
  datatype Hop = Hop(pid: int, k: nat, offered: bool, before: ThreadId)

  predicate IsHop(manager: Manager, h: Hop) { h.k < |Calls(manager, h.pid)| }

  function CallOf(manager: Manager, h: Hop): BinderInfo
    requires IsHop(manager, h)
  {
    Calls(manager, h.pid)[h.k]
  }

  /** The hop is from the event thread or from the terminal. */
  predicate Matched(w: Walk, h: Hop)
    requires IsHop(w.manager, h)
  {
    h.offered && (CallOf(w.manager, h).client == w.event || CallOf(w.manager, h).client == h.before)
  }

  /** A matched hop hands the terminal over to its server thread. */
  function After(w: Walk, h: Hop): ThreadId
    requires IsHop(w.manager, h)
  {
    if Matched(w, h) then CallOf(w.manager, h).server else h.before
  }

  ghost predicate Hops(w: Walk, trail: seq<Hop>) {
    forall n :: 0 <= n < |trail| ==> IsHop(w.manager, trail[n])
  }

  function Server(w: Walk, h: Hop): int
    requires IsHop(w.manager, h)
  {
    CallOf(w.manager, h).server.pid
  }

  /** Some hop of the trail leads to `pid`. */
  ghost predicate LeadsTo(w: Walk, trail: seq<Hop>, pid: int)
    requires Hops(w, trail)
  {
    exists m :: 0 <= m < |trail| && Server(w, trail[m]) == pid
  }

  /** The pids visited are those at the start and those the hops lead to, each once. */
  ghost predicate Visits(w: Walk, trail: seq<Hop>, pids: set<int>)
    requires Hops(w, trail)
  {
    && (forall q :: q in pids <==> q in w.visited || LeadsTo(w, trail, q))
    && (forall m, n :: 0 <= m < n < |trail| ==> Server(w, trail[m]) != Server(w, trail[n]))
    && (forall n :: 0 <= n < |trail| ==> Server(w, trail[n]) !in w.visited)
  }

  /** Each hop finds the terminal that the one before it left. */
  ghost predicate Hands(w: Walk, trail: seq<Hop>, terminal: ThreadId)
    requires Hops(w, trail)
  {
    && (forall m, n :: 0 <= m < |trail| && 0 <= n < |trail| && n == m + 1 ==> trail[n].before == After(w, trail[m]))
    && (if trail == [] then terminal == w.first
        else trail[0].before == w.first && terminal == After(w, trail[|trail| - 1]))
  }

  /** Hops start from the start or from where an earlier hop led, and look for the terminal there
      exactly if that hop was matched. */
  ghost predicate Levels(w: Walk, trail: seq<Hop>)
    requires Hops(w, trail)
  {
    && (forall n :: 0 <= n < |trail| ==> Walked(w, trail[..n], trail[n].pid))
    && (forall m, n :: 0 <= m < |trail| && 0 <= n < |trail| && Server(w, trail[m]) == trail[n].pid != w.start ==>
          trail[n].offered == Matched(w, trail[m]))
  }

  ghost predicate Walked(w: Walk, trail: seq<Hop>, pid: int) {
    Hops(w, trail) && (pid == w.start || LeadsTo(w, trail, pid))
  }

  /** For each process reached: does its walk look for the terminal? */
  type Looks = map<int, bool>

  /** A walk of `pid` that looks for the terminal as it should, or that finds nothing to follow. */
  ghost predicate Ready(w: Walk, looks: Looks, pids: set<int>, pid: int, offered: bool) {
    pid == w.start || (pid in looks && (looks[pid] == offered || Covered(w.manager, pid, pids)))
  }

  /** The trail accounts for the visited pids and the terminal: each hop was a call not visited yet, of
      a process that was being walked, and did to the terminal what it should. */
  ghost predicate Follows(w: Walk, trail: seq<Hop>, looks: Looks, pids: set<int>, terminal: ThreadId)
    decreases |trail|
  {
    if trail == [] then looks == map[] && pids == w.visited && terminal == w.first
    else
      var init, h := trail[..|trail| - 1], trail[|trail| - 1];
      && IsHop(w.manager, h) && Server(w, h) in pids && terminal == After(w, h)
      && Server(w, h) in looks && looks[Server(w, h)] == Matched(w, h)
      && (h.pid == w.start || (h.pid in looks && h.pid != Server(w, h) && looks[h.pid] == h.offered))
      && Follows(w, init, looks - {Server(w, h)}, pids - {Server(w, h)}, h.before)
  }

  /** Following a fresh call of a process that is ready to be walked. */
  lemma AddHop(w: Walk, trail: seq<Hop>, looks: Looks, pids: set<int>, terminal: ThreadId,
               pid: int, k: nat, offered: bool)
    requires Follows(w, trail, looks, pids, terminal) && Ready(w, looks, pids, pid, offered)
    requires k < |Calls(w.manager, pid)| && Calls(w.manager, pid)[k].server.pid !in pids
    ensures var h, call := Hop(pid, k, offered, terminal), Calls(w.manager, pid)[k];
      var matched := offered && (call.client == w.event || call.client == terminal);
      && call.server.pid !in looks
      && Follows(w, trail + [h], looks[call.server.pid := matched], pids + {call.server.pid},
                 if matched then call.server else terminal)
  {
    var h, call := Hop(pid, k, offered, terminal), Calls(w.manager, pid)[k];
    var more, server := trail + [h], call.server.pid;
    LooksAreVisited(w, trail, looks, pids, terminal);
    assert CallsInto(w.manager, pid, server);
    assert more[..|trail|] == trail && more[|trail|] == h;
    assert pids + {server} - {server} == pids;
    assert looks[server := Matched(w, h)] - {server} == looks;
  }

  lemma {:induction false} LooksAreVisited(w: Walk, trail: seq<Hop>, looks: Looks, pids: set<int>, terminal: ThreadId)
    requires Follows(w, trail, looks, pids, terminal)
    ensures looks.Keys <= pids
    decreases |trail|
  {
    if trail != [] {
      var init, h := trail[..|trail| - 1], trail[|trail| - 1];
      LooksAreVisited(w, init, looks - {Server(w, h)}, pids - {Server(w, h)}, h.before);
      forall p | p in looks ensures p in pids {
        assert p == Server(w, h) || p in looks - {Server(w, h)};
      }
    }
  }

  predicate Grows(looks: Looks, more: Looks) { forall p :: p in looks ==> p in more && more[p] == looks[p] }

  lemma ReadyStays(w: Walk, looks: Looks, pids: set<int>, more: Looks, pids': set<int>, pid: int, offered: bool)
    requires Ready(w, looks, pids, pid, offered) && Grows(looks, more) && pids <= pids'
    ensures Ready(w, more, pids', pid, offered)
  {
  }

  lemma GrowsOn(a: Looks, b: Looks, c: Looks)
    requires Grows(a, b) && Grows(b, c)
    ensures Grows(a, c)
  {
  }

  // What the account says -------------------------------------------------------------------

  /** `looks` has an entry for each hop's server, true exactly if the hop was matched. */
  ghost predicate LooksRight(w: Walk, trail: seq<Hop>, looks: Looks)
    requires Hops(w, trail)
  {
    && (forall p :: p in looks <==> LeadsTo(w, trail, p))
    && (forall m :: 0 <= m < |trail| && Server(w, trail[m]) in looks ==>
          looks[Server(w, trail[m])] == Matched(w, trail[m]))
  }

  lemma LooksMore(w: Walk, trail: seq<Hop>, looks: Looks, h: Hop)
    requires Hops(w, trail) && LooksRight(w, trail, looks) && IsHop(w.manager, h) && Server(w, h) !in looks
    ensures Hops(w, trail + [h]) && LooksRight(w, trail + [h], looks[Server(w, h) := Matched(w, h)])
  {
    var more, looks' := trail + [h], looks[Server(w, h) := Matched(w, h)];
    assert more[|trail|] == h;
    forall p ensures p in looks' <==> LeadsTo(w, more, p) {
      if LeadsTo(w, trail, p) {
        var m :| 0 <= m < |trail| && Server(w, trail[m]) == p;
        assert more[m] == trail[m];
      }
    }
    forall m | 0 <= m < |trail| ensures Server(w, more[m]) in looks {
      assert LeadsTo(w, trail, Server(w, trail[m]));
    }
  }

  lemma VisitsMore(w: Walk, trail: seq<Hop>, pids: set<int>, h: Hop)
    requires Hops(w, trail) && Visits(w, trail, pids) && IsHop(w.manager, h) && Server(w, h) !in pids
    ensures Hops(w, trail + [h]) && Visits(w, trail + [h], pids + {Server(w, h)})
  {
    var more := trail + [h];
    forall q ensures q in pids + {Server(w, h)} <==> q in w.visited || LeadsTo(w, more, q) {
      if LeadsTo(w, trail, q) {
        var m :| 0 <= m < |trail| && Server(w, trail[m]) == q;
        assert more[m] == trail[m];
      }
      assert more[|trail|] == h;
    }
    forall n | 0 <= n < |trail| ensures Server(w, more[n]) != Server(w, h) {
      assert LeadsTo(w, trail, Server(w, trail[n]));
    }
  }

  lemma HandsMore(w: Walk, trail: seq<Hop>, terminal: ThreadId, h: Hop)
    requires Hops(w, trail) && Hands(w, trail, terminal) && IsHop(w.manager, h) && h.before == terminal
    ensures Hops(w, trail + [h]) && Hands(w, trail + [h], After(w, h))
  {
  }

  lemma LevelsMore(w: Walk, trail: seq<Hop>, looks: Looks, h: Hop)
    requires Hops(w, trail) && LooksRight(w, trail, looks) && Levels(w, trail)
    requires IsHop(w.manager, h) && Server(w, h) !in looks
    requires h.pid == w.start || (h.pid in looks && looks[h.pid] == h.offered)
    ensures Hops(w, trail + [h]) && Levels(w, trail + [h])
  {
    var more := trail + [h];
    forall n | 0 <= n < |more| ensures Walked(w, more[..n], more[n].pid) {
      assert more[..n] == trail[..n];
      assert n == |trail| ==> trail[..n] == trail;
    }
    forall m, n | 0 <= m < |more| && 0 <= n < |more| && Server(w, more[m]) == more[n].pid != w.start
      ensures more[n].offered == Matched(w, more[m])
    {
      if n < |trail| {
        assert Walked(w, trail[..n], trail[n].pid);
        InPrefix(w, trail, n, trail[n].pid);
      }
    }
  }

  lemma InPrefix(w: Walk, trail: seq<Hop>, n: nat, pid: int)
    requires Hops(w, trail) && n <= |trail| && Hops(w, trail[..n]) && LeadsTo(w, trail[..n], pid)
    ensures LeadsTo(w, trail, pid)
  {
    var m :| 0 <= m < n && Server(w, trail[..n][m]) == pid;
    assert trail[..n][m] == trail[m];
  }

  ghost predicate Facts(w: Walk, trail: seq<Hop>, looks: Looks, pids: set<int>, terminal: ThreadId) {
    && Hops(w, trail) && LooksRight(w, trail, looks)
    && Visits(w, trail, pids) && Hands(w, trail, terminal) && Levels(w, trail)
  }

  lemma FactsMore(w: Walk, trail: seq<Hop>, looks: Looks, pids: set<int>, h: Hop)
    requires Facts(w, trail, looks, pids, h.before) && IsHop(w.manager, h)
    requires Server(w, h) !in pids && Server(w, h) !in looks
    requires h.pid == w.start || (h.pid in looks && looks[h.pid] == h.offered)
    ensures Facts(w, trail + [h], looks[Server(w, h) := Matched(w, h)], pids + {Server(w, h)}, After(w, h))
  {
    VisitsMore(w, trail, pids, h);
    HandsMore(w, trail, h.before, h);
    LooksMore(w, trail, looks, h);
    LevelsMore(w, trail, looks, h);
  }

  lemma FactsOfLast(w: Walk, init: seq<Hop>, h: Hop, looks: Looks, pids: set<int>, looks': Looks, pids': set<int>)
    requires IsHop(w.manager, h) && Facts(w, init, looks', pids', h.before)
    requires Server(w, h) in looks && looks[Server(w, h)] == Matched(w, h) && Server(w, h) in pids
    requires looks' == looks - {Server(w, h)} && pids' == pids - {Server(w, h)}
    requires h.pid == w.start || (h.pid in looks' && looks'[h.pid] == h.offered)
    ensures Facts(w, init + [h], looks, pids, After(w, h))
  {
    assert looks == looks'[Server(w, h) := Matched(w, h)] && pids == pids' + {Server(w, h)};
    FactsMore(w, init, looks', pids', h);
  }

  lemma {:induction false} FollowsFacts(w: Walk, trail: seq<Hop>, looks: Looks, pids: set<int>, terminal: ThreadId)
    requires Follows(w, trail, looks, pids, terminal)
    ensures Facts(w, trail, looks, pids, terminal)
    decreases |trail|
  {
    if trail == [] {
      NoFacts(w);
    } else {
      var init, h := trail[..|trail| - 1], trail[|trail| - 1];
      var server := Server(w, h);
      FollowsFacts(w, init, looks - {server}, pids - {server}, h.before);
      assert init + [h] == trail;
      FactsOfLast(w, init, h, looks, pids, looks - {server}, pids - {server});
    }
  }

  lemma NoFacts(w: Walk)
    ensures Facts(w, [], map[], w.visited, w.first)
  {
  }

  // Where the terminal ends -----------------------------------------------------------------

  /** Calls stand under the process of their client. */
  ghost predicate Keyed(manager: Manager) {
    forall pid, k :: 0 <= k < |Calls(manager, pid)| ==> Calls(manager, pid)[k].client.pid == pid
  }

  predicate SameServer(a: BinderInfo, b: BinderInfo) { a.server.pid == b.server.pid }

  /** No process is called twice. */
  ghost predicate CalledOnce(manager: Manager) {
    forall p, j, q, k :: 0 <= j < |Calls(manager, p)| && 0 <= k < |Calls(manager, q)| ==>
      SameServer(Calls(manager, p)[j], Calls(manager, q)[k]) ==> p == q && j == k
  }

  ghost predicate Uncalled(manager: Manager, pid: int) {
    forall p, k :: 0 <= k < |Calls(manager, p)| ==> Calls(manager, p)[k].server.pid != pid
  }

  /** No hop of the trail is a call of this thread. */
  ghost predicate NoneFrom(manager: Manager, trail: seq<Hop>, thread: ThreadId) {
    forall n :: 0 <= n < |trail| ==> IsHop(manager, trail[n]) && CallOf(manager, trail[n]).client != thread
  }

  /** A terminal that has moved was last handed over by a matched hop, after which none is matched. */
  lemma {:induction false} LastMatch(w: Walk, trail: seq<Hop>, terminal: ThreadId) returns (m: nat)
    requires Hops(w, trail) && Hands(w, trail, terminal) && terminal != w.first
    ensures m < |trail| && Matched(w, trail[m]) && CallOf(w.manager, trail[m]).server == terminal
    ensures forall n :: m < n < |trail| ==> !Matched(w, trail[n]) && trail[n].before == terminal
    decreases |trail|
  {
    var last := |trail| - 1;
    if Matched(w, trail[last]) {
      m := last;
    } else {
      var init := trail[..last];
      assert Hands(w, init, terminal) by {
        assert forall n :: 0 <= n < last ==> init[n] == trail[n];
        assert last > 0 ==> trail[last].before == After(w, trail[last - 1]);
      }
      m := LastMatch(w, init, terminal);
    }
  }

  /** No call of a thread that the terminal has moved to was followed, unless in the process that the
      walk started from. */
  lemma LastIsLeft(w: Walk, trail: seq<Hop>, looks: Looks, pids: set<int>, terminal: ThreadId)
    requires Follows(w, trail, looks, pids, terminal) && Keyed(w.manager) && terminal != w.first
    ensures Hops(w, trail) && LeadsTo(w, trail, terminal.pid)
    ensures terminal.pid != w.start ==> NoneFrom(w.manager, trail, terminal)
  {
    FollowsFacts(w, trail, looks, pids, terminal);
    var m := LastMatch(w, trail, terminal);
    if terminal.pid != w.start {
      forall n | 0 <= n < |trail| ensures CallOf(w.manager, trail[n]).client != terminal {
        NotFollowed(w, trail, pids, terminal, m, n);
      }
    }
  }

  lemma NotFollowed(w: Walk, trail: seq<Hop>, pids: set<int>, terminal: ThreadId, m: nat, n: nat)
    requires Hops(w, trail) && Visits(w, trail, pids) && Levels(w, trail) && Keyed(w.manager) && terminal.pid != w.start
    requires m < |trail| && Matched(w, trail[m]) && CallOf(w.manager, trail[m]).server == terminal
    requires forall n :: m < n < |trail| ==> !Matched(w, trail[n]) && trail[n].before == terminal
    requires n < |trail|
    ensures CallOf(w.manager, trail[n]).client != terminal
  {
    assert CallOf(w.manager, trail[n]).client.pid == trail[n].pid;
    if n <= m {
      assert Walked(w, trail[..n], trail[n].pid);
      if trail[n].pid != w.start {
        var l :| 0 <= l < n && Server(w, trail[..n][l]) == trail[n].pid;
        assert trail[..n][l] == trail[l] && Server(w, trail[l]) != Server(w, trail[m]);
      }
    } else {
      assert trail[n].pid == terminal.pid ==> trail[n].offered == Matched(w, trail[m]);
    }
  }

  /** So where every process is called only once and the start not at all, such a thread calls nobody. */
  lemma LastIsEnd(w: Walk, trail: seq<Hop>, looks: Looks, pids: set<int>, terminal: ThreadId)
    requires Follows(w, trail, looks, pids, terminal) && Keyed(w.manager) && terminal != w.first && w.visited == {}
    requires CalledOnce(w.manager) && Uncalled(w.manager, w.start)
    requires forall q :: q in pids ==> Covered(w.manager, q, pids)
    ensures forall info :: IsCall(w.manager, info) ==> info.client != terminal
  {
    LastIsLeft(w, trail, looks, pids, terminal);
    FollowsFacts(w, trail, looks, pids, terminal);
    assert terminal.pid != w.start && terminal.pid in pids;
    forall p, k | 0 <= k < |Calls(w.manager, p)| ensures Calls(w.manager, p)[k].client != terminal {
      if p in pids {
        CallIsHop(w, trail, pids, p, k);
      }
    }
  }

  /** Every call of a visited process was followed. */
  lemma CallIsHop(w: Walk, trail: seq<Hop>, pids: set<int>, p: int, k: nat)
    requires Hops(w, trail) && Visits(w, trail, pids) && w.visited == {} && CalledOnce(w.manager)
    requires p in pids && Covered(w.manager, p, pids) && k < |Calls(w.manager, p)|
    ensures exists n :: 0 <= n < |trail| && CallOf(w.manager, trail[n]) == Calls(w.manager, p)[k]
  {
    var server := Calls(w.manager, p)[k].server.pid;
    assert CallsInto(w.manager, p, server);
    assert LeadsTo(w, trail, server);
    var n :| 0 <= n < |trail| && Server(w, trail[n]) == server;
    assert SameServer(CallOf(w.manager, trail[n]), Calls(w.manager, p)[k]);
  }
}
