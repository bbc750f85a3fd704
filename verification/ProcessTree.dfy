/** The process tree of the application in one `ps` snapshot. */
module ProcessTree {
  import opened Options

  datatype Process = Process(ppid: int, rss: int)

  type Snapshot = map<int, Process>

  /** A chain of snapshot processes from one pid to another, each the parent of the next. */
  ghost predicate Descent(ps: Snapshot, path: seq<int>) {
    && path != []
    && (forall i | 0 <= i < |path| :: path[i] in ps)
    && (forall i | 0 <= i < |path| - 1 :: ps[path[i + 1]].ppid == path[i])
  }

  ghost predicate Descends(ps: Snapshot, app: int, pid: int) {
    exists path :: Descent(ps, path) && path[0] == app && path[|path| - 1] == pid
  }

  /** Sum over a set of processes; whichever pid is taken first, the sum is the same. */
  ghost function SumRss(ps: Snapshot, pids: set<int>): int
    requires pids <= ps.Keys
  {
    if exists p :: p in pids then
      var p :| p in pids;
      ps[p].rss + SumRss(ps, pids - {p})
    else 0
  }

  lemma {:induction false} SumWithout(ps: Snapshot, pids: set<int>, p: int)
    requires pids <= ps.Keys && p in pids
    ensures SumRss(ps, pids) == ps[p].rss + SumRss(ps, pids - {p})
    decreases |pids|
  {
    var q :| q in pids && SumRss(ps, pids) == ps[q].rss + SumRss(ps, pids - {q});
    if q != p {
      SumWithout(ps, pids - {q}, p);
      SumWithout(ps, pids - {p}, q);
      assert pids - {q} - {p} == pids - {p} - {q};
    }
  }

  function SumOf(ps: Snapshot, pids: seq<int>): int
    requires forall i | 0 <= i < |pids| :: pids[i] in ps
  {
    if pids == [] then 0 else ps[pids[0]].rss + SumOf(ps, pids[1..])
  }

  /** However the processes are listed, each once, it is the sum of that list. */
  lemma {:induction false} SumOfAnyListing(ps: Snapshot, pids: seq<int>)
    requires forall i | 0 <= i < |pids| :: pids[i] in ps
    requires forall i, j | 0 <= i < j < |pids| :: pids[i] != pids[j]
    ensures SumRss(ps, set p | p in pids) == SumOf(ps, pids)
  {
    var all := set p | p in pids;
    if pids == [] {
      assert all == {};
    } else {
      assert pids[0] in all;
      SumWithout(ps, all, pids[0]);
      assert all - {pids[0]} == set p | p in pids[1..];
      SumOfAnyListing(ps, pids[1..]);
    }
  }

  lemma {:induction false} PathStaysOwned(ps: Snapshot, owned: set<int>, path: seq<int>)
    requires Descent(ps, path) && path[0] in owned
    requires forall pid :: pid in ps && ps[pid].ppid in owned ==> pid in owned
    ensures path[|path| - 1] in owned
  {
    if |path| > 1 {
      var front := path[..|path| - 1];
      PathStaysOwned(ps, owned, front);
      assert ps[path[|path| - 1]].ppid == front[|front| - 1];
    }
  }

  function Children(ps: Snapshot, owned: set<int>): set<int> {
    set pid | pid in ps && ps[pid].ppid in owned && pid !in owned
  }

  lemma NoChildren(ps: Snapshot, owned: set<int>)
    requires Children(ps, owned) == {}
    ensures forall pid :: pid in ps && ps[pid].ppid in owned ==> pid in owned
  {
    forall pid | pid in ps && ps[pid].ppid in owned ensures pid in owned {
      assert pid in owned || pid in Children(ps, owned);
    }
  }

  lemma ChildDescends(ps: Snapshot, app: int, parent: int, pid: int)
    requires Descends(ps, app, parent) && pid in ps && ps[pid].ppid == parent
    ensures Descends(ps, app, pid)
  {
    var path :| Descent(ps, path) && path[0] == app && path[|path| - 1] == parent;
    var longer := path + [pid];
    assert Descent(ps, longer) && longer[0] == app && longer[|longer| - 1] == pid;
  }

  /** The owned processes are exactly the descendants of the application, cycles or not. */
  method Owned(ps: Snapshot, app: int) returns (owned: set<int>)
    requires app in ps
    ensures owned <= ps.Keys
    ensures forall pid :: pid in owned <==> Descends(ps, app, pid)
  {
    owned := {app};
    assert Descent(ps, [app]);
    while true
      invariant app in owned && owned <= ps.Keys
      invariant forall pid :: pid in owned ==> Descends(ps, app, pid)
      decreases |ps.Keys - owned|
    {
      var children := Children(ps, owned);
      if children == {} {
        break;
      }
      forall pid | pid in children ensures Descends(ps, app, pid) {
        ChildDescends(ps, app, ps[pid].ppid, pid);
      }
      Shrinks(ps.Keys, owned, children);
      owned := owned + children;
    }
    NoChildren(ps, owned);
    forall pid | Descends(ps, app, pid) ensures pid in owned {
      var path :| Descent(ps, path) && path[0] == app && path[|path| - 1] == pid;
      PathStaysOwned(ps, owned, path);
    }
  }

  lemma Shrinks(all: set<int>, owned: set<int>, children: set<int>)
    requires children != {} && children <= all && children !! owned
    ensures |all - (owned + children)| < |all - owned|
  {
    var rest := all - (owned + children);
    assert all - owned == rest + children && rest !! children;
    assert |all - owned| == |rest| + |children|;
  }

  /** The resident memory of the tree in KiB: every descendant counts once. None when the
      application itself is not in the snapshot. */
  method TreeRss(ps: Snapshot, app: int) returns (rss: Option<int>)
    ensures rss.Some? <==> app in ps
    ensures rss.Some? ==>
              exists owned ::
                && owned <= ps.Keys && (forall pid :: pid in owned <==> Descends(ps, app, pid))
                && rss.value == SumRss(ps, owned)
  {
    if app !in ps {
      return None;
    }
    var owned := Owned(ps, app);
    var todo, sum := owned, 0;
    while exists p :: p in todo
      invariant todo <= owned
      invariant sum + SumRss(ps, todo) == SumRss(ps, owned)
      decreases |todo|
    {
      var p :| p in todo;
      SumWithout(ps, todo, p);
      sum := sum + ps[p].rss;
      todo := todo - {p};
    }
    return Some(sum);
  }
}
