/** The gossiped view of the shards: every node merges what it learns about a shard, from its own
    replicas and from the views of other nodes, in any order. */
module Gossip {

  type Members = map<nat, string>

  const NO_LEADER: nat := 0

  datatype Shard = Shard(id: nat, nodes: Members, configIndex: nat, leader: nat, term: nat)

  type View = map<nat, Shard>

  /** `mergeShardInfo`: the newer membership, and the last known leader. */
  function Merge(current: Shard, update: Shard): (r: Shard)
    ensures r.id == current.id
    ensures current.configIndex <= r.configIndex && (current.leader != 0 ==> current.term <= r.term)
    ensures update.leader == 0 ==> r.leader == current.leader && r.term == current.term
    ensures r.leader == 0 <==> current.leader == 0 && update.leader == 0
  {
    var c := if current.configIndex < update.configIndex then
               current.(nodes := update.nodes, configIndex := update.configIndex)
             else current;
    if update.leader != NO_LEADER && (c.leader == NO_LEADER || update.term > c.term) then
      c.(leader := update.leader, term := update.term)
    else c
  }

  function Empty(id: nat): (s: Shard)
  {
    Shard(id, map[], 0, NO_LEADER, 0)
  }

  function Current(v: View, id: nat): (s: Shard)
  {
    if id in v then v[id] else Empty(id)
  }

  function UpdateOne(v: View, u: Shard): (r: View)
  {
    v[u.id := Merge(Current(v, u.id), u)]
  }

  function UpdateAll(v: View, us: seq<Shard>): (r: View)
    decreases |us|
  {
    if us == [] then v else UpdateAll(UpdateOne(v, us[0]), us[1..])
  }

  /** `shardView`. */
  class ShardView {
    var shards: View

    constructor ()
      ensures shards == map[]
    {
      shards := map[];
    }

    method Update(updates: seq<Shard>)
      modifies this
      ensures shards == UpdateAll(old(shards), updates)
    {
      var i := 0;
      assert updates[0..] == updates;
      while i < |updates|
        invariant i <= |updates| && UpdateAll(shards, updates[i..]) == UpdateAll(old(shards), updates)
      {
        var u := updates[i];
        assert updates[i..][1..] == updates[i + 1..];
        var current := if u.id in shards then shards[u.id] else Empty(u.id);
        shards := shards[u.id := Merge(current, u)];
        i := i + 1;
      }
    }

    /** The shards in any order. */
    method Copy() returns (list: seq<Shard>)
      ensures Lists(list, shards)
    {
      list := [];
      var todo := shards.Keys;
      while todo != {}
        invariant todo <= shards.Keys
        invariant forall i :: 0 <= i < |list| ==> list[i] in shards.Values
        invariant forall id :: id in shards && id !in todo ==> shards[id] in list
        decreases |todo|
      {
        var id :| id in todo;
        list := list + [shards[id]];
        todo := todo - {id};
      }
    }
  }

  /** A list of exactly the shards of a view. */
  ghost predicate Lists(list: seq<Shard>, v: View)
  {
    (forall i :: 0 <= i < |list| ==> list[i] in v.Values) && forall id :: id in v ==> v[id] in list
  }

  // ---------- what a view stands for ----------

  /** One leader per term, and one membership per config index, for every shard. */
  ghost predicate Consistent(us: set<Shard>)
  {
    forall a, b :: a in us && b in us && a.id == b.id ==>
      && (a.leader != NO_LEADER && b.leader != NO_LEADER && a.term == b.term ==> a.leader == b.leader)
      && (a.configIndex == b.configIndex ==> a.nodes == b.nodes)
  }

  predicate MembersFrom(u: Shard, s: Shard)
  {
    u.id == s.id && u.configIndex == s.configIndex && u.nodes == s.nodes
  }

  predicate LeaderFrom(u: Shard, s: Shard)
  {
    u.id == s.id && u.leader == s.leader && u.term == s.term
  }

  /** The summary of all updates of a shard: the membership of the highest config index and
      the leader of the highest term that has one. */
  ghost predicate Summary(us: set<Shard>, s: Shard)
  {
    && (forall u :: u in us && u.id == s.id ==> u.configIndex <= s.configIndex)
    && (if s.configIndex == 0 then s.nodes == map[] else exists u :: u in us && MembersFrom(u, s))
    && (forall u :: u in us && u.id == s.id && u.leader != NO_LEADER ==> s.leader != NO_LEADER && u.term <= s.term)
    && (if s.leader == NO_LEADER then s.term == 0 else exists u :: u in us && LeaderFrom(u, s))
  }

  lemma SummaryUnique(us: set<Shard>, a: Shard, b: Shard)
    requires Consistent(us) && Summary(us, a) && Summary(us, b) && a.id == b.id
    ensures a == b
  {
    if a.leader != NO_LEADER {
      var u :| u in us && LeaderFrom(u, a);
      var w :| w in us && LeaderFrom(w, b);
    }
    if a.configIndex != 0 {
      var u :| u in us && MembersFrom(u, a);
      var w :| w in us && MembersFrom(w, b);
    }
  }

  /** Merging two summaries summarizes both sets of updates. */
  lemma MergeSummaries(s: set<Shard>, t: set<Shard>, a: Shard, b: Shard)
    requires Summary(s, a) && Summary(t, b) && a.id == b.id
    ensures Summary(s + t, Merge(a, b))
  {
    var r := Merge(a, b);
    if r.configIndex != 0 {
      if a.configIndex < b.configIndex {
        var u :| u in t && MembersFrom(u, b);
        assert u in s + t && MembersFrom(u, r);
      } else {
        var u :| u in s && MembersFrom(u, a);
        assert u in s + t && MembersFrom(u, r);
      }
    }
    if r.leader != NO_LEADER {
      if b.leader != NO_LEADER && (a.leader == NO_LEADER || b.term > a.term) {
        var u :| u in t && LeaderFrom(u, b);
        assert u in s + t && LeaderFrom(u, r);
      } else {
        var u :| u in s && LeaderFrom(u, a);
        assert u in s + t && LeaderFrom(u, r);
      }
    }
  }

  /** An update counts as the summary of itself. */
  lemma UpdateSummary(u: Shard)
    ensures Summary({u}, Merge(Empty(u.id), u))
  {
    var r := Merge(Empty(u.id), u);
    assert r.configIndex != 0 ==> MembersFrom(u, r);
    assert r.leader != NO_LEADER ==> LeaderFrom(u, r);
    assert u in {u};
  }

  lemma MergeNormal(c: Shard, u: Shard)
    ensures Merge(c, u) == Merge(c, Merge(Empty(u.id), u))
  {
  }

  /** The updates know the shard. */
  ghost predicate Mentions(us: set<Shard>, id: nat)
  {
    exists u :: u in us && u.id == id
  }

  ghost predicate RepresentsAt(us: set<Shard>, v: View, id: nat)
  {
    (id in v <==> Mentions(us, id)) && (id in v ==> v[id].id == id && Summary(us, v[id]))
  }

  ghost predicate Represents(us: set<Shard>, v: View)
  {
    forall id :: RepresentsAt(us, v, id)
  }

  lemma SummaryOfNothing(us: set<Shard>, id: nat)
    requires !Mentions(us, id)
    ensures Summary(us, Empty(id))
  {
  }

  /** Merging a shard of another view into this one. */
  lemma MergeAt(us: set<Shard>, t: set<Shard>, v: View, s: Shard)
    requires RepresentsAt(us, v, s.id) && Mentions(t, s.id) && Summary(t, s)
    ensures RepresentsAt(us + t, UpdateOne(v, s), s.id)
  {
    hide Summary;
    if s.id !in v { SummaryOfNothing(us, s.id); }
    MergeSummaries(us, t, Current(v, s.id), s);
    var u :| u in t && u.id == s.id;
    assert u in us + t;
  }

  /** Updates of other shards do not matter. */
  lemma OtherShards(us: set<Shard>, t: set<Shard>, v: View, id: nat)
    requires RepresentsAt(us, v, id) && !Mentions(t, id)
    ensures RepresentsAt(us + t, v, id)
  {
    if id in v {
      var s := v[id];
      assert forall u :: u in us + t && u.id == id ==> u in us;
      if s.configIndex != 0 { var u :| u in us && MembersFrom(u, s); assert u in us + t; }
      if s.leader != NO_LEADER { var u :| u in us && LeaderFrom(u, s); assert u in us + t; }
    }
    if Mentions(us, id) { var u :| u in us && u.id == id; assert u in us + t; }
  }

  lemma SameShard(us: set<Shard>, v: View, v': View, id: nat)
    requires RepresentsAt(us, v, id) && (id in v <==> id in v') && (id in v ==> v'[id] == v[id])
    ensures RepresentsAt(us, v', id)
  {
  }

  lemma LearnOne(us: set<Shard>, v: View, u: Shard)
    requires Represents(us, v)
    ensures Represents(us + {u}, UpdateOne(v, u))
  {
    hide RepresentsAt, UpdateOne;
    forall id ensures RepresentsAt(us + {u}, UpdateOne(v, u), id) {
      assert RepresentsAt(us, v, id);
      LearnAt(us, v, u, id);
    }
  }

  lemma LearnAt(us: set<Shard>, v: View, u: Shard, id: nat)
    requires RepresentsAt(us, v, id)
    ensures RepresentsAt(us + {u}, UpdateOne(v, u), id)
  {
    hide Summary, Merge;
    if id == u.id {
      var n := Merge(Empty(u.id), u);
      UpdateSummary(u);
      MergeNormal(Current(v, u.id), u);
      assert u in {u};
      MergeAt(us, {u}, v, n);
      assert UpdateOne(v, u) == UpdateOne(v, n);
    } else {
      hide RepresentsAt;
      OtherShards(us, {u}, v, id);
      SameShard(us + {u}, v, UpdateOne(v, u), id);
    }
  }

  function ToSet(us: seq<Shard>): (s: set<Shard>)
  {
    set u | u in us
  }

  /** A view that took in any list of updates represents their set: order and repetition are lost. */
  lemma {:induction false} LearnAll(us: set<Shard>, v: View, list: seq<Shard>)
    requires Represents(us, v)
    ensures Represents(us + ToSet(list), UpdateAll(v, list))
    decreases |list|
  {
    hide Represents, UpdateOne;
    if list == [] {
      assert us + ToSet(list) == us;
    } else {
      LearnOne(us, v, list[0]);
      LearnAll(us + {list[0]}, UpdateOne(v, list[0]), list[1..]);
      assert us + {list[0]} + ToSet(list[1..]) == us + ToSet(list);
    }
  }

  /** Two nodes that received the same updates hold equal views. */
  lemma Converged(us: set<Shard>, a: View, b: View)
    requires Consistent(us) && Represents(us, a) && Represents(us, b)
    ensures a == b
  {
    hide Summary, Consistent;
    forall id ensures (id in a <==> id in b) && (id in a ==> a[id] == b[id]) {
      assert RepresentsAt(us, a, id) && RepresentsAt(us, b, id);
      if id in a { SummaryUnique(us, a[id], b[id]); }
    }
  }

  /** In terms of the lists themselves, from empty views. */
  lemma OrderDoesNotMatter(a: seq<Shard>, b: seq<Shard>)
    requires ToSet(a) == ToSet(b) && Consistent(ToSet(a))
    ensures UpdateAll(map[], a) == UpdateAll(map[], b)
  {
    hide Consistent, Represents;
    NothingLearned();
    LearnAll({}, map[], a);
    LearnAll({}, map[], b);
    assert {} + ToSet(a) == ToSet(a) && {} + ToSet(b) == ToSet(a);
    Converged(ToSet(a), UpdateAll(map[], a), UpdateAll(map[], b));
  }

  lemma NothingLearned()
    ensures Represents({}, map[])
  {
  }

  // ---------- views in messages ----------

  /** A list of shards that sums up a set of updates. */
  ghost predicate SumsUp(t: set<Shard>, list: seq<Shard>)
  {
    && (forall i :: 0 <= i < |list| ==> Summary(t, list[i]) && Mentions(t, list[i].id))
    && (forall u :: u in t ==> exists i :: 0 <= i < |list| && list[i].id == u.id)
  }

  lemma ListSumsUp(us: set<Shard>, v: View, list: seq<Shard>)
    requires Represents(us, v) && Lists(list, v)
    ensures SumsUp(us, list)
  {
    hide Summary;
    forall i | 0 <= i < |list| ensures Summary(us, list[i]) && Mentions(us, list[i].id) {
      assert list[i] in v.Values;
      var id :| id in v && v[id] == list[i];
      assert RepresentsAt(us, v, id);
    }
    forall u | u in us ensures exists i :: 0 <= i < |list| && list[i].id == u.id {
      assert Mentions(us, u.id) && RepresentsAt(us, v, u.id);
      assert v[u.id] in list;
    }
  }

  /** Half way through a message: the shards in `done` are up to date. */
  ghost predicate HalfWay(us: set<Shard>, t: set<Shard>, v: View, done: set<nat>)
  {
    forall id :: RepresentsAt(if id in done then us + t else us, v, id)
  }

  lemma ReceiveOne(us: set<Shard>, t: set<Shard>, v: View, done: set<nat>, s: Shard)
    requires HalfWay(us, t, v, done) && Summary(t, s) && Mentions(t, s.id)
    ensures HalfWay(us, t, UpdateOne(v, s), done + {s.id})
  {
    hide Summary, Merge;
    var before := if s.id in done then us + t else us;
    assert RepresentsAt(before, v, s.id);
    MergeAt(before, t, v, s);
    assert before + t == us + t;
    forall id | id != s.id ensures RepresentsAt(if id in done then us + t else us, UpdateOne(v, s), id) {
      SameShard(if id in done then us + t else us, v, UpdateOne(v, s), id);
    }
  }

  function IdsOf(list: seq<Shard>): (ids: set<nat>)
  {
    set i | 0 <= i < |list| :: list[i].id
  }

  lemma {:induction false} ReceiveSome(us: set<Shard>, t: set<Shard>, v: View, done: set<nat>, list: seq<Shard>)
    requires HalfWay(us, t, v, done) && forall i :: 0 <= i < |list| ==> Summary(t, list[i]) && Mentions(t, list[i].id)
    ensures HalfWay(us, t, UpdateAll(v, list), done + IdsOf(list))
    decreases |list|
  {
    hide HalfWay, Summary, Mentions, UpdateOne;
    if list == [] {
      assert done + IdsOf(list) == done;
    } else {
      ReceiveOne(us, t, v, done, list[0]);
      ReceiveSome(us, t, UpdateOne(v, list[0]), done + {list[0].id}, list[1..]);
      assert list == [list[0]] + list[1..];
      assert done + {list[0].id} + IdsOf(list[1..]) == done + IdsOf(list);
    }
  }

  /** Taking in another node's view is taking in all that it has learned. */
  lemma ReceiveAll(us: set<Shard>, t: set<Shard>, v: View, list: seq<Shard>)
    requires Represents(us, v) && SumsUp(t, list)
    ensures Represents(us + t, UpdateAll(v, list))
  {
    hide Summary, UpdateAll;
    ReceiveSome(us, t, v, {}, list);
    var r := UpdateAll(v, list);
    forall id ensures RepresentsAt(us + t, r, id) {
      assert RepresentsAt(if id in {} + IdsOf(list) then us + t else us, r, id);
      if id !in IdsOf(list) {
        assert !Mentions(t, id);
        OtherShards(us, t, r, id);
      }
    }
  }

  /** The assumption is needed: with two leaders in one term the first one heard of stays. */
  lemma TwoLeadersDiverge()
    ensures var a, b := Shard(1, map[], 0, 1, 1), Shard(1, map[], 0, 2, 1);
            UpdateAll(map[], [a, b]) != UpdateAll(map[], [b, a])
  {
    var a, b := Shard(1, map[], 0, 1, 1), Shard(1, map[], 0, 2, 1);
    TwoUpdates(a, b);
    TwoUpdates(b, a);
  }

  lemma TwoUpdates(a: Shard, b: Shard)
    requires a.id == b.id
    ensures a.id in UpdateAll(map[], [a, b])
    ensures UpdateAll(map[], [a, b])[a.id] == Merge(Merge(Empty(a.id), a), b)
  {
    assert [a, b][1..] == [b] && [b][1..] == [];
    var v := UpdateOne(map[], a);
    assert UpdateAll(v, [b]) == UpdateAll(UpdateOne(v, b), []);
  }

  // ---------- a cluster of gossiping nodes ----------

  /** A view on its way to other nodes; `heard` are the updates its sender knew. */
  datatype Message = Message(list: seq<Shard>, heard: set<Shard>)

  /** The nodes' views. What each node has heard, directly or through others, is history. */
  datatype Cluster = Cluster(views: map<nat, View>, heard: map<nat, set<Shard>>, messages: set<Message>)

  datatype Step =
    | Learn(node: nat, updates: seq<Shard>)
    | Send(node: nat, list: seq<Shard>)
    | Receive(node: nat, m: Message)

  /** Nodes learn from their replicas, send their view in any order, and take in views that were
      sent at any time, any number of times. */
  ghost predicate Next(all: set<Shard>, c: Cluster, step: Step, c': Cluster)
  {
    step.node in c.views && step.node in c.heard &&
    var v, h := c.views[step.node], c.heard[step.node];
    match step
    case Learn(n, us) =>
      && ToSet(us) <= all
      && c' == c.(views := c.views[n := UpdateAll(v, us)], heard := c.heard[n := h + ToSet(us)])
    case Send(n, list) => Lists(list, v) && c' == c.(messages := c.messages + {Message(list, h)})
    case Receive(n, m) =>
      && m in c.messages
      && c' == c.(views := c.views[n := UpdateAll(v, m.list)], heard := c.heard[n := h + m.heard])
  }

  ghost predicate Inv(all: set<Shard>, c: Cluster)
  {
    && c.views.Keys == c.heard.Keys
    && (forall n :: n in c.views ==> c.heard[n] <= all && Represents(c.heard[n], c.views[n]))
    && (forall m :: m in c.messages ==> m.heard <= all && SumsUp(m.heard, m.list))
  }

  lemma StepKeeps(all: set<Shard>, c: Cluster, step: Step, c': Cluster)
    requires Inv(all, c) && Next(all, c, step, c')
    ensures Inv(all, c')
  {
    hide Represents, SumsUp, UpdateAll;
    var v, h := c.views[step.node], c.heard[step.node];
    match step
    case Learn(n, us) => LearnAll(h, v, us);
    case Send(n, list) => ListSumsUp(h, v, list);
    case Receive(n, m) => ReceiveAll(h, m.heard, v, m.list);
  }

  ghost predicate IsRun(all: set<Shard>, states: seq<Cluster>, steps: seq<Step>)
  {
    && |states| == |steps| + 1
    && states[0].views.Keys == states[0].heard.Keys && states[0].messages == {}
    && (forall n :: n in states[0].views ==> states[0].views[n] == map[] && states[0].heard[n] == {})
    && forall i :: 0 <= i < |steps| ==> Next(all, states[i], steps[i], states[i + 1])
  }

  lemma {:induction false} RunKeeps(all: set<Shard>, states: seq<Cluster>, steps: seq<Step>, i: nat)
    requires IsRun(all, states, steps) && i < |states|
    ensures Inv(all, states[i])
    decreases i
  {
    hide Next, Represents, SumsUp;
    if i == 0 {
      NothingLearned();
    } else {
      RunKeeps(all, states, steps, i - 1);
      StepKeeps(all, states[i - 1], steps[i - 1], states[i]);
    }
  }

  /** Convergence. In every run, two nodes that have heard the same updates, through whatever
      other nodes, in whatever order and however often, hold equal views. */
  lemma SameNewsSameView(all: set<Shard>, states: seq<Cluster>, steps: seq<Step>, i: nat, a: nat, b: nat)
    requires Consistent(all) && IsRun(all, states, steps) && i < |states|
    requires a in states[i].views && b in states[i].views && a in states[i].heard && b in states[i].heard
    requires states[i].heard[a] == states[i].heard[b]
    ensures states[i].views[a] == states[i].views[b]
  {
    hide IsRun, Represents;
    RunKeeps(all, states, steps, i);
    var us := states[i].heard[a];
    ConsistentPart(all, us);
    Converged(us, states[i].views[a], states[i].views[b]);
  }

  lemma ConsistentPart(all: set<Shard>, us: set<Shard>)
    requires Consistent(all) && us <= all
    ensures Consistent(us)
  {
  }

  /** Newer or the same: config index and term of a known leader do not go back. */
  predicate Newer(v: View, v': View)
  {
    forall id :: id in v ==>
      && id in v' && v[id].configIndex <= v'[id].configIndex
      && (v[id].leader != NO_LEADER ==> v'[id].leader != NO_LEADER && v[id].term <= v'[id].term)
  }

  lemma {:induction false} UpdatesGoForward(v: View, us: seq<Shard>)
    ensures Newer(v, UpdateAll(v, us))
    decreases |us|
  {
    hide Merge;
    if us != [] {
      LeaderStays(Current(v, us[0].id), us[0]);
      UpdatesGoForward(UpdateOne(v, us[0]), us[1..]);
    }
  }

  lemma LeaderStays(c: Shard, u: Shard)
    ensures c.leader != NO_LEADER ==> Merge(c, u).leader != NO_LEADER
  {
  }

  /** No step of any node takes a view back. */
  lemma StepGoesForward(all: set<Shard>, c: Cluster, step: Step, c': Cluster, n: nat)
    requires Next(all, c, step, c') && n in c.views
    ensures n in c'.views && Newer(c.views[n], c'.views[n])
  {
    hide UpdateAll;
    if step.Learn? { UpdatesGoForward(c.views[step.node], step.updates); }
    if step.Receive? { UpdatesGoForward(c.views[step.node], step.m.list); }
  }
}
