/** The replicated store for metadata: a map whose values carry the Raft index of their last
    write, changed by compare-and-set entries. */
module MetaStore {
  import opened ByteStrings

  datatype Versioned<V> = Versioned(value: V, ver: nat)

  /** An update that a node proposes. `Noted` is one whose operation is neither set nor delete. */
  datatype Change<K, V> =
    | SetTo(key: K, value: V, ver: nat)
    | Drop(key: K, ver: nat)
    | Noted(key: K, ver: nat)

  type Entries<!K(==), V> = map<K, Versioned<V>>

  /** An absent key accepts any version. */
  predicate Accepts<K(==), V>(store: Entries<K, V>, u: Change<K, V>)
  {
    u.key in store ==> store[u.key].ver == u.ver
  }

  function Commit<K(==), V>(store: Entries<K, V>, index: nat, u: Change<K, V>): (r: Entries<K, V>)
  {
    if !Accepts(store, u) then store
    else
      match u
      case SetTo(key, value, _) => store[key := Versioned(value, index)]
      case Drop(key, _) => store - {key}
      case Noted(_, _) => store
  }

  datatype Reply<V> = Done(ver: nat) | Mismatch(current: Versioned<V>)

  function Answer<K(==), V>(store: Entries<K, V>, index: nat, u: Change<K, V>): (r: Reply<V>)
  {
    if Accepts(store, u) then Done(index) else Mismatch(store[u.key])
  }

  /** An entry whose command cannot be decoded has none. */
  datatype LogItem<K, V> = LogItem(index: nat, update: Option<Change<K, V>>)

  /** The entries up to the first one that cannot be decoded, one after the other. */
  function CommitAll<K(==), V>(store: Entries<K, V>, items: seq<LogItem<K, V>>): (r: Entries<K, V>)
    decreases |items|
  {
    if items == [] || items[0].update == None then store
    else CommitAll(Commit(store, items[0].index, items[0].update.value), items[1..])
  }

  function Answers<K(==), V>(store: Entries<K, V>, items: seq<LogItem<K, V>>): (r: seq<Reply<V>>)
    decreases |items|
  {
    if items == [] || items[0].update == None then []
    else
      var u := items[0].update.value;
      [Answer(store, items[0].index, u)] + Answers(Commit(store, items[0].index, u), items[1..])
  }

  lemma AllStep<K, V>(store: Entries<K, V>, items: seq<LogItem<K, V>>, i: nat)
    requires i <= |items|
    ensures i == |items| || items[i].update == None ==>
              CommitAll(store, items[i..]) == store && Answers(store, items[i..]) == []
    ensures i < |items| && items[i].update.Some? ==>
              var u := items[i].update.value;
              var store' := Commit(store, items[i].index, u);
              && CommitAll(store, items[i..]) == CommitAll(store', items[i + 1..])
              && Answers(store, items[i..]) == [Answer(store, items[i].index, u)] + Answers(store', items[i + 1..])
  {
    hide Commit, Answer;
    if i < |items| { assert items[i..][1..] == items[i + 1..]; }
  }

  predicate Readable<K, V>(items: seq<LogItem<K, V>>)
  {
    forall i :: 0 <= i < |items| ==> items[i].update.Some?
  }

  lemma {:induction false} RepliesSplit<K, V>(store: Entries<K, V>, items: seq<LogItem<K, V>>, i: nat)
    requires i <= |items| && Readable(items[..i])
    ensures CommitAll(store, items) == CommitAll(CommitAll(store, items[..i]), items[i..])
    ensures |Answers(store, items[..i])| == i
    ensures Answers(store, items) == Answers(store, items[..i]) + Answers(CommitAll(store, items[..i]), items[i..])
    decreases i
  {
    hide Commit, Answer;
    if i == 0 {
      assert items[..0] == [] && items[0..] == items;
      assert [] + Answers(store, items) == Answers(store, items);
    } else {
      assert items[0].update.Some? by { assert items[..i][0] == items[0]; }
      var store' := Commit(store, items[0].index, items[0].update.value);
      assert items[..i][1..] == items[1..][..i - 1] && items[1..][i - 1..] == items[i..];
      RepliesSplit(store', items[1..], i - 1);
    }
  }

  /** What a proposer is told, and what happens to the store `s` on the way to `s'`: a mismatch
      exactly when the key is there under another version, with what is stored, and nothing
      changes; else the index of the entry, under which a set value is stored from then on. */
  ghost predicate Told<K(!new), V>(s: Entries<K, V>, s': Entries<K, V>, index: nat, u: Change<K, V>, reply: Reply<V>)
  {
    && (reply.Mismatch? <==> u.key in s && s[u.key].ver != u.ver)
    && (reply.Mismatch? ==> reply.current == s[u.key] && s' == s)
    && (reply.Done? ==> reply.ver == index)
    && (reply.Done? && u.SetTo? ==> u.key in s' && s'[u.key] == Versioned(u.value, reply.ver))
    && (reply.Done? && u.Drop? ==> u.key !in s')
    && (reply.Done? && u.Noted? ==> s' == s)
    && (forall k :: k != u.key ==> (k in s' <==> k in s) && (k in s ==> s'[k] == s[k]))
  }

  /** One reply for every entry up to the first one that cannot be decoded, each told from the
      store just before it and the store just after it. */
  lemma RepliesExact<K(!new), V>(store: Entries<K, V>, items: seq<LogItem<K, V>>, i: nat)
    requires i < |items| && Readable(items[..i])
    ensures if items[i].update == None then |Answers(store, items)| == i
            else |Answers(store, items)| > i &&
                 Told(CommitAll(store, items[..i]), CommitAll(store, items[..i + 1]), items[i].index,
                      items[i].update.value, Answers(store, items)[i])
  {
    hide CommitAll, Answers, Told;
    RepliesSplit(store, items, i);
    var s := CommitAll(store, items[..i]);
    AllStep(s, items, i);
    if items[i].update.Some? {
      var u := items[i].update.value;
      assert items[..i + 1][..i] == items[..i] && items[..i + 1][i..] == [items[i]];
      RepliesSplit(store, items[..i + 1], i);
      OneItem(s, items[i]);
      OneTold(s, items[i].index, u);
    }
  }

  lemma OneItem<K, V>(store: Entries<K, V>, item: LogItem<K, V>)
    requires item.update.Some?
    ensures CommitAll(store, [item]) == Commit(store, item.index, item.update.value)
  {
    hide Commit;
    AllStep(store, [item], 0);
    AllStep(Commit(store, item.index, item.update.value), [item], 1);
    assert [item][0..] == [item];
  }

  lemma OneTold<K(!new), V>(s: Entries<K, V>, index: nat, u: Change<K, V>)
    ensures Told(s, Commit(s, index, u), index, u, Answer(s, index, u))
  {
  }

  /** The state machine of the store. */
  class Lfsm<K(==), V> {
    var store: Entries<K, V>

    constructor ()
      ensures store == map[]
    {
      store := map[];
    }

    /** `LFSM.Update`. */
    method Update(items: seq<LogItem<K, V>>) returns (replies: seq<Reply<V>>, ok: bool)
      modifies this
      ensures store == CommitAll(old(store), items) && replies == Answers(old(store), items)
      ensures ok <==> Readable(items)
    {
      hide CommitAll, Answers;
      replies := [];
      var i := 0;
      assert items[0..] == items && [] + Answers(store, items) == Answers(store, items);
      while i < |items|
        invariant i <= |items| && Readable(items[..i])
        invariant CommitAll(old(store), items) == CommitAll(store, items[i..])
        invariant Answers(old(store), items) == replies + Answers(store, items[i..])
      {
        AllStep(store, items, i);
        if items[i].update == None { return replies, false; }
        var u := items[i].update.value;
        if u.key in store && store[u.key].ver != u.ver {
          replies := replies + [Mismatch(store[u.key])];
          i := i + 1;
          continue;
        }
        match u {
          case SetTo(key, value, _) => store := store[key := Versioned(value, items[i].index)];
          case Drop(key, _) => store := store - {key};
          case Noted(_, _) =>
        }
        replies := replies + [Done(items[i].index)];
        i := i + 1;
      }
      AllStep(store, items, i);
      assert items[..i] == items;
      ok := true;
    }
  }
}
