/**
 Process-local fan-out: each subscriber of a symbol owns a bounded queue.  Queues are shared by
 reference between the broadcaster and the connection that drains them.
 */
module Broadcasting {
  import opened Common
  import opened Delivery

  class SignalQueue {
    const maxSize: nat
    var items: seq<Signal>

    constructor (maxSize: nat)
      ensures this.maxSize == maxSize && items == []
    {
      this.maxSize := maxSize;
      items := [];
    }

    predicate Full()
      reads this
    {
      |items| >= maxSize
    }

    method PutNowait(s: Signal)
      requires !Full()
      modifies this
      ensures items == old(items) + [s] && |items| <= maxSize
    {
      items := items + [s];
    }

    method GetNowait() returns (s: Signal)
      requires items != []
      modifies this
      ensures s == old(items)[0] && items == old(items)[1..]
    {
      s := items[0];
      items := items[1..];
    }

    /** Hand one signal to this subscriber; a full queue is drained and marked first. */
    method Deliver(s: Signal)
      requires maxSize >= 1 && |items| <= maxSize
      modifies this
      ensures items == Offer(old(items), maxSize, s) && |items| <= maxSize
      ensures items == if |old(items)| < maxSize then old(items) + [s] else [ResyncRequired]
    {
      if Full() {
        while items != []
          decreases |items|
        {
          var _ := GetNowait();
        }
        PutNowait(ResyncRequired);
      } else {
        PutNowait(s);
      }
    }
  }

  type Subscribers = map<string, set<SignalQueue>>

  function QueuesIn(m: Subscribers): set<SignalQueue> {
    set symbol, q | symbol in m && q in m[symbol] :: q
  }

  /** Every symbol that is listed has a subscriber, and no queue is listed under two symbols. */
  predicate Listing(m: Subscribers) {
    && (forall symbol | symbol in m :: m[symbol] != {})
    && (forall a, b | a in m && b in m && a != b :: m[a] !! m[b])
  }

  function Added(m: Subscribers, symbol: string, q: SignalQueue): Subscribers {
    m[symbol := (if symbol in m then m[symbol] else {}) + {q}]
  }

  function Removed(m: Subscribers, symbol: string, q: SignalQueue): Subscribers {
    var left := (if symbol in m then m[symbol] else {}) - {q};
    if left == {} then m - {symbol} else m[symbol := left]
  }

  /** The queue is listed under the symbol, beside all that were; other symbols keep exactly theirs. */
  ghost predicate Joins(before: Subscribers, after: Subscribers, symbol: string, q: SignalQueue) {
    && after.Keys == before.Keys + {symbol}
    && after[symbol] == (if symbol in before then before[symbol] + {q} else {q})
    && forall s | s in before && s != symbol :: after[s] == before[s]
  }

  lemma AddedJoins(m: Subscribers, symbol: string, q: SignalQueue)
    ensures Joins(m, Added(m, symbol, q), symbol, q)
  {
  }

  /** The queue is no longer listed under the symbol, which is gone if that was its last one; other
      symbols keep exactly theirs. */
  ghost predicate Leaves(before: Subscribers, after: Subscribers, symbol: string, q: SignalQueue) {
    && (symbol in after ==> symbol in before && after[symbol] == before[symbol] - {q} && after[symbol] != {})
    && (symbol !in after ==> symbol !in before || before[symbol] <= {q})
    && (forall s | s != symbol :: s in before <==> s in after)
    && forall s | s in before && s != symbol :: after[s] == before[s]
  }

  lemma RemovedLeaves(m: Subscribers, symbol: string, q: SignalQueue)
    requires symbol in m && q in m[symbol]
    ensures Leaves(m, Removed(m, symbol, q), symbol, q)
  {
  }

  /** A subscription that ends leaves the table exactly as it was before it began. */
  lemma SubscriptionLeavesNoTrace(m: Subscribers, symbol: string, q: SignalQueue)
    requires Listing(m) && q !in QueuesIn(m)
    ensures Listing(Added(m, symbol, q)) && QueuesIn(Added(m, symbol, q)) == QueuesIn(m) + {q}
    ensures Removed(Added(m, symbol, q), symbol, q) == m
  {
    AddedQueues(m, symbol, q);
    var added := Added(m, symbol, q);
    forall s | s in m ensures q !in m[s] {
      assert q in m[s] ==> q in QueuesIn(m);
    }
    if symbol in m {
      assert added[symbol] - {q} == m[symbol];
    } else {
      assert added[symbol] - {q} == {};
    }
    assert Removed(added, symbol, q) == m;
  }

  lemma AddedQueues(m: Subscribers, symbol: string, q: SignalQueue)
    ensures QueuesIn(Added(m, symbol, q)) == QueuesIn(m) + {q}
  {
    var added := Added(m, symbol, q);
    forall x ensures x in QueuesIn(added) <==> x in QueuesIn(m) + {q} {
      if x in QueuesIn(m) {
        var s :| s in m && x in m[s];
        assert x in added[s];
      }
      assert q in added[symbol];
    }
  }

  lemma RemovedQueues(m: Subscribers, symbol: string, q: SignalQueue)
    requires Listing(m) && symbol in m && q in m[symbol]
    ensures Listing(Removed(m, symbol, q)) && QueuesIn(Removed(m, symbol, q)) == QueuesIn(m) - {q}
  {
    var removed := Removed(m, symbol, q);
    forall x ensures x in QueuesIn(removed) <==> x in QueuesIn(m) - {q} {
      if x in QueuesIn(m) && x != q {
        var s :| s in m && x in m[s];
        if s == symbol {
          assert x in m[symbol] - {q};
          assert removed == m[symbol := m[symbol] - {q}];
        }
        assert s in removed && x in removed[s];
      }
      if x in QueuesIn(removed) {
        var s :| s in removed && x in removed[s];
        assert s in m && x in m[s];
      }
    }
  }

  class MarketBroadcaster {
    const queueSize: nat
    const maxConnections: nat
    var subscribers: Subscribers

    ghost predicate Valid()
      reads this, QueuesIn(subscribers)
    {
      && queueSize >= 1
      && Listing(subscribers)
      && |QueuesIn(subscribers)| <= maxConnections
      && forall q | q in QueuesIn(subscribers) :: q.maxSize == queueSize && |q.items| <= queueSize
    }

    constructor (queueSize: nat, maxConnections: nat)
      requires queueSize >= 1
      ensures Valid() && subscribers == map[]
      ensures this.queueSize == queueSize && this.maxConnections == maxConnections
    {
      this.queueSize := queueSize;
      this.maxConnections := maxConnections;
      subscribers := map[];
    }

    /** The sum over the symbols is the number of distinct queues. */
    method ConnectionCount() returns (n: nat)
      requires Listing(subscribers)
      ensures n == |QueuesIn(subscribers)|
    {
      var symbols := subscribers.Keys;
      n := 0;
      ghost var counted: set<SignalQueue> := {};
      while symbols != {}
        invariant symbols <= subscribers.Keys && n == |counted|
        invariant forall q :: q in counted <==> exists s | s in subscribers && s !in symbols :: q in subscribers[s]
        decreases |symbols|
      {
        var symbol :| symbol in symbols;
        symbols := symbols - {symbol};
        assert counted !! subscribers[symbol];
        n := n + |subscribers[symbol]|;
        counted := counted + subscribers[symbol];
      }
      assert counted == QueuesIn(subscribers);
    }

    method Register(symbol: string, queue: SignalQueue)
      requires Valid() && queue !in QueuesIn(subscribers) && |QueuesIn(subscribers)| < maxConnections
      requires queue.maxSize == queueSize && queue.items == []
      modifies this`subscribers
      ensures Valid()
      ensures subscribers == Added(old(subscribers), symbol, queue)
      ensures QueuesIn(subscribers) == QueuesIn(old(subscribers)) + {queue}
      ensures Joins(old(subscribers), subscribers, symbol, queue)
    {
      SubscriptionLeavesNoTrace(subscribers, symbol, queue);
      AddedJoins(subscribers, symbol, queue);
      subscribers := Added(subscribers, symbol, queue);
    }

    method Subscribe(symbol: string) returns (r: Option<SignalQueue>)
      requires Valid()
      modifies this`subscribers
      ensures Valid()
      ensures r.None? <==> |QueuesIn(old(subscribers))| >= maxConnections
      ensures r.None? ==> subscribers == old(subscribers)
      ensures r.Some? ==> fresh(r.value) && r.value.items == []
                          && subscribers == Added(old(subscribers), symbol, r.value)
                          && QueuesIn(subscribers) == QueuesIn(old(subscribers)) + {r.value}
      ensures r.Some? ==> Joins(old(subscribers), subscribers, symbol, r.value)
    {
      var n := ConnectionCount();
      if n >= maxConnections {
        return None;
      }
      var queue := new SignalQueue(queueSize);
      Register(symbol, queue);
      r := Some(queue);
    }

    method Unsubscribe(symbol: string, queue: SignalQueue)
      requires Valid() && symbol in subscribers && queue in subscribers[symbol]
      modifies this`subscribers
      ensures Valid()
      ensures subscribers == Removed(old(subscribers), symbol, queue)
      ensures QueuesIn(subscribers) == QueuesIn(old(subscribers)) - {queue}
      ensures Leaves(old(subscribers), subscribers, symbol, queue)
    {
      RemovedQueues(subscribers, symbol, queue);
      RemovedLeaves(subscribers, symbol, queue);
      ghost var left := Removed(subscribers, symbol, queue);
      subscribers := subscribers[symbol := subscribers[symbol] - {queue}];
      if subscribers[symbol] == {} {
        subscribers := subscribers - {symbol};
      }
      assert subscribers == left;
    }

    /** Every subscriber of the symbol gets the update or, if its queue is full, a resync marker in
        place of everything queued.  Nobody else's queue changes. */
    method Publish(symbol: string, update: Signal)
      requires Valid()
      modifies if symbol in subscribers then subscribers[symbol] else {}
      ensures Valid()
      ensures symbol in subscribers ==>
                forall q | q in subscribers[symbol] ::
                  && q.items == Offer(old(q.items), queueSize, update)
                  && q.items == if |old(q.items)| < queueSize then old(q.items) + [update] else [ResyncRequired]
    {
      if symbol in subscribers {
        var waiting := subscribers[symbol];
        assert forall q | q in waiting :: q in QueuesIn(subscribers);
        while waiting != {}
          invariant waiting <= subscribers[symbol]
          invariant forall q | q in waiting :: q.items == old(q.items)
          invariant forall q | q in subscribers[symbol] - waiting :: q.items == Offer(old(q.items), queueSize, update)
          invariant forall q | q in subscribers[symbol] - waiting ::
                      q.items == if |old(q.items)| < queueSize then old(q.items) + [update] else [ResyncRequired]
          invariant Valid()
          decreases |waiting|
        {
          var queue :| queue in waiting;
          waiting := waiting - {queue};
          queue.Deliver(update);
        }
      }
    }
  }
}
