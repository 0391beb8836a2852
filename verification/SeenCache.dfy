/** The seen-action cache at rest: at most 512 distinct actions, first in first out. */
module SeenCache {
  import opened Common
  import opened Receipts
  import opened Actor

  ghost predicate CacheOk(a: Actor) {
    NoDup(a.order) && SetOf(a.order) == a.seen.Keys && |a.order| <= 512
  }

  /** The order list after one more answer. */
  function Shifted(order: seq<ActionId>, action: ActionId): seq<ActionId> {
    if action in order then order
    else (if |order| < 512 || order == [] then order else order[1..]) + [action]
  }

  /** A new action evicts the oldest one when the cache is full; a known one changes only
      its answer; the remembered action is always in the cache afterwards. */
  lemma RememberKeepsCache(a: Actor, action: ActionId, answer: Answer)
    requires CacheOk(a)
    ensures var b := Remember(a, action, answer);
      && CacheOk(b) && b.order == Shifted(a.order, action)
      && action in b.seen && b.seen[action] == answer
      && (forall k | k in b.seen && k != action :: k in a.seen && b.seen[k] == a.seen[k])
      && b.game == a.game && b.version == a.version && b.closing == a.closing
  {
    assert action in a.order <==> action in SetOf(a.order);
    if action in a.seen {
      assert SetOf(a.order) == a.seen.Keys + {action};
    } else {
      var order := a.order + [action];
      assert SetOf(order) == SetOf(a.order) + {action};
      NewestIsNew(a.order, action);
      if |order| > MAX_SEEN {
        EvictOne(Cache(a.seen[action := answer], order));
        TailSet(order);
      }
    }
  }

  lemma EvictOne(c: Cache)
    requires |c.order| == MAX_SEEN + 1
    ensures Evict(c) == Cache(c.seen - {c.order[0]}, c.order[1..])
  {
    assert |c.order[1..]| == MAX_SEEN;
  }

  lemma NewestIsNew(order: seq<ActionId>, action: ActionId)
    requires NoDup(order) && action !in order
    ensures NoDup(order + [action])
  {}

  lemma TailSet(order: seq<ActionId>)
    requires NoDup(order) && order != []
    ensures SetOf(order[1..]) == SetOf(order) - {order[0]} && NoDup(order[1..])
  {
    assert order == [order[0]] + order[1..];
    assert forall i | 0 <= i < |order| - 1 :: order[1..][i] == order[i + 1];
  }

  /** A run of answers to an empty cache. */
  function RememberAll(a: Actor, answers: seq<(ActionId, Answer)>): Actor {
    if answers == [] then a
    else
      var n := |answers| - 1;
      Remember(RememberAll(a, answers[..n]), answers[n].0, answers[n].1)
  }

  lemma {:induction false} RunKeepsCache(a: Actor, answers: seq<(ActionId, Answer)>)
    requires CacheOk(a)
    ensures CacheOk(RememberAll(a, answers))
  {
    if answers != [] {
      var n := |answers| - 1;
      RunKeepsCache(a, answers[..n]);
      RememberKeepsCache(RememberAll(a, answers[..n]), answers[n].0, answers[n].1);
    }
  }
}
