/** The live-query subscriptions a store holds. A store keeps a handle to the
    last subscription it opened and unsubscribes only that one; every opened
    and not yet closed subscription keeps delivering the query result for the
    user id it was opened with. */
module Subscriptions {
  import opened Wrappers

  /** `tracked` is the handle the store holds; `live` lists, per opened and
      still running subscription, the user id it streams tasks for. */
  datatype Subs = Subs(tracked: Option<string>, live: multiset<string>)

  const NoSubs := Subs(None, multiset{})

  /** The handle describes everything that is running: at most one live
      subscription, and it is the tracked one. */
  predicate Tracked(s: Subs) {
    s.live == if s.tracked.Some? then multiset{s.tracked.value} else multiset{}
  }

  /** Open a subscription for `userId` and keep its handle, overwriting the
      previous handle without closing it. */
  function Subscribe(s: Subs, userId: string): (r: Subs)
    ensures r.tracked == Some(userId)
    ensures r.live[userId] == s.live[userId] + 1
    ensures forall u :: u != userId ==> r.live[u] == s.live[u]
  {
    Subs(Some(userId), s.live + multiset{userId})
  }

  /** `subscription?.unsubscribe()` followed by dropping the handle. */
  function Unsubscribe(s: Subs): (r: Subs)
    ensures r.tracked.None?
    ensures s.tracked.Some? && Delivers(s, s.tracked.value) ==>
              r.live[s.tracked.value] + 1 == s.live[s.tracked.value]
    ensures forall u :: s.tracked != Some(u) ==> r.live[u] == s.live[u]
  {
    match s.tracked
    case None => s
    case Some(u) => Subs(None, s.live - multiset{u})
  }

  /** A subscription streaming `userId`'s tasks is still running. */
  predicate Delivers(s: Subs, userId: string) {
    s.live[userId] > 0
  }

  /** Subscribing from a tracked state with no handle, then unsubscribing,
      leaves nothing running. */
  lemma SubscribeUnsubscribe(s: Subs, userId: string)
    requires Tracked(s) && s.tracked.None?
    ensures Tracked(Subscribe(s, userId))
    ensures Unsubscribe(Subscribe(s, userId)) == NoSubs
  {
  }

  /** Subscribing twice loses the first handle: after unsubscribing, the first
      subscription still delivers. */
  lemma ResubscribeLeaks(s: Subs, first: string, second: string)
    requires first != second
    ensures var r := Unsubscribe(Subscribe(Subscribe(s, first), second));
            Delivers(r, first) && !Tracked(r)
  {
    var r := Unsubscribe(Subscribe(Subscribe(s, first), second));
    assert r.live[first] == s.live[first] + 1;
  }
}
