/** The listener and its subscriptions as objects: every method is a step of the notification protocol. */
module PubSub {
  import opened Tuples
  import opened Iteration
  import opened Notifications

  class Subscription {
    const txId: string
    var listenChan: seq<string>
    var unsubOnce: bool

    constructor (txId: string)
      ensures this.txId == txId && listenChan == [] && !unsubOnce
    {
      this.txId, listenChan, unsubOnce := txId, [], false;
    }

    ghost predicate Is(sub: Sub)
      reads this
    {
      sub.txId == txId && sub.buffer == listenChan && sub.unsubscribed == unsubOnce
    }
  }

  class ListenManager {
    var subscriptions: map<string, Subscription>
    // The protocol state, and the object of each of its subscriptions.
    ghost var state: State
    ghost var all: seq<Subscription>

    ghost predicate Valid()
      reads this, all
    {
      && |all| == |state.subs| && (forall i, j | 0 <= i < j < |all| :: all[i] != all[j])
      && (forall i | 0 <= i < |all| :: all[i].Is(state.subs[i]))
      && subscriptions.Keys == state.registered.Keys
      && forall t | t in subscriptions ::
           state.registered[t] < |all| && all[state.registered[t]] == subscriptions[t] && subscriptions[t].txId == t
    }

    constructor ()
      ensures Valid() && state == INIT && fresh(all)
    {
      subscriptions, state, all := map[], INIT, [];
    }

    method Subscribe(txId: string) returns (sub: Subscription)
      requires Valid()
      modifies this
      ensures Valid() && fresh(sub) && all == old(all) + [sub]
      ensures Next(old(state), Step.Subscribe(txId), state)
    {
      sub := new Subscription(txId);
      subscriptions := subscriptions[txId := sub];
      state := state.(subs := state.subs + [Sub(txId, |state.distributed|, [], [], [], 0, Waiting, false)],
                      registered := state.registered[txId := |state.subs|]);
      all := all + [sub];
    }

    /** None stands for a wait that timed out or failed. */
    method WaitAndDistribute(notification: Option<string>)
      requires Valid()
      requires notification.Some? ==> state.sent != [] && notification.value == state.sent[0]
      modifies this`state, all
      ensures Valid() && all == old(all)
      ensures if notification.Some? then Next(old(state), Distribute, state) else state == old(state)
    {
      if notification.None? {
        return;
      }
      OfferAll(notification.value);
      assert forall i | 0 <= i < |all| :: Listed(all[i]) <==> Registered(state, i);
      state := Distributed(state);
    }

    ghost predicate Listed(sub: Subscription)
      reads this
    {
      sub.txId in subscriptions && subscriptions[sub.txId] == sub
    }

    method OfferAll(payload: string)
      requires forall t | t in subscriptions :: subscriptions[t] in all && subscriptions[t].txId == t
      modifies all
      ensures forall o | o in all :: o.unsubOnce == old(o.unsubOnce)
      ensures forall o | o in all ::
                o.listenChan == if Listed(o) then Offer(old(o.listenChan), payload) else old(o.listenChan)
    {
      var rest := subscriptions.Keys;
      while rest != {}
        invariant rest <= subscriptions.Keys
        invariant forall o | o in all :: o.unsubOnce == old(o.unsubOnce)
        invariant forall o | o in all && Listed(o) && o.txId !in rest ::
                    o.listenChan == Offer(old(o.listenChan), payload)
        invariant forall o | o in all && (Listed(o) ==> o.txId in rest) :: o.listenChan == old(o.listenChan)
        decreases |rest|
      {
        var t := Pick(rest);
        var sub := subscriptions[t];
        sub.listenChan := Offer(sub.listenChan, payload);
        rest := rest - {t};
      }
    }

    method Unsubscribe(sub: Subscription, ghost id: nat)
      requires Valid() && id < |all| && all[id] == sub
      modifies this`subscriptions, this`state, sub`unsubOnce
      ensures Valid()
      ensures Next(old(state), Step.Unsubscribe(id), state)
    {
      if !sub.unsubOnce {
        sub.unsubOnce := true;
        subscriptions := subscriptions - {sub.txId};
        state := state.(registered := state.registered - {sub.txId},
                        subs := state.subs[id := state.subs[id].(unsubscribed := true)]);
      }
    }

    /** One turn of the wait: done is None while it goes on, and cancelled says that the context's end was chosen. */
    method WaitOnce(sub: Subscription, cancelled: bool, ghost id: nat) returns (done: Option<bool>)
      requires Valid() && id < |all| && all[id] == sub && state.subs[id].outcome.Waiting?
      requires !cancelled ==> sub.listenChan != []
      modifies this`state, sub`listenChan
      ensures Valid()
      ensures Next(old(state), if cancelled then Cancel(id) else Receive(id), state)
      ensures done == match state.subs[id].outcome
                      case Waiting => None
                      case Notified => Some(true)
                      case Cancelled => Some(false)
    {
      if cancelled {
        state := state.(subs := state.subs[id := state.subs[id].(outcome := Cancelled)]);
        return Some(false);
      }
      var payload := sub.listenChan[0];
      sub.listenChan := sub.listenChan[1..];
      state := state.(subs := state.subs[id := Received(state.subs[id])]);
      return if payload == sub.txId then Some(true) else None;
    }
  }
}
