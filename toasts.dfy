/** The notification queue (ToastManager): a list of toasts that add appends
    to and remove filters, and a set of listeners that each receive a copy of
    the list after every change.  Toast ids and listener identities are given
    by the caller; the timed auto-removal is an explicit Remove. */
module Toasts {

  datatype ToastType = Success | Error
  datatype Toast = Toast(id: string, kind: ToastType, message: string)

  /** A subscribed listener, by identity. */
  type ListenerId = nat

  /** toasts.filter(t => t.id !== id) */
  function Without(toasts: seq<Toast>, id: string): (r: seq<Toast>)
    ensures |r| <= |toasts|
    ensures forall t :: t in r <==> t in toasts && t.id != id
  {
    if toasts == [] then []
    else if toasts[0].id == id then Without(toasts[1..], id)
    else [toasts[0]] + Without(toasts[1..], id)
  }

  function Ids(toasts: seq<Toast>): set<string>
  {
    set t | t in toasts :: t.id
  }

  /** The filter keeps the survivors in their original order: it distributes
      over concatenation. */
  lemma {:induction false} WithoutDistributes(a: seq<Toast>, b: seq<Toast>, id: string)
    ensures Without(a + b, id) == Without(a, id) + Without(b, id)
  {
    if a != [] {
      assert (a + b)[1..] == a[1..] + b;
      WithoutDistributes(a[1..], b, id);
    } else {
      assert a + b == b;
    }
  }

  /** Removing an id no toast has changes nothing, and removing twice is
      removing once. */
  lemma {:induction false} RemoveLaws(toasts: seq<Toast>, id: string)
    ensures id !in Ids(toasts) ==> Without(toasts, id) == toasts
    ensures Without(Without(toasts, id), id) == Without(toasts, id)
  {
    if toasts != [] {
      RemoveLaws(toasts[1..], id);
      assert Ids(toasts[1..]) <= Ids(toasts);
    }
  }

  /** Adding a toast with a fresh id and then removing it (its timer
      expiring) gives back the list from before. */
  lemma AddThenRemove(toasts: seq<Toast>, t: Toast)
    requires t.id !in Ids(toasts)
    ensures Without(toasts + [t], t.id) == toasts
  {
    WithoutDistributes(toasts, [t], t.id);
    RemoveLaws(toasts, t.id);
    assert Without([t], t.id) == [];
  }

  class ToastManager {
    var toasts: seq<Toast>
    var listeners: set<ListenerId>
    /** What each listener was last called with. */
    var delivered: map<ListenerId, seq<Toast>>

    /** Every subscribed listener has seen the current list. */
    ghost predicate InSync()
      reads this
    {
      forall l | l in listeners :: l in delivered && delivered[l] == toasts
    }

    constructor ()
      ensures toasts == [] && listeners == {} && delivered == map[]
    {
      toasts, listeners, delivered := [], {}, map[];
    }

    /** subscribe(listener) adds it to the set; Unsubscribe is the function
        subscribe returns. */
    method Subscribe(l: ListenerId)
      modifies this
      ensures listeners == old(listeners) + {l}
      ensures toasts == old(toasts) && delivered == old(delivered)
    {
      listeners := listeners + {l};
    }

    /** Removes exactly that listener and reports whether it was subscribed. */
    method Unsubscribe(l: ListenerId) returns (removed: bool)
      modifies this
      ensures removed == (l in old(listeners))
      ensures listeners == old(listeners) - {l}
      ensures toasts == old(toasts) && delivered == old(delivered)
    {
      removed := l in listeners;
      listeners := listeners - {l};
    }

    /** notify: calls every listener with a copy of the list. */
    method Notify()
      modifies this
      ensures InSync()
      ensures toasts == old(toasts) && listeners == old(listeners)
      ensures forall l | l in old(delivered) && l !in listeners :: l in delivered && delivered[l] == old(delivered)[l]
      ensures delivered.Keys == old(delivered).Keys + listeners
    {
      var pending := listeners;
      while pending != {}
        invariant pending <= listeners
        invariant toasts == old(toasts) && listeners == old(listeners)
        invariant forall l | l in listeners - pending :: l in delivered && delivered[l] == toasts
        invariant forall l | l in old(delivered) && l !in listeners - pending ::
                    l in delivered && delivered[l] == old(delivered)[l]
        invariant delivered.Keys == old(delivered).Keys + (listeners - pending)
        decreases pending
      {
        var l :| l in pending;
        delivered := delivered[l := toasts];
        pending := pending - {l};
      }
    }

    /** add: appends one toast at the end and notifies. */
    method Add(kind: ToastType, message: string, id: string)
      modifies this
      ensures toasts == old(toasts) + [Toast(id, kind, message)]
      ensures listeners == old(listeners) && InSync()
      ensures forall l | l in old(delivered) && l !in listeners :: l in delivered && delivered[l] == old(delivered)[l]
      ensures delivered.Keys == old(delivered).Keys + listeners
    {
      toasts := toasts + [Toast(id, kind, message)];
      Notify();
    }

    /** remove(id): drops every toast with that id and notifies. */
    method Remove(id: string)
      modifies this
      ensures toasts == Without(old(toasts), id)
      ensures listeners == old(listeners) && InSync()
      ensures forall l | l in old(delivered) && l !in listeners :: l in delivered && delivered[l] == old(delivered)[l]
      ensures delivered.Keys == old(delivered).Keys + listeners
    {
      toasts := Without(toasts, id);
      Notify();
    }

    method Success(message: string, id: string)
      modifies this
      ensures toasts == old(toasts) + [Toast(id, ToastType.Success, message)]
      ensures listeners == old(listeners) && InSync()
      ensures forall l | l in old(delivered) && l !in listeners :: l in delivered && delivered[l] == old(delivered)[l]
      ensures delivered.Keys == old(delivered).Keys + listeners
    {
      Add(ToastType.Success, message, id);
    }

    method Error(message: string, id: string)
      modifies this
      ensures toasts == old(toasts) + [Toast(id, ToastType.Error, message)]
      ensures listeners == old(listeners) && InSync()
      ensures forall l | l in old(delivered) && l !in listeners :: l in delivered && delivered[l] == old(delivered)[l]
      ensures delivered.Keys == old(delivered).Keys + listeners
    {
      Add(ToastType.Error, message, id);
    }
  }
}
