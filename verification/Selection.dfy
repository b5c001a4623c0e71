// Which of a sender's service names a batch is delivered under.
module Selection {
  import opened Wrappers
  import opened Lexicographic

  const BUS_ITEM_INTERFACE := "com.victronenergy.BusItem"

  datatype Subscription = Subscription(service: string, iface: string, path: string)

  /** The tracker's optional callback: absent, or the listener's subscriptions. */
  datatype Selector =
    | Unrestricted
    | Subscribed(everything: bool, subscriptions: set<Subscription>)

  /** The fixed rule behind the callback: may a batch on `iface` go out under `name`? */
  predicate Eligible(sel: Selector, name: string, iface: string) {
    match sel
    case Unrestricted => true
    case Subscribed(everything, subscriptions) =>
      || (everything && iface == BUS_ITEM_INTERFACE)
      || exists s :: s in subscriptions && s.service == name && s.iface == iface
  }

  /** Every branch picks the least eligible name, so eligibility alone decides whether there is one. */
  function Select(sel: Selector, names: set<string>, iface: string): (r: Option<string>)
    ensures r.None? <==> forall n :: n in names ==> !Eligible(sel, n, iface)
    ensures r.Some? ==> r.value in names && Eligible(sel, r.value, iface)
    ensures r.Some? ==> forall n :: n in names && Eligible(sel, n, iface) ==> AtMost(r.value, n)
  {
    if names == {} then None else
    match sel
    case Unrestricted => Some(Least(names))
    case Subscribed(everything, subscriptions) =>
      if everything && iface == BUS_ITEM_INTERFACE then Some(Least(names))
      else
        var selected := set s | s in subscriptions && s.service in names && s.iface == iface :: s.service;
        if selected == {} then
          assert forall s :: s in subscriptions && s.service in names && s.iface == iface ==> s.service in selected;
          None
        else Some(Least(selected))
  }
}
