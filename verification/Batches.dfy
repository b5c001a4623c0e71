// Batches of changed items, and what can be said of sequences of them.
module Batches {
  import opened Wrappers
  import opened Sequences
  import opened Selection

  type Items = map<string, int>

  /**
   * One queued `ItemsChanged` signal. `serial` is bookkeeping: the position of the batch among all
   * submissions. Values are opaque to the tracker; integers stand for them.
   */
  datatype Batch = Batch(serial: nat, time: real, owner: string, changed: Items,
                         correlation: Option<string>, iface: string)

  datatype Delivery = Delivery(service: string, batch: Batch)

  /** The two tests by which the tracker takes batches out of its queue. */
  datatype Test =
    | Expired(cutoff: real)
    | Awaiting(owner: string, names: set<string>, sel: Selector)

  predicate Holds(test: Test, b: Batch) {
    match test
    case Expired(cutoff) => b.time <= cutoff
    case Awaiting(owner, names, sel) => b.owner == owner && Select(sel, names, b.iface).Some?
  }

  function Take(p: seq<Batch>, test: Test): seq<Batch> {
    if p == [] then [] else (if Holds(test, p[0]) then [p[0]] else []) + Take(p[1..], test)
  }

  function Leave(p: seq<Batch>, test: Test): seq<Batch> {
    if p == [] then [] else (if Holds(test, p[0]) then [] else [p[0]]) + Leave(p[1..], test)
  }

  /** The number of changed items a sequence of batches holds. */
  function ItemCount(p: seq<Batch>): nat {
    if p == [] then 0 else |p[0].changed| + ItemCount(p[1..])
  }

  /** The deliveries a replay makes: each awaiting batch under the service selected for it. */
  function Handed(p: seq<Batch>, owner: string, names: set<string>, sel: Selector): seq<Delivery> {
    if p == [] then [] else Hand(p[0], owner, names, sel) + Handed(p[1..], owner, names, sel)
  }

  function Hand(b: Batch, owner: string, names: set<string>, sel: Selector): seq<Delivery> {
    match Select(sel, names, b.iface)
    case Some(service) => if b.owner == owner then [Delivery(service, b)] else []
    case None => []
  }

  function Delivered(ds: seq<Delivery>): (bs: seq<Batch>)
    ensures |bs| == |ds| && forall i :: 0 <= i < |ds| ==> bs[i] == ds[i].batch
  {
    seq(|ds|, i requires 0 <= i < |ds| => ds[i].batch)
  }

  /** The batches of one sender on one interface, in order. */
  ghost function Channel(p: seq<Batch>, owner: string, iface: string): seq<Batch> {
    if p == [] then []
    else (if p[0].owner == owner && p[0].iface == iface then [p[0]] else []) + Channel(p[1..], owner, iface)
  }

  ghost predicate Rising(p: seq<Batch>) {
    forall i, j :: 0 <= i < j < |p| ==> p[i].serial < p[j].serial
  }

  /** In arrival order, nothing later than `latest`. */
  ghost predicate ByTime(p: seq<Batch>, latest: real) {
    p != [] ==> p[0].time <= (if |p| == 1 then latest else p[1].time) && ByTime(p[1..], latest)
  }

  // ---- concatenation ----

  lemma {:induction false} ItemCountConcat(p: seq<Batch>, q: seq<Batch>)
    ensures ItemCount(p + q) == ItemCount(p) + ItemCount(q)
  {
    if p == [] {
      assert p + q == q;
    } else {
      assert (p + q)[1..] == p[1..] + q;
      ItemCountConcat(p[1..], q);
    }
  }

  lemma {:induction false} ChannelConcat(p: seq<Batch>, q: seq<Batch>, o: string, i: string)
    ensures Channel(p + q, o, i) == Channel(p, o, i) + Channel(q, o, i)
  {
    if p == [] {
      assert p + q == q;
    } else {
      assert (p + q)[1..] == p[1..] + q;
      ChannelConcat(p[1..], q, o, i);
    }
  }

  // ---- splitting a queue by a test loses and duplicates nothing ----

  lemma Cons<T>(x: T, s: seq<T>)
    ensures multiset([x] + s) == multiset{x} + multiset(s)
  {
  }

  lemma {:induction false} SplitConserves(p: seq<Batch>, test: Test)
    ensures multiset(Take(p, test)) + multiset(Leave(p, test)) == multiset(p)
    ensures |Take(p, test)| + |Leave(p, test)| == |p|
  {
    if p != [] {
      var x, rest := p[0], p[1..];
      var taken, left := Take(rest, test), Leave(rest, test);
      SplitConserves(rest, test);
      Cons(x, rest);
      assert p == [x] + rest;
      if Holds(test, x) {
        Cons(x, taken);
        assert Leave(p, test) == left;
      } else {
        Cons(x, left);
        assert Take(p, test) == taken;
      }
    }
  }

  lemma {:induction false} SplitCounts(p: seq<Batch>, test: Test)
    ensures ItemCount(Take(p, test)) + ItemCount(Leave(p, test)) == ItemCount(p)
  {
    if p != [] {
      var rest := p[1..];
      SplitCounts(rest, test);
      if Holds(test, p[0]) {
        assert Take(p, test) == [p[0]] + Take(rest, test) && Leave(p, test) == Leave(rest, test);
        ItemCountConcat([p[0]], Take(rest, test));
      } else {
        assert Take(p, test) == Take(rest, test) && Leave(p, test) == [p[0]] + Leave(rest, test);
        ItemCountConcat([p[0]], Leave(rest, test));
      }
    }
  }

  lemma {:induction false} SplitMembers(p: seq<Batch>, test: Test, b: Batch)
    ensures b in Take(p, test) <==> b in p && Holds(test, b)
    ensures b in Leave(p, test) <==> b in p && !Holds(test, b)
  {
    if p != [] {
      SplitMembers(p[1..], test, b);
      assert p == [p[0]] + p[1..];
    }
  }

  lemma {:induction false} ByTimeBounds(p: seq<Batch>, latest: real, b: Batch)
    requires ByTime(p, latest) && b in p
    ensures p[0].time <= b.time <= latest
  {
    if |p| > 1 {
      ByTimeBounds(p[1..], latest, if b in p[1..] then b else p[1]);
    }
  }

  lemma {:induction false} ByTimeAppend(p: seq<Batch>, latest: real, b: Batch)
    requires ByTime(p, latest) && latest <= b.time
    ensures ByTime(p + [b], b.time)
  {
    if p != [] {
      ByTimeAppend(p[1..], latest, b);
      assert (p + [b])[1..] == p[1..] + [b];
    }
  }

  lemma {:induction false} ByTimeLater(p: seq<Batch>, latest: real, now: real)
    requires ByTime(p, latest) && latest <= now
    ensures ByTime(p, now)
  {
    if p != [] {
      ByTimeLater(p[1..], latest, now);
    }
  }

  lemma {:induction false} LeaveByTime(p: seq<Batch>, latest: real, test: Test)
    requires ByTime(p, latest)
    ensures ByTime(Leave(p, test), latest)
  {
    if p != [] {
      LeaveByTime(p[1..], latest, test);
      var rest := Leave(p[1..], test);
      if !Holds(test, p[0]) {
        var q := [p[0]] + rest;
        assert Leave(p, test) == q && q[1..] == rest;
        ByTimeBounds(p, latest, p[0]);
        if rest != [] {
          assert rest[0] in rest;
          SplitMembers(p[1..], test, rest[0]);
          ByTimeBounds(p, latest, rest[0]);
        }
      } else {
        assert Leave(p, test) == rest;
      }
    }
  }

  /** What leaves with the head of the queue. */
  lemma HeadExpires(p: seq<Batch>, test: Test, latest: real)
    requires p != [] && Holds(test, p[0])
    ensures Take(p, test) == [p[0]] + Take(p[1..], test) && Leave(p, test) == Leave(p[1..], test)
    ensures ItemCount(p) == |p[0].changed| + ItemCount(p[1..]) && (ByTime(p, latest) ==> ByTime(p[1..], latest))
  {
  }

  /** Looking only at the head is enough: a queue in time order whose head is fresh holds nothing expired. */
  lemma FreshHead(p: seq<Batch>, latest: real, cutoff: real)
    requires ByTime(p, latest) && (p == [] || p[0].time > cutoff)
    ensures Take(p, Expired(cutoff)) == [] && Leave(p, Expired(cutoff)) == p
  {
    forall b | b in p ensures !Holds(Expired(cutoff), b) { ByTimeBounds(p, latest, b); }
    NothingTaken(p, Expired(cutoff));
  }

  lemma {:induction false} NothingTaken(p: seq<Batch>, test: Test)
    requires forall b :: b in p ==> !Holds(test, b)
    ensures Take(p, test) == [] && Leave(p, test) == p
  {
    if p != [] {
      NothingTaken(p[1..], test);
    }
  }

  // ---- channels ----

  lemma {:induction false} ChannelMembers(p: seq<Batch>, o: string, i: string, b: Batch)
    ensures b in Channel(p, o, i) <==> b in p && b.owner == o && b.iface == i
  {
    if p != [] {
      ChannelMembers(p[1..], o, i, b);
      assert p == [p[0]] + p[1..];
    }
  }

  lemma SplitHead(p: seq<Batch>, test: Test)
    requires p != []
    ensures Take(p, test) == (if Holds(test, p[0]) then [p[0]] + Take(p[1..], test) else Take(p[1..], test))
    ensures Leave(p, test) == (if Holds(test, p[0]) then Leave(p[1..], test) else [p[0]] + Leave(p[1..], test))
  {
  }

  lemma ChannelOfFirst(b: Batch, rest: seq<Batch>, o: string, i: string)
    ensures Channel([b] + rest, o, i)
         == if b.owner == o && b.iface == i then [b] + Channel(rest, o, i) else Channel(rest, o, i)
  {
    Prepended(b, rest);
  }

  /** Replay never splits a channel: it takes all of one or none of it, so no batch overtakes another. */
  lemma {:induction false} ReplayKeepsChannel(p: seq<Batch>, test: Test, o: string, i: string)
    requires test.Awaiting?
    ensures Channel(Take(p, test), o, i) + Channel(Leave(p, test), o, i) == Channel(p, o, i)
    ensures if o == test.owner && Select(test.sel, test.names, i).Some?
            then Channel(Leave(p, test), o, i) == [] else Channel(Take(p, test), o, i) == []
  {
    if p != [] {
      hide Take, Leave, Channel, Select;
      var b, rest := p[0], p[1..];
      ReplayKeepsChannel(rest, test, o, i);
      Front(p);
      SplitHead(p, test);
      ChannelOfFirst(b, rest, o, i);
      if Holds(test, b) {
        ChannelOfFirst(b, Take(rest, test), o, i);
        Assoc([b], Channel(Take(rest, test), o, i), Channel(Leave(rest, test), o, i));
      } else {
        ChannelOfFirst(b, Leave(rest, test), o, i);
      }
    }
  }

  lemma RisingWithout(a: seq<Batch>, m: seq<Batch>, c: seq<Batch>)
    requires Rising(a + m + c)
    ensures Rising(a + c)
  {
    var whole, s := a + m + c, a + c;
    forall i, j | 0 <= i < j < |s| ensures s[i].serial < s[j].serial {
      var i' := if i < |a| then i else i + |m|;
      var j' := if j < |a| then j else j + |m|;
      assert s[i] == whole[i'] && s[j] == whole[j'];
    }
  }

  /** What a replay's scan has gathered from the first `i` batches, against what it must gather from all. */
  ghost predicate Scanned(p: seq<Batch>, i: nat, test: Test, replay: seq<Delivery>, retained: seq<Batch>, taken: nat)
    requires i <= |p| && test.Awaiting?
  {
    && replay + Handed(p[i..], test.owner, test.names, test.sel) == Handed(p, test.owner, test.names, test.sel)
    && retained + Leave(p[i..], test) == Leave(p, test)
    && taken + ItemCount(retained) + ItemCount(p[i..]) == ItemCount(p)
  }

  lemma ScanStep(p: seq<Batch>, i: nat, test: Test, replay: seq<Delivery>, retained: seq<Batch>, taken: nat)
    requires i < |p| && test.Awaiting? && Scanned(p, i, test, replay, retained, taken)
    ensures var hand := Hand(p[i], test.owner, test.names, test.sel);
            if hand != [] then Scanned(p, i + 1, test, replay + hand, retained, taken + |p[i].changed|)
            else Scanned(p, i + 1, test, replay, retained + [p[i]], taken)
  {
    var rest := p[i..];
    assert rest[0] == p[i] && rest[1..] == p[i + 1..];
    var hand := Hand(p[i], test.owner, test.names, test.sel);
    var more := Handed(rest[1..], test.owner, test.names, test.sel);
    Assoc(replay, hand, more);
    if hand != [] {
      assert Leave(rest, test) == Leave(rest[1..], test);
    } else {
      assert hand + more == more && replay + hand == replay;
      Assoc(retained, [p[i]], Leave(rest[1..], test));
      ItemCountConcat(retained, [p[i]]);
    }
  }

  lemma {:induction false} HandedAreTaken(p: seq<Batch>, owner: string, names: set<string>, sel: Selector)
    ensures Delivered(Handed(p, owner, names, sel)) == Take(p, Awaiting(owner, names, sel))
    ensures forall d :: d in Handed(p, owner, names, sel) ==>
              d.batch.owner == owner && Select(sel, names, d.batch.iface) == Some(d.service)
  {
    if p != [] {
      HandedAreTaken(p[1..], owner, names, sel);
      var hand, rest := Hand(p[0], owner, names, sel), Handed(p[1..], owner, names, sel);
      assert Handed(p, owner, names, sel) == hand + rest;
      assert Delivered(hand + rest) == Delivered(hand) + Delivered(rest);
      assert Delivered(hand) == if Holds(Awaiting(owner, names, sel), p[0]) then [p[0]] else [];
    }
  }

  /** Whatever is dropped from the head, the rest of a rising channel still rises. */
  lemma ChannelTailRises(d: seq<Batch>, p: seq<Batch>, k: nat, o: string, i: string)
    requires k <= |p| && Rising(Channel(d + p, o, i))
    ensures Rising(Channel(d + p[k..], o, i))
  {
    var a, m, c := Channel(d, o, i), Channel(p[..k], o, i), Channel(p[k..], o, i);
    assert Channel(d + p, o, i) == a + m + c by {
      assert p == p[..k] + p[k..];
      ChannelConcat(p[..k], p[k..], o, i);
      ChannelConcat(d, p, o, i);
      assert a + (m + c) == a + m + c;
    }
    RisingWithout(a, m, c);
    ChannelConcat(d, p[k..], o, i);
  }

  /** Nor does removing expired batches disturb it. */
  lemma {:induction false} ChannelFilterRises(d: seq<Batch>, p: seq<Batch>, test: Test, o: string, i: string)
    requires Rising(Channel(d + p, o, i))
    ensures Rising(Channel(d + Leave(p, test), o, i))
    decreases |p|
  {
    hide Channel, Rising;
    if p == [] {
    } else if Holds(test, p[0]) {
      ChannelTailRises(d, p, 1, o, i);
      ChannelFilterRises(d, p[1..], test, o, i);
      assert Leave(p, test) == Leave(p[1..], test);
    } else {
      assert d + p == (d + [p[0]]) + p[1..];
      ChannelFilterRises(d + [p[0]], p[1..], test, o, i);
      assert d + Leave(p, test) == (d + [p[0]]) + Leave(p[1..], test);
    }
  }

  /** A rising channel orders every pair of its batches within the whole sequence. */
  lemma {:induction false} ChannelOrders(p: seq<Batch>, j: nat, k: nat)
    requires j < k < |p| && p[j].owner == p[k].owner && p[j].iface == p[k].iface
    requires Rising(Channel(p, p[k].owner, p[k].iface))
    ensures p[j].serial < p[k].serial
  {
    var o, i := p[k].owner, p[k].iface;
    assert p == p[..k] + p[k..];
    ChannelConcat(p[..k], p[k..], o, i);
    ChannelMembers(p[..k], o, i, p[j]);
    var x :| 0 <= x < |Channel(p[..k], o, i)| && Channel(p[..k], o, i)[x] == p[j];
    assert Channel(p[k..], o, i)[0] == p[k];
    assert Channel(p, o, i)[x] == p[j] && Channel(p, o, i)[|Channel(p[..k], o, i)|] == p[k];
  }
}
