/** `XnVPointDrawer`: the recent positions of every tracked hand. */
module Hands {

  /** A hand position in projective coordinates. */
  datatype Point = Point(x: real, y: real, z: real)

  datatype Event = Create(id: nat, p: Point) | Update(id: nat, p: Point) | Destroy(id: nat)

  /** All positions of a hand since it was last created or destroyed, newest first. */
  function Positions(events: seq<Event>, id: nat): seq<Point> {
    if events == [] then []
    else
      var last, earlier := events[|events| - 1], events[..|events| - 1];
      if last.id != id then Positions(earlier, id)
      else
        match last
        case Create(_, p) => [p]
        case Update(_, p) => [p] + Positions(earlier, id)
        case Destroy(_) => []
  }

  /** The hand has an entry: its last event, if any, is not its destruction. */
  predicate Tracked(events: seq<Event>, id: nat) {
    events != [] &&
    var last, earlier := events[|events| - 1], events[..|events| - 1];
    if last.id == id then !last.Destroy? else Tracked(earlier, id)
  }

  /** The first `n`, or all if there are fewer. */
  function Newest(ps: seq<Point>, n: nat): (r: seq<Point>)
    ensures r <= ps && |r| <= n && (|r| == n || r == ps)
  {
    if |ps| <= n then ps else ps[..n]
  }

  class PointDrawer {
    var history: map<nat, seq<Point>>
    const historySize: nat

    /** The history is what the events so far leave of it. */
    ghost predicate After(events: seq<Event>)
      reads this
    {
      && (forall id :: id in history <==> Tracked(events, id))
      && (forall id :: id in history ==> history[id] == Newest(Positions(events, id), historySize))
    }

    constructor (historySize: nat)
      ensures After([]) && this.historySize == historySize
    {
      this.historySize := historySize;
      history := map[];
    }

    /** `m_History[id]`, which makes an empty entry when there is none. */
    function Entry(id: nat): seq<Point>
      reads this
    {
      if id in history then history[id] else []
    }

    /** The body of `OnPointUpdate`: in at the front, out at the back. */
    method Push(id: nat, p: Point)
      requires |Entry(id)| <= historySize
      modifies this
      ensures history == old(history)[id := Newest([p] + old(Entry(id)), historySize)]
    {
      var entry := [p] + Entry(id);
      if |entry| > historySize {
        entry := entry[..|entry| - 1];
      }
      history := history[id := entry];
    }

    /** `OnPointUpdate`: the first event of a hand may also be an update. */
    method OnPointUpdate(id: nat, p: Point, ghost events: seq<Event>)
      requires After(events)
      modifies this
      ensures After(events + [Update(id, p)])
    {
      UntrackedEmpty(events, id);
      Push(id, p);
      ghost var longer := events + [Update(id, p)];
      assert longer[..|longer| - 1] == events;
      assert Positions(longer, id) == [p] + Positions(events, id);
    }

    /** `OnPointCreate`. */
    method OnPointCreate(id: nat, p: Point, ghost events: seq<Event>)
      requires After(events)
      modifies this
      ensures After(events + [Create(id, p)])
    {
      history := history[id := []];
      Push(id, p);
      ghost var longer := events + [Create(id, p)];
      assert longer[..|longer| - 1] == events;
    }

    /** `OnPointDestroy`. */
    method OnPointDestroy(id: nat, ghost events: seq<Event>)
      requires After(events)
      modifies this
      ensures After(events + [Destroy(id)])
    {
      history := history - {id};
      ghost var longer := events + [Destroy(id)];
      assert longer[..|longer| - 1] == events;
    }
  }

  lemma {:induction false} UntrackedEmpty(events: seq<Event>, id: nat)
    ensures !Tracked(events, id) ==> Positions(events, id) == []
  {
    if events != [] {
      UntrackedEmpty(events[..|events| - 1], id);
    }
  }

  /** Any run of events: every tracked hand has its newest positions, no other hand has any. */
  method Run(events: seq<Event>, historySize: nat) returns (d: PointDrawer)
    ensures fresh(d) && d.historySize == historySize && d.After(events)
    ensures forall id :: id in d.history <==> Tracked(events, id)
    ensures forall id :: id in d.history ==>
              && d.history[id] <= Positions(events, id) && |d.history[id]| <= historySize
              && (|d.history[id]| == historySize || d.history[id] == Positions(events, id))
  {
    d := new PointDrawer(historySize);
    for i := 0 to |events|
      invariant fresh(d) && d.historySize == historySize && d.After(events[..i])
    {
      assert events[..i + 1] == events[..i] + [events[i]];
      match events[i]
      case Create(id, p) => d.OnPointCreate(id, p, events[..i]);
      case Update(id, p) => d.OnPointUpdate(id, p, events[..i]);
      case Destroy(id) => d.OnPointDestroy(id, events[..i]);
    }
    assert events[..|events|] == events;
  }

  /** A hand that is created again starts over, whatever came before. */
  lemma {:induction false} StartsOver(before: seq<Event>, id: nat, p: Point, after: seq<Event>)
    requires forall e :: e in after ==> !e.Create? || e.id != id
    requires forall e :: e in after ==> !e.Destroy? || e.id != id
    ensures Positions(before + [Create(id, p)] + after, id) == Positions(after, id) + [p]
  {
    var all := before + [Create(id, p)] + after;
    if after == [] {
      assert all == before + [Create(id, p)];
    } else {
      var rest := after[..|after| - 1];
      assert all[..|all| - 1] == before + [Create(id, p)] + rest;
      StartsOver(before, id, p, rest);
    }
  }
}
