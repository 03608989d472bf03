/** The lanes of the cable corridors: which lanes a plan of cable tracks has
    reserved, and how an incremental plan goes on from an earlier one. */
module CorridorLanes {
  import opened Outcomes
  import opened Text
  import opened Sorting
  import opened Lists
  import opened Lengths

  /** No two lanes are drawn closer than this. */
  const VERTICAL_TRACK_MIN_GAP: real := 4.0

  datatype Lane = Lane(ordinal: nat, offset: real, spacing: real)

  datatype Reservation = Reservation(key: string, lane: Lane)

  /** A reservation as an earlier plan stored it; None for what is missing or not a
      finite number. */
  datatype Entry = Entry(key: string, ordinal: nat, offset: Option<real>, spacing: Option<real>)

  /** The lane an entry stands for: a spacing that is missing or zero is the
      fallback, and a missing offset follows from the ordinal. */
  function Completed(e: Entry, fallback: real): (lane: Lane)
    ensures lane.ordinal == e.ordinal
    ensures e.spacing == None || e.spacing == Some(0.0) ==> lane.spacing == fallback
    ensures e.spacing.Some? && e.spacing.value != 0.0 ==> e.spacing == Some(lane.spacing)
    ensures e.offset.Some? ==> e.offset == Some(lane.offset)
    ensures e.offset.None? ==> lane.offset == lane.spacing * e.ordinal as real
  {
    var spacing := if e.spacing.Some? && e.spacing.value != 0.0 then e.spacing.value else fallback;
    Lane(e.ordinal, if e.offset.Some? then e.offset.value else e.ordinal as real * spacing, spacing)
  }

  function Stored(r: Reservation): Entry { Entry(r.key, r.lane.ordinal, Some(r.lane.offset), Some(r.lane.spacing)) }

  datatype Track = Track(reservations: seq<Reservation>)

  /** Two lanes of one corridor: different ordinals, and at least as far apart as
      the wider of their spacings. */
  predicate LanesApart(a: Lane, b: Lane) {
    a.ordinal != b.ordinal && Distance(a.offset, b.offset) >= Max(a.spacing, b.spacing)
  }

  ghost predicate Separated(lanes: seq<Lane>) {
    Pairwise(lanes, LanesApart) && forall l | l in lanes :: l.spacing >= VERTICAL_TRACK_MIN_GAP
  }

  predicate HasOrdinal(lanes: seq<Lane>, n: nat) { exists l :: l in lanes && l.ordinal == n }

  /** The first ordinal no lane has. */
  ghost predicate FirstFree(lanes: seq<Lane>, n: nat) {
    !HasOrdinal(lanes, n) && forall m | 0 <= m < n :: HasOrdinal(lanes, m)
  }

  /** A lane that none of the others is further out than. */
  predicate Outermost(lanes: seq<Lane>, o: Lane) { o in lanes && forall l | l in lanes :: l.offset <= o.offset }

  /** A lane beyond the outermost one, by the wider of the two spacings, is apart
      from every lane. */
  lemma BeyondOutermost(lanes: seq<Lane>, o: Lane, lane: Lane)
    requires Separated(lanes) && Outermost(lanes, o) && FirstFree(lanes, lane.ordinal)
    requires lane.spacing >= VERTICAL_TRACK_MIN_GAP && lane.offset == o.offset + Max(o.spacing, lane.spacing)
    ensures Separated(lanes + [lane])
  {
    var i :| 0 <= i < |lanes| && lanes[i] == o;
    forall k | 0 <= k < |lanes| ensures LanesApart(lanes[k], lane) {
      assert lanes[k] in lanes;
      assert k < i ==> LanesApart(lanes[k], o);
      assert i < k ==> LanesApart(o, lanes[k]);
    }
  }

  class LaneRegistry {
    var lanes: map<string, seq<Lane>>

    constructor ()
      ensures lanes == map[] && Sound()
    {
      lanes := map[];
    }

    function Lanes(key: string): seq<Lane>
      reads this
    {
      if key in lanes then lanes[key] else []
    }

    ghost predicate Sound()
      reads this
    {
      forall key | key in lanes :: Separated(lanes[key])
    }

    /** nextCorridorLane: the first free ordinal, beyond the outermost lane. */
    method NextCorridorLane(key: string, spacing: real) returns (lane: Lane)
      requires Sound() && spacing >= VERTICAL_TRACK_MIN_GAP
      modifies this
      ensures Sound() && lanes == old(lanes)[key := old(Lanes(key)) + [lane]]
      ensures lane.spacing == spacing && FirstFree(old(Lanes(key)), lane.ordinal)
      ensures old(Lanes(key)) == [] ==> lane.offset == 0.0
      ensures old(Lanes(key)) != [] ==>
        exists o :: Outermost(old(Lanes(key)), o) && lane.offset == o.offset + Max(o.spacing, spacing)
      ensures forall l | l in old(Lanes(key)) :: lane.offset - l.offset >= Max(l.spacing, spacing)
    {
      hide LanesApart, Separated, Outermost, FirstFree, Max;
      var listed := Lanes(key);
      assert Separated(listed) by { NoLanes(); }
      var ordinal := FreeOrdinal(listed);
      if listed == [] {
        lane := Lane(ordinal, 0.0, spacing);
        FirstLane(lane);
      } else {
        var outermost := FindOutermost(listed);
        lane := Lane(ordinal, outermost.offset + Max(outermost.spacing, spacing), spacing);
        BeyondOutermost(listed, outermost, lane);
        BeyondAll(listed, outermost, lane);
      }
      lanes := lanes[key := listed + [lane]];
    }

    /** reserveCorridorLane: a lane of an earlier plan, unless its ordinal is already
        taken. Lanes stay separated when the entry is apart from the others. */
    method ReserveCorridorLane(e: Entry, fallback: real)
      modifies this
      ensures lanes == if HasOrdinal(old(Lanes(e.key)), e.ordinal) then old(lanes)
                       else old(lanes)[e.key := old(Lanes(e.key)) + [Completed(e, fallback)]]
      ensures old(Sound()) && FitsAmong(old(Lanes(e.key)), Completed(e, fallback)) ==> Sound()
    {
      var listed := Lanes(e.key);
      for k := 0 to |listed|
        invariant lanes == old(lanes) && forall j | 0 <= j < k :: listed[j].ordinal != e.ordinal
      {
        if listed[k].ordinal == e.ordinal {
          assert listed[k] in listed;
          return;
        }
      }
      var spacing := if e.spacing.Some? && e.spacing.value != 0.0 then e.spacing.value else fallback;
      var offset := if e.offset.Some? then e.offset.value else e.ordinal as real * spacing;
      if Sound() && FitsAmong(listed, Lane(e.ordinal, offset, spacing)) { LaneAdded(listed, Lane(e.ordinal, offset, spacing)); }
      assert forall l | l in listed :: l.ordinal != e.ordinal;
      assert !HasOrdinal(listed, e.ordinal) && Completed(e, fallback) == Lane(e.ordinal, offset, spacing);
      lanes := lanes[e.key := listed + [Lane(e.ordinal, offset, spacing)]];
    }
  }

  /** The lane is apart from all with other ordinals, and wide enough. */
  ghost predicate FitsAmong(lanes: seq<Lane>, lane: Lane) {
    lane.spacing >= VERTICAL_TRACK_MIN_GAP && forall l | l in lanes :: l.ordinal == lane.ordinal || LanesApart(l, lane)
  }

  lemma LaneAdded(lanes: seq<Lane>, lane: Lane)
    requires FitsAmong(lanes, lane) && forall k | 0 <= k < |lanes| :: lanes[k].ordinal != lane.ordinal
    ensures Separated(lanes) ==> Separated(lanes + [lane])
    ensures Separated([lane])
  {
    assert forall k | 0 <= k < |lanes| :: lanes[k] in lanes;
  }

  lemma NoLanes()
    ensures Separated([])
  {
  }

  lemma FirstLane(lane: Lane)
    requires lane.spacing >= VERTICAL_TRACK_MIN_GAP
    ensures Separated([] + [lane])
  {
  }

  function Naturals(n: nat): set<nat> { if n == 0 then {} else Naturals(n - 1) + {n - 1} }

  lemma {:induction false} NaturalsMembers(n: nat, m: nat)
    ensures m in Naturals(n) <==> m < n
  {
    if n > 0 { NaturalsMembers(n - 1, m); }
  }

  /** The loop that tries ordinals from zero. */
  method FreeOrdinal(lanes: seq<Lane>) returns (ordinal: nat)
    ensures FirstFree(lanes, ordinal)
  {
    var ordinals := set l | l in lanes :: l.ordinal;
    ordinal := 0;
    while ordinal in ordinals
      invariant forall m | 0 <= m < ordinal :: HasOrdinal(lanes, m)
      decreases |ordinals - Naturals(ordinal)|
    {
      NaturalsMembers(ordinal, ordinal);
      assert ordinals - Naturals(ordinal + 1) == ordinals - Naturals(ordinal) - {ordinal};
      assert ordinal in ordinals - Naturals(ordinal);
      ordinal := ordinal + 1;
    }
  }

  method FindOutermost(lanes: seq<Lane>) returns (outermost: Lane)
    requires lanes != []
    ensures Outermost(lanes, outermost)
  {
    outermost := lanes[0];
    for k := 1 to |lanes|
      invariant outermost in lanes && forall j | 0 <= j < k :: lanes[j].offset <= outermost.offset
    {
      if lanes[k].offset > outermost.offset { outermost := lanes[k]; }
    }
  }

  lemma BeyondAll(lanes: seq<Lane>, o: Lane, lane: Lane)
    requires Separated(lanes + [lane]) && Outermost(lanes, o) && lane.offset == o.offset + Max(o.spacing, lane.spacing)
    requires lane.spacing >= VERTICAL_TRACK_MIN_GAP
    ensures forall l | l in lanes :: lane.offset - l.offset >= Max(l.spacing, lane.spacing)
  {
    var more := lanes + [lane];
    forall l | l in lanes ensures lane.offset - l.offset >= Max(l.spacing, lane.spacing) {
      var k :| 0 <= k < |lanes| && lanes[k] == l;
      assert more[k] == l && more[|lanes|] == lane && LanesApart(more[k], more[|lanes|]);
    }
  }

  // ----- plans

  datatype Holding = Holding(link: Id, index: nat)

  /** The reservations of a plan, each with the track that holds it. */
  predicate Holds(tracks: map<Id, Track>, h: Holding, r: Reservation) {
    h.link in tracks && h.index < |tracks[h.link].reservations| && tracks[h.link].reservations[h.index] == r
  }

  /** Any two reservations of a plan in one corridor are of lanes that are apart. */
  ghost predicate PlanSeparated(tracks: map<Id, Track>) {
    && (forall h, g, r, q | Holds(tracks, h, r) && Holds(tracks, g, q) && h != g && r.key == q.key :: LanesApart(r.lane, q.lane))
    && forall h, r | Holds(tracks, h, r) :: r.lane.spacing >= VERTICAL_TRACK_MIN_GAP
  }

  /** A cable to be drawn: the corridors whose lanes it needs, none when it runs in
      the rear, and the spacing it takes. Which corridors follows from where its
      ends are drawn. */
  datatype Descriptor = Descriptor(link: Id, keys: seq<string>, spacing: real)

  /** Every lane a track holds is in the registry. */
  ghost predicate Recorded(lanes: map<string, seq<Lane>>, tracks: map<Id, Track>) {
    forall h, r | Holds(tracks, h, r) :: r.key in lanes && r.lane in lanes[r.key]
  }

  /** And every lane in the registry is held by a track. */
  ghost predicate Owned(lanes: map<string, seq<Lane>>, tracks: map<Id, Track>) {
    forall key, l | key in lanes && l in lanes[key] :: exists h :: Holds(tracks, h, Reservation(key, l))
  }

  /** The tracks of the cables that keep the one they had. */
  function Reusable(previous: map<Id, Track>, descriptors: seq<Descriptor>, rerouted: set<Id>): map<Id, Track> {
    map d | d in descriptors && d.link in previous && d.link !in rerouted :: d.link := previous[d.link]
  }

  lemma PartSeparated(tracks: map<Id, Track>, part: map<Id, Track>)
    requires PlanSeparated(tracks) && forall link | link in part :: link in tracks && part[link] == tracks[link]
    ensures PlanSeparated(part)
  {
    hide LanesApart;
    assert forall h, r | Holds(part, h, r) :: Holds(tracks, h, r);
  }

  /** A reservation of one of the tracks fits the lanes the others hold. */
  lemma ReservationFits(lanes: map<string, seq<Lane>>, tracks: map<Id, Track>, h: Holding, r: Reservation)
    requires PlanSeparated(tracks) && Owned(lanes, tracks) && Holds(tracks, h, r)
    ensures r.lane.spacing >= VERTICAL_TRACK_MIN_GAP
    ensures r.key in lanes ==> forall l | l in lanes[r.key] :: l == r.lane || LanesApart(l, r.lane)
    ensures r.key in lanes ==> FitsAmong(lanes[r.key], r.lane) && (HasOrdinal(lanes[r.key], r.lane.ordinal) <==> r.lane in lanes[r.key])
  {
    if r.key in lanes {
      forall l | l in lanes[r.key] ensures l == r.lane || LanesApart(l, r.lane) {
        hide LanesApart;
        var g :| Holds(tracks, g, Reservation(r.key, l));
        assert g == h || g != h;
      }
    }
  }

  lemma StaysOwned(lanes: map<string, seq<Lane>>, tracks: map<Id, Track>, h: Holding, r: Reservation)
    requires Owned(lanes, tracks) && Holds(tracks, h, r)
    ensures Owned(lanes[r.key := (if r.key in lanes then lanes[r.key] else []) + [r.lane]], tracks)
  {
    assert r == Reservation(r.key, r.lane);
  }

  /** reserveTrackRoutingState, the lanes: every reservation of a reused track. */
  method ReserveTrack(registry: LaneRegistry, ghost tracks: map<Id, Track>, link: Id, track: Track, laneSpacing: real)
    requires registry.Sound() && PlanSeparated(tracks) && Owned(registry.lanes, tracks) && link in tracks && tracks[link] == track
    modifies registry
    ensures registry.Sound() && Owned(registry.lanes, tracks)
    ensures forall key | key in old(registry.lanes) :: key in registry.lanes && old(registry.lanes)[key] <= registry.lanes[key]
    ensures forall r | r in track.reservations :: r.key in registry.lanes && r.lane in registry.lanes[r.key]
  {
    hide LanesApart, Separated, PlanSeparated, Owned, HasOrdinal, FitsAmong;
    for k := 0 to |track.reservations|
      invariant registry.Sound() && Owned(registry.lanes, tracks)
      invariant forall key | key in old(registry.lanes) :: key in registry.lanes && old(registry.lanes)[key] <= registry.lanes[key]
      invariant forall i | 0 <= i < k :: IsReserved(registry.lanes, track.reservations[i])
    {
      var r := track.reservations[k];
      ReservationFits(registry.lanes, tracks, Holding(link, k), r);
      StaysOwned(registry.lanes, tracks, Holding(link, k), r);
      NothingTaken(r.lane);
      registry.ReserveCorridorLane(Stored(r), laneSpacing);
    }
  }

  lemma NothingTaken(lane: Lane)
    ensures !HasOrdinal([], lane.ordinal)
    ensures lane.spacing >= VERTICAL_TRACK_MIN_GAP ==> FitsAmong([], lane)
  {
  }

  predicate IsReserved(lanes: map<string, seq<Lane>>, r: Reservation) { r.key in lanes && r.lane in lanes[r.key] }

  lemma NothingOwned(tracks: map<Id, Track>)
    ensures Owned(map[], tracks)
  {
  }

  /** The tracks whose lanes have been reserved are recorded. */
  lemma RecordedTracks(lanes: map<string, seq<Lane>>, tracks: map<Id, Track>)
    requires forall link, r | link in tracks && r in tracks[link].reservations :: r.key in lanes && r.lane in lanes[r.key]
    ensures Recorded(lanes, tracks)
  {
  }

  /** The reservations of all reused tracks. */
  method ReserveAll(registry: LaneRegistry, reusable: map<Id, Track>, descriptors: seq<Descriptor>, laneSpacing: real)
    requires registry.Sound() && registry.lanes == map[] && PlanSeparated(reusable)
    requires forall link | link in reusable :: exists d :: d in descriptors && d.link == link
    modifies registry
    ensures registry.Sound() && Recorded(registry.lanes, reusable) && Owned(registry.lanes, reusable)
  {
    hide LanesApart, Separated, PlanSeparated, Owned;
    NothingOwned(reusable);
    for k := 0 to |descriptors|
      invariant registry.Sound() && Owned(registry.lanes, reusable)
      invariant forall i, r | 0 <= i < k && descriptors[i].link in reusable && r in reusable[descriptors[i].link].reservations ::
        r.key in registry.lanes && r.lane in registry.lanes[r.key]
    {
      if descriptors[k].link in reusable {
        ReserveTrack(registry, reusable, descriptors[k].link, reusable[descriptors[k].link], laneSpacing);
      }
    }
    forall link, r | link in reusable && r in reusable[link].reservations ensures r.key in registry.lanes && r.lane in registry.lanes[r.key] {
      var d :| d in descriptors && d.link == link;
      var i :| 0 <= i < |descriptors| && descriptors[i] == d;
    }
    RecordedTracks(registry.lanes, reusable);
  }

  /** A new lane beyond all that are recorded joins a track. */
  lemma LaneJoins(lanes: map<string, seq<Lane>>, tracks: map<Id, Track>, link: Id, r: Reservation)
    requires PlanSeparated(tracks) && Recorded(lanes, tracks) && link in tracks && r.lane.spacing >= VERTICAL_TRACK_MIN_GAP
    requires r.key in lanes ==> forall l | l in lanes[r.key] :: LanesApart(l, r.lane)
    ensures var more := tracks[link := Track(tracks[link].reservations + [r])];
            && PlanSeparated(more)
            && Recorded(lanes[r.key := (if r.key in lanes then lanes[r.key] else []) + [r.lane]], more)
  {
    var more := tracks[link := Track(tracks[link].reservations + [r])];
    var new' := Holding(link, |tracks[link].reservations|);
    assert forall h, q | Holds(more, h, q) :: (h == new' && q == r) || Holds(tracks, h, q);
  }

  lemma TrackStarts(lanes: map<string, seq<Lane>>, tracks: map<Id, Track>, link: Id)
    requires PlanSeparated(tracks) && Recorded(lanes, tracks)
    ensures PlanSeparated(tracks[link := Track([])]) && Recorded(lanes, tracks[link := Track([])])
  {
    hide LanesApart;
    var more := tracks[link := Track([])];
    forall h, r | Holds(more, h, r) ensures Holds(tracks, h, r) && h.link != link {}
  }

  // ----- the place of a new lane

  ghost function LaneSet(lanes: map<string, seq<Lane>>, key: string): set<Lane> {
    if key in lanes then Elements(lanes[key]) else {}
  }

  /** The lanes in the corridor among the reservations. */
  ghost function HeldIn(reservations: seq<Reservation>, key: string): set<Lane> {
    set r | r in reservations && r.key == key :: r.lane
  }

  ghost function HeldBy(tracks: map<Id, Track>, key: string): set<Lane> {
    set link, r | link in tracks && r in tracks[link].reservations && r.key == key :: r.lane
  }

  ghost predicate Uses(lanes: set<Lane>, n: nat) { exists l :: l in lanes && l.ordinal == n }

  /** The lane has the first ordinal that is free beside these, and is further out than
      an outermost one of them by the wider of the spacings; at nought beside none. */
  ghost predicate NextTo(others: set<Lane>, lane: Lane) {
    && !Uses(others, lane.ordinal) && (forall m | 0 <= m < lane.ordinal :: Uses(others, m))
    && if others == {} then lane.offset == 0.0
       else exists o :: IsOutermost(others, o) && lane.offset == o.offset + Max(o.spacing, lane.spacing)
  }

  ghost predicate IsOutermost(lanes: set<Lane>, o: Lane) { o in lanes && forall l | l in lanes :: l.offset <= o.offset }

  lemma UsesListed(listed: seq<Lane>, n: nat)
    ensures Uses(Elements(listed), n) <==> HasOrdinal(listed, n)
  {
  }

  lemma OutermostListed(listed: seq<Lane>, o: Lane)
    ensures IsOutermost(Elements(listed), o) <==> Outermost(listed, o)
  {
  }

  lemma NextBeside(listed: seq<Lane>, lane: Lane)
    requires FirstFree(listed, lane.ordinal) && (listed == [] ==> lane.offset == 0.0)
    requires listed != [] ==> exists o :: Outermost(listed, o) && lane.offset == o.offset + Max(o.spacing, lane.spacing)
    ensures NextTo(Elements(listed), lane)
  {
    hide Max, HasOrdinal, Uses, Outermost, IsOutermost;
    UsesListed(listed, lane.ordinal);
    forall m: nat | m < lane.ordinal ensures Uses(Elements(listed), m) { UsesListed(listed, m); }
    if listed != [] {
      assert listed[0] in Elements(listed);
      var o :| Outermost(listed, o) && lane.offset == o.offset + Max(o.spacing, lane.spacing);
      OutermostListed(listed, o);
    }
  }

  lemma LaneEntered(lanes: map<string, seq<Lane>>, r: Reservation, key: string)
    ensures var more := lanes[r.key := (if r.key in lanes then lanes[r.key] else []) + [r.lane]];
            LaneSet(more, key) == LaneSet(lanes, key) + if r.key == key then {r.lane} else {}
  {
  }

  lemma HeldMore(reservations: seq<Reservation>, r: Reservation, key: string)
    ensures HeldIn(reservations + [r], key) == HeldIn(reservations, key) + if r.key == key then {r.lane} else {}
    ensures HeldIn([], key) == {}
  {
  }

  /** Each lane of the track is next to those there were before. */
  ghost predicate LaidBeside(before: map<string, seq<Lane>>, reservations: seq<Reservation>) {
    forall j | 0 <= j < |reservations| ::
      NextTo(LaneSet(before, reservations[j].key) + HeldIn(reservations[..j], reservations[j].key), reservations[j].lane)
  }

  lemma LaidMore(before: map<string, seq<Lane>>, reservations: seq<Reservation>, r: Reservation)
    requires LaidBeside(before, reservations) && NextTo(LaneSet(before, r.key) + HeldIn(reservations, r.key), r.lane)
    ensures LaidBeside(before, reservations + [r])
  {
    hide NextTo, LaneSet, HeldIn;
    var more := reservations + [r];
    forall j | 0 <= j < |more| ensures NextTo(LaneSet(before, more[j].key) + HeldIn(more[..j], more[j].key), more[j].lane) {
      assert more[..j] == reservations[..j];
      if j == |reservations| { assert reservations[..j] == reservations; }
    }
  }

  /** The registry holds the lanes there were and those of the reservations. */
  ghost predicate Comprises(before: map<string, seq<Lane>>, lanes: map<string, seq<Lane>>, reservations: seq<Reservation>) {
    forall key :: LaneSet(lanes, key) == LaneSet(before, key) + HeldIn(reservations, key)
  }

  lemma HoldsMore(before: map<string, seq<Lane>>, lanes: map<string, seq<Lane>>, reservations: seq<Reservation>, r: Reservation)
    requires Comprises(before, lanes, reservations)
    ensures Comprises(before, lanes[r.key := (if r.key in lanes then lanes[r.key] else []) + [r.lane]], reservations + [r])
  {
    hide LaneSet, HeldIn;
    var more := lanes[r.key := (if r.key in lanes then lanes[r.key] else []) + [r.lane]];
    forall key ensures LaneSet(more, key) == LaneSet(before, key) + HeldIn(reservations + [r], key) {
      LaneEntered(lanes, r, key);
      HeldMore(reservations, r, key);
      assert LaneSet(lanes, key) == LaneSet(before, key) + HeldIn(reservations, key);
    }
  }

  lemma HoldsNothingMore(lanes: map<string, seq<Lane>>)
    ensures Comprises(lanes, lanes, []) && LaidBeside(lanes, [])
  {
  }

  lemma NextBesideHeld(before: map<string, seq<Lane>>, lanes: map<string, seq<Lane>>, reservations: seq<Reservation>, key: string, lane: Lane)
    requires Comprises(before, lanes, reservations) && NextTo(LaneSet(lanes, key), lane)
    ensures NextTo(LaneSet(before, key) + HeldIn(reservations, key), lane)
  {
    hide NextTo, LaneSet, HeldIn;
    assert LaneSet(lanes, key) == LaneSet(before, key) + HeldIn(reservations, key);
  }

  /** planDescriptorTrack, the lanes: one in each corridor the cable runs through. */
  method PlanTrack(registry: LaneRegistry, ghost tracks: map<Id, Track>, d: Descriptor) returns (track: Track)
    requires registry.Sound() && PlanSeparated(tracks) && Recorded(registry.lanes, tracks) && (d.keys != [] ==> d.spacing >= VERTICAL_TRACK_MIN_GAP)
    modifies registry
    ensures registry.Sound() && PlanSeparated(tracks[d.link := track]) && Recorded(registry.lanes, tracks[d.link := track])
    ensures |track.reservations| == |d.keys| && forall k | 0 <= k < |d.keys| ::
      track.reservations[k].key == d.keys[k] && track.reservations[k].lane.spacing == d.spacing
    ensures LaidBeside(old(registry.lanes), track.reservations) && Comprises(old(registry.lanes), registry.lanes, track.reservations)
  {
    hide LanesApart, Separated, PlanSeparated, Recorded, FirstFree, Max, LaidBeside, Comprises, NextTo, LaneSet, Outermost;
    track := Track([]);
    HoldsNothingMore(registry.lanes);
    TrackStarts(registry.lanes, tracks, d.link);
    for k := 0 to |d.keys|
      invariant registry.Sound() && PlanSeparated(tracks[d.link := track]) && Recorded(registry.lanes, tracks[d.link := track])
      invariant |track.reservations| == k && forall i | 0 <= i < k ::
        track.reservations[i].key == d.keys[i] && track.reservations[i].lane.spacing == d.spacing
      invariant LaidBeside(old(registry.lanes), track.reservations) && Comprises(old(registry.lanes), registry.lanes, track.reservations)
    {
      ghost var lanes := registry.lanes;
      ghost var listed := registry.Lanes(d.keys[k]);
      var lane := registry.NextCorridorLane(d.keys[k], d.spacing);
      NextApart(lanes, d.keys[k], lane);
      NextBeside(listed, lane);
      ListedLanes(lanes, d.keys[k]);
      NextBesideHeld(old(registry.lanes), lanes, track.reservations, d.keys[k], lane);
      LaidMore(old(registry.lanes), track.reservations, Reservation(d.keys[k], lane));
      HoldsMore(old(registry.lanes), lanes, track.reservations, Reservation(d.keys[k], lane));
      LaneJoins(lanes, tracks[d.link := track], d.link, Reservation(d.keys[k], lane));
      ghost var before := tracks[d.link := track];
      track := Track(track.reservations + [Reservation(d.keys[k], lane)]);
      assert tracks[d.link := track] == before[d.link := track];
    }
  }

  lemma ListedLanes(lanes: map<string, seq<Lane>>, key: string)
    ensures Elements(if key in lanes then lanes[key] else []) == LaneSet(lanes, key)
  {
  }

  lemma NextApart(lanes: map<string, seq<Lane>>, key: string, lane: Lane)
    requires var listed := if key in lanes then lanes[key] else [];
      FirstFree(listed, lane.ordinal) && forall l | l in listed :: lane.offset - l.offset >= Max(l.spacing, lane.spacing)
    requires lane.spacing >= VERTICAL_TRACK_MIN_GAP
    ensures key in lanes ==> forall l | l in lanes[key] :: LanesApart(l, lane)
  {
    if key in lanes {
      assert forall l | l in lanes[key] :: HasOrdinal(lanes[key], l.ordinal);
    }
  }

  // ----- the places of all new lanes

  ghost predicate LinksOnce(descriptors: seq<Descriptor>) {
    forall i, j | 0 <= i < j < |descriptors| :: descriptors[i].link != descriptors[j].link
  }

  /** The tracks of the first k cables. */
  ghost function FirstTracks(tracks: map<Id, Track>, descriptors: seq<Descriptor>, k: nat): map<Id, Track>
    requires k <= |descriptors|
  {
    map i | 0 <= i < k && descriptors[i].link in tracks :: descriptors[i].link := tracks[descriptors[i].link]
  }

  /** Each lane of the track is next to those the tracks hold and its own before it. */
  ghost predicate LaidAmong(tracks: map<Id, Track>, reservations: seq<Reservation>) {
    forall j | 0 <= j < |reservations| ::
      NextTo(HeldBy(tracks, reservations[j].key) + HeldIn(reservations[..j], reservations[j].key), reservations[j].lane)
  }

  /** Cable by cable, every new lane is next to those of the reused tracks and of the
      cables before it. */
  ghost predicate PlacedInTurn(descriptors: seq<Descriptor>, k: nat, reusable: map<Id, Track>, tracks: map<Id, Track>)
    requires k <= |descriptors|
  {
    forall i | 0 <= i < k && descriptors[i].link !in reusable ::
      descriptors[i].link in tracks && LaidAmong(reusable + FirstTracks(tracks, descriptors, i), tracks[descriptors[i].link].reservations)
  }

  /** The registry holds exactly the lanes of the tracks. */
  ghost predicate Mirrors(lanes: map<string, seq<Lane>>, tracks: map<Id, Track>) {
    forall key :: LaneSet(lanes, key) == HeldBy(tracks, key)
  }

  lemma OwnedMirrors(lanes: map<string, seq<Lane>>, tracks: map<Id, Track>)
    requires Recorded(lanes, tracks) && Owned(lanes, tracks)
    ensures Mirrors(lanes, tracks)
  {
    forall key ensures LaneSet(lanes, key) == HeldBy(tracks, key) {
      forall l | l in LaneSet(lanes, key) ensures l in HeldBy(tracks, key) {
        var h :| Holds(tracks, h, Reservation(key, l));
        assert Reservation(key, l) in tracks[h.link].reservations;
      }
      forall l | l in HeldBy(tracks, key) ensures l in LaneSet(lanes, key) {
        var link, r :| link in tracks && r in tracks[link].reservations && r.key == key && r.lane == l;
        var n :| 0 <= n < |tracks[link].reservations| && tracks[link].reservations[n] == r;
        assert Holds(tracks, Holding(link, n), r);
      }
    }
  }

  lemma LaidInTurn(lanes: map<string, seq<Lane>>, tracks: map<Id, Track>, reservations: seq<Reservation>)
    requires Mirrors(lanes, tracks) && LaidBeside(lanes, reservations)
    ensures LaidAmong(tracks, reservations)
  {
    hide NextTo, LaneSet, HeldBy, HeldIn;
    forall j | 0 <= j < |reservations|
      ensures NextTo(HeldBy(tracks, reservations[j].key) + HeldIn(reservations[..j], reservations[j].key), reservations[j].lane)
    {
      assert LaneSet(lanes, reservations[j].key) == HeldBy(tracks, reservations[j].key);
    }
  }

  lemma HeldByMore(tracks: map<Id, Track>, link: Id, track: Track, key: string)
    requires link !in tracks
    ensures HeldBy(tracks[link := track], key) == HeldBy(tracks, key) + HeldIn(track.reservations, key)
  {
    var more := tracks[link := track];
    forall l | l in HeldBy(tracks, key) + HeldIn(track.reservations, key) ensures l in HeldBy(more, key) {
      if l in HeldBy(tracks, key) {
        var t, r :| t in tracks && r in tracks[t].reservations && r.key == key && r.lane == l;
        assert t in more && r in more[t].reservations;
      } else {
        var r :| r in track.reservations && r.key == key && r.lane == l;
        assert r in more[link].reservations;
      }
    }
  }

  lemma MirrorsMore(lanes: map<string, seq<Lane>>, after: map<string, seq<Lane>>, tracks: map<Id, Track>, link: Id, track: Track)
    requires Mirrors(lanes, tracks) && Comprises(lanes, after, track.reservations) && link !in tracks
    ensures Mirrors(after, tracks[link := track])
  {
    hide LaneSet, HeldBy, HeldIn;
    forall key ensures LaneSet(after, key) == HeldBy(tracks[link := track], key) {
      HeldByMore(tracks, link, track, key);
      assert LaneSet(lanes, key) == HeldBy(tracks, key);
      assert LaneSet(after, key) == LaneSet(lanes, key) + HeldIn(track.reservations, key);
    }
  }

  lemma EarlierStay(descriptors: seq<Descriptor>, k: nat, tracks: map<Id, Track>, track: Track, i: nat)
    requires LinksOnce(descriptors) && i <= k < |descriptors|
    ensures FirstTracks(tracks[descriptors[k].link := track], descriptors, i) == FirstTracks(tracks, descriptors, i)
  {
  }

  lemma AllFirst(descriptors: seq<Descriptor>, k: nat, reusable: map<Id, Track>, tracks: map<Id, Track>)
    requires k < |descriptors| && Planned(descriptors, k, reusable, tracks)
    ensures FirstTracks(tracks, descriptors, k) == tracks
  {
    hide RunsThrough, FirstTracks;
    forall link | link in tracks ensures link in FirstTracks(tracks, descriptors, k) {
      var i := FirstWith(descriptors, k, reusable, tracks, link);
      TrackListed(descriptors, k, tracks, i);
    }
    TracksListed(descriptors, k, tracks);
  }

  lemma FirstWith(descriptors: seq<Descriptor>, k: nat, reusable: map<Id, Track>, tracks: map<Id, Track>, link: Id) returns (i: nat)
    requires k <= |descriptors| && Planned(descriptors, k, reusable, tracks) && link in tracks
    ensures i < k && descriptors[i].link == link
  {
    hide RunsThrough;
    var d :| d in descriptors[..k] && d.link == link;
    i :| 0 <= i < k && descriptors[..k][i] == d;
  }

  lemma TrackListed(descriptors: seq<Descriptor>, k: nat, tracks: map<Id, Track>, i: nat)
    requires i < k <= |descriptors| && descriptors[i].link in tracks
    ensures descriptors[i].link in FirstTracks(tracks, descriptors, k)
  {
  }

  lemma TracksListed(descriptors: seq<Descriptor>, k: nat, tracks: map<Id, Track>)
    requires k <= |descriptors|
    ensures forall link | link in FirstTracks(tracks, descriptors, k) ::
      link in tracks && FirstTracks(tracks, descriptors, k)[link] == tracks[link]
  {
  }

  lemma NotYet(descriptors: seq<Descriptor>, k: nat, reusable: map<Id, Track>, tracks: map<Id, Track>)
    requires k < |descriptors| && Planned(descriptors, k, reusable, tracks) && LinksOnce(descriptors)
    ensures descriptors[k].link !in tracks
  {
    hide Planned;
    if descriptors[k].link in tracks { var i := FirstWith(descriptors, k, reusable, tracks, descriptors[k].link); }
  }

  lemma PlacedNext(descriptors: seq<Descriptor>, k: nat, reusable: map<Id, Track>, tracks: map<Id, Track>, track: Track)
    requires LinksOnce(descriptors) && k < |descriptors| && PlacedInTurn(descriptors, k, reusable, tracks)
    requires descriptors[k].link !in reusable ==> LaidAmong(reusable + FirstTracks(tracks, descriptors, k), track.reservations)
    ensures PlacedInTurn(descriptors, k + 1, reusable, tracks[descriptors[k].link := track])
  {
    hide LaidAmong, FirstTracks;
    var more := tracks[descriptors[k].link := track];
    forall i | 0 <= i < k + 1 && descriptors[i].link !in reusable
      ensures LaidAmong(reusable + FirstTracks(more, descriptors, i), more[descriptors[i].link].reservations) && descriptors[i].link in more
    {
      EarlierStay(descriptors, k, tracks, track, i);
    }
  }

  /** One more cable is planned. */
  lemma InTurn(descriptors: seq<Descriptor>, k: nat, reusable: map<Id, Track>, tracks: map<Id, Track>, track: Track,
               lanes: map<string, seq<Lane>>, after: map<string, seq<Lane>>)
    requires k < |descriptors| && Planned(descriptors, k, reusable, tracks) && LinksOnce(descriptors) && descriptors[k].link !in reusable
    requires PlacedInTurn(descriptors, k, reusable, tracks) && Mirrors(lanes, reusable + tracks)
    requires LaidBeside(lanes, track.reservations) && Comprises(lanes, after, track.reservations)
    ensures var more := tracks[descriptors[k].link := track];
            PlacedInTurn(descriptors, k + 1, reusable, more) && Mirrors(after, reusable + more)
  {
    hide Planned, PlacedInTurn, Mirrors, LaidBeside, LaidAmong, Comprises, FirstTracks;
    AllFirst(descriptors, k, reusable, tracks);
    NotYet(descriptors, k, reusable, tracks);
    LaidInTurn(lanes, reusable + tracks, track.reservations);
    PlacedNext(descriptors, k, reusable, tracks, track);
    MirrorsMore(lanes, after, reusable + tracks, descriptors[k].link, track);
    assert reusable + tracks[descriptors[k].link := track] == (reusable + tracks)[descriptors[k].link := track];
  }

  lemma NonePlaced(descriptors: seq<Descriptor>, reusable: map<Id, Track>)
    ensures PlacedInTurn(descriptors, 0, reusable, map[])
  {
  }

  /** The planning loop of assignCableTracks. A full plan has no previous tracks;
      an incremental one keeps the tracks of cables that are not rerouted. The
      lanes of the new plan are as far apart as those of the old. */
  method AssignCableTracks(previous: map<Id, Track>, descriptors: seq<Descriptor>, rerouted: set<Id>, laneSpacing: real)
    returns (tracks: map<Id, Track>)
    requires PlanSeparated(previous) && forall d | d in descriptors && d.keys != [] :: d.spacing >= VERTICAL_TRACK_MIN_GAP
    ensures PlanSeparated(tracks) && tracks.Keys == set d | d in descriptors :: d.link
    ensures forall link | link in tracks && link in previous && link !in rerouted :: tracks[link] == previous[link]
    ensures forall link | link in tracks && (link !in previous || link in rerouted) ::
      exists d :: d in descriptors && d.link == link && RunsThrough(tracks[link], d)
    ensures LinksOnce(descriptors) ==> PlacedInTurn(descriptors, |descriptors|, Reusable(previous, descriptors, rerouted), tracks)
  {
    hide LanesApart, Separated, PlanSeparated, Recorded, RunsThrough, Planned, Owned, PlacedInTurn, Mirrors, LaidBeside, Comprises;
    var reusable := Reusable(previous, descriptors, rerouted);
    PartSeparated(previous, reusable);
    var registry := new LaneRegistry();
    ReserveAll(registry, reusable, descriptors, laneSpacing);
    tracks := map[];
    assert reusable + tracks == reusable;
    NothingPlanned(descriptors, reusable);
    NonePlaced(descriptors, reusable);
    OwnedMirrors(registry.lanes, reusable);
    for k := 0 to |descriptors|
      invariant registry.Sound() && PlanSeparated(reusable + tracks) && Recorded(registry.lanes, reusable + tracks)
      invariant LinksOnce(descriptors) ==> PlacedInTurn(descriptors, k, reusable, tracks) && Mirrors(registry.lanes, reusable + tracks)
      invariant Planned(descriptors, k, reusable, tracks)
    {
      var d := descriptors[k];
      if d.link in reusable {
        ReusePlanned(descriptors, k, reusable, tracks);
        if LinksOnce(descriptors) { PlacedNext(descriptors, k, reusable, tracks, reusable[d.link]); }
        tracks := tracks[d.link := reusable[d.link]];
      } else {
        ghost var lanes := registry.lanes;
        var track := PlanTrack(registry, reusable + tracks, d);
        if LinksOnce(descriptors) { InTurn(descriptors, k, reusable, tracks, track, lanes, registry.lanes); }
        TrackRuns(track, d);
        NewPlanned(descriptors, k, reusable, tracks, track);
        tracks := tracks[d.link := track];
      }
    }
    AllPlanned(descriptors, reusable, tracks);
  }

  /** The first k cables have their tracks: the reused ones theirs, the others new
      ones. */
  ghost predicate Planned(descriptors: seq<Descriptor>, k: nat, reusable: map<Id, Track>, tracks: map<Id, Track>)
    requires k <= |descriptors|
  {
    && tracks.Keys == (set d | d in descriptors[..k] :: d.link)
    && (forall link | link in tracks && link in reusable :: tracks[link] == reusable[link])
    && forall link | link in tracks && link !in reusable :: exists d :: d in descriptors && d.link == link && RunsThrough(tracks[link], d)
  }

  lemma NothingPlanned(descriptors: seq<Descriptor>, reusable: map<Id, Track>)
    ensures Planned(descriptors, 0, reusable, map[])
  {
  }

  lemma ReusePlanned(descriptors: seq<Descriptor>, k: nat, reusable: map<Id, Track>, tracks: map<Id, Track>)
    requires k < |descriptors| && Planned(descriptors, k, reusable, tracks) && descriptors[k].link in reusable
    ensures var more := tracks[descriptors[k].link := reusable[descriptors[k].link]];
            Planned(descriptors, k + 1, reusable, more) && reusable + more == reusable + tracks
  {
    hide RunsThrough;
    assert descriptors[..k + 1] == descriptors[..k] + [descriptors[k]];
  }

  lemma NewPlanned(descriptors: seq<Descriptor>, k: nat, reusable: map<Id, Track>, tracks: map<Id, Track>, track: Track)
    requires k < |descriptors| && Planned(descriptors, k, reusable, tracks) && descriptors[k].link !in reusable
    requires RunsThrough(track, descriptors[k])
    ensures var more := tracks[descriptors[k].link := track];
            Planned(descriptors, k + 1, reusable, more) && reusable + more == (reusable + tracks)[descriptors[k].link := track]
  {
    hide RunsThrough;
    assert descriptors[..k + 1] == descriptors[..k] + [descriptors[k]];
    assert descriptors[k] in descriptors;
  }

  lemma AllPlanned(descriptors: seq<Descriptor>, reusable: map<Id, Track>, tracks: map<Id, Track>)
    requires Planned(descriptors, |descriptors|, reusable, tracks)
    requires forall link | link in reusable :: exists d :: d in descriptors && d.link == link
    ensures reusable + tracks == tracks && tracks.Keys == set d | d in descriptors :: d.link
    ensures forall link | link in tracks && link in reusable :: tracks[link] == reusable[link]
    ensures forall link | link in tracks && link !in reusable :: exists d :: d in descriptors && d.link == link && RunsThrough(tracks[link], d)
  {
    hide RunsThrough;
    assert descriptors[..|descriptors|] == descriptors;
  }

  /** The track has a lane in each of the cable's corridors, at its spacing. */
  predicate RunsThrough(track: Track, d: Descriptor) {
    |track.reservations| == |d.keys| && forall k | 0 <= k < |d.keys| ::
      track.reservations[k].key == d.keys[k] && track.reservations[k].lane.spacing == d.spacing
  }

  lemma TrackRuns(track: Track, d: Descriptor)
    requires |track.reservations| == |d.keys| && forall k | 0 <= k < |d.keys| ::
      track.reservations[k].key == d.keys[k] && track.reservations[k].lane.spacing == d.spacing
    ensures RunsThrough(track, d)
  {
  }

  /** A plan in which nothing is drawn yet is separated, so that every plan after
      it is. */
  lemma EmptyPlan()
    ensures PlanSeparated(map[])
  {
  }

  /** Different lanes of one corridor are at least four units apart. */
  lemma LanesFourApart(tracks: map<Id, Track>, h: Holding, g: Holding, r: Reservation, q: Reservation)
    requires PlanSeparated(tracks) && Holds(tracks, h, r) && Holds(tracks, g, q) && h != g && r.key == q.key
    ensures r.lane.ordinal != q.lane.ordinal && Distance(r.lane.offset, q.lane.offset) >= VERTICAL_TRACK_MIN_GAP
  {
  }
}
