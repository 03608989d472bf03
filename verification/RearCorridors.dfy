/** planRearCorridors and attachRearChannelSheaths: corridors hold channels,
    channels hold strands, and tubes get a sheath around their strands. Lengths
    are real numbers; rounding is not modelled. */
module RearCorridors {
  import opened Text
  import opened Sorting
  import opened Lists
  import opened Lengths

  const TUBE_STRAND_SPACING: real := 2.5
  const DISCRETE_STRAND_SPACING: real := 4.0
  const CHANNEL_GAP: real := 8.0
  const CORRIDOR_GAP: real := 24.0
  const SHEATH_PADDING: real := 3.0
  const MIN_SHEATH: real := 8.0

  datatype ChannelType = Tube | Discrete | Independent

  /** A rear cable: its channel, if it has one, and how that is built. */
  datatype Cable = Cable(link: Id, channel: Id, built: ChannelType, span: real, block: int)

  /** Cables of one channel share its key; a cable without a channel has its own. */
  datatype ChannelKey = OfChannel(id: Id) | OfLink(link: Id)

  function KeyOf(c: Cable): ChannelKey { if c.channel != "" then OfChannel(c.channel) else OfLink(c.link) }

  datatype Channel = Channel(key: ChannelKey, kind: ChannelType, members: seq<Cable>)

  // ----- the layout

  function StrandSpacing(c: Channel): real { if c.kind.Tube? then TUBE_STRAND_SPACING else DISCRETE_STRAND_SPACING }

  function Width(c: Channel): real { Max(0.0, (|c.members| as real - 1.0) * StrandSpacing(c)) }

  function EdgePadding(c: Channel): real {
    if c.kind.Tube? then Max(SHEATH_PADDING, (MIN_SHEATH - Width(c)) / 2.0) else 0.0
  }

  /** The band a channel takes up. */
  function Band(c: Channel): (r: real)
    ensures r >= Width(c) >= 0.0
  {
    EdgePadding(c) + Width(c) + EdgePadding(c)
  }

  /** Where the k-th channel's band starts in its corridor. */
  function BandStart(channels: seq<Channel>, k: nat): (r: real)
    requires k <= |channels|
    ensures r >= 0.0
  {
    if k == 0 then 0.0 else BandStart(channels, k - 1) + Band(channels[k - 1]) + CHANNEL_GAP
  }

  function CorridorWidth(channels: seq<Channel>): (r: real)
    ensures r >= 0.0
  {
    if channels == [] then 0.0 else BandStart(channels, |channels| - 1) + Band(channels[|channels| - 1])
  }

  function CorridorStart(plan: seq<seq<Channel>>, b: nat): (r: real)
    requires b <= |plan|
    ensures r >= 0.0
  {
    if b == 0 then 0.0 else CorridorStart(plan, b - 1) + CorridorWidth(plan[b - 1]) + CORRIDOR_GAP
  }

  datatype Assignment = Assignment(corridor: nat, channel: nat, strand: nat, start: real, end: real, center: real, spacing: real, offset: real)

  /** Strand s of channel k of corridor b. */
  datatype Place = Place(b: nat, k: nat, s: nat)

  predicate IsPlace(plan: seq<seq<Channel>>, p: Place) {
    p.b < |plan| && p.k < |plan[p.b]| && p.s < |plan[p.b][p.k].members|
  }

  function CableAt(plan: seq<seq<Channel>>, p: Place): Cable
    requires IsPlace(plan, p)
  {
    plan[p.b][p.k].members[p.s]
  }

  function ChannelStart(plan: seq<seq<Channel>>, b: nat, k: nat): real
    requires b < |plan| && k < |plan[b]|
  {
    CorridorStart(plan, b) + (BandStart(plan[b], k) + EdgePadding(plan[b][k]))
  }

  function AssignmentAt(plan: seq<seq<Channel>>, p: Place): Assignment
    requires IsPlace(plan, p)
  {
    var c := plan[p.b][p.k];
    var start := ChannelStart(plan, p.b, p.k);
    Assignment(p.b, p.k, p.s, start, start + Width(c), start + Width(c) / 2.0, StrandSpacing(c), start + p.s as real * StrandSpacing(c))
  }

  // ----- separation

  lemma {:induction false} BandsInOrder(channels: seq<Channel>, j: nat, k: nat)
    requires j < k < |channels|
    ensures BandStart(channels, k) >= BandStart(channels, j) + Band(channels[j]) + CHANNEL_GAP
    decreases k - j
  {
    if j + 1 < k { BandsInOrder(channels, j, k - 1); }
  }

  lemma BandWithin(channels: seq<Channel>, k: nat)
    requires k < |channels|
    ensures BandStart(channels, k) + Band(channels[k]) <= CorridorWidth(channels)
  {
    hide Band, StrandSpacing, Width, EdgePadding;
    if k < |channels| - 1 { BandsInOrder(channels, k, |channels| - 1); }
  }

  lemma {:induction false} CorridorsInOrder(plan: seq<seq<Channel>>, a: nat, b: nat)
    requires a < b < |plan|
    ensures CorridorStart(plan, b) >= CorridorStart(plan, a) + CorridorWidth(plan[a]) + CORRIDOR_GAP
    decreases b - a
  {
    if a + 1 < b { CorridorsInOrder(plan, a, b - 1); }
  }

  /** A strand lies in its channel's band, at least the edge padding from either
      side. */
  lemma StrandInBand(plan: seq<seq<Channel>>, p: Place)
    requires IsPlace(plan, p)
    ensures var c, band := plan[p.b][p.k], CorridorStart(plan, p.b) + BandStart(plan[p.b], p.k);
            band + EdgePadding(c) <= AssignmentAt(plan, p).offset <= band + Band(c) - EdgePadding(c)
  {
    var c := plan[p.b][p.k];
    assert p.s as real * StrandSpacing(c) <= (|c.members| as real - 1.0) * StrandSpacing(c);
  }

  /** Strands of one channel are a strand spacing apart, strands of different
      channels at least 8, and strands of different corridors at least 24. */
  lemma StrandsApart(plan: seq<seq<Channel>>, p: Place, q: Place)
    requires IsPlace(plan, p) && IsPlace(plan, q) && p != q
    ensures Distance(AssignmentAt(plan, p).offset, AssignmentAt(plan, q).offset) >=
      if p.b != q.b then CORRIDOR_GAP
      else if p.k != q.k then CHANNEL_GAP
      else StrandSpacing(plan[p.b][p.k])
  {
    if p.b < q.b || (p.b == q.b && p.k < q.k) || (p.b == q.b && p.k == q.k && p.s < q.s) {
      StrandsAscend(plan, p, q);
    } else {
      StrandsAscend(plan, q, p);
    }
  }

  lemma StrandsAscend(plan: seq<seq<Channel>>, p: Place, q: Place)
    requires IsPlace(plan, p) && IsPlace(plan, q)
    requires p.b < q.b || (p.b == q.b && p.k < q.k) || (p.b == q.b && p.k == q.k && p.s < q.s)
    ensures AssignmentAt(plan, q).offset - AssignmentAt(plan, p).offset >=
      if p.b != q.b then CORRIDOR_GAP
      else if p.k != q.k then CHANNEL_GAP
      else StrandSpacing(plan[p.b][p.k])
  {
    StrandInBand(plan, p);
    StrandInBand(plan, q);
    if p.b < q.b {
      CorridorsInOrder(plan, p.b, q.b);
      BandWithin(plan[p.b], p.k);
    } else if p.k < q.k {
      BandsInOrder(plan[p.b], p.k, q.k);
    } else {
      SpacingTimes(p.s, q.s, StrandSpacing(plan[p.b][p.k]));
    }
  }

  lemma SpacingTimes(m: nat, n: nat, spacing: real)
    requires m < n && spacing > 0.0
    ensures n as real * spacing - m as real * spacing >= spacing
  {
    assert n as real * spacing - m as real * spacing == (n as real - m as real) * spacing;
    assert n as real - m as real >= 1.0;
  }

  // ----- and no further apart than that

  /** What a channel of that many strands leaves free at either edge. */
  function Edge(kind: ChannelType, a: Assignment): real {
    if !kind.Tube? then 0.0 else if a.end - a.start >= 2.0 then 3.0 else (8.0 - (a.end - a.start)) / 2.0
  }

  /** Strands follow one another at 2.5 in a tube and 4 otherwise, channels at 8 from
      edge to edge, and corridors at 24; the first begins at nought. */
  lemma Packed(plan: seq<seq<Channel>>, p: Place)
    requires IsPlace(plan, p)
    ensures var a, c := AssignmentAt(plan, p), plan[p.b][p.k];
            && a.corridor == p.b && a.channel == p.k && a.strand == p.s
            && a.spacing == (if c.kind.Tube? then 2.5 else 4.0)
            && a.end - a.start == (|c.members| - 1) as real * a.spacing && a.center - a.start == a.end - a.center
            && a.offset - a.start == p.s as real * a.spacing
            && (p.b == 0 && p.k == 0 ==> a.start - Edge(c.kind, a) == 0.0)
            && (p.k > 0 && plan[p.b][p.k - 1].members != [] ==>
                  var z := AssignmentAt(plan, Place(p.b, p.k - 1, 0));
                  a.start - Edge(c.kind, a) == z.end + Edge(plan[p.b][p.k - 1].kind, z) + 8.0)
            && (p.k == 0 && p.b > 0 && plan[p.b - 1] != [] && plan[p.b - 1][|plan[p.b - 1]| - 1].members != [] ==>
                  var last := |plan[p.b - 1]| - 1;
                  var z := AssignmentAt(plan, Place(p.b - 1, last, 0));
                  a.start - Edge(c.kind, a) == z.end + Edge(plan[p.b - 1][last].kind, z) + 24.0)
  {
    hide CorridorStart, BandStart;
    EdgeIs(plan, p);
    if p.k > 0 && plan[p.b][p.k - 1].members != [] {
      EdgeIs(plan, Place(p.b, p.k - 1, 0));
      NextBand(plan[p.b], p.k);
    }
    if p.k == 0 {
      FirstBand(plan, p.b);
      if p.b > 0 && plan[p.b - 1] != [] && plan[p.b - 1][|plan[p.b - 1]| - 1].members != [] { EdgeIs(plan, Place(p.b - 1, |plan[p.b - 1]| - 1, 0)); }
    }
  }

  lemma EdgeIs(plan: seq<seq<Channel>>, p: Place)
    requires IsPlace(plan, p)
    ensures var a, c := AssignmentAt(plan, p), plan[p.b][p.k];
            && Edge(c.kind, a) == EdgePadding(c) && a.end - a.start == Width(c) == (|c.members| - 1) as real * StrandSpacing(c)
            && a.start == CorridorStart(plan, p.b) + (BandStart(plan[p.b], p.k) + EdgePadding(c))
  {
    hide CorridorStart, BandStart;
    var c := plan[p.b][p.k];
    assert (|c.members| - 1) as real * StrandSpacing(c) >= 0.0;
  }

  lemma NextBand(channels: seq<Channel>, k: nat)
    requires 0 < k < |channels|
    ensures BandStart(channels, k) == BandStart(channels, k - 1) + Band(channels[k - 1]) + CHANNEL_GAP
  {
  }

  lemma FirstBand(plan: seq<seq<Channel>>, b: nat)
    requires b < |plan| && plan[b] != []
    ensures BandStart(plan[b], 0) == 0.0 && (b == 0 ==> CorridorStart(plan, b) == 0.0)
    ensures b > 0 && plan[b - 1] != [] ==>
      var last := |plan[b - 1]| - 1;
      CorridorStart(plan, b) == CorridorStart(plan, b - 1) + (BandStart(plan[b - 1], last) + Band(plan[b - 1][last])) + CORRIDOR_GAP
  {
    hide Band;
  }

  // ----- sheaths

  /** attachRearChannelSheaths: the width of a tube's sheath, from the offsets its
      tracks carry. */
  function SheathWidth(a: Assignment): real { Max(MIN_SHEATH, a.end - a.start + SHEATH_PADDING * 2.0) }

  /** A tube's sheath is exactly as wide as the band reserved for the tube, and
      centred in it. */
  lemma SheathFillsBand(plan: seq<seq<Channel>>, p: Place)
    requires IsPlace(plan, p) && plan[p.b][p.k].kind.Tube?
    ensures var a, c := AssignmentAt(plan, p), plan[p.b][p.k];
            var band := CorridorStart(plan, p.b) + BandStart(plan[p.b], p.k);
            SheathWidth(a) == Band(c) && a.center - SheathWidth(a) / 2.0 == band && a.center + SheathWidth(a) / 2.0 == band + Band(c)
  {
  }

  /** Sheaths of different tubes never overlap: there are at least 8 between them,
      and 24 between those of different corridors. */
  lemma SheathsApart(plan: seq<seq<Channel>>, p: Place, q: Place)
    requires IsPlace(plan, p) && IsPlace(plan, q) && plan[p.b][p.k].kind.Tube? && plan[q.b][q.k].kind.Tube?
    requires p.b < q.b || (p.b == q.b && p.k < q.k)
    ensures var a, z := AssignmentAt(plan, p), AssignmentAt(plan, q);
            (z.center - SheathWidth(z) / 2.0) - (a.center + SheathWidth(a) / 2.0) >= if p.b < q.b then CORRIDOR_GAP else CHANNEL_GAP
  {
    SheathFillsBand(plan, p);
    SheathFillsBand(plan, q);
    if p.b < q.b {
      CorridorsInOrder(plan, p.b, q.b);
      BandWithin(plan[p.b], p.k);
    } else {
      BandsInOrder(plan[p.b], p.k, q.k);
    }
  }

  // ----- grouping the cables of a bundle

  /** The channels of the cables: every cable is in exactly the channel with its
      key, once. */
  ghost predicate Grouped(cables: seq<Cable>, channels: seq<Channel>) {
    && (forall i, j | 0 <= i < j < |channels| :: channels[i].key != channels[j].key)
    && (forall c | c in cables :: exists k :: 0 <= k < |channels| && c in channels[k].members)
    && forall k | 0 <= k < |channels| :: ChannelOk(cables, channels[k])
  }

  ghost predicate ChannelOk(cables: seq<Cable>, c: Channel) {
    && c.members != [] && Distinct(c.members)
    && (forall m | m in c.members :: m in cables && KeyOf(m) == c.key)
    && exists m :: m in c.members && c.kind == KindOf(m)
  }

  function KindOf(c: Cable): ChannelType { if c.channel == "" then Independent else c.built }

  /** The position of the channel with the key: a map in the source. */
  function ChannelIndex(channels: seq<Channel>, key: ChannelKey): (i: nat)
    ensures i <= |channels| && (i < |channels| ==> channels[i].key == key) && forall k | 0 <= k < i :: channels[k].key != key
  {
    IndexOf(channels, (c: Channel) => c.key == key)
  }

  lemma ChannelStays(cables: seq<Cable>, c: Cable, channel: Channel)
    requires ChannelOk(cables, channel)
    ensures ChannelOk(cables + [c], channel)
  {
  }

  lemma ChannelGrows(cables: seq<Cable>, c: Cable, channel: Channel)
    requires ChannelOk(cables, channel) && KeyOf(c) == channel.key && c !in cables
    ensures ChannelOk(cables + [c], channel.(members := channel.members + [c]))
  {
    var m :| m in channel.members && channel.kind == KindOf(m);
    var more := channel.members + [c];
    assert m in more;
    assert forall i | 0 <= i < |channel.members| :: channel.members[i] in channel.members;
  }

  lemma ChannelStarts(cables: seq<Cable>, c: Cable)
    ensures ChannelOk(cables + [c], Channel(KeyOf(c), KindOf(c), [c]))
  {
    assert c in [c];
  }

  lemma JoinsOld(cables: seq<Cable>, c: Cable, channels: seq<Channel>, i: nat)
    requires Grouped(cables, channels) && c !in cables && i < |channels| && channels[i].key == KeyOf(c)
    ensures Grouped(cables + [c], channels[i := channels[i].(members := channels[i].members + [c])])
  {
    hide ChannelOk, KeyOf;
    var r := channels[i := channels[i].(members := channels[i].members + [c])];
    forall k | 0 <= k < |r| ensures ChannelOk(cables + [c], r[k]) {
      if k == i { ChannelGrows(cables, c, channels[k]); } else { ChannelStays(cables, c, channels[k]); }
    }
    forall d | d in cables + [c] ensures exists k :: 0 <= k < |r| && d in r[k].members {
      if d in cables {
        var k :| 0 <= k < |channels| && d in channels[k].members;
        assert d in r[k].members;
      } else {
        assert c in r[i].members;
      }
    }
  }

  lemma JoinsNew(cables: seq<Cable>, c: Cable, channels: seq<Channel>)
    requires Grouped(cables, channels) && forall k | 0 <= k < |channels| :: channels[k].key != KeyOf(c)
    ensures Grouped(cables + [c], channels + [Channel(KeyOf(c), KindOf(c), [c])])
  {
    hide ChannelOk, KeyOf, KindOf;
    var r := channels + [Channel(KeyOf(c), KindOf(c), [c])];
    forall k | 0 <= k < |r| ensures ChannelOk(cables + [c], r[k]) {
      if k < |channels| { ChannelStays(cables, c, channels[k]); } else { ChannelStarts(cables, c); }
    }
    forall d | d in cables + [c] ensures exists k :: 0 <= k < |r| && d in r[k].members {
      if d in cables {
        var k :| 0 <= k < |channels| && d in channels[k].members;
        assert d in r[k].members;
      } else {
        assert c in r[|channels|].members;
      }
    }
  }

  /** A cable with the one key is listed before any with the other. */
  ghost predicate FirstBefore(cables: seq<Cable>, a: ChannelKey, b: ChannelKey) {
    exists m :: 0 <= m < |cables| && KeyOf(cables[m]) == a && forall k | 0 <= k <= m :: KeyOf(cables[k]) != b
  }

  /** The channels in the order of their first cables, with their cables as they are
      listed, and of the type of the first. */
  ghost predicate AsListed(cables: seq<Cable>, channels: seq<Channel>) {
    && (forall i, j | 0 <= i < j < |channels| :: FirstBefore(cables, channels[i].key, channels[j].key))
    && forall k | 0 <= k < |channels| ::
         && channels[k].members == Filter(cables, c => KeyOf(c) == channels[k].key)
         && channels[k].members != [] && channels[k].kind == KindOf(channels[k].members[0])
  }

  lemma FilterPush<T>(s: seq<T>, x: T, keep: T -> bool)
    ensures Filter(s + [x], keep) == Filter(s, keep) + if keep(x) then [x] else []
  {
    assert (s + [x])[..|s|] == s;
  }

  lemma FirstStays(cables: seq<Cable>, c: Cable, a: ChannelKey, b: ChannelKey)
    requires FirstBefore(cables, a, b)
    ensures FirstBefore(cables + [c], a, b)
  {
    var m :| 0 <= m < |cables| && KeyOf(cables[m]) == a && forall k | 0 <= k <= m :: KeyOf(cables[k]) != b;
    assert (cables + [c])[m] == cables[m] && forall k | 0 <= k <= m :: (cables + [c])[k] == cables[k];
  }

  lemma ListedOld(cables: seq<Cable>, c: Cable, channels: seq<Channel>, i: nat)
    requires Grouped(cables, channels) && AsListed(cables, channels) && i < |channels| && channels[i].key == KeyOf(c)
    ensures AsListed(cables + [c], channels[i := channels[i].(members := channels[i].members + [c])])
  {
    hide FirstBefore, Filter, ChannelOk, KeyOf, KindOf;
    var r := channels[i := channels[i].(members := channels[i].members + [c])];
    forall a, b | 0 <= a < b < |r| ensures FirstBefore(cables + [c], r[a].key, r[b].key) {
      FirstStays(cables, c, channels[a].key, channels[b].key);
    }
    forall k | 0 <= k < |r| ensures r[k].members == Filter(cables + [c], d => KeyOf(d) == r[k].key) {
      FilterPush(cables, c, d => KeyOf(d) == r[k].key);
      SameFilter(cables, r[k].key, channels[k].key);
    }
  }

  lemma SameFilter(cables: seq<Cable>, a: ChannelKey, b: ChannelKey)
    requires a == b
    ensures Filter(cables, c => KeyOf(c) == a) == Filter(cables, c => KeyOf(c) == b)
  {
  }

  lemma ListedNew(cables: seq<Cable>, c: Cable, channels: seq<Channel>)
    requires Grouped(cables, channels) && AsListed(cables, channels) && forall k | 0 <= k < |channels| :: channels[k].key != KeyOf(c)
    ensures AsListed(cables + [c], channels + [Channel(KeyOf(c), KindOf(c), [c])])
  {
    hide FirstBefore, Filter, KeyOf, KindOf;
    var r := channels + [Channel(KeyOf(c), KindOf(c), [c])];
    forall d | d in cables ensures KeyOf(d) != KeyOf(c) {
      var k :| 0 <= k < |channels| && d in channels[k].members;
      assert ChannelOk(cables, channels[k]);
    }
    forall a, b | 0 <= a < b < |r| ensures FirstBefore(cables + [c], r[a].key, r[b].key) {
      if b < |channels| {
        FirstStays(cables, c, channels[a].key, channels[b].key);
      } else {
        assert ChannelOk(cables, channels[a]);
        ListedBefore(cables, c, channels[a]);
      }
    }
    forall k | 0 <= k < |r| ensures r[k].members == Filter(cables + [c], d => KeyOf(d) == r[k].key) {
      FilterPush(cables, c, d => KeyOf(d) == r[k].key);
      if k < |channels| { SameFilter(cables, r[k].key, channels[k].key); } else { FilterNone(cables, d => KeyOf(d) == r[k].key); }
    }
  }

  lemma ListedBefore(cables: seq<Cable>, c: Cable, channel: Channel)
    requires ChannelOk(cables, channel) && forall d | d in cables :: KeyOf(d) != KeyOf(c)
    ensures FirstBefore(cables + [c], channel.key, KeyOf(c))
  {
    hide KeyOf, KindOf;
    var d := channel.members[0];
    assert d in channel.members;
    var m :| 0 <= m < |cables| && cables[m] == d;
    assert (cables + [c])[m] == d && forall k | 0 <= k <= m :: (cables + [c])[k] in cables;
  }

  method GroupChannels(cables: seq<Cable>) returns (channels: seq<Channel>)
    requires Distinct(cables)
    ensures Grouped(cables, channels) && AsListed(cables, channels)
  {
    hide Grouped, AsListed, KindOf, KeyOf;
    channels := [];
    NothingGrouped(cables);
    for n := 0 to |cables|
      invariant Grouped(cables[..n], channels) && AsListed(cables[..n], channels)
    {
      var c := cables[n];
      assert cables[..n + 1] == cables[..n] + [c] && c !in cables[..n];
      var i := FindIndex(channels, (d: Channel) => d.key == KeyOf(c));
      assert i == ChannelIndex(channels, KeyOf(c));
      if i < |channels| {
        JoinsOld(cables[..n], c, channels, i);
        ListedOld(cables[..n], c, channels, i);
        channels := channels[i := channels[i].(members := channels[i].members + [c])];
      } else {
        JoinsNew(cables[..n], c, channels);
        ListedNew(cables[..n], c, channels);
        channels := channels + [Channel(KeyOf(c), KindOf(c), [c])];
      }
    }
    assert cables[..|cables|] == cables;
  }

  lemma NothingGrouped(cables: seq<Cable>)
    ensures Grouped(cables[..0], []) && AsListed(cables[..0], [])
  {
  }

  // ----- sorting

  /** A comparison that may leave elements tied. */
  ghost predicate Compares<T(!new)>(before: (T, T) -> bool) {
    && (forall x, y :: before(x, y) ==> !before(y, x))
    && forall x, y, z :: !before(x, y) && !before(y, z) ==> !before(x, z)
  }

  ghost predicate InOrder<T>(s: seq<T>, before: (T, T) -> bool) {
    forall i, j | 0 <= i < j < |s| :: !before(s[j], s[i])
  }

  predicate Tied<T>(x: T, y: T, before: (T, T) -> bool) { !before(x, y) && !before(y, x) }

  function Ties<T>(s: seq<T>, x: T, before: (T, T) -> bool): seq<T> { Filter(s, y => Tied(x, y, before)) }

  /** Elements that are tied stay in the order they were in. */
  ghost predicate Stable<T(!new)>(s: seq<T>, r: seq<T>, before: (T, T) -> bool) {
    forall x: T :: Ties(r, x, before) == Ties(s, x, before)
  }

  lemma {:induction false} FilterJoin<T>(s: seq<T>, t: seq<T>, keep: T -> bool)
    ensures Filter(s + t, keep) == Filter(s, keep) + Filter(t, keep)
  {
    if t == [] {
      assert s + t == s;
    } else {
      assert (s + t)[..|s + t| - 1] == s + t[..|t| - 1];
      FilterJoin(s, t[..|t| - 1], keep);
    }
  }

  /** Inserted after all that are not greater, an element is the last of its ties. */
  lemma InsertStable<T(!new)>(s: seq<T>, t: seq<T>, x: T, k: nat, before: (T, T) -> bool)
    requires Compares(before) && Stable(s, t, before) && k <= |t| && forall m | k <= m < |t| :: before(x, t[m])
    ensures Stable(s + [x], t[..k] + [x] + t[k..], before)
  {
    hide Filter;
    forall z: T ensures Ties(t[..k] + [x] + t[k..], z, before) == Ties(s + [x], z, before) {
      var tied := (y: T) => Tied(z, y, before);
      assert t == t[..k] + t[k..];
      FilterPush(s, x, tied);
      FilterPush(t[..k], x, tied);
      FilterJoin(t[..k] + [x], t[k..], tied);
      FilterJoin(t[..k], t[k..], tied);
      assert Ties(t, z, before) == Ties(s, z, before);
      if tied(x) { FilterNone(t[k..], tied); }
    }
  }

  lemma InsertInOrder<T(!new)>(s: seq<T>, x: T, k: nat, before: (T, T) -> bool)
    requires Compares(before) && InOrder(s, before) && k <= |s|
    requires (k > 0 ==> !before(x, s[k - 1])) && forall m | k <= m < |s| :: before(x, s[m])
    ensures InOrder(s[..k] + [x] + s[k..], before)
  {
    forall i | 0 <= i < k ensures !before(x, s[i]) {
      if i < k - 1 { assert !before(s[k - 1], s[i]); }
    }
    var r := s[..k] + [x] + s[k..];
    forall i, j | 0 <= i < j < |r| ensures !before(r[j], r[i]) {
      assert r[i] == if i < k then s[i] else if i == k then x else s[i - 1];
      assert r[j] == if j < k then s[j] else if j == k then x else s[j - 1];
    }
  }

  /** The library's stable sort: the same elements, in order, and ties as they were. */
  method SortBy<T(!new)>(s: seq<T>, before: (T, T) -> bool) returns (r: seq<T>)
    ensures multiset(r) == multiset(s) && |r| == |s| && (Compares(before) ==> InOrder(r, before) && Stable(s, r, before))
  {
    hide Compares, InOrder, Stable;
    r := [];
    NothingSorted(before);
    for i := 0 to |s|
      invariant |r| == i && multiset(r) == multiset(s[..i]) && (Compares(before) ==> InOrder(r, before) && Stable(s[..i], r, before))
    {
      var k := |r|;
      while k > 0 && before(s[i], r[k - 1])
        invariant 0 <= k <= |r| && forall m | k <= m < |r| :: before(s[i], r[m])
      {
        k := k - 1;
      }
      if Compares(before) {
        InsertInOrder(r, s[i], k, before);
        InsertStable(s[..i], r, s[i], k, before);
      }
      assert s[..i + 1] == s[..i] + [s[i]];
      assert r == r[..k] + r[k..];
      r := r[..k] + [s[i]] + r[k..];
    }
    assert s[..|s|] == s;
  }

  lemma NothingSorted<T(!new)>(before: (T, T) -> bool)
    ensures InOrder([], before) && Stable([], [], before)
  {
  }

  lemma SortedDistinct<T>(s: seq<T>, r: seq<T>)
    requires multiset(r) == multiset(s) && Distinct(s)
    ensures Distinct(r) && forall x :: x in r <==> x in s
  {
    forall x ensures x in r <==> x in s { assert x in r <==> x in multiset(r); assert x in s <==> x in multiset(s); }
    forall i, j | 0 <= i < j < |r| ensures r[i] != r[j] {
      if r[i] == r[j] {
        OneOccurrence(s, r[i]);
        TwoOccurrences(r, i, j);
      }
    }
  }

  /** The order of comparison: by span, by block, and so on. */
  datatype Orders = Orders(channels: (Channel, Channel) -> bool, cables: (Cable, Cable) -> bool)

  lemma SortedGrouped(cables: seq<Cable>, channels: seq<Channel>, sorted: seq<Channel>)
    requires Grouped(cables, channels) && multiset(sorted) == multiset(channels)
    ensures Grouped(cables, sorted)
  {
    hide ChannelOk;
    forall i, j | 0 <= i < j < |channels| ensures channels[i] != channels[j] { assert channels[i].key != channels[j].key; }
    SortedDistinct(channels, sorted);
    forall i, j | 0 <= i < j < |sorted| ensures sorted[i].key != sorted[j].key {
      assert sorted[i] in sorted && sorted[j] in sorted;
      var a :| 0 <= a < |channels| && channels[a] == sorted[i];
      var b :| 0 <= b < |channels| && channels[b] == sorted[j];
      assert sorted[i] != sorted[j];
      assert if a < b then channels[a].key != channels[b].key else channels[b].key != channels[a].key;
    }
    forall c | c in cables ensures exists k :: 0 <= k < |sorted| && c in sorted[k].members {
      var a :| 0 <= a < |channels| && c in channels[a].members;
      assert channels[a] in sorted;
    }
    forall k | 0 <= k < |sorted| ensures ChannelOk(cables, sorted[k]) {
      assert sorted[k] in channels;
    }
  }

  lemma ChannelSorted(cables: seq<Cable>, channel: Channel, members: seq<Cable>)
    requires ChannelOk(cables, channel) && multiset(members) == multiset(channel.members)
    ensures ChannelOk(cables, channel.(members := members)) && forall c :: c in members <==> c in channel.members
  {
    SortedDistinct(channel.members, members);
    var m :| m in channel.members && channel.kind == KindOf(m);
    assert m in members;
  }

  lemma MembersSorted(cables: seq<Cable>, channels: seq<Channel>, k: nat, members: seq<Cable>)
    requires Grouped(cables, channels) && k < |channels| && multiset(members) == multiset(channels[k].members)
    ensures Grouped(cables, channels[k := channels[k].(members := members)])
  {
    hide ChannelOk;
    var r := channels[k := channels[k].(members := members)];
    ChannelSorted(cables, channels[k], members);
    forall c | c in cables ensures exists j :: 0 <= j < |r| && c in r[j].members {
      var j :| 0 <= j < |channels| && c in channels[j].members;
      assert c in r[j].members;
    }
  }

  /** The first n channels are as listed but for the order of their cables. */
  ghost predicate SameButMembers(listed: seq<Channel>, n: nat, channels: seq<Channel>, orders: Orders) {
    && |channels| == |listed| && n <= |listed| && channels[n..] == listed[n..]
    && forall k | 0 <= k < n ::
         && channels[k] == listed[k].(members := channels[k].members) && multiset(channels[k].members) == multiset(listed[k].members)
         && (Compares(orders.cables) ==>
               InOrder(channels[k].members, orders.cables) && Stable(listed[k].members, channels[k].members, orders.cables))
  }

  /** The cables' channels are in order, and so are the cables of each. */
  ghost predicate InPlanOrder(cables: seq<Cable>, channels: seq<Channel>, orders: Orders) {
    exists listed, grouped ::
      && SameButMembers(listed, |listed|, channels, orders) && AsListed(cables, grouped) && multiset(listed) == multiset(grouped)
      && (Compares(orders.channels) ==> InOrder(listed, orders.channels) && Stable(grouped, listed, orders.channels))
  }

  lemma NextMembers(listed: seq<Channel>, n: nat, channels: seq<Channel>, orders: Orders, members: seq<Cable>)
    requires SameButMembers(listed, n, channels, orders) && n < |listed| && multiset(members) == multiset(listed[n].members)
    requires Compares(orders.cables) ==> InOrder(members, orders.cables) && Stable(listed[n].members, members, orders.cables)
    ensures SameButMembers(listed, n + 1, channels[n := channels[n].(members := members)], orders)
  {
    hide Compares, InOrder, Stable;
    assert channels[n] == channels[n..][0] == listed[n..][0];
    assert forall k | n < k < |listed| :: channels[k] == channels[n..][k - n] && listed[k] == listed[n..][k - n];
  }

  lemma NextListed(listed: seq<Channel>, n: nat, channels: seq<Channel>, orders: Orders)
    requires SameButMembers(listed, n, channels, orders) && n < |listed|
    ensures |channels| == |listed| && channels[n] == listed[n]
  {
    assert channels[n] == channels[n..][0] == listed[n..][0];
  }

  lemma NoMembersYet(channels: seq<Channel>, orders: Orders)
    ensures SameButMembers(channels, 0, channels, orders)
  {
  }

  /** The channels of one bundle, in order, and their cables in order. */
  method ArrangeBundle(cables: seq<Cable>, orders: Orders) returns (channels: seq<Channel>)
    requires Distinct(cables)
    ensures Grouped(cables, channels) && InPlanOrder(cables, channels, orders)
  {
    hide Grouped, Compares, InOrder, SameButMembers, Stable, AsListed;
    var grouped := GroupChannels(cables);
    channels := SortBy(grouped, orders.channels);
    SortedGrouped(cables, grouped, channels);
    ghost var listed := channels;
    NoMembersYet(channels, orders);
    for k := 0 to |channels|
      invariant |channels| == |listed| && Grouped(cables, channels) && SameButMembers(listed, k, channels, orders)
    {
      NextListed(listed, k, channels, orders);
      var members := SortBy(channels[k].members, orders.cables);
      NextMembers(listed, k, channels, orders, members);
      MembersSorted(cables, channels, k, members);
      channels := channels[k := channels[k].(members := members)];
    }
  }

  // ----- the plan

  /** No cable is listed twice, in one bundle or two. */
  ghost predicate DistinctCables(bundles: seq<seq<Cable>>) {
    forall a, i, b, j | 0 <= a < |bundles| && 0 <= i < |bundles[a]| && 0 <= b < |bundles| && 0 <= j < |bundles[b]| && (a, i) != (b, j) ::
      bundles[a][i].link != bundles[b][j].link
  }

  ghost predicate Arranged(bundles: seq<seq<Cable>>, plan: seq<seq<Channel>>) {
    |plan| == |bundles| && forall b | 0 <= b < |plan| :: Grouped(bundles[b], plan[b])
  }

  lemma CableFrom(bundles: seq<seq<Cable>>, plan: seq<seq<Channel>>, p: Place) returns (i: nat)
    requires Arranged(bundles, plan) && IsPlace(plan, p)
    ensures i < |bundles[p.b]| && bundles[p.b][i] == CableAt(plan, p)
    ensures KeyOf(CableAt(plan, p)) == plan[p.b][p.k].key
  {
    assert ChannelOk(bundles[p.b], plan[p.b][p.k]);
    assert CableAt(plan, p) in plan[p.b][p.k].members;
    i :| 0 <= i < |bundles[p.b]| && bundles[p.b][i] == CableAt(plan, p);
  }

  lemma SamePlace(bundles: seq<seq<Cable>>, plan: seq<seq<Channel>>, p: Place, q: Place)
    requires Arranged(bundles, plan) && IsPlace(plan, p) && IsPlace(plan, q) && p.b == q.b && CableAt(plan, p) == CableAt(plan, q)
    ensures p == q
  {
    hide KeyOf;
    var i := CableFrom(bundles, plan, p);
    var j := CableFrom(bundles, plan, q);
    assert Grouped(bundles[p.b], plan[p.b]);
    assert plan[p.b][p.k].key == plan[p.b][q.k].key;
    assert ChannelOk(bundles[p.b], plan[p.b][p.k]);
  }

  /** Different places hold different cables. */
  lemma PlacesDiffer(bundles: seq<seq<Cable>>, plan: seq<seq<Channel>>, p: Place, q: Place)
    requires DistinctCables(bundles) && Arranged(bundles, plan) && IsPlace(plan, p) && IsPlace(plan, q) && p != q
    ensures CableAt(plan, p).link != CableAt(plan, q).link
  {
    hide Arranged, DistinctCables;
    var i := CableFrom(bundles, plan, p);
    var j := CableFrom(bundles, plan, q);
    SameLength(bundles, plan);
    if p.b == q.b && i == j {
      SamePlace(bundles, plan, p, q);
      assert false;
    } else {
      LinksDifferAt(bundles, p.b, i, q.b, j);
    }
  }

  /** Every cable of a bundle has a place. */
  lemma HasPlace(bundles: seq<seq<Cable>>, plan: seq<seq<Channel>>, b: nat, i: nat) returns (p: Place)
    requires Arranged(bundles, plan) && b < |bundles| && i < |bundles[b]|
    ensures IsPlace(plan, p) && p.b == b && CableAt(plan, p) == bundles[b][i]
  {
    assert Grouped(bundles[b], plan[b]) && bundles[b][i] in bundles[b];
    var k :| 0 <= k < |plan[b]| && bundles[b][i] in plan[b][k].members;
    var s :| 0 <= s < |plan[b][k].members| && plan[b][k].members[s] == bundles[b][i];
    p := Place(b, k, s);
  }

  predicate Before(p: Place, b: nat, k: nat, s: nat) {
    p.b < b || (p.b == b && (p.k < k || (p.k == k && p.s < s)))
  }

  /** The cables at the places before the given one have their assignments. */
  ghost predicate AssignedBefore(plan: seq<seq<Channel>>, assignments: map<Id, Assignment>, b: nat, k: nat, s: nat) {
    && (forall p | IsPlace(plan, p) && Before(p, b, k, s) ::
          CableAt(plan, p).link in assignments && assignments[CableAt(plan, p).link] == AssignmentAt(plan, p))
    && forall link | link in assignments :: exists p :: IsPlace(plan, p) && Before(p, b, k, s) && CableAt(plan, p).link == link
  }

  lemma AssignNext(bundles: seq<seq<Cable>>, plan: seq<seq<Channel>>, assignments: map<Id, Assignment>, p: Place)
    requires DistinctCables(bundles) && Arranged(bundles, plan) && IsPlace(plan, p)
    requires AssignedBefore(plan, assignments, p.b, p.k, p.s)
    ensures AssignedBefore(plan, assignments[CableAt(plan, p).link := AssignmentAt(plan, p)], p.b, p.k, p.s + 1)
  {
    hide AssignmentAt, Arranged, DistinctCables;
    var more := assignments[CableAt(plan, p).link := AssignmentAt(plan, p)];
    forall q | IsPlace(plan, q) && Before(q, p.b, p.k, p.s + 1)
      ensures CableAt(plan, q).link in more && more[CableAt(plan, q).link] == AssignmentAt(plan, q)
    {
      if q != p {
        PlacesDiffer(bundles, plan, p, q);
        assert Before(q, p.b, p.k, p.s);
      }
    }
    assert Before(p, p.b, p.k, p.s + 1);
  }

  lemma NextChannel(plan: seq<seq<Channel>>, assignments: map<Id, Assignment>, b: nat, k: nat)
    requires b < |plan| && k < |plan[b]| && AssignedBefore(plan, assignments, b, k, |plan[b][k].members|)
    ensures AssignedBefore(plan, assignments, b, k + 1, 0)
  {
    hide AssignmentAt;
  }

  lemma NextCorridor(plan: seq<seq<Channel>>, assignments: map<Id, Assignment>, b: nat)
    requires b < |plan| && AssignedBefore(plan, assignments, b, |plan[b]|, 0)
    ensures AssignedBefore(plan, assignments, b + 1, 0, 0)
  {
    hide AssignmentAt;
  }

  lemma NothingAssigned(plan: seq<seq<Channel>>)
    ensures AssignedBefore(plan, map[], 0, 0, 0)
  {
  }

  /** What the plan assigns, and to whom. */
  ghost predicate Assigned(plan: seq<seq<Channel>>, assignments: map<Id, Assignment>) {
    && (forall p | IsPlace(plan, p) ::
          CableAt(plan, p).link in assignments && assignments[CableAt(plan, p).link] == AssignmentAt(plan, p))
    && forall link | link in assignments :: exists p :: IsPlace(plan, p) && CableAt(plan, p).link == link
  }

  lemma AllAssigned(plan: seq<seq<Channel>>, assignments: map<Id, Assignment>)
    requires AssignedBefore(plan, assignments, |plan|, 0, 0)
    ensures Assigned(plan, assignments)
  {
    hide AssignmentAt;
  }

  /** The loop over the channels of one corridor: where each starts. */
  method PlanChannels(channels: seq<Channel>) returns (starts: seq<real>, corridorWidth: real)
    ensures |starts| == |channels| && forall k | 0 <= k < |channels| :: starts[k] == BandStart(channels, k) + EdgePadding(channels[k])
    ensures corridorWidth == CorridorWidth(channels)
  {
    hide *;
    starts := [];
    var cursor := 0.0;
    CorridorStarts(channels);
    for k := 0 to |channels|
      invariant |starts| == k && forall j | 0 <= j < k :: starts[j] == BandStart(channels, j) + EdgePadding(channels[j])
      invariant cursor == if k < |channels| then BandStart(channels, k) else CorridorWidth(channels)
    {
      BandEnds(channels, k);
      var edge, width := EdgePadding(channels[k]), Width(channels[k]);
      starts := starts + [cursor + edge];
      cursor := cursor + edge + width + edge;
      if k < |channels| - 1 { cursor := cursor + CHANNEL_GAP; }
    }
    corridorWidth := cursor;
  }

  lemma CorridorStarts(channels: seq<Channel>)
    ensures if channels == [] then CorridorWidth(channels) == 0.0 else BandStart(channels, 0) == 0.0
  {
  }

  lemma BandEnds(channels: seq<Channel>, k: nat)
    requires k < |channels|
    ensures var end := BandStart(channels, k) + EdgePadding(channels[k]) + Width(channels[k]) + EdgePadding(channels[k]);
            if k < |channels| - 1 then BandStart(channels, k + 1) == end + CHANNEL_GAP else CorridorWidth(channels) == end
  {
    hide Width, EdgePadding;
  }

  /** planRearCorridors, for the rear bundles in their order. */
  method PlanRearCorridors(bundles: seq<seq<Cable>>, orders: Orders) returns (assignments: map<Id, Assignment>,
                           plan: seq<seq<Channel>>)
    requires DistinctCables(bundles)
    ensures Arranged(bundles, plan) && Assigned(plan, assignments)
    ensures forall b | 0 <= b < |plan| :: InPlanOrder(bundles[b], plan[b], orders)
  {
    hide InPlanOrder, Grouped, AssignedBefore, Assigned, DistinctCables, CorridorWidth, BandStart, EdgePadding, Width, StrandSpacing;
    plan := [];
    for b := 0 to |bundles|
      invariant |plan| == b && forall a | 0 <= a < b :: Grouped(bundles[a], plan[a]) && InPlanOrder(bundles[a], plan[a], orders)
    {
      BundleDistinct(bundles, b);
      var channels := ArrangeBundle(bundles[b], orders);
      plan := plan + [channels];
    }
    assignments := map[];
    var corridorCursor := 0.0;
    NothingAssigned(plan);
    for b := 0 to |plan|
      invariant AssignedBefore(plan, assignments, b, 0, 0)
      invariant b < |plan| ==> corridorCursor == CorridorStart(plan, b)
    {
      var starts, corridorWidth := PlanChannels(plan[b]);
      for k := 0 to |plan[b]|
        invariant AssignedBefore(plan, assignments, b, k, 0)
      {
        var channel := plan[b][k];
        for s := 0 to |channel.members|
          invariant AssignedBefore(plan, assignments, b, k, s)
        {
          var start := corridorCursor + starts[k];
          assert IsPlace(plan, Place(b, k, s)) && CableAt(plan, Place(b, k, s)) == channel.members[s];
          AssignNext(bundles, plan, assignments, Place(b, k, s));
          var a := Assignment(b, k, s, start, start + Width(channel), start + Width(channel) / 2.0, StrandSpacing(channel),
                              start + s as real * StrandSpacing(channel));
          assert start == ChannelStart(plan, b, k);
          assert a == AssignmentAt(plan, Place(b, k, s));
          assignments := assignments[channel.members[s].link := a];
        }
        NextChannel(plan, assignments, b, k);
      }
      NextCorridor(plan, assignments, b);
      corridorCursor := corridorCursor + corridorWidth;
      if b < |plan| - 1 { corridorCursor := corridorCursor + CORRIDOR_GAP; }
    }
    AllAssigned(plan, assignments);
  }

  lemma BundleDistinct(bundles: seq<seq<Cable>>, b: nat)
    requires DistinctCables(bundles) && b < |bundles|
    ensures Distinct(bundles[b])
  {
    forall i, j | 0 <= i < j < |bundles[b]| ensures bundles[b][i] != bundles[b][j] {
      assert (b, i) != (b, j);
      assert bundles[b][i].link != bundles[b][j].link;
    }
  }

  // ----- what the assignments promise

  /** Every rear cable gets an offset, and nothing else does. */
  lemma EveryCableAssigned(bundles: seq<seq<Cable>>, plan: seq<seq<Channel>>, assignments: map<Id, Assignment>)
    requires Arranged(bundles, plan) && Assigned(plan, assignments)
    ensures forall link :: link in assignments <==> exists b, i :: 0 <= b < |bundles| && 0 <= i < |bundles[b]| && bundles[b][i].link == link
  {
    hide Arranged, AssignmentAt;
    forall b, i | 0 <= b < |bundles| && 0 <= i < |bundles[b]| ensures bundles[b][i].link in assignments {
      var p := HasPlace(bundles, plan, b, i);
    }
    forall link | link in assignments ensures exists b, i :: 0 <= b < |bundles| && 0 <= i < |bundles[b]| && bundles[b][i].link == link {
      var p :| IsPlace(plan, p) && CableAt(plan, p).link == link;
      var i := CableFrom(bundles, plan, p);
      assert |plan| == |bundles| by { SameLength(bundles, plan); }
    }
  }

  lemma SameLength(bundles: seq<seq<Cable>>, plan: seq<seq<Channel>>)
    requires Arranged(bundles, plan)
    ensures |plan| == |bundles|
  {
  }

  /** The offsets of two rear cables are at least 2.5 apart in one tube, 4 in
      another channel, 8 between channels and 24 between bundles. */
  lemma OffsetsApart(bundles: seq<seq<Cable>>, plan: seq<seq<Channel>>, assignments: map<Id, Assignment>, a: nat,
                     i: nat, b: nat, j: nat)
    requires DistinctCables(bundles) && Arranged(bundles, plan) && Assigned(plan, assignments)
    requires a < |bundles| && i < |bundles[a]| && b < |bundles| && j < |bundles[b]| && (a, i) != (b, j)
    ensures var x, y := bundles[a][i], bundles[b][j];
            && x.link in assignments && y.link in assignments
            && Distance(assignments[x.link].offset, assignments[y.link].offset) >=
                 if a != b then CORRIDOR_GAP else if KeyOf(x) != KeyOf(y) then CHANNEL_GAP else TUBE_STRAND_SPACING
  {
    hide Arranged, AssignmentAt, DistinctCables, Distance, KeyOf;
    var p := HasPlace(bundles, plan, a, i);
    var q := HasPlace(bundles, plan, b, j);
    var m := CableFrom(bundles, plan, p);
    var n := CableFrom(bundles, plan, q);
    LinksDifferAt(bundles, a, i, b, j);
    StrandsApart(plan, p, q);
    SpacingLeast(plan[p.b][p.k]);
  }

  lemma SpacingLeast(c: Channel)
    ensures StrandSpacing(c) >= TUBE_STRAND_SPACING
  {
  }

  lemma LinksDifferAt(bundles: seq<seq<Cable>>, a: nat, i: nat, b: nat, j: nat)
    requires DistinctCables(bundles) && a < |bundles| && i < |bundles[a]| && b < |bundles| && j < |bundles[b]| && (a, i) != (b, j)
    ensures bundles[a][i].link != bundles[b][j].link
  {
  }
}
