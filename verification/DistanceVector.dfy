/** The routing table as a function from destinations to routes, and what an advertisement does to it. */
module Routes {
  import opened Wire

  const INF_COST: byte := 0xff
  const HOP_COST: byte := 1

  datatype Route = Route(via: Address, cost: byte)

  type Table = map<Address, Route>

  type Advert = map<Address, byte>

  /** One hop more, saturating at infinity. */
  function Relaxed(cost: byte): (c: byte)
    ensures c >= 1 && c >= cost && (c == INF_COST || c == cost + 1)
  {
    if cost < INF_COST then cost + HOP_COST else INF_COST
  }

  /** The advertised cost replaces the entry: unknown destination, better cost, or news from the next hop itself. */
  predicate Wins(t: Table, sender: Address, d: Address, cost: byte) {
    d !in t || cost < t[d].cost || (sender == t[d].via && cost != t[d].cost)
  }

  function Relax(t: Table, sender: Address, ad: Advert): Table {
    map d | d in t.Keys + ad.Keys ::
      if d in ad && Wins(t, sender, d, Relaxed(ad[d])) then Route(sender, Relaxed(ad[d])) else t[d]
  }

  /** Split horizon: everything but the routes that lead through the receiver. */
  function Pack(t: Table, dest: Address): Advert {
    map d | d in t && t[d].via != dest :: t[d].cost
  }

  function Discover(t: Table, mip: Address): Table {
    t[mip := Route(mip, HOP_COST)]
  }

  function LoseVia(t: Table, via: Address): Table {
    map d | d in t :: if t[d].via == via then t[d].(cost := INF_COST) else t[d]
  }

  /** Hearing the same advertisement again changes nothing. */
  lemma RelaxTwice(t: Table, sender: Address, ad: Advert)
    ensures Relax(Relax(t, sender, ad), sender, ad) == Relax(t, sender, ad)
  {
  }

  /**
   * Why the sender of an advertisement need not be answered: whatever the advertisement changed now leads
   * through the sender, so nothing is packed for it that was not packed before.
   */
  lemma NothingNewForSender(t: Table, sender: Address, ad: Advert)
    ensures Pack(Relax(t, sender, ad), sender).Items <= Pack(t, sender).Items
  {
  }

  /** A local entry (cost 0, not through the sender) survives every advertisement. */
  lemma LocalKept(t: Table, sender: Address, ad: Advert, d: Address)
    requires d in t && t[d].cost == 0 && t[d].via != sender
    ensures Relax(t, sender, ad)[d] == t[d]
  {
  }
}

/** The table as the vector the code keeps, its byte format, and the table object. */
module DistanceVector {
  import opened Wire
  import opened Routes

  datatype Column = Column(to: Address, via: Address, cost: byte)

  /** Where the first entry for a destination is; the length when there is none. */
  function Find(t: seq<Column>, to: Address): (i: nat)
    ensures i <= |t|
    ensures forall j :: 0 <= j < i ==> t[j].to != to
    ensures i < |t| ==> t[i].to == to
  {
    if t == [] || t[0].to == to then 0 else 1 + Find(t[1..], to)
  }

  ghost predicate Unique(t: seq<Column>) {
    forall i, j :: 0 <= i < j < |t| ==> t[i].to != t[j].to
  }

  predicate Has(t: seq<Column>, d: Address) { Find(t, d) < |t| }

  function Entry(t: seq<Column>, d: Address): Route
    requires Has(t, d)
  {
    Route(t[Find(t, d)].via, t[Find(t, d)].cost)
  }

  /** The vector read as a table: the first entry for each destination. */
  function View(t: seq<Column>): Table {
    map d: Address | 0 <= d < 0x100 && Has(t, d) :: Entry(t, d)
  }

  function AdView(t: seq<Column>): Advert {
    map d: Address | 0 <= d < 0x100 && Has(t, d) :: Entry(t, d).cost
  }

  // ----- update -----

  /** One advertised column applied to the vector; the flag says whether the vector changed. */
  function UpdateOne(t: seq<Column>, sender: Address, c: Column): (seq<Column>, bool) {
    var cost := Relaxed(c.cost);
    var i := Find(t, c.to);
    if i == |t| then (t + [Column(c.to, sender, cost)], true)
    else if cost < t[i].cost || (sender == t[i].via && cost != t[i].cost)
    then (t[i := t[i].(via := sender, cost := cost)], true)
    else (t, false)
  }

  function UpdateAll(t: seq<Column>, sender: Address, ad: seq<Column>): (seq<Column>, bool) {
    if ad == [] then (t, false) else
    var (u, before) := UpdateAll(t, sender, ad[..|ad| - 1]);
    var (v, now) := UpdateOne(u, sender, ad[|ad| - 1]);
    (v, before || now)
  }

  lemma FindAppend(t: seq<Column>, c: Column, d: Address)
    ensures Find(t + [c], d) == if Has(t, d) then Find(t, d) else if d == c.to then |t| else |t| + 1
  {
    var u := t + [c];
    if Has(t, d) {
      assert u[Find(t, d)] == t[Find(t, d)];
    } else {
      assert forall j :: 0 <= j < |t| ==> u[j] == t[j];
      assert u[|t|] == c;
    }
  }

  lemma ViewOfAppend(t: seq<Column>, c: Column)
    requires !Has(t, c.to)
    ensures View(t + [c]) == View(t)[c.to := Route(c.via, c.cost)]
    ensures AdView(t + [c]) == AdView(t)[c.to := c.cost]
  {
    forall d: Address
      ensures Has(t + [c], d) <==> Has(t, d) || d == c.to
      ensures Has(t, d) ==> Entry(t + [c], d) == Entry(t, d)
    {
      FindAppend(t, c, d);
    }
    FindAppend(t, c, c.to);
  }

  lemma UniqueAppend(t: seq<Column>, c: Column)
    requires Unique(t) && !Has(t, c.to)
    ensures Unique(t + [c])
  {
  }

  /** A second entry for a destination is never found. */
  lemma ViewOfSecond(t: seq<Column>, c: Column)
    requires Has(t, c.to)
    ensures View(t + [c]) == View(t) && !Unique(t + [c])
  {
    var u := t + [c];
    forall d: Address
      ensures Has(u, d) <==> Has(t, d)
      ensures Has(t, d) ==> Entry(u, d) == Entry(t, d)
    {
      FindAppend(t, c, d);
    }
    assert u[Find(t, c.to)].to == u[|t|].to;
  }

  lemma ViewOfChange(t: seq<Column>, i: nat, via: Address, cost: byte)
    requires i < |t| && Find(t, t[i].to) == i
    ensures var u := t[i := t[i].(via := via, cost := cost)];
      (Unique(t) ==> Unique(u)) && View(u) == View(t)[t[i].to := Route(via, cost)]
  {
    var u := t[i := t[i].(via := via, cost := cost)];
    forall d: Address
      ensures Has(u, d) <==> Has(t, d)
      ensures Has(t, d) ==> Entry(u, d) == if d == t[i].to then Route(via, cost) else Entry(t, d)
    {
      SameDestsFind(t, u, d);
    }
    hide Has, Entry, Find;
    assert Has(t, t[i].to);
  }

  lemma {:induction false} SameDestsFind(t: seq<Column>, u: seq<Column>, d: Address)
    requires |t| == |u| && forall j :: 0 <= j < |t| ==> t[j].to == u[j].to
    ensures Find(u, d) == Find(t, d)
  {
  }

  lemma UpdateOneRelaxes(t: seq<Column>, sender: Address, c: Column)
    ensures var (u, changed) := UpdateOne(t, sender, c);
      && (Unique(t) ==> Unique(u))
      && View(u) == Relax(View(t), sender, map[c.to := c.cost])
      && (changed <==> View(u) != View(t))
  {
    var i := Find(t, c.to);
    RelaxOne(View(t), sender, c.to, c.cost);
    if i == |t| {
      ViewOfAppend(t, Column(c.to, sender, Relaxed(c.cost)));
      if Unique(t) {
        UniqueAppend(t, Column(c.to, sender, Relaxed(c.cost)));
      }
    } else {
      ViewOfChange(t, i, sender, Relaxed(c.cost));
      assert View(t)[c.to] == Route(t[i].via, t[i].cost);
    }
  }

  lemma RelaxOne(t: Table, sender: Address, d: Address, cost: byte)
    ensures Relax(t, sender, map[d := cost]) ==
            if Wins(t, sender, d, Relaxed(cost)) then t[d := Route(sender, Relaxed(cost))] else t
    ensures Wins(t, sender, d, Relaxed(cost)) ==> t[d := Route(sender, Relaxed(cost))] != t
  {
  }

  lemma RelaxInTwo(t: Table, sender: Address, ad: Advert, d: Address, cost: byte)
    requires d !in ad
    ensures Relax(Relax(t, sender, ad), sender, map[d := cost]) == Relax(t, sender, ad[d := cost])
  {
  }

  lemma LastIsNew(t: seq<Column>)
    requires Unique(t) && t != []
    ensures var init, last := t[..|t| - 1], t[|t| - 1];
      init + [last] == t && Unique(init) && !Has(init, last.to)
  {
    var init, last := t[..|t| - 1], t[|t| - 1];
    forall j | 0 <= j < |init|
      ensures init[j].to != last.to
    {
      assert init[j] == t[j];
    }
  }

  /**
   * When the advertisement names no destination twice, the in-place update is the pointwise relaxation of the
   * table by the advertisement read as a map, so the order of its entries does not matter, and it reports
   * exactly whether it changed anything.
   */
  lemma {:induction false} UpdateRelaxes(t: seq<Column>, sender: Address, ad: seq<Column>)
    requires Unique(ad)
    ensures var (u, changed) := UpdateAll(t, sender, ad);
      && (Unique(t) ==> Unique(u))
      && View(u) == Relax(View(t), sender, AdView(ad))
      && (changed <==> View(u) != View(t))
    decreases |ad|
  {
    if ad == [] {
      assert Relax(View(t), sender, AdView(ad)) == View(t);
    } else {
      var init, last := ad[..|ad| - 1], ad[|ad| - 1];
      LastIsNew(ad);
      ViewOfAppend(init, last);
      UpdateRelaxes(t, sender, init);
      var (u, before) := UpdateAll(t, sender, init);
      UpdateOneRelaxes(u, sender, last);
      RelaxInTwo(View(t), sender, AdView(init), last.to, last.cost);
      ChangeShows(View(t), sender, AdView(init), last.to, last.cost);
    }
  }

  /** A later entry of the same advertisement does not undo what an earlier one changed. */
  lemma ChangeShows(t: Table, sender: Address, ad: Advert, d: Address, cost: byte)
    requires d !in ad
    ensures var u, v := Relax(t, sender, ad), Relax(t, sender, ad[d := cost]);
      v != t <==> u != t || v != u
  {
  }

  // ----- bytes -----

  /** The columns an advertisement for `dest` carries, in table order. */
  function Kept(t: seq<Column>, dest: Address): (k: seq<Column>)
    ensures |k| <= |t|
  {
    if t == [] then [] else
    var last := t[|t| - 1];
    Kept(t[..|t| - 1], dest) + if last.via != dest then [last] else []
  }

  function Pairs(cols: seq<Column>): (b: seq<byte>)
    ensures |b| == 2 * |cols|
  {
    if cols == [] then [] else
    Pairs(cols[..|cols| - 1]) + [cols[|cols| - 1].to, cols[|cols| - 1].cost]
  }

  /** A 16-bit count, then a destination and a cost for each kept column. */
  function PackBytes(t: seq<Column>, dest: Address): seq<byte> {
    CountBytes(|Kept(t, dest)|) + Pairs(Kept(t, dest))
  }

  function CountBytes(n: nat): (b: seq<byte>)
    ensures |b| == 2
  {
    [n % 0x100, (n / 0x100) % 0x100]
  }

  function Count(buf: seq<byte>): nat
    requires |buf| >= 2
  {
    var low: nat, high: nat := buf[0], buf[1];
    low + 0x100 * high
  }

  /** The vector after unpacking: destinations and costs from the buffer, next hops left over. */
  function Unpack(before: seq<Column>, buf: seq<byte>): (t: seq<Column>)
    requires |buf| >= 2 && |buf| >= 2 + 2 * Count(buf)
    ensures |t| == Count(buf)
  {
    seq(Count(buf), i requires 0 <= i < Count(buf) && |buf| >= 2 + 2 * Count(buf) =>
      Column(buf[2 + 2 * i], if i < |before| then before[i].via else 0, buf[3 + 2 * i]))
  }

  lemma {:induction false} PairAt(cols: seq<Column>, i: nat)
    requires i < |cols|
    ensures Pairs(cols)[2 * i] == cols[i].to && Pairs(cols)[2 * i + 1] == cols[i].cost
    decreases |cols|
  {
    if i < |cols| - 1 {
      PairAt(cols[..|cols| - 1], i);
    }
  }

  lemma CountRoundTrip(n: nat, rest: seq<byte>)
    requires n < 0x1_0000
    ensures Count(CountBytes(n) + rest) == n
  {
  }

  /**
   * Whatever the receiving table held before and whatever padding the network frame appended, unpacking gives
   * the kept columns' destinations and costs, in order and no others.
   */
  lemma BytesRoundTrip(t: seq<Column>, dest: Address, before: seq<Column>, padding: seq<byte>)
    requires |Kept(t, dest)| < 0x1_0000
    ensures var buf, k := PackBytes(t, dest) + padding, Kept(t, dest);
      && Count(buf) == |k| && |buf| >= 2 + 2 * |k|
      && var u := Unpack(before, buf);
         |u| == |k| && forall i :: 0 <= i < |k| ==> u[i].to == k[i].to && u[i].cost == k[i].cost
  {
    hide Count, CountBytes, Pairs, Kept;
    var buf, k := PackBytes(t, dest) + padding, Kept(t, dest);
    assert buf == CountBytes(|k|) + (Pairs(k) + padding);
    CountRoundTrip(|k|, Pairs(k) + padding);
    PairsInBuffer(CountBytes(|k|), k, padding);
  }

  lemma UnpackedColumns(before: seq<Column>, buf: seq<byte>)
    requires |buf| >= 2 && |buf| >= 2 + 2 * Count(buf)
    ensures var t := Unpack(before, buf);
      && |t| == Count(buf)
      && forall j :: 0 <= j < |t| ==>
           t[j] == Column(buf[2 + 2 * j], if j < |before| then before[j].via else 0, buf[3 + 2 * j])
  {
  }

  lemma PairsInBuffer(front: seq<byte>, k: seq<Column>, padding: seq<byte>)
    requires |front| == 2
    ensures var buf := front + Pairs(k) + padding;
      forall i :: 0 <= i < |k| ==> buf[2 + 2 * i] == k[i].to && buf[3 + 2 * i] == k[i].cost
  {
    var p := Pairs(k);
    var buf := front + p + padding;
    assert forall n :: 0 <= n < |p| ==> buf[2 + n] == p[n];
    forall i | 0 <= i < |k|
      ensures buf[2 + 2 * i] == k[i].to && buf[3 + 2 * i] == k[i].cost
    {
      PairAt(k, i);
      var n := 2 * i;
      assert buf[2 + n] == p[n] && buf[2 + (n + 1)] == p[n + 1];
    }
  }

  lemma {:induction false} KeptIsPacked(t: seq<Column>, dest: Address)
    requires Unique(t)
    ensures Unique(Kept(t, dest)) && AdView(Kept(t, dest)) == Pack(View(t), dest)
    ensures forall d :: Has(Kept(t, dest), d) ==> Has(t, d)
    decreases |t|
  {
    if t != [] {
      var init, last := t[..|t| - 1], t[|t| - 1];
      KeptIsPacked(init, dest);
      LastIsNew(t);
      KeptOneMore(t, dest);
      KeptStep(init, last, Kept(init, dest), dest);
    }
  }

  /** One column more, in the table and, unless it leads through the receiver, in what is kept of it. */
  lemma KeptStep(init: seq<Column>, last: Column, k: seq<Column>, dest: Address)
    requires !Has(init, last.to) && Unique(k) && AdView(k) == Pack(View(init), dest)
    requires forall d :: Has(k, d) ==> Has(init, d)
    ensures var k' := if last.via != dest then k + [last] else k;
      && Unique(k') && AdView(k') == Pack(View(init + [last]), dest)
      && forall d :: Has(k', d) ==> Has(init + [last], d)
  {
    var k' := if last.via != dest then k + [last] else k;
    ViewOfAppend(init, last);
    PackOneMore(View(init), last.to, Route(last.via, last.cost), dest);
    if last.via != dest {
      ViewOfAppend(k, last);
      UniqueAppend(k, last);
    }
    forall d: Address | Has(k', d)
      ensures Has(init + [last], d)
    {
      FindAppend(init, last, d);
      FindAppend(k, last, d);
    }
  }

  lemma PackOneMore(t: Table, d: Address, r: Route, dest: Address)
    requires d !in t
    ensures Pack(t[d := r], dest) == if r.via != dest then Pack(t, dest)[d := r.cost] else Pack(t, dest)
  {
  }

  lemma SameAdView(t: seq<Column>, u: seq<Column>)
    requires |t| == |u| && forall i :: 0 <= i < |t| ==> t[i].to == u[i].to && t[i].cost == u[i].cost
    ensures AdView(t) == AdView(u) && (Unique(t) ==> Unique(u))
  {
  }

  /** A table without double entries has at most 256 of them. */
  lemma {:induction false} AtMost(t: seq<Column>, bound: nat)
    requires Unique(t) && forall i :: 0 <= i < |t| ==> t[i].to < bound
    ensures |t| <= bound
    decreases bound
  {
    if t != [] {
      assert t[0].to < bound;
      if bound <= 0x100 && Has(t, bound - 1) {
        var i := Find(t, bound - 1);
        AtMost(t[..i] + t[i + 1..], bound - 1);
      } else {
        AtMost(t, bound - 1);
      }
    }
  }

  /** An advertisement crosses the network as a map: what arrives is the sender's split-horizon view. */
  lemma AdvertRoundTrip(t: seq<Column>, dest: Address, before: seq<Column>, padding: seq<byte>)
    requires Unique(t)
    ensures var buf := PackBytes(t, dest) + padding;
      && |buf| >= 2 && |buf| >= 2 + 2 * Count(buf)
      && Unique(Unpack(before, buf)) && AdView(Unpack(before, buf)) == Pack(View(t), dest)
  {
    AtMost(t, 0x100);
    BytesRoundTrip(t, dest, before, padding);
    KeptIsPacked(t, dest);
    SameAdView(Kept(t, dest), Unpack(before, PackBytes(t, dest) + padding));
  }

  // ----- the table object -----

  class DistanceVectorTable {
    var data: seq<Column>

    constructor ()
      ensures data == []
    {
      data := [];
    }

    method Add(to: Address, via: Address, cost: byte)
      modifies this
      ensures data == old(data) + [Column(to, via, cost)]
    {
      data := data + [Column(to, via, cost)];
    }

    /** std::find_if by destination. */
    method FindIndex(to: Address) returns (i: nat)
      ensures i == Find(data, to)
    {
      i := 0;
      while i < |data| && data[i].to != to
        invariant i <= |data| && forall j :: 0 <= j < i ==> data[j].to != to
      {
        i := i + 1;
      }
    }

    method SetViaInfinity(via: Address)
      modifies this
      ensures View(data) == LoseVia(old(View(data)), via)
      ensures old(Unique(data)) ==> Unique(data)
    {
      for i := 0 to |data|
        invariant |data| == |old(data)|
        invariant forall j :: 0 <= j < |data| ==>
          data[j] == if j < i && old(data)[j].via == via then old(data)[j].(cost := INF_COST) else old(data)[j]
      {
        if data[i].via == via {
          data := data[i := data[i].(cost := INF_COST)];
        }
      }
      LoseViaInPlace(old(data), data, via);
    }

    method PackAdvertisment(dest: Address) returns (buf: seq<byte>)
      ensures buf == PackBytes(data, dest)
    {
      hide CountBytes, Kept, Pairs;
      KeptNone(dest);
      var size := 0;
      buf := [0, 0];
      for i := 0 to |data|
        invariant size == |Kept(data[..i], dest)| % 0x1_0000 && buf == [0, 0] + Pairs(Kept(data[..i], dest))
      {
        ghost var k := Kept(data[..i], dest);
        KeptOneMore(data[..i + 1], dest);
        assert data[..i + 1][..i] == data[..i];
        if data[i].via != dest {
          buf := buf + [data[i].to, data[i].cost];
          CountOneMore(|k|);
          size := (size + 1) % 0x1_0000;
          PairsOneMore(k, data[i]);
        }
      }
      assert data[..|data|] == data;
      CountWraps(|Kept(data, dest)|);
      buf := CountBytes(size) + buf[2..];
    }

    method UnpackAdvertisment(buf: seq<byte>)
      requires |buf| >= 2 && |buf| >= 2 + 2 * Count(buf)
      modifies this
      ensures data == Unpack(old(data), buf)
    {
      hide Count, Unpack;
      var size := Count(buf);
      if |data| != size {
        data := if size <= |data| then data[..size] else data + seq(size - |data|, _ => Column(0, 0, 0));
      }
      ghost var target := Unpack(old(data), buf);
      UnpackedColumns(old(data), buf);
      var i := 2;
      for k := 0 to |data|
        invariant i == 2 + 2 * k && |data| == size
        invariant forall j :: 0 <= j < k ==> data[j] == target[j]
        invariant forall j :: k <= j < size ==> data[j].via == target[j].via
      {
        assert target[k].to == buf[i] && target[k].cost == buf[i + 1];
        data := data[k := data[k].(to := buf[i], cost := buf[i + 1])];
        i := i + 2;
      }
      assert data == target;
    }

    /** The in-place update, one advertised column after another. */
    method Update(sender: Address, advert: DistanceVectorTable) returns (changed: bool)
      requires advert != this
      modifies this
      ensures (data, changed) == UpdateAll(old(data), sender, advert.data)
    {
      changed := false;
      for k := 0 to |advert.data|
        invariant (data, changed) == UpdateAll(old(data), sender, advert.data[..k])
      {
        var c := advert.data[k];
        assert advert.data[..k + 1][..k] == advert.data[..k];
        var cost := if c.cost < INF_COST then c.cost + HOP_COST else INF_COST;
        var i := FindIndex(c.to);
        if i == |data| {
          Add(c.to, sender, cost);
          changed := true;
        } else if cost < data[i].cost || (sender == data[i].via && cost != data[i].cost) {
          data := data[i := data[i].(via := sender, cost := cost)];
          changed := true;
        }
      }
      assert advert.data[..|advert.data|] == advert.data;
    }

    method FindTo(to: Address) returns (c: Option<Column>)
      ensures c.Some? <==> to in View(data)
      ensures c.Some? ==> c.value == Column(to, View(data)[to].via, View(data)[to].cost)
    {
      var i := FindIndex(to);
      c := if i < |data| then Some(data[i]) else None;
    }

    /** Always a new entry at the end; the first one for a destination is the one that is found. */
    method AddLocalMip(mip: Address)
      modifies this
      ensures View(data) == if old(Has(data, mip)) then old(View(data)) else old(View(data))[mip := Route(mip, 0)]
      ensures Unique(data) <==> old(Unique(data) && !Has(data, mip))
      ensures data == old(data) + [Column(mip, mip, 0)]
    {
      LocalAppended(data, mip);
      Add(mip, mip, 0);
    }

    method AddArpDiscovery(mip: Address)
      modifies this
      ensures View(data) == Discover(old(View(data)), mip)
      ensures old(Unique(data)) ==> Unique(data)
    {
      var i := FindIndex(mip);
      if i == |data| {
        ViewOfAppend(data, Column(mip, mip, HOP_COST));
        if Unique(data) {
          UniqueAppend(data, Column(mip, mip, HOP_COST));
        }
        Add(mip, mip, HOP_COST);
      } else {
        ViewOfChange(data, i, mip, HOP_COST);
        data := data[i := data[i].(via := mip, cost := HOP_COST)];
      }
    }
  }

  lemma LocalAppended(t: seq<Column>, mip: Address)
    ensures var u := t + [Column(mip, mip, 0)];
      && View(u) == (if Has(t, mip) then View(t) else View(t)[mip := Route(mip, 0)])
      && (Unique(u) <==> Unique(t) && !Has(t, mip))
  {
    var u := t + [Column(mip, mip, 0)];
    if Has(t, mip) {
      ViewOfSecond(t, Column(mip, mip, 0));
    } else {
      ViewOfAppend(t, Column(mip, mip, 0));
      assert forall j :: 0 <= j < |t| ==> u[j] == t[j];
      if Unique(t) {
        UniqueAppend(t, Column(mip, mip, 0));
      }
    }
  }

  lemma CountOneMore(n: nat)
    ensures (n % 0x1_0000 + 1) % 0x1_0000 == (n + 1) % 0x1_0000
  {
  }

  /** The 16-bit counter wraps around as its two bytes do. */
  lemma CountWraps(n: nat)
    ensures CountBytes(n % 0x1_0000) == CountBytes(n)
  {
    var q, r := n / 0x1_0000, n % 0x1_0000;
    assert n == 0x100 * (0x100 * q + r / 0x100) + r % 0x100;
    assert n / 0x100 == 0x100 * q + r / 0x100;
  }

  lemma KeptNone(dest: Address)
    ensures Kept([], dest) == [] && Pairs([]) == []
  {
  }

  lemma KeptOneMore(t: seq<Column>, dest: Address)
    requires t != []
    ensures var k, last := Kept(t[..|t| - 1], dest), t[|t| - 1];
      Kept(t, dest) == if last.via != dest then k + [last] else k
  {
  }

  lemma PairsOneMore(cols: seq<Column>, c: Column)
    ensures Pairs(cols + [c]) == Pairs(cols) + [c.to, c.cost]
  {
  }

  lemma LoseViaInPlace(t: seq<Column>, u: seq<Column>, via: Address)
    requires |u| == |t|
    requires forall j :: 0 <= j < |t| ==> u[j] == if t[j].via == via then t[j].(cost := INF_COST) else t[j]
    ensures (Unique(t) ==> Unique(u)) && View(u) == LoseVia(View(t), via)
  {
    forall d: Address
      ensures Has(u, d) <==> Has(t, d)
      ensures Has(t, d) ==>
                Entry(u, d) == if Entry(t, d).via == via then Entry(t, d).(cost := INF_COST) else Entry(t, d)
    {
      SameDestsFind(t, u, d);
    }
    hide Has, Entry;
  }
}
