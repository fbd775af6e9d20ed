/** The routing daemon object: neighbour list, table, update queue, lookup queue and their handlers. */
module RoutingDaemon {
  import opened Wire
  import opened Routes
  import opened DistanceVector
  import opened RoutingNode

  /** An advertisement handed to the MIP daemon: for whom, and its bytes. */
  datatype Out = Out(to: Address, bytes: seq<byte>)

  /** What one queued item makes the update thread send: one packed table for each neighbour it reaches. */
  function Sends(data: seq<Column>, neighbours: seq<Address>, item: Update): seq<Out> {
    if neighbours == [] then [] else
    var last := neighbours[|neighbours| - 1];
    Sends(data, neighbours[..|neighbours| - 1], item) +
    if Reaches(item, last) then [Out(last, PackBytes(data, last))] else []
  }

  class Daemon {
    var neighbours: seq<Address>
    const table: DistanceVectorTable
    const advertTable: DistanceVectorTable
    var updates: seq<Update>
    var lookups: seq<Address>
    // what it has written to its sockets
    var sent: seq<Out>
    var answers: seq<Option<Address>>

    ghost predicate Valid()
      reads this, table
    {
      table != advertTable
    }

    ghost function Abs(): Router
      reads this, table
    {
      Router(View(table.data), neighbours, updates)
    }

    constructor ()
      ensures Valid() && Abs() == Router(map[], [], []) && lookups == [] && sent == [] && answers == []
      ensures Unique(table.data)
      ensures fresh(table) && fresh(advertTable)
    {
      neighbours, updates, lookups, sent, answers := [], [], [], [], [];
      table := new DistanceVectorTable();
      advertTable := new DistanceVectorTable();
    }

    method FindNeighbour(mip: Address) returns (i: nat)
      ensures i <= |neighbours| && (i < |neighbours| <==> mip in neighbours)
      ensures i < |neighbours| ==> neighbours[i] == mip && mip !in neighbours[..i]
    {
      i := 0;
      while i < |neighbours| && neighbours[i] != mip
        invariant i <= |neighbours| && mip !in neighbours[..i]
      {
        i := i + 1;
      }
    }

    method AddUpdateQueue(exclude: bool, mip: Address)
      modifies this`updates
      ensures updates == old(updates) + [Update(exclude, mip)]
    {
      updates := updates + [Update(exclude, mip)];
    }

    /** One notice of each kind from the MIP daemon. A local address already in the table gets a second entry. */
    method ReceiveLocalMip(mip: Address)
      requires Valid()
      modifies table
      ensures Valid()
      ensures mip !in old(Abs()).table ==> Abs() == old(Abs()).(table := old(View(table.data))[mip := Route(mip, 0)])
      ensures mip in old(Abs()).table ==> Abs() == old(Abs())
      ensures Unique(table.data) <==> old(Unique(table.data)) && mip !in old(Abs()).table
    {
      table.AddLocalMip(mip);
    }

    method ReceiveArpDiscovery(mip: Address)
      requires Valid()
      modifies this`neighbours, this`updates, table
      ensures Valid() && Abs() == OnDiscovery(old(Abs()), mip)
      ensures old(Unique(table.data)) ==> Unique(table.data)
    {
      var i := FindNeighbour(mip);
      if i == |neighbours| {
        neighbours := neighbours + [mip];
        table.AddArpDiscovery(mip);
        AddUpdateQueue(false, mip);
      }
    }

    method ReceiveLostConnection(mip: Address)
      requires Valid()
      modifies this`neighbours, this`updates, table
      ensures Valid() && Abs() == OnLoss(old(Abs()), mip)
      ensures old(Unique(table.data)) ==> Unique(table.data)
    {
      var i := FindNeighbour(mip);
      if i < |neighbours| {
        EraseFirst(neighbours, mip, i);
        neighbours := neighbours[..i] + neighbours[i + 1..];
        table.SetViaInfinity(mip);
        AddUpdateQueue(false, mip);
      }
    }

    /**
     * An advertisement as it came off the wire. One that names no destination twice is taken as a map; any
     * other entry by entry, in order, and the table keeps its destinations unique either way.
     */
    method ReceiveAdvertisement(sender: Address, buf: seq<byte>)
      requires Valid() && |buf| >= 2 && |buf| >= 2 + 2 * Count(buf)
      modifies this`updates, table, advertTable
      ensures Valid() && (old(Unique(table.data)) ==> Unique(table.data))
      ensures var ad := Unpack(old(advertTable.data), buf);
        && (table.data, updates != old(updates)) == UpdateAll(old(table.data), sender, ad)
        && updates == old(updates) + (if updates != old(updates) then [Update(true, sender)] else [])
        && (Unique(ad) ==> Abs() == OnAdvert(old(Abs()), sender, AdView(ad)))
    {
      advertTable.UnpackAdvertisment(buf);
      if Unique(table.data) {
        UpdateAllUnique(table.data, sender, advertTable.data);
      }
      if Unique(advertTable.data) {
        UpdateRelaxes(table.data, sender, advertTable.data);
      }
      var changed := table.Update(sender, advertTable);
      if changed {
        AddUpdateQueue(true, sender);
      }
    }

    /** Send to every neighbour, or to every neighbour but one. */
    method SendAdvertisment(item: Update)
      modifies this`sent
      ensures sent == old(sent) + Sends(table.data, neighbours, item)
    {
      hide PackBytes;
      for i := 0 to |neighbours|
        invariant sent == old(sent) + Sends(table.data, neighbours[..i], item)
      {
        assert neighbours[..i + 1][..i] == neighbours[..i];
        if !item.exclude || neighbours[i] != item.mip {
          var buf := table.PackAdvertisment(neighbours[i]);
          sent := sent + [Out(neighbours[i], buf)];
        }
      }
      assert neighbours[..|neighbours|] == neighbours;
    }

    /** One turn of the update thread. */
    method UpdateThread()
      requires Valid() && updates != []
      modifies this`updates, this`sent
      ensures Valid() && Abs() == OnSent(old(Abs()))
      ensures sent == old(sent) + Sends(table.data, neighbours, old(updates)[0])
    {
      var item := updates[0];
      updates := updates[1..];
      SendAdvertisment(item);
    }

    method ReceiveLookupSock(mip: Address)
      modifies this`lookups
      ensures lookups == old(lookups) + [mip]
    {
      lookups := lookups + [mip];
    }

    /** One turn of the lookup thread: the oldest request is answered with the next hop, if there is a route. */
    method LookupThread()
      requires lookups != []
      modifies this`lookups, this`answers
      ensures lookups == old(lookups)[1..]
      ensures var t, mip := View(table.data), old(lookups)[0];
        answers == old(answers) + [if mip in t then Some(t[mip].via) else None]
    {
      var mip := lookups[0];
      lookups := lookups[1..];
      var column := table.FindTo(mip);
      answers := answers + [if column.Some? then Some(column.value.via) else None];
    }
  }

  lemma {:induction false} EraseFirst(s: seq<Address>, a: Address, i: nat)
    requires i < |s| && s[i] == a && a !in s[..i]
    ensures Without(s, a) == s[..i] + s[i + 1..]
  {
    if i > 0 {
      assert s[0] in s[..i];
      assert s[1..][..i - 1] == s[..i][1..];
      EraseFirst(s[1..], a, i - 1);
    }
  }

  lemma {:induction false} UpdateAllUnique(t: seq<Column>, sender: Address, ad: seq<Column>)
    requires Unique(t)
    ensures Unique(UpdateAll(t, sender, ad).0)
    decreases |ad|
  {
    if ad != [] {
      UpdateAllUnique(t, sender, ad[..|ad| - 1]);
      UpdateOneRelaxes(UpdateAll(t, sender, ad[..|ad| - 1]).0, sender, ad[|ad| - 1]);
    }
  }

  /** Exactly the neighbours the item reaches are sent to, and each message holds the sender's split-horizon view. */
  lemma {:induction false} SentViews(data: seq<Column>, neighbours: seq<Address>, item: Update,
        before: seq<Column>, padding: seq<byte>)
    requires Unique(data)
    ensures forall o :: o in Sends(data, neighbours, item) ==>
      && o.to in neighbours && Reaches(item, o.to)
      && var buf := o.bytes + padding;
         && |buf| >= 2 && |buf| >= 2 + 2 * Count(buf)
         && AdView(Unpack(before, buf)) == Pack(View(data), o.to)
    ensures forall n ::
      n in neighbours && Reaches(item, n) ==> Out(n, PackBytes(data, n)) in Sends(data, neighbours, item)
    decreases |neighbours|
  {
    if neighbours != [] {
      var init, last := neighbours[..|neighbours| - 1], neighbours[|neighbours| - 1];
      SentViews(data, init, item, before, padding);
      AdvertRoundTrip(data, last, before, padding);
      assert neighbours == init + [last];
    }
  }
}
