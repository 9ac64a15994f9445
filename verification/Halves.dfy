/** Splitting, cloning, reuniting and reconnecting handles: where every half comes from. */
module Halves {
  import opened Messages

  /** The ends of a connection's two channels and its task; a connection is known by its number. */
  datatype Sender = Sender(connection: nat)
  datatype Receiver = Receiver(connection: nat)
  datatype Task = Task(connection: nat)

  /** A shared terminal-error slot, known only by its address: what `Arc::ptr_eq` compares. */
  datatype Slot = Slot(address: nat)

  /** What a connection was configured with; none of it is looked at here. */
  datatype Settings = Settings(url: string, options: nat, codec: nat, handler: nat)

  datatype Socketeer = Socketeer(settings: Settings, receiver: Receiver, sender: Sender, task: Task, slot: Slot)

  datatype SocketeerTx = SocketeerTx(sender: Sender, codec: nat, slot: Slot)

  datatype SocketeerRx = SocketeerRx(
    receiver: Receiver, codec: nat, slot: Slot, task: Task, url: string, options: nat, handler: nat)

  datatype ReuniteError = ReuniteError(tx: SocketeerTx, rx: SocketeerRx)

  function Split(h: Socketeer): (SocketeerTx, SocketeerRx) {
    (SocketeerTx(h.sender, h.settings.codec, h.slot),
     SocketeerRx(h.receiver, h.settings.codec, h.slot, h.task, h.settings.url, h.settings.options, h.settings.handler))
  }

  function CloneTx(tx: SocketeerTx): SocketeerTx {
    SocketeerTx(tx.sender, tx.codec, tx.slot)
  }

  function FromParts(url: string, options: nat, codec: nat, handler: nat, receiver: Receiver, sender: Sender,
      task: Task, slot: Slot): Socketeer
  {
    Socketeer(Settings(url, options, codec, handler), receiver, sender, task, slot)
  }

  /** Only the slots' addresses are compared. */
  function Reunite(rx: SocketeerRx, tx: SocketeerTx): Result<Socketeer, ReuniteError> {
    if rx.slot == tx.slot then
      Ok(FromParts(rx.url, rx.options, rx.codec, rx.handler, rx.receiver, tx.sender, rx.task, rx.slot))
    else
      Err(ReuniteError(tx, rx))
  }

  // ----- a program that uses handles

  datatype Handle = Whole(h: Socketeer) | TxHalf(tx: SocketeerTx) | RxHalf(rx: SocketeerRx) | Gone

  /** The handles of a program, and every connection ever made, in order, as it was first returned. */
  datatype World = World(handles: seq<Handle>, connections: seq<Socketeer>)

  /** An address may be reused once no live handle refers to it any more. */
  datatype Op =
    | Connect(settings: Settings, address: nat)
    | SplitAt(i: nat)
    | CloneAt(i: nat)
    | ReuniteAt(rx: nat, tx: nat)
    | ReconnectAt(i: nat, succeeds: bool, handler: nat, address: nat)
    | DropAt(i: nat)

  function SlotOf(h: Handle): Option<Slot> {
    match h
    case Whole(s) => Some(s.slot)
    case TxHalf(tx) => Some(tx.slot)
    case RxHalf(rx) => Some(rx.slot)
    case Gone => None
  }

  /** The connection a handle's channel end belongs to. */
  function ConnectionOf(h: Handle): nat {
    match h
    case Whole(s) => s.receiver.connection
    case TxHalf(tx) => tx.sender.connection
    case RxHalf(rx) => rx.receiver.connection
    case Gone => 0
  }

  predicate OwnsReceiver(h: Handle) {
    h.Whole? || h.RxHalf?
  }

  predicate AddressFree(w: World, address: nat) {
    forall h :: h in w.handles ==> SlotOf(h) != Some(Slot(address))
  }

  function NewConnection(w: World, settings: Settings, address: nat): Socketeer {
    var n := |w.connections|;
    Socketeer(settings, Receiver(n), Sender(n), Task(n), Slot(address))
  }

  function StepWorld(w: World, op: Op): World {
    match op
    case Connect(settings, address) =>
      if !AddressFree(w, address) then w
      else
        var h := NewConnection(w, settings, address);
        World(w.handles + [Whole(h)], w.connections + [h])
    case SplitAt(i) =>
      if i >= |w.handles| || !w.handles[i].Whole? then w
      else
        var (tx, rx) := Split(w.handles[i].h);
        w.(handles := w.handles[i := RxHalf(rx)] + [TxHalf(tx)])
    case CloneAt(i) =>
      if i >= |w.handles| || !w.handles[i].TxHalf? then w
      else w.(handles := w.handles + [TxHalf(CloneTx(w.handles[i].tx))])
    case ReuniteAt(i, j) =>
      if i >= |w.handles| || j >= |w.handles| || !w.handles[i].RxHalf? || !w.handles[j].TxHalf? then w
      else
        (match Reunite(w.handles[i].rx, w.handles[j].tx)
         case Ok(h) => w.(handles := w.handles[i := Whole(h)][j := Gone])
         case Err(e) => w.(handles := w.handles[i := RxHalf(e.rx)][j := TxHalf(e.tx)]))
    case ReconnectAt(i, succeeds, handler, address) =>
      if i >= |w.handles| || !w.handles[i].Whole? then w
      else if !succeeds || !AddressFree(w, address) then w.(handles := w.handles[i := Gone])
      else
        var h := NewConnection(w, w.handles[i].h.settings.(handler := handler), address);
        World(w.handles[i := Whole(h)], w.connections + [h])
    case DropAt(i) =>
      if i >= |w.handles| then w else w.(handles := w.handles[i := Gone])
  }

  function RunWorld(ops: seq<Op>): World {
    if |ops| == 0 then World([], []) else StepWorld(RunWorld(ops[..|ops| - 1]), ops[|ops| - 1])
  }

  /** A handle is a connection as it was first returned, or one of the two halves of it. */
  ghost predicate Genuine(connections: seq<Socketeer>, h: Handle) {
    h.Gone? ||
    (ConnectionOf(h) < |connections| &&
     var original := connections[ConnectionOf(h)];
     match h
     case Whole(s) => s == original
     case TxHalf(tx) => tx == Split(original).0
     case RxHalf(rx) => rx == Split(original).1
     case Gone => true)
  }

  ghost predicate Consistent(s: Socketeer, n: nat) {
    s.receiver == Receiver(n) && s.sender == Sender(n) && s.task == Task(n)
  }

  /** A shared slot means a shared connection. */
  ghost predicate SlotsAgree(h: Handle, k: Handle) {
    SlotOf(h).Some? && SlotOf(h) == SlotOf(k) ==> ConnectionOf(h) == ConnectionOf(k)
  }

  /** A connection's receiver has one owner. */
  ghost predicate ReceiversApart(h: Handle, k: Handle) {
    OwnsReceiver(h) && OwnsReceiver(k) ==> ConnectionOf(h) != ConnectionOf(k)
  }

  ghost predicate HandlesInv(handles: seq<Handle>, connections: seq<Socketeer>) {
    && (forall i :: 0 <= i < |handles| ==> Genuine(connections, handles[i]))
    && (forall i, j :: 0 <= i < |handles| && 0 <= j < |handles| ==> SlotsAgree(handles[i], handles[j]))
    && (forall i, j :: 0 <= i < j < |handles| ==> ReceiversApart(handles[i], handles[j]))
  }

  ghost predicate WorldInv(w: World) {
    && (forall n :: 0 <= n < |w.connections| ==> Consistent(w.connections[n], n))
    && HandlesInv(w.handles, w.connections)
  }

  /** A new handle fits in if it fits with every handle there is. */
  lemma AddKeeps(handles: seq<Handle>, connections: seq<Socketeer>, h: Handle)
    requires HandlesInv(handles, connections) && Genuine(connections, h)
    requires forall i :: 0 <= i < |handles| ==>
        SlotsAgree(handles[i], h) && SlotsAgree(h, handles[i]) && ReceiversApart(handles[i], h)
    ensures HandlesInv(handles + [h], connections)
  {
    hide Genuine, SlotsAgree, ReceiversApart;
    assert SlotsAgree(h, h) by { SlotsAgreeWithSelf(h); }
  }

  lemma SlotsAgreeWithSelf(h: Handle)
    ensures SlotsAgree(h, h)
  {
  }

  /** A handle may be replaced by one that fits with all the others. */
  lemma PutKeeps(handles: seq<Handle>, connections: seq<Socketeer>, n: nat, h: Handle)
    requires HandlesInv(handles, connections) && Genuine(connections, h) && n < |handles|
    requires forall i :: 0 <= i < |handles| && i != n ==> SlotsAgree(handles[i], h) && SlotsAgree(h, handles[i])
    requires forall i :: 0 <= i < |handles| && i != n ==> ReceiversApart(handles[i], h) && ReceiversApart(h, handles[i])
    ensures HandlesInv(handles[n := h], connections)
  {
    hide Genuine, SlotsAgree, ReceiversApart;
    assert SlotsAgree(h, h) by { SlotsAgreeWithSelf(h); }
  }

  /** Connecting once more leaves every handle genuine. */
  lemma GrowKeeps(handles: seq<Handle>, connections: seq<Socketeer>, h: Socketeer)
    requires HandlesInv(handles, connections)
    ensures HandlesInv(handles, connections + [h])
  {
  }

  /** A connection made at a free address fits with every handle there is. */
  lemma FreshFits(w: World, settings: Settings, address: nat, k: Handle)
    requires WorldInv(w) && k in w.handles && AddressFree(w, address)
    ensures var h := Whole(NewConnection(w, settings, address));
            SlotsAgree(k, h) && SlotsAgree(h, k) && ReceiversApart(k, h) && ReceiversApart(h, k)
  {
    var i :| 0 <= i < |w.handles| && w.handles[i] == k;
    assert Genuine(w.connections, w.handles[i]);
  }

  lemma ConnectKeeps(w: World, settings: Settings, address: nat)
    requires WorldInv(w) && AddressFree(w, address)
    ensures WorldInv(StepWorld(w, Connect(settings, address)))
  {
    var h := NewConnection(w, settings, address);
    GrowKeeps(w.handles, w.connections, h);
    forall i | 0 <= i < |w.handles|
      ensures SlotsAgree(w.handles[i], Whole(h)) && SlotsAgree(Whole(h), w.handles[i])
          && ReceiversApart(w.handles[i], Whole(h))
    {
      FreshFits(w, settings, address, w.handles[i]);
    }
    hide SlotsAgree, ReceiversApart;
    AddKeeps(w.handles, w.connections + [h], Whole(h));
  }

  lemma GoneKeeps(handles: seq<Handle>, connections: seq<Socketeer>, n: nat)
    requires HandlesInv(handles, connections) && n < |handles|
    ensures HandlesInv(handles[n := Gone], connections)
  {
    PutKeeps(handles, connections, n, Gone);
  }

  lemma ReconnectKeeps(w: World, n: nat, settings: Settings, address: nat)
    requires WorldInv(w) && AddressFree(w, address) && n < |w.handles|
    ensures var h := NewConnection(w, settings, address);
            WorldInv(World(w.handles[n := Whole(h)], w.connections + [h]))
  {
    var h := NewConnection(w, settings, address);
    GrowKeeps(w.handles, w.connections, h);
    forall i | 0 <= i < |w.handles|
      ensures SlotsAgree(w.handles[i], Whole(h)) && SlotsAgree(Whole(h), w.handles[i])
      ensures ReceiversApart(w.handles[i], Whole(h)) && ReceiversApart(Whole(h), w.handles[i])
    {
      FreshFits(w, settings, address, w.handles[i]);
    }
    hide SlotsAgree, ReceiversApart;
    PutKeeps(w.handles, w.connections + [h], n, Whole(h));
  }

  /** A half fits wherever the handle it comes from fits. */
  lemma SplitKeeps(w: World, n: nat)
    requires WorldInv(w) && n < |w.handles| && w.handles[n].Whole?
    ensures WorldInv(StepWorld(w, SplitAt(n)))
  {
    var (tx, rx) := Split(w.handles[n].h);
    assert Genuine(w.connections, w.handles[n]);
    forall i | 0 <= i < |w.handles|
      ensures SlotsAgree(w.handles[i], TxHalf(tx)) && SlotsAgree(TxHalf(tx), w.handles[i])
          && ReceiversApart(w.handles[i], TxHalf(tx))
    {
      assert SlotsAgree(w.handles[i], w.handles[n]);
    }
    AddKeeps(w.handles, w.connections, TxHalf(tx));
    var more := w.handles + [TxHalf(tx)];
    forall i | 0 <= i < |more| && i != n
      ensures SlotsAgree(more[i], RxHalf(rx)) && SlotsAgree(RxHalf(rx), more[i])
      ensures ReceiversApart(more[i], RxHalf(rx)) && ReceiversApart(RxHalf(rx), more[i])
    {
      assert SlotsAgree(more[i], more[n])
          && (if i < n then ReceiversApart(more[i], more[n]) else ReceiversApart(more[n], more[i]));
    }
    PutKeeps(more, w.connections, n, RxHalf(rx));
    assert more[n := RxHalf(rx)] == w.handles[n := RxHalf(rx)] + [TxHalf(tx)];
  }

  lemma CloneKeeps(w: World, n: nat)
    requires WorldInv(w) && n < |w.handles| && w.handles[n].TxHalf?
    ensures WorldInv(StepWorld(w, CloneAt(n)))
  {
    forall i | 0 <= i < |w.handles|
      ensures SlotsAgree(w.handles[i], w.handles[n]) && SlotsAgree(w.handles[n], w.handles[i])
          && ReceiversApart(w.handles[i], w.handles[n])
    {
    }
    AddKeeps(w.handles, w.connections, w.handles[n]);
  }

  /** Halves that share a slot are the halves of one connection, and reuniting them gives it back. */
  lemma ReuniteRebuilds(w: World, i: nat, j: nat)
    requires WorldInv(w) && i < |w.handles| && j < |w.handles| && w.handles[i].RxHalf? && w.handles[j].TxHalf?
    ensures var rx, tx := w.handles[i].rx, w.handles[j].tx;
            && rx.receiver.connection < |w.connections|
            && (Reunite(rx, tx).Ok? <==> rx.receiver.connection == tx.sender.connection)
            && Reunite(rx, tx) == if rx.receiver.connection == tx.sender.connection
                                  then Ok(w.connections[rx.receiver.connection]) else Err(ReuniteError(tx, rx))
  {
    assert Genuine(w.connections, w.handles[i]) && Genuine(w.connections, w.handles[j]);
    assert SlotsAgree(w.handles[i], w.handles[j]);
  }

  lemma ReuniteKeeps(w: World, i: nat, j: nat)
    requires WorldInv(w) && i < |w.handles| && j < |w.handles| && w.handles[i].RxHalf? && w.handles[j].TxHalf?
    ensures WorldInv(StepWorld(w, ReuniteAt(i, j)))
  {
    ReuniteRebuilds(w, i, j);
    var r := Reunite(w.handles[i].rx, w.handles[j].tx);
    if r.Ok? {
      var h := Whole(r.value);
      assert Genuine(w.connections, w.handles[i]);
      forall k | 0 <= k < |w.handles| && k != i
        ensures SlotsAgree(w.handles[k], h) && SlotsAgree(h, w.handles[k])
        ensures ReceiversApart(w.handles[k], h) && ReceiversApart(h, w.handles[k])
      {
        assert SlotsAgree(w.handles[k], w.handles[i]);
        assert if k < i then ReceiversApart(w.handles[k], w.handles[i]) else ReceiversApart(w.handles[i], w.handles[k]);
      }
      PutKeeps(w.handles, w.connections, i, h);
      GoneKeeps(w.handles[i := h], w.connections, j);
    } else {
      assert w.handles[i := w.handles[i]][j := w.handles[j]] == w.handles;
    }
  }

  lemma WorldStep(w: World, op: Op)
    requires WorldInv(w)
    ensures WorldInv(StepWorld(w, op))
  {
    hide HandlesInv;
    match op
    case Connect(settings, address) =>
      if AddressFree(w, address) { ConnectKeeps(w, settings, address); }
    case SplitAt(i) =>
      if i < |w.handles| && w.handles[i].Whole? { SplitKeeps(w, i); }
    case CloneAt(i) =>
      if i < |w.handles| && w.handles[i].TxHalf? { CloneKeeps(w, i); }
    case ReuniteAt(i, j) =>
      if i < |w.handles| && j < |w.handles| && w.handles[i].RxHalf? && w.handles[j].TxHalf? { ReuniteKeeps(w, i, j); }
    case ReconnectAt(i, succeeds, handler, address) =>
      if i < |w.handles| && w.handles[i].Whole? {
        GoneKeeps(w.handles, w.connections, i);
        if AddressFree(w, address) { ReconnectKeeps(w, i, w.handles[i].h.settings.(handler := handler), address); }
      }
    case DropAt(i) =>
      if i < |w.handles| { GoneKeeps(w.handles, w.connections, i); }
  }

  lemma {:induction false} WorldReachable(ops: seq<Op>)
    ensures WorldInv(RunWorld(ops))
  {
    hide WorldInv, StepWorld;
    if |ops| == 0 {
      EmptyWorld();
    } else {
      WorldReachable(ops[..|ops| - 1]);
      WorldStep(RunWorld(ops[..|ops| - 1]), ops[|ops| - 1]);
    }
  }

  lemma EmptyWorld()
    ensures WorldInv(World([], []))
  {
  }

  /**
   Over any sequence of connects, splits, clones, reunions, reconnections and drops, whatever
   addresses the allocator reuses: `reunite` succeeds if and only if both halves belong to the same
   connection, whichever clone or earlier split the sender came from. Success gives back the
   connection as it was first returned; failure gives back both halves unchanged.
   */
  lemma ReuniteExactly(ops: seq<Op>, i: nat, j: nat)
    requires var w := RunWorld(ops); i < |w.handles| && j < |w.handles| && w.handles[i].RxHalf? && w.handles[j].TxHalf?
    ensures var w := RunWorld(ops);
            var rx, tx := w.handles[i].rx, w.handles[j].tx;
            && rx.receiver.connection < |w.connections|
            && Reunite(rx, tx) == if rx.receiver.connection == tx.sender.connection
                                  then Ok(w.connections[rx.receiver.connection]) else Err(ReuniteError(tx, rx))
  {
    hide RunWorld;
    WorldReachable(ops);
    ReuniteRebuilds(RunWorld(ops), i, j);
  }

  /**
   Every handle there is, whole or half, over any program: its channel ends, its slot and its task
   are those of one connection, as that connection was first returned; a handle that shares its
   slot has the same connection; and a connection's receiver has no second owner.
   */
  lemma HalvesBelongTogether(ops: seq<Op>, i: nat)
    requires i < |RunWorld(ops).handles| && !RunWorld(ops).handles[i].Gone?
    ensures var w := RunWorld(ops);
            var h, n := w.handles[i], ConnectionOf(w.handles[i]);
            && n < |w.connections| && Consistent(w.connections[n], n)
            && SlotOf(h) == Some(w.connections[n].slot)
            && (match h
                case Whole(s) => s == w.connections[n]
                case TxHalf(tx) =>
                  var o := w.connections[n];
                  tx.sender == o.sender && tx.codec == o.settings.codec && tx.slot == o.slot
                case RxHalf(rx) =>
                  var o := w.connections[n];
                  && rx.receiver == o.receiver && rx.task == o.task && rx.slot == o.slot
                  && rx.codec == o.settings.codec && rx.url == o.settings.url
                  && rx.options == o.settings.options && rx.handler == o.settings.handler
                case Gone => false)
            && (forall k :: 0 <= k < |w.handles| && SlotOf(w.handles[k]) == SlotOf(h) ==>
                  ConnectionOf(w.handles[k]) == n)
            && (forall k :: 0 <= k < |w.handles| && k != i && OwnsReceiver(h) && OwnsReceiver(w.handles[k]) ==>
                  ConnectionOf(w.handles[k]) != n)
  {
    hide RunWorld;
    WorldReachable(ops);
    var w := RunWorld(ops);
    var h := w.handles[i];
    assert Genuine(w.connections, h);
    forall k | 0 <= k < |w.handles|
      ensures SlotOf(w.handles[k]) == SlotOf(h) ==> ConnectionOf(w.handles[k]) == ConnectionOf(h)
      ensures k != i && OwnsReceiver(h) && OwnsReceiver(w.handles[k]) ==> ConnectionOf(w.handles[k]) != ConnectionOf(h)
    {
      assert SlotsAgree(w.handles[k], h);
      assert k == i || if k < i then ReceiversApart(w.handles[k], h) else ReceiversApart(h, w.handles[k]);
    }
  }

  /**
   `connect` returns a handle with the settings it was given, and `reconnect` one with the url, the
   options and the codec of the handle it replaces; both on a connection of its own.
   */
  lemma SettingsCarryOver(ops: seq<Op>, i: nat, settings: Settings, handler: nat, address: nat)
    requires AddressFree(RunWorld(ops), address)
    ensures var w, v := RunWorld(ops), RunWorld(ops + [Connect(settings, address)]);
            && |v.handles| == |w.handles| + 1 && v.handles[|w.handles|].Whole?
            && var h := v.handles[|w.handles|].h;
               h.settings == settings && h.receiver.connection == |w.connections| && h.slot == Slot(address)
    ensures var w, v := RunWorld(ops), RunWorld(ops + [ReconnectAt(i, true, handler, address)]);
            i < |w.handles| && w.handles[i].Whole? ==>
              && |v.handles| == |w.handles| && v.handles[i].Whole?
              && var before, after := w.handles[i].h, v.handles[i].h;
                 && after.settings.url == before.settings.url && after.settings.options == before.settings.options
                 && after.settings.codec == before.settings.codec && after.settings.handler == handler
                 && after.receiver.connection == |w.connections| && after.slot == Slot(address)
  {
    RunAppend(ops, Connect(settings, address));
    RunAppend(ops, ReconnectAt(i, true, handler, address));
  }

  /** The program's other handles are as they were. */
  predicate OthersStay(w: World, v: World, i: nat, j: nat) {
    |w.handles| <= |v.handles| && forall k :: 0 <= k < |w.handles| && k != i && k != j ==> v.handles[k] == w.handles[k]
  }

  /**
   What each operation does with the handles it is given: a split leaves a receive half and one new
   send half, a clone one send half more; a successful reunion consumes the send half; a reconnection
   consumes its handle even if it fails; every other handle stays as it is.
   */
  lemma HandlesMove(w: World, i: nat, j: nat)
    requires i < |w.handles| && j < |w.handles|
    ensures var v := StepWorld(w, SplitAt(i));
            && OthersStay(w, v, i, i) && v.connections == w.connections
            && (w.handles[i].Whole? ==>
                  |v.handles| == |w.handles| + 1 && v.handles[i].RxHalf? && v.handles[|w.handles|].TxHalf?)
    ensures var v := StepWorld(w, CloneAt(i));
            && v.connections == w.connections && w.handles <= v.handles
            && (w.handles[i].TxHalf? ==> v.handles == w.handles + [w.handles[i]])
    ensures w.handles[i].RxHalf? && w.handles[j].TxHalf? ==>
              var v := StepWorld(w, ReuniteAt(i, j));
              && OthersStay(w, v, i, j) && |v.handles| == |w.handles| && v.connections == w.connections
              && if w.handles[i].rx.slot == w.handles[j].tx.slot then v.handles[i].Whole? && v.handles[j].Gone?
                 else v.handles == w.handles
    ensures forall handler, address :: var v := StepWorld(w, ReconnectAt(i, false, handler, address));
              && OthersStay(w, v, i, i) && v.connections == w.connections
              && (w.handles[i].Whole? ==> v.handles[i].Gone?)
    ensures var v := StepWorld(w, DropAt(i));
            OthersStay(w, v, i, i) && v.connections == w.connections && v.handles[i].Gone?
  {
    hide NewConnection, AddressFree;
  }

  /** A half that was made before a reconnection never matches a half of the new connection. */
  lemma OldHalvesNeverMatch(ops: seq<Op>, i: nat, handler: nat, address: nat, j: nat)
    requires var w := RunWorld(ops);
             && i < |w.handles| && w.handles[i].Whole? && AddressFree(w, address)
             && j < |w.handles| && w.handles[j].TxHalf?
    ensures var w := RunWorld(ops + [ReconnectAt(i, true, handler, address)]);
            && i < |w.handles| && w.handles[i].Whole? && j < |w.handles| && w.handles[j] == RunWorld(ops).handles[j]
            && Reunite(Split(w.handles[i].h).1, w.handles[j].tx).Err?
  {
    var w := RunWorld(ops);
    WorldReachable(ops);
    assert (ops + [ReconnectAt(i, true, handler, address)])[..|ops|] == ops;
    assert SlotOf(w.handles[j]) != Some(Slot(address));
  }

  /**
   The documentation asks for halves of the same split; the code does not. A clone left over from an
   earlier split still matches after its siblings were reunited and the handle was split again.
   */
  lemma EarlierCloneStillMatches(settings: Settings, address: nat)
    ensures var w := RunWorld([Connect(settings, address), SplitAt(0), CloneAt(1), ReuniteAt(0, 1), SplitAt(0)]);
            |w.handles| == 4 && w.handles[0].RxHalf? && w.handles[2].TxHalf?
                && Reunite(w.handles[0].rx, w.handles[2].tx).Ok?
  {
    var ops := [Connect(settings, address), SplitAt(0), CloneAt(1), ReuniteAt(0, 1), SplitAt(0)];
    assert ops == [] + [ops[0]] + [ops[1]] + [ops[2]] + [ops[3]] + [ops[4]];
    RunAppend([], ops[0]);
    RunAppend([] + [ops[0]], ops[1]);
    RunAppend([] + [ops[0]] + [ops[1]], ops[2]);
    RunAppend([] + [ops[0]] + [ops[1]] + [ops[2]], ops[3]);
    RunAppend([] + [ops[0]] + [ops[1]] + [ops[2]] + [ops[3]], ops[4]);
  }

  lemma RunAppend(ops: seq<Op>, op: Op)
    ensures RunWorld(ops + [op]) == StepWorld(RunWorld(ops), op)
  {
    assert (ops + [op])[..|ops|] == ops;
  }
}
