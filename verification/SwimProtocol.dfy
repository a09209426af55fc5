/** The protocol object of one node. Sockets, threads and acknowledgement bookkeeping are left out:
    sending returns the message, and the clock is a parameter. */
module SwimProtocols {
  import opened Clock
  import opened Options
  import opened Sequences
  import opened Views
  import opened PiggybackBuffer
  import opened MembershipTable
  import opened MembershipLists
  import opened SwimNode

  class SwimProtocol {
    const myAddress: string
    const maxPiggyback: nat
    const list: MembershipList
    var load: Load

    constructor (id: Id, address: string, max: nat)
      ensures fresh(list) && myAddress == address && maxPiggyback == max
      ensures list.Contents() == Newborn(id, address)
      ensures load == Load(0, 0, "")
    {
      myAddress := address;
      maxPiggyback := max;
      load := Load(0, 0, "");
      list := new MembershipList(id);
      new;
      list.AddMember(id, address);
    }

    method JoinCluster(seeds: seq<string>)
      modifies list
      ensures list.Contents() == AfterJoin(old(list.Contents()), myAddress, seeds)
    {
      for i := 0 to |seeds|
        invariant list.Contents() == AfterJoin(old(list.Contents()), myAddress, seeds[..i])
      {
        assert seeds[..i + 1][..i] == seeds[..i];
        if seeds[i] != myAddress {
          list.AddMember("seed-" + seeds[i], seeds[i]);
        }
      }
      assert seeds[..|seeds|] == seeds;
    }

    method CheckSelfRefutation(update: Update)
      modifies list
      ensures var t := old(list.Contents());
        list.Contents() == if Refutes(t, update) then AfterIncrement(t) else t
    {
      if update.id != list.myId {
        return;
      }
      if update.state == Suspect || update.state == Dead {
        if update.incarnation >= list.myIncarnation {
          list.IncrementMyIncarnation();
        }
      }
    }

    method ProcessPiggybackedUpdates(message: Message, now: int)
      modifies list
      ensures list.Contents() == Processed(old(list.Contents()), message.updates, now)
    {
      var updates := message.updates;
      for i := 0 to |updates|
        invariant list.Contents() == Processed(old(list.Contents()), updates[..i], now)
      {
        assert updates[..i + 1][..i] == updates[..i];
        CheckSelfRefutation(updates[i]);
        var changed, event := list.ApplyUpdate(updates[i], now);
      }
      assert updates[..|updates|] == updates;
    }

    method SendMessage(kind: Kind, target: Id) returns (message: Message)
      modifies list
      ensures message == Composed(old(list.Contents()), kind, target, myAddress, load, maxPiggyback)
      ensures message.sender == list.myId && CarriesNews(message.updates, old(list.buffer), maxPiggyback)
      ensures message.updates[|message.updates| - 1] ==
        Update(list.myId, myAddress, Alive, list.myIncarnation,
               load.modelVersion, load.activeRequests, load.maxCapacity)
      ensures list.Contents() == AfterPiggyback(old(list.Contents()), maxPiggyback)
    {
      var updates := list.GetUpdatesForPiggyback(maxPiggyback);
      var mine := Update(list.myId, myAddress, Alive, list.myIncarnation,
                         load.modelVersion, load.activeRequests, load.maxCapacity);
      message := Message(kind, list.myId, target, updates + [mine]);
    }

    predicate AlivePeer(m: Id)
      reads list
    {
      m in list.members && m != list.myId && list.members[m].state == Alive
    }

    /** The farewell goes to the address of each peer believed alive, and to nobody else. */
    method LeaveCluster() returns (sent: seq<(string, Message)>)
      ensures forall m :: AlivePeer(m) ==> (list.members[m].address, Farewell(list.Contents(), myAddress)) in sent
      ensures forall x :: x in sent ==> x.1 == Farewell(list.Contents(), myAddress) &&
                                        exists m :: AlivePeer(m) && list.members[m].address == x.0
    {
      var peers := list.GetMembersByState(Alive);
      var leaveUpdate := Update(list.myId, myAddress, Dead, list.myIncarnation + 1, "", 0, 0);
      sent := [];
      for i := 0 to |peers|
        invariant |sent| == i
        invariant forall j | 0 <= j < i :: sent[j] == (peers[j].1.address, Farewell(list.Contents(), myAddress))
      {
        sent := sent + [(peers[i].1.address, Message(Ping, list.myId, "", [leaveUpdate]))];
      }
      forall m | AlivePeer(m) ensures (list.members[m].address, Farewell(list.Contents(), myAddress)) in sent {
        assert (m, list.members[m]) in peers;
        var j :| 0 <= j < |peers| && peers[j] == (m, list.members[m]);
        assert sent[j] in sent;
      }
      forall x | x in sent ensures exists m :: AlivePeer(m) && list.members[m].address == x.0 {
        var j :| 0 <= j < |sent| && sent[j] == x;
        assert peers[j] in peers && AlivePeer(peers[j].0);
      }
    }

    method HandleMessage(message: Message, from: string, now: int) returns (reply: Option<Message>)
      modifies list
      ensures list.Contents() ==
        Handled(old(list.Contents()), message, from, myAddress, load, maxPiggyback, now)
      ensures var learned := Greeted(Processed(old(list.Contents()), message.updates, now), message, from);
        reply == Reply(learned, message, myAddress, load, maxPiggyback)
    {
      ProcessPiggybackedUpdates(message, now);
      reply := None;
      match message.kind
      case Ping =>
        if message.sender != "" {
          list.AddMember(message.sender, from);
        }
        var ack := SendMessage(Ack, "");
        reply := Some(ack);
      case PingReq =>
        if message.target in list.members {
          var probe := SendMessage(Ping, "");
          reply := Some(probe);
        }
      case Ack =>
    }

    /** Suspects whose time is up become dead, one after the other, and each death is announced. */
    method CheckSuspectTimeouts(now: int, timeoutMs: int)
      modifies list
      ensures TimedOut(old(list.Contents()), list.Contents(), now, timeoutMs)
    {
      ghost var before := list.Contents();
      var suspects := list.GetMembersByState(Suspect);
      ghost var order: seq<Id> := [];
      for i := 0 to |suspects|
        invariant Distinct(order) && list.Contents() == Buried(before, order)
        invariant forall m :: m in order <==>
          Expired(before, m, now, timeoutMs) && exists j :: 0 <= j < i && suspects[j].0 == m
      {
        var id, info := suspects[i].0, suspects[i].1;
        assert suspects[i] in suspects;
        if ElapsedMs(info.suspectTime, now) >= timeoutMs {
          assert id !in order;
          BurialIsNews(before, order, id);
          var changed, event := list.MarkDead(id);
          order := order + [id];
        }
      }
      forall m | Expired(before, m, now, timeoutMs) ensures m in order {
        assert (m, before.members[m]) in suspects;
        var j :| 0 <= j < |suspects| && suspects[j] == (m, before.members[m]);
        assert suspects[j].0 == m;
      }
    }
  }
}
