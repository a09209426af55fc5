/** The membership table as the object the protocol updates in place. Locking is left out:
    every method is one critical section. */
module MembershipLists {
  import opened Options
  import opened Views
  import opened PiggybackBuffer
  import opened MembershipTable

  class MembershipList {
    const myId: Id
    var myIncarnation: nat
    var members: map<Id, MemberInfo>
    var buffer: seq<Entry<Update>>

    constructor (id: Id)
      ensures myId == id && Contents() == Table(id, 0, map[], [])
    {
      myId := id;
      myIncarnation := 0;
      members := map[];
      buffer := [];
    }

    function Contents(): Table
      reads this
    {
      Table(myId, myIncarnation, members, buffer)
    }

    method QueueUpdate(id: Id, info: MemberInfo)
      modifies this`buffer
      ensures buffer == Push(old(buffer), Announce(id, info))
    {
      var update := Update(id, info.address, info.state, info.incarnation, info.modelVersion,
                           info.activeRequests, info.maxCapacity);
      if |buffer| >= MAX_BUFFER {
        buffer := buffer[1..];
      }
      buffer := buffer + [Entry(update, 0)];
    }

    /** The core conflict resolution. `event` is the callback the caller must run next. */
    method ApplyUpdate(update: Update, now: int) returns (changed: bool, event: Event)
      modifies this
      ensures Contents() == AfterUpdate(old(Contents()), update, now)
      ensures changed == Accepts(old(Contents()), update)
      ensures event == UpdateEvent(old(Contents()), update)
    {
      var id := update.id;
      var oldState := Dead;
      var info := UNSET;
      if id in members {
        info := members[id];
        oldState := info.state;
        if update.incarnation < info.incarnation {
          return false, Quiet;
        } else if update.incarnation == info.incarnation {
          if Rank(update.state) <= Rank(info.state) {
            var loadChanged := false;
            if update.activeRequests != 0 || update.maxCapacity != 0 {
              if info.activeRequests != update.activeRequests || info.maxCapacity != update.maxCapacity {
                loadChanged := true;
              }
              info := info.(activeRequests := update.activeRequests, maxCapacity := update.maxCapacity);
            }
            if update.modelVersion != "" && info.modelVersion != update.modelVersion {
              info := info.(modelVersion := update.modelVersion);
              loadChanged := true;
            }
            members := members[id := info];
            return false, if loadChanged then Fired(id, info.state, info.state) else Quiet;
          }
        }
      }
      info := info.(address := update.address, state := update.state, incarnation := update.incarnation);
      if update.modelVersion != "" {
        info := info.(modelVersion := update.modelVersion);
      }
      if update.activeRequests != 0 || update.maxCapacity != 0 {
        info := info.(activeRequests := update.activeRequests, maxCapacity := update.maxCapacity);
      }
      if update.state == Suspect {
        info := info.(suspectTime := now);
      }
      members := members[id := info];
      QueueUpdate(id, info);
      return true, if update.state != oldState then Fired(id, oldState, update.state) else Quiet;
    }

    method MarkSuspect(id: Id, now: int) returns (changed: bool, event: Event)
      modifies this
      ensures Contents() == AfterSuspect(old(Contents()), id, now)
      ensures changed == CanSuspect(old(Contents()), id)
      ensures event == if changed then Fired(id, Alive, Suspect) else Quiet
    {
      if id !in members || members[id].state != Alive {
        return false, Quiet;
      }
      var oldState := members[id].state;
      members := members[id := members[id].(state := Suspect, suspectTime := now)];
      QueueUpdate(id, members[id]);
      return true, Fired(id, oldState, Suspect);
    }

    method MarkDead(id: Id) returns (changed: bool, event: Event)
      modifies this
      ensures Contents() == AfterDead(old(Contents()), id)
      ensures changed == CanKill(old(Contents()), id)
      ensures event == if changed then Fired(id, old(members)[id].state, Dead) else Quiet
    {
      if id !in members || members[id].state == Dead {
        return false, Quiet;
      }
      var oldState := members[id].state;
      members := members[id := members[id].(state := Dead)];
      QueueUpdate(id, members[id]);
      return true, Fired(id, oldState, Dead);
    }

    method AddMember(id: Id, address: string)
      modifies this
      ensures Contents() == AfterAdd(old(Contents()), id, address)
    {
      if id in members {
        return;
      }
      var info := UNSET.(address := address, state := Alive, incarnation := 0);
      members := members[id := info];
      QueueUpdate(id, info);
    }

    method IncrementMyIncarnation()
      modifies this
      ensures Contents() == AfterIncrement(old(Contents()))
    {
      myIncarnation := myIncarnation + 1;
      var selfInfo := UNSET;
      if myId in members {
        selfInfo := members[myId];
      }
      selfInfo := selfInfo.(state := Alive, incarnation := myIncarnation);
      members := members[myId := selfInfo];
      QueueUpdate(myId, selfInfo);
    }

    /** Hand out up to `maxCount` updates, oldest first, and forget those sent often enough. */
    method GetUpdatesForPiggyback(maxCount: nat) returns (result: seq<Update>)
      modifies this`buffer
      ensures result == Taken(old(buffer), maxCount)
      ensures buffer == AfterTake(old(buffer), maxCount)
    {
      ghost var before := buffer;
      result := [];
      var i := 0;
      while i < |buffer| && |result| < maxCount
        invariant i == |result| <= maxCount && i <= |buffer|
        invariant buffer == Bumped(before, i)
        invariant result == Taken(before, i)
      {
        result := result + [buffer[i].update];
        buffer := buffer[i := Entry(buffer[i].update, buffer[i].sends + 1)];
        i := i + 1;
      }
      assert buffer == Bumped(before, maxCount);
      while buffer != [] && buffer[0].sends >= MAX_SENDS
        invariant DropSpent(buffer) == AfterTake(before, maxCount)
        decreases |buffer|
      {
        buffer := buffer[1..];
      }
    }

    /** Peers in a given state, in no particular order. */
    method GetMembersByState(state: State) returns (result: seq<(Id, MemberInfo)>)
      ensures forall x :: x in result <==>
        x.0 in members && x.0 != myId && x.1 == members[x.0] && x.1.state == state
      ensures forall i, j :: 0 <= i < j < |result| ==> result[i].0 != result[j].0
    {
      result := [];
      var left := members.Keys;
      while left != {}
        invariant left <= members.Keys
        invariant forall x :: x in result <==>
          x.0 in members && x.0 !in left && x.0 != myId && x.1 == members[x.0] && x.1.state == state
        invariant forall i, j :: 0 <= i < j < |result| ==> result[i].0 != result[j].0
        decreases |left|
      {
        var id :| id in left;
        left := left - {id};
        if id != myId && members[id].state == state {
          assert forall x :: x in result ==> x.0 != id;
          result := result + [(id, members[id])];
        }
      }
    }
  }
}
