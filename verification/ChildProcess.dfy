/** The app-server object's table of pending requests, with its channels, as internal/backend/child.go keeps them. */
module ChildProcess {
  import opened Common
  import opened ChildResponses

  /** A channel with room for one response; caller is the request it was made for. */
  class Channel {
    var buffer: Option<Response>
    ghost const caller: nat

    constructor (ghost caller: nat)
      ensures buffer == None && this.caller == caller
    {
      this.caller := caller;
      buffer := None;
    }
  }

  class Child {
    var pending: map<string, Channel>
    var sequence: nat
    ghost var channels: seq<Channel>
    ghost var state: State

    ghost predicate Valid()
      reads this, channels
    {
      && Sound(state) && sequence == |state.callers| == |channels|
      && (forall i :: 0 <= i < |channels| ==> channels[i].caller == i)
      && pending.Keys == state.pending.Keys
      && (forall id :: id in pending ==> state.pending[id] < |channels| && pending[id] == channels[state.pending[id]])
      && (forall i :: 0 <= i < |channels| ==> channels[i].buffer == state.callers[i].channel)
    }

    constructor ()
      ensures Valid() && state == START && channels == []
    {
      pending, sequence, channels, state := map[], 0, [], START;
    }

    /** The beginning of Request, up to the send. */
    method Register() returns (id: string, channel: Channel)
      requires Valid() && state.process != Draining
      modifies this
      ensures Valid() && fresh(channel) && channels == old(channels) + [channel]
      ensures state == Step(Step(old(state), Draw), Insert(|old(channels)|))
      ensures id !in old(pending) && id in pending && pending[id] == channel && channel.buffer.None?
    {
      channel := new Channel(|channels|);
      hide Step, Sound, IdOf;
      id := Enroll(channel);
    }

    method Enroll(channel: Channel) returns (id: string)
      requires Valid() && state.process != Draining && channel.caller == |channels| && channel.buffer.None?
      modifies this
      ensures Valid() && channels == old(channels) + [channel]
      ensures state == Step(Step(old(state), Draw), Insert(|old(channels)|))
      ensures id !in old(pending) && pending == old(pending)[id := channel]
    {
      hide Sound, Step, IdOf;
      RegisterIs(state);
      sequence := sequence + 1;
      id := IdOf(sequence - 1);
      state := Step(Step(state, Draw), Insert(|channels|));
      channels := channels + [channel];
      pending := pending[id := channel];
    }

    /** The reader with a response in hand: under the mutex it takes the channel, then it pushes without it. */
    method Deliver(id: string, text: string) returns (expected: bool)
      requires Valid() && state.process != Draining && state.hand.Empty?
      modifies this, channels
      ensures Valid() && channels == old(channels) && expected == (id in old(pending))
      ensures state == if expected then Step(Step(old(state), Take(id, text)), Push) else old(state)
      ensures expected ==> pending == old(pending) - {id} && old(pending)[id].buffer == Some(Message(id, text))
    {
      StepKeepsSound(state, Take(id, text));
      StepKeepsSound(Step(state, Take(id, text)), Push);
      expected := id in pending;
      if expected {
        DeliverIs(state, id, text);
        hide Sound, Step;
        state := Step(Step(state, Take(id, text)), Push);
        var channel := pending[id];
        pending := pending - {id};
        channel.buffer := Some(Message(id, text));
      }
    }

    /** A caller that gave up, or whose send failed, leaves the table. */
    method RemovePending(id: string, ghost c: nat)
      requires Valid() && state.process != Draining && In(state, c, Removing) && id == IdOf(c)
      modifies this
      ensures Valid() && channels == old(channels) && state == Step(old(state), Remove(c)) &&
                pending == old(pending) - {id}
    {
      StepKeepsSound(state, Remove(c));
      state := Step(state, Remove(c));
      hide Sound;
      pending := pending - {id};
    }

    /** A waiting caller takes what is in its channel. */
    method Receive(channel: Channel, ghost c: nat) returns (r: Response)
      requires Valid() && In(state, c, Awaiting) && c < |channels| && channel == channels[c] && channel.buffer.Some?
      modifies this, channel
      ensures Valid() && channels == old(channels) && state == Step(old(state), ChildResponses.Receive(c))
      ensures Some(r) == old(channel.buffer) && OwnId(c, r)
    {
      StepKeepsSound(state, ChildResponses.Receive(c));
      assert CallerIsSound(state, c);
      state := Step(state, ChildResponses.Receive(c));
      hide Sound;
      r := channel.buffer.value;
      channel.buffer := None;
    }

    /** The end of waitLoop: every request still pending learns that the process is gone. */
    method DrainPending()
      requires Valid() && state.process == Draining
      modifies this, channels
      ensures Valid() && channels == old(channels) && pending == map[] && state.process == Draining
      ensures forall id :: id in old(pending) ==> old(pending)[id].buffer == Some(Exited)
    {
      hide Sound, Step, IdOf, Child.Valid;
      ghost var first, drained: set<Channel> := pending, {};
      var unvisited := pending.Keys;
      while unvisited != {}
        invariant Valid() && channels == old(channels) && state.process == Draining &&
                    pending.Keys == unvisited <= first.Keys
        invariant forall id :: id in unvisited ==> pending[id] == first[id] && first[id] !in drained
        invariant forall id :: id in first && id !in unvisited ==> first[id] in drained
        invariant forall ch :: ch in drained ==> ch in channels && ch.buffer == Some(Exited)
        decreases |unvisited|
      {
        var id :| id in unvisited;
        PendingAreChannels();
        unvisited := unvisited - {id};
        drained := drained + {pending[id]};
        DrainOne(id);
      }
    }

    lemma PendingAreChannels()
      requires Valid()
      ensures forall id :: id in pending ==> pending[id] in channels
      ensures forall id, other :: id in pending && other in pending && id != other ==> pending[id] != pending[other]
    {
    }

    method DrainOne(id: string)
      requires Valid() && state.process == Draining && id in pending
      modifies this, channels
      ensures Valid() && channels == old(channels) && state == Step(old(state), Drain(id)) && state.process == Draining
      ensures pending == old(pending) - {id} && old(pending)[id].buffer == Some(Exited)
      ensures forall ch :: ch in channels && ch != old(pending)[id] ==> ch.buffer == old(ch.buffer)
    {
      StepKeepsSound(state, Drain(id));
      DrainIs(state, id);
      hide Sound, Step, IdOf;
      state := Step(state, Drain(id));
      var channel := pending[id];
      pending := pending - {id};
      channel.buffer := Some(Exited);
    }
  }

  lemma RegisterIs(s: State)
    requires Sound(s) && s.process != Draining
    ensures var c := |s.callers|;
            var s' := Step(Step(s, Draw), Insert(c));
            && Sound(s') && IdOf(c) !in s.pending && s'.callers == s.callers + [Caller(Sending, None, 0)]
            && s'.pending == s.pending[IdOf(c) := c]
    ensures forall id :: id in s.pending ==> s.pending[id] < |s.callers|
  {
    var c := |s.callers|;
    if IdOf(c) in s.pending {
      IdsAreDistinct(c, s.pending[IdOf(c)]);
    }
    StepKeepsSound(s, Draw);
    StepKeepsSound(Step(s, Draw), Insert(c));
  }

  lemma DeliverIs(s: State, id: string, text: string)
    requires Sound(s) && s.process != Draining && s.hand.Empty? && id in s.pending
    ensures var c := s.pending[id];
            && c < |s.callers|
            && Step(Step(s, Take(id, text)), Push) ==
               s.(callers := s.callers[c := Caller(s.callers[c].phase, Some(Message(id, text)), 1)],
                 pending := s.pending - {id})
  {
  }

  lemma DrainIs(s: State, id: string)
    requires Sound(s) && s.process == Draining && id in s.pending
    ensures var c := s.pending[id];
            && c < |s.callers|
            && Step(s, Drain(id)) ==
               s.(callers := s.callers[c := Caller(s.callers[c].phase, Some(Exited), 1)], pending := s.pending - {id})
  {
  }
}
