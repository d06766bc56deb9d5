/**
 * The process-wide chat emitter together with the sessions' sinks, updated in
 * place as requests arrive: a session connecting registers its listener, its
 * response closing removes it, and a chat request emits to every listener in
 * registration order, each writing one frame to its own sink.
 */
module ChatServer {
  import opened Wrappers
  import opened EventStream
  import opened HubSpec

  class Hub {
    /** The emitter's `message` listeners, one per open session, in registration order. */
    var listeners: seq<SessionId>
    /** Every session's sink: the frames written to its response so far. */
    var sinks: map<SessionId, seq<string>>
    /** The id the next session gets: a fresh closure per connection. */
    var nextId: SessionId

    function Snapshot(): State
      reads this
    {
      State(listeners, sinks, nextId)
    }

    /** Listeners are distinct, each has a sink, and every sink's id was handed out. */
    predicate Valid()
      reads this
    {
      HubSpec.Valid(Snapshot())
    }

    /** `new EventEmitter()` at process start. */
    constructor ()
      ensures Valid()
      ensures Snapshot() == Init
    {
      listeners := [];
      sinks := map[];
      nextId := 0;
    }

    /**
     * A viewer connects to the stream endpoint: a fresh listener is appended
     * to the emitter's list and its sink starts empty. Nothing published
     * earlier is written to it.
     */
    method OpenSession() returns (id: SessionId)
      requires Valid()
      modifies this
      ensures Valid()
      ensures id !in old(sinks) && id !in old(listeners)
      ensures listeners == old(listeners) + [id]
      ensures id in sinks && sinks[id] == []
      ensures forall other :: other in old(sinks) ==> other in sinks && sinks[other] == old(sinks[other])
      ensures sinks.Keys == old(sinks).Keys + {id}
      ensures Snapshot() == Step(old(Snapshot()), Connect)
    {
      id := nextId;
      assert id !in listeners;
      listeners := listeners + [id];
      sinks := sinks[id := []];
      nextId := nextId + 1;
    }

    /**
     * A session's response closes: its listener is found, searching from the
     * most recently added one as the emitter does, and spliced out of the
     * list. Every other listener keeps its place and every sink is unchanged.
     * Closing a session that is not registered changes nothing.
     */
    method CloseSession(id: SessionId)
      requires Valid()
      modifies this
      ensures Valid()
      ensures id !in listeners
      ensures old(id in listeners) ==>
        exists i :: 0 <= i < |old(listeners)| && old(listeners)[i] == id &&
          listeners == old(listeners)[..i] + old(listeners)[i + 1..]
      ensures id !in old(listeners) ==> listeners == old(listeners)
      ensures sinks == old(sinks) && nextId == old(nextId)
      ensures Snapshot() == Step(old(Snapshot()), Disconnect(id))
    {
      var i := |listeners|;
      while i > 0 && listeners[i - 1] != id
        invariant 0 <= i <= |listeners|
        invariant forall k :: i <= k < |listeners| ==> listeners[k] != id
        decreases i
      {
        i := i - 1;
      }
      if i > 0 {
        WithoutAt(listeners, i - 1);
        listeners := listeners[..i - 1] + listeners[i..];
      } else {
        WithoutAbsent(listeners, id);
      }
    }

    /**
     * `emit('message', m)`: the listeners registered when the call starts are
     * called one after the other, and each writes `data: m` and a blank line to
     * its own sink. Every registered session's sink gains exactly that one
     * frame; every other sink is unchanged.
     */
    method Publish(m: string)
      requires Valid()
      modifies this
      ensures Valid()
      ensures listeners == old(listeners) && nextId == old(nextId)
      ensures sinks.Keys == old(sinks).Keys
      ensures forall id :: id in sinks ==>
        sinks[id] == if id in old(listeners) then old(sinks[id]) + [Frame(m)] else old(sinks[id])
      ensures Snapshot() == HubSpec.Publish(old(Snapshot()), m)
    {
      var ls := listeners;
      var i := 0;
      while i < |ls|
        invariant 0 <= i <= |ls|
        invariant listeners == ls && nextId == old(nextId)
        invariant sinks.Keys == old(sinks).Keys
        invariant forall id :: id in sinks ==>
          sinks[id] == if id in ls[..i] then old(sinks[id]) + [Frame(m)] else old(sinks[id])
      {
        var id := ls[i];
        assert id !in ls[..i];
        assert ls[..i + 1] == ls[..i] + [id];
        sinks := sinks[id := sinks[id] + [Frame(m)]];
        i := i + 1;
      }
      assert ls[..i] == ls;
    }

    /**
     * A chat request: the `message` query value is published unchanged when it
     * is present and non-empty; otherwise nothing is emitted and no sink or
     * listener changes.
     */
    method Chat(message: Option<string>)
      requires Valid()
      modifies this
      ensures Valid()
      ensures listeners == old(listeners) && nextId == old(nextId)
      ensures !Truthy(message) ==> sinks == old(sinks)
      ensures Truthy(message) ==> Snapshot() == HubSpec.Publish(old(Snapshot()), message.value)
      ensures Snapshot() == Step(old(Snapshot()), ChatRequest(message))
    {
      if Truthy(message) {
        Publish(message.value);
      }
    }
  }

  /**
   * One viewer connects and sees "hello", then leaves; "world" is published
   * to nobody; a second viewer connects and sees "again" only. Returns what
   * the two sinks hold at the end.
   */
  method Walkthrough() returns (first: seq<string>, second: seq<string>)
    ensures first == [Frame("hello")]
    ensures second == [Frame("again")]
  {
    var hub := new Hub();
    var s1 := hub.OpenSession();
    assert hub.listeners == [s1];
    hub.Chat(Some("hello"));
    assert hub.sinks[s1] == [Frame("hello")];
    hub.CloseSession(s1);
    assert hub.listeners == [];
    hub.Chat(Some("world"));
    assert hub.sinks[s1] == [Frame("hello")];
    var s2 := hub.OpenSession();
    assert hub.listeners == [s2];
    assert hub.sinks[s1] == [Frame("hello")];
    hub.Chat(Some("again"));
    first, second := hub.sinks[s1], hub.sinks[s2];
  }
}
