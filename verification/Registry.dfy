/** The registry of gateway connections shared by all connection threads. Every method that runs under
    the registry's lock is one step; steps of different connections interleave in any order. */
module Registry {
  import opened Wrappers

  type GatewayId = string

  /** Stands for a connection object. */
  type Handle = nat

  /** A connection that has not sent its id has this one, which no gateway has. */
  const NO_ID: GatewayId := ""

  /** Life of a connection: waiting for its first data, turned away, in the registry (or superseded
      there), unregistered, destroyed. */
  datatype Phase = Waiting | Rejected | Registered | Unregistered | Destroyed

  datatype Conn = Conn(phase: Phase, id: GatewayId, duplicate: bool, allowReconnect: bool)

  /** All connections ever accepted, and the registry. */
  datatype State = State(conns: map<Handle, Conn>, registry: map<GatewayId, Handle>)

  datatype Event =
    | Accepted(who: Handle)
    | FirstData(who: Handle, id: Option<GatewayId>)
    | Dropped(who: Handle)
    | Left(who: Handle)
    | Freed(who: Handle)

  /** Only the first data of a connection can register it; a connection leaves once, and is destroyed
      after it left, or right after it was accepted when its socket could not be configured. */
  predicate Enabled(s: State, e: Event) {
    match e
    case Accepted(c) => c !in s.conns
    case FirstData(c, id) => c in s.conns && s.conns[c].phase == Waiting && id != Some(NO_ID)
    case Dropped(c) => c in s.conns && s.conns[c].phase == Waiting
    case Left(c) => c in s.conns && (s.conns[c].phase == Waiting || s.conns[c].phase == Rejected || s.conns[c].phase == Registered)
    case Freed(c) => c in s.conns && s.conns[c].phase == Unregistered
  }

  /** The connection already registered under an id is marked as superseded. */
  function Superseded(s: State, id: GatewayId): map<Handle, Conn> {
    if id in s.registry && s.registry[id] in s.conns then
      s.conns[s.registry[id] := s.conns[s.registry[id]].(duplicate := true, allowReconnect := false)]
    else s.conns
  }

  function Without(registry: map<GatewayId, Handle>, id: GatewayId, c: Handle): map<GatewayId, Handle> {
    if id in registry && registry[id] == c then registry - {id} else registry
  }

  function Step(s: State, e: Event): State
    requires Enabled(s, e)
  {
    match e
    case Accepted(c) => s.(conns := s.conns[c := Conn(Waiting, NO_ID, false, true)])
    case FirstData(c, None) => s.(conns := s.conns[c := s.conns[c].(phase := Rejected)])
    case FirstData(c, Some(id)) =>
      State(Superseded(s, id)[c := s.conns[c].(phase := Registered, id := id)], s.registry[id := c])
    case Dropped(c) => s.(conns := s.conns[c := s.conns[c].(phase := Destroyed)])
    case Left(c) => State(s.conns[c := s.conns[c].(phase := Unregistered)], Without(s.registry, s.conns[c].id, c))
    case Freed(c) => s.(conns := s.conns[c := s.conns[c].(phase := Destroyed)])
  }

  predicate EnabledAll(events: seq<Event>)
    decreases |events|, 0
  {
    events == [] || (EnabledAll(events[..|events| - 1]) && Enabled(Run(events[..|events| - 1]), events[|events| - 1]))
  }

  function Run(events: seq<Event>): State
    requires EnabledAll(events)
    decreases |events|, 1
  {
    if events == [] then State(map[], map[]) else Step(Run(events[..|events| - 1]), events[|events| - 1])
  }

  /** A connection that is in the registry in its own right. */
  predicate Holds(s: State, c: Handle, id: GatewayId) {
    c in s.conns && s.conns[c].phase == Registered && !s.conns[c].duplicate && s.conns[c].id == id
  }

  /** The registry lists exactly the registered connections that were not superseded, each under its own id. */
  ghost predicate Safe(s: State) {
    (forall c: Handle, id :: (id in s.registry && s.registry[id] == c) <==> Holds(s, c, id)) &&
    (forall c: Handle :: c in s.conns && s.conns[c].phase == Waiting ==> s.conns[c].id == NO_ID && !s.conns[c].duplicate) &&
    (forall c: Handle :: c in s.conns && s.conns[c].phase == Registered ==> s.conns[c].id != NO_ID) &&
    (forall c: Handle :: c in s.conns && s.conns[c].phase == Rejected ==> s.conns[c].id == NO_ID) &&
    (forall c: Handle :: c in s.conns ==> s.conns[c].allowReconnect == !s.conns[c].duplicate)
  }

  lemma RegisteringKeepsSafe(s: State, who: Handle, id: GatewayId)
    requires Safe(s) && Enabled(s, FirstData(who, Some(id)))
    ensures Safe(Step(s, FirstData(who, Some(id))))
  {
    var t := Step(s, FirstData(who, Some(id)));
    var before := if id in s.registry then s.registry[id] else who;
    if id in s.registry {
      assert Holds(s, before, id);
    }
    assert forall c :: c != who && c != before ==> (c in t.conns <==> c in s.conns);
    assert forall c :: c in s.conns && c != who && c != before ==> t.conns[c] == s.conns[c];
    forall c: Handle, i ensures (i in t.registry && t.registry[i] == c) <==> Holds(t, c, i) {
      assert (i in s.registry && s.registry[i] == c) <==> Holds(s, c, i);
    }
  }

  lemma LeavingKeepsSafe(s: State, who: Handle)
    requires Safe(s) && Enabled(s, Left(who))
    ensures Safe(Step(s, Left(who)))
  {
    var t := Step(s, Left(who));
    forall c: Handle, i ensures (i in t.registry && t.registry[i] == c) <==> Holds(t, c, i) {
      assert (i in s.registry && s.registry[i] == c) <==> Holds(s, c, i);
    }
  }

  lemma StepKeepsSafe(s: State, e: Event)
    requires Safe(s) && Enabled(s, e)
    ensures Safe(Step(s, e))
  {
    if e.FirstData? && e.id.Some? {
      RegisteringKeepsSafe(s, e.who, e.id.value);
    } else if e.Left? {
      LeavingKeepsSafe(s, e.who);
    } else {
      var t := Step(s, e);
      forall c: Handle, i ensures (i in t.registry && t.registry[i] == c) <==> Holds(t, c, i) {
        assert (i in s.registry && s.registry[i] == c) <==> Holds(s, c, i);
      }
    }
  }

  /** Registry safety under every interleaving. */
  lemma {:induction false} RegistrySafe(events: seq<Event>)
    requires EnabledAll(events)
    ensures Safe(Run(events))
  {
    if events != [] {
      RegistrySafe(events[..|events| - 1]);
      StepKeepsSafe(Run(events[..|events| - 1]), events[|events| - 1]);
    }
  }

  /** Registering touches only a connection that still exists. */
  lemma NoUseAfterFree(events: seq<Event>, c: Handle, id: GatewayId)
    requires EnabledAll(events) && Enabled(Run(events), FirstData(c, Some(id)))
    ensures var s := Run(events);
      id in s.registry ==> s.registry[id] in s.conns && s.conns[s.registry[id]].phase == Registered && s.registry[id] != c
  {
    RegistrySafe(events);
    var s := Run(events);
    if id in s.registry {
      assert Holds(s, s.registry[id], id);
    }
  }

  /** A connection that was superseded leaves the registry as it is when it goes. */
  lemma SupersededLeavesSuccessor(events: seq<Event>, c: Handle)
    requires EnabledAll(events) && Enabled(Run(events), Left(c)) && Run(events).conns[c].duplicate
    ensures Step(Run(events), Left(c)).registry == Run(events).registry
  {
    RegistrySafe(events);
    var s := Run(events);
    assert !Holds(s, c, s.conns[c].id);
  }

  // ---- who holds an id, told from the history alone ----

  /** The connection that last registered an id. */
  function LastRegistrant(events: seq<Event>, id: GatewayId): Option<Handle> {
    if events == [] then None
    else
      var e := events[|events| - 1];
      if e.FirstData? && e.id == Some(id) then Some(e.who) else LastRegistrant(events[..|events| - 1], id)
  }

  predicate HasLeft(events: seq<Event>, c: Handle) {
    Left(c) in events
  }

  /** The holder of an id is the connection that registered it last, for as long as that connection
      has not left; an earlier one never comes back. */
  lemma {:induction false} HolderIsLastRegistrant(events: seq<Event>, id: GatewayId)
    requires EnabledAll(events)
    ensures var s, last := Run(events), LastRegistrant(events, id);
      (id in s.registry <==> last.Some? && !HasLeft(events, last.value)) &&
      (id in s.registry ==> s.registry[id] == last.value)
  {
    if events != [] {
      var before, e := events[..|events| - 1], events[|events| - 1];
      HolderIsLastRegistrant(before, id);
      RegistrySafe(before);
      LeftMeansGone(before, e.who);
      assert events == before + [e];
      var s := Run(before);
      if e.Left? && id in s.registry {
        assert Holds(s, s.registry[id], id);
      }
    }
  }

  predicate Gone(p: Phase) {
    p == Unregistered || p == Destroyed
  }

  /** A connection that has left is past registering. */
  lemma {:induction false} LeftMeansGone(events: seq<Event>, c: Handle)
    requires EnabledAll(events)
    ensures HasLeft(events, c) ==> c in Run(events).conns && Gone(Run(events).conns[c].phase)
  {
    if events != [] {
      var before, e := events[..|events| - 1], events[|events| - 1];
      LeftMeansGone(before, c);
      RegistrySafe(before);
      assert events == before + [e];
    }
  }

  // ---- the registry as objects ----

  class Client {
    const handle: Handle
    var gatewayId: GatewayId
    /** Still waiting for the first data. */
    var commInitStatus: bool
    var duplicateGateway: bool
    var allowReconnect: bool
    ghost var phase: Phase

    constructor (handle: Handle)
      ensures this.handle == handle && commInitStatus && State() == Conn(Waiting, NO_ID, false, true)
    {
      this.handle := handle;
      gatewayId, commInitStatus, duplicateGateway, allowReconnect, phase := NO_ID, true, false, true, Waiting;
    }

    ghost function State(): Conn
      reads this
    {
      Conn(phase, gatewayId, duplicateGateway, allowReconnect)
    }
  }

  class Server {
    var clients: map<GatewayId, Client>
    /** Every connection accepted so far. */
    ghost var all: map<Handle, Client>

    ghost predicate Knows(c: Client)
      reads this`all
    {
      c.handle in all && all[c.handle] == c
    }

    ghost predicate Valid()
      reads this, all.Values
    {
      (forall h :: h in all ==> all[h].handle == h) && (forall id :: id in clients ==> Knows(clients[id]))
    }

    ghost function View(): State
      reads this, all.Values
    {
      State(Conns(), Table())
    }

    ghost function Conns(): map<Handle, Conn>
      reads this`all, all.Values
    {
      map h | h in all :: all[h].State()
    }

    ghost function Table(): map<GatewayId, Handle>
      reads this`clients
    {
      map id | id in clients :: clients[id].handle
    }

    constructor ()
      ensures Valid() && View() == State(map[], map[])
    {
      clients, all := map[], map[];
    }

    /** Tells a connection that another one has taken its place. */
    method Supersede(other: Client)
      requires Valid() && Knows(other)
      modifies other
      ensures Valid() && other.commInitStatus == old(other.commInitStatus)
      ensures Conns() == old(Conns())[other.handle := old(other.State()).(duplicate := true, allowReconnect := false)]
    {
      other.duplicateGateway := true;
      other.allowReconnect := false;
    }

    /** Puts a connection into the registry; the one that was there is told that it was superseded. */
    method RegisterClient(gatewayId: GatewayId, newClient: Client)
      requires Valid() && Knows(newClient)
      modifies this`clients, clients.Values
      ensures Valid() && all == old(all)
      ensures Conns() == Superseded(old(View()), gatewayId)
      ensures Table() == old(Table())[gatewayId := newClient.handle]
    {
      if gatewayId in clients {
        Supersede(clients[gatewayId]);
        assert Conns() == Superseded(old(View()), gatewayId);
        clients := clients - {gatewayId};
      }
      clients := clients[gatewayId := newClient];
    }

    /** Takes a connection out of the registry, unless another one is there in its place. */
    method UnregisterClient(gatewayId: GatewayId, currentClient: Client)
      requires Valid() && Knows(currentClient)
      modifies this`clients
      ensures Valid()
      ensures View() == State(old(View()).conns, Without(old(View()).registry, gatewayId, currentClient.handle))
    {
      if gatewayId in clients {
        if clients[gatewayId] == currentClient {
          clients := clients - {gatewayId};
        }
      }
    }

    /** From here on the connection is in another phase, and may go by its gateway's id. */
    method Enter(c: Client, phase: Phase, gatewayId: GatewayId)
      requires Valid() && Knows(c)
      modifies c
      ensures Valid() && !c.commInitStatus
      ensures Conns() == old(Conns())[c.handle := old(c.State()).(phase := phase, id := gatewayId)]
    {
      c.commInitStatus := false;
      c.gatewayId := gatewayId;
      c.phase := phase;
    }

    /** The first data of a connection: a gateway id registers it, anything else does not. */
    method InitCommunication(c: Client, id: Option<GatewayId>)
      requires Valid() && Knows(c) && c.commInitStatus && Enabled(View(), FirstData(c.handle, id)) && Safe(View())
      modifies this`clients, c, clients.Values
      ensures Valid() && all == old(all)
      ensures !c.commInitStatus && View() == Step(old(View()), FirstData(c.handle, id))
    {
      ghost var before := View();
      match id {
        case None =>
          Enter(c, Rejected, c.gatewayId);
        case Some(gatewayId) =>
          assert gatewayId in clients ==> Holds(before, clients[gatewayId].handle, gatewayId);
          RegisterClient(gatewayId, c);
          assert View().conns[c.handle] == before.conns[c.handle];
          Enter(c, Registered, gatewayId);
      }
    }

    /** The end of a connection's thread. */
    method HandleClientEnd(c: Client)
      requires Valid() && Knows(c) && Enabled(View(), Left(c.handle))
      modifies this`clients, c
      ensures Valid() && all == old(all)
      ensures View() == Step(old(View()), Left(c.handle))
    {
      UnregisterClient(c.gatewayId, c);
      Enter(c, Unregistered, c.gatewayId);
    }
  }
}
