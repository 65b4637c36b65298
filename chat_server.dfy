/** The chat room server: the users connected to the room, keyed by id, the
    log of every message posted, and the event loop that adds and removes
    users and relays messages.

    The channels of the Go server only serialise events; here each event is
    one method call, and the loop consumes a given sequence of events.
    Writing a message to a user's connection is recorded in `written`, the
    messages sent to each user so far. */
module ChatServer {
  import opened ChatMessage

  /** A chat client. The room identifies it by `id`; two clients may share
      an id, and then the later one replaces the earlier in the room. */
  class User {
    const id: int

    constructor (id: int)
      ensures this.id == id
    {
      this.id := id;
    }
  }

  /** What the event loop can receive, one per select case. */
  datatype Event =
    | AddUser(user: User)
    | RemoveUser(user: User)
    | NewMessage(msg: Message)
    | ErrorEvent(err: string)
    | Done

  /** The observable state of the room: who is connected, the message log,
      and what has been written to each user. */
  datatype Room = Room(connected: map<int, User>, messages: seq<Message>, written: map<User, seq<Message>>)

  /** The messages written to `u` so far. */
  function Outbox(written: map<User, seq<Message>>, u: User): seq<Message> {
    if u in written then written[u] else []
  }

  /** Writes `msgs` to `u`, in order, and nothing to anybody else. */
  function WriteEach(written: map<User, seq<Message>>, u: User, msgs: seq<Message>): (w: map<User, seq<Message>>)
    ensures w.Keys <= written.Keys + {u}
    ensures Outbox(w, u) == Outbox(written, u) + msgs
    ensures forall v | v in written && v != u :: v in w && w[v] == written[v]
  {
    if msgs == [] then written else written[u := Outbox(written, u) + msgs]
  }

  /** Writes `msg` once to every user in `to`, and nothing to anybody else. */
  function WriteAll(written: map<User, seq<Message>>, to: set<User>, msg: Message): (w: map<User, seq<Message>>)
    ensures w.Keys == written.Keys + to
    ensures forall v | v in to :: Outbox(w, v) == Outbox(written, v) + [msg]
    ensures forall v | v in written && v !in to :: v in w && w[v] == written[v]
  {
    map v | v in written.Keys + to :: if v in to then Outbox(written, v) + [msg] else written[v]
  }

  /** Every user is stored under its own id. */
  ghost predicate KeyedById(connected: map<int, User>) {
    forall id | id in connected :: connected[id].id == id
  }

  predicate IsSuffix(a: seq<Message>, b: seq<Message>) {
    |a| <= |b| && b[|b| - |a|..] == a
  }

  /** Every connected user has been written the whole log, in order, as
      the last messages it received. */
  ghost predicate HistoryDelivered(r: Room) {
    forall id | id in r.connected :: IsSuffix(r.messages, Outbox(r.written, r.connected[id]))
  }

  ghost predicate Consistent(r: Room) {
    KeyedById(r.connected) && HistoryDelivered(r)
  }

  /** One pass of the event loop. */
  function Step(r: Room, e: Event): Room {
    match e
    case AddUser(u) => Room(r.connected[u.id := u], r.messages, WriteEach(r.written, u, r.messages))
    case RemoveUser(u) => Room(r.connected - {u.id}, r.messages, r.written)
    case NewMessage(m) => Room(r.connected, r.messages + [m], WriteAll(r.written, Members(r.connected), m))
    case ErrorEvent(_) => r
    case Done => r
  }

  /** The event loop over `events`: every event up to the first Done. */
  function Run(r: Room, events: seq<Event>): Room
    decreases |events|
  {
    if events == [] || events[0].Done? then r else Run(Step(r, events[0]), events[1..])
  }

  /** How many events the loop takes: up to and including the first Done. */
  function Consumed(events: seq<Event>): (n: nat)
    ensures n <= |events|
  {
    if events == [] then 0
    else if events[0].Done? then 1
    else 1 + Consumed(events[1..])
  }

  /** Add-user stores the user under its id, replacing whoever was there,
      writes it the whole log in order, and changes nothing else. */
  lemma AddUserEffect(r: Room, u: User)
    ensures var t := Step(r, AddUser(u));
            t.connected.Keys == r.connected.Keys + {u.id} && t.connected[u.id] == u &&
            (forall id | id in r.connected && id != u.id :: t.connected[id] == r.connected[id]) &&
            t.messages == r.messages &&
            Outbox(t.written, u) == Outbox(r.written, u) + r.messages &&
            (forall v | v != u :: Outbox(t.written, v) == Outbox(r.written, v))
  {
  }

  /** Remove-user deletes the entry under the user's id, whoever it holds,
      and leaves the rest; an id not present leaves the room as it was. */
  lemma RemoveUserEffect(r: Room, u: User)
    ensures var t := Step(r, RemoveUser(u));
            t.connected.Keys == r.connected.Keys - {u.id} &&
            (forall id | id in t.connected :: t.connected[id] == r.connected[id]) &&
            t.messages == r.messages && t.written == r.written
    ensures u.id !in r.connected ==> Step(r, RemoveUser(u)) == r
  {
  }

  /** A new message goes at the end of the log and is written exactly once
      to every connected user and to nobody else. `Step` writes once per
      connected user, while the source writes once per map entry; the two
      agree on every room where each user is stored under its own id, which
      is every room the event loop reaches (`RunConsistent`). */
  lemma NewMessageEffect(r: Room, m: Message)
    ensures var t := Step(r, NewMessage(m));
            t.connected == r.connected && t.messages == r.messages + [m] &&
            (forall id | id in r.connected :: Outbox(t.written, r.connected[id]) == Outbox(r.written, r.connected[id]) + [m]) &&
            (forall v | v !in Members(r.connected) :: Outbox(t.written, v) == Outbox(r.written, v))
  {
  }

  /** Once a user is removed, a new message does not reach it. */
  lemma RemovedUserMissesMessages(r: Room, u: User, m: Message)
    requires KeyedById(r.connected)
    ensures var t := Step(r, RemoveUser(u));
            Outbox(Step(t, NewMessage(m)).written, u) == Outbox(t.written, u)
  {
    var t := Step(r, RemoveUser(u));
    forall id | id in t.connected
      ensures t.connected[id] != u
    {
      assert r.connected[id].id == id;
    }
    assert u !in Members(t.connected);
  }

  /** An error is only logged: the room is as it was. Done stops the loop
      with the room as it was, whatever events follow. */
  lemma ErrorAndDoneChangeNothing(r: Room, err: string, later: seq<Event>)
    ensures Step(r, ErrorEvent(err)) == r
    ensures Run(r, [Done] + later) == r && Consumed([Done] + later) == 1
  {
  }

  /** Each event keeps every user under its own id and keeps every
      connected user up to date with the whole log. */
  lemma StepConsistent(r: Room, e: Event)
    requires Consistent(r)
    ensures Consistent(Step(r, e))
  {
    var t := Step(r, e);
    match e
    case AddUser(u) =>
      forall id | id in t.connected
        ensures IsSuffix(t.messages, Outbox(t.written, t.connected[id]))
      {
        if id != u.id {
          var v := r.connected[id];
          assert v.id == id;
          assert Outbox(t.written, v) == Outbox(r.written, v);
        } else {
          var o := Outbox(t.written, u);
          assert o[|o| - |r.messages|..] == r.messages;
        }
      }
    case NewMessage(m) =>
      forall id | id in t.connected
        ensures IsSuffix(t.messages, Outbox(t.written, t.connected[id]))
      {
        var v := r.connected[id];
        var o := Outbox(r.written, v);
        assert Outbox(t.written, v) == o + [m];
        assert (o + [m])[|o + [m]| - |t.messages|..] == o[|o| - |r.messages|..] + [m];
      }
    case RemoveUser(u) =>
    case ErrorEvent(_) =>
    case Done =>
  }

  /** The loop keeps the room consistent. */
  lemma {:induction false} RunConsistent(r: Room, events: seq<Event>)
    requires Consistent(r)
    ensures Consistent(Run(r, events))
    decreases |events|
  {
    if events != [] && !events[0].Done? {
      StepConsistent(r, events[0]);
      RunConsistent(Step(r, events[0]), events[1..]);
    }
  }

  /** Done ends the loop: whatever comes after the first Done is never
      taken and changes nothing. */
  lemma {:induction false} RunStopsAtDone(r: Room, events: seq<Event>, later: seq<Event>)
    requires exists i | 0 <= i < |events| :: events[i].Done?
    ensures Run(r, events + later) == Run(r, events)
    ensures Consumed(events + later) == Consumed(events)
    decreases |events|
  {
    assert (events + later)[0] == events[0];
    if !events[0].Done? {
      var i :| 0 <= i < |events| && events[i].Done?;
      assert events[1..][i - 1].Done?;
      assert (events + later)[1..] == events[1..] + later;
      RunStopsAtDone(Step(r, events[0]), events[1..], later);
    }
  }

  /** The chat server: connectedUsers and Messages as in the source, and
      the messages written to each user's connection. */
  class Server {
    var connectedUsers: map<int, User>
    var messages: seq<Message>
    var written: map<User, seq<Message>>

    function State(): Room
      reads this
    {
      Room(connectedUsers, messages, written)
    }

    ghost predicate Valid()
      reads this
    {
      Consistent(State())
    }

    /** NewServer: nobody connected, an empty log, nothing written. */
    constructor ()
      ensures Valid()
      ensures connectedUsers == map[] && messages == [] && written == map[]
    {
      connectedUsers := map[];
      messages := [];
      written := map[];
    }

    /** sendPastMessages: writes every logged message to `user`, once each,
        in log order. */
    method SendPastMessages(user: User)
      modifies this
      ensures connectedUsers == old(connectedUsers) && messages == old(messages)
      ensures written == WriteEach(old(written), user, messages)
    {
      var i := 0;
      while i < |messages|
        invariant 0 <= i <= |messages|
        invariant connectedUsers == old(connectedUsers) && messages == old(messages)
        invariant written == WriteEach(old(written), user, messages[..i])
      {
        ghost var before := Outbox(old(written), user);
        assert messages[..i + 1] == messages[..i] + [messages[i]];
        assert Outbox(written, user) + [messages[i]] == before + messages[..i + 1];
        written := written[user := Outbox(written, user) + [messages[i]]];
        assert written == old(written)[user := before + messages[..i + 1]];
        i := i + 1;
      }
      assert messages[..i] == messages;
    }

    /** sendAll: writes `msg` once to every connected user. */
    method SendAll(msg: Message)
      requires KeyedById(connectedUsers)
      modifies this
      ensures connectedUsers == old(connectedUsers) && messages == old(messages)
      ensures written == WriteAll(old(written), Members(connectedUsers), msg)
    {
      var pending := connectedUsers.Keys;
      while pending != {}
        invariant pending <= connectedUsers.Keys
        invariant connectedUsers == old(connectedUsers) && messages == old(messages)
        invariant written == WriteAll(old(written), UsersAt(connectedUsers, connectedUsers.Keys - pending), msg)
        decreases |pending|
      {
        HasElement(pending);
        var id :| id in pending;
        var user := connectedUsers[id];
        ghost var done := connectedUsers.Keys - pending;
        UsersAtStep(connectedUsers, done, id);
        WriteAllStep(old(written), UsersAt(connectedUsers, done), user, msg);
        written := written[user := Outbox(written, user) + [msg]];
        pending := pending - {id};
        assert connectedUsers.Keys - pending == done + {id};
      }
    }

    /** The add-user case: store the user under its id and replay the log
        to it. */
    method HandleAddUser(user: User)
      requires Valid()
      modifies this
      ensures Valid() && State() == Step(old(State()), AddUser(user))
    {
      StepConsistent(State(), AddUser(user));
      connectedUsers := connectedUsers[user.id := user];
      SendPastMessages(user);
    }

    /** The remove-user case: delete the entry under the user's id. */
    method HandleRemoveUser(user: User)
      requires Valid()
      modifies this
      ensures Valid() && State() == Step(old(State()), RemoveUser(user))
    {
      StepConsistent(State(), RemoveUser(user));
      connectedUsers := connectedUsers - {user.id};
    }

    /** The new-message case: append to the log and relay to everyone
        connected. */
    method HandleNewMessage(msg: Message)
      requires Valid()
      modifies this
      ensures Valid() && State() == Step(old(State()), NewMessage(msg))
    {
      StepConsistent(State(), NewMessage(msg));
      messages := messages + [msg];
      SendAll(msg);
    }

    /** Listen: takes events one at a time until Done, and reports how many
        it took. */
    method Listen(events: seq<Event>) returns (consumed: nat)
      requires Valid()
      modifies this
      ensures Valid()
      ensures State() == Run(old(State()), events) && consumed == Consumed(events)
    {
      consumed := 0;
      while consumed < |events|
        invariant 0 <= consumed <= |events|
        invariant Valid()
        invariant Run(old(State()), events) == Run(State(), events[consumed..])
        invariant Consumed(events) == consumed + Consumed(events[consumed..])
      {
        var e := events[consumed];
        assert events[consumed..][1..] == events[consumed + 1..];
        consumed := consumed + 1;
        match e
        case AddUser(user) => HandleAddUser(user);
        case RemoveUser(user) => HandleRemoveUser(user);
        case NewMessage(msg) => HandleNewMessage(msg);
        case ErrorEvent(_) =>
        case Done => return;
      }
    }
  }

  /** The users stored under the given ids. */
  function UsersAt(connected: map<int, User>, ids: set<int>): set<User> {
    set id | id in ids && id in connected :: connected[id]
  }

  /** The users connected to the room. */
  function Members(connected: map<int, User>): set<User> {
    UsersAt(connected, connected.Keys)
  }

  /** Not a property of the chat room: a non-empty set has an element,
      stated as a lemma so that choosing the next id in SendAll verifies
      without relying on contradictory facts. */
  lemma HasElement(ids: set<int>)
    requires ids != {}
    ensures exists id :: id in ids
  {
    if forall id :: id !in ids {
      assert false;
    }
  }

  /** Taking one more id adds its user, and when users are keyed by id that
      user is new. */
  lemma UsersAtStep(connected: map<int, User>, done: set<int>, id: int)
    requires KeyedById(connected)
    requires id in connected && id !in done
    ensures UsersAt(connected, done + {id}) == UsersAt(connected, done) + {connected[id]}
    ensures connected[id] !in UsersAt(connected, done)
  {
    forall j | j in done && j in connected
      ensures connected[j] != connected[id]
    {
      assert connected[j].id == j && connected[id].id == id;
    }
  }

  /** Writing `msg` to one more user `u` is writing it to `to + {u}`. */
  lemma WriteAllStep(written: map<User, seq<Message>>, to: set<User>, u: User, msg: Message)
    requires u !in to
    ensures var w := WriteAll(written, to, msg);
            w[u := Outbox(w, u) + [msg]] == WriteAll(written, to + {u}, msg)
  {
    var w := WriteAll(written, to, msg);
    var lhs := w[u := Outbox(w, u) + [msg]];
    var rhs := WriteAll(written, to + {u}, msg);
    assert lhs.Keys == rhs.Keys;
    forall v | v in lhs
      ensures lhs[v] == rhs[v]
    {
      if v != u && v !in to {
        assert v in written;
      }
    }
  }
}
