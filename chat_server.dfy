/** The state of chat/server.js and its handlers: the user store behind
    `/register`, `/login` and `/users`, the in-memory message log behind the
    `join` and `chat message` socket events, and the per-connection user id
    that `join` records. Clock readings are parameters; socket emits are
    returned as values (the history sent back, the rooms relayed to). */
module ChatServer {
  import opened ChatTypes
  import opened UserStore
  import opened MessageLog

  /** One socket connection: the `userId` that `join` stores on it
      (`undefined` until then) and the rooms it has joined. */
  class Connection {
    var userId: Option<string>
    var rooms: set<string>

    constructor ()
      ensures userId == None && rooms == {}
    {
      userId := None;
      rooms := {};
    }
  }

  /** The server's state: the `users` array, the copy of it last written to
      the users file, and the `messages` array. */
  class Server {
    var users: seq<User>
    var persisted: seq<User>
    var messages: seq<Message>

    /** The file holds exactly the user list, and usernames are distinct. */
    ghost predicate Valid()
      reads this
    {
      persisted == users && UniqueUsernames(users)
    }

    /** Start-up when the users file does not exist: an empty list is
        written and both arrays start empty. */
    constructor ()
      ensures Valid()
      ensures users == [] && persisted == [] && messages == []
    {
      users, persisted, messages := [], [], [];
    }

    /** Start-up when the users file exists: its contents become `users`
        unchecked, so uniqueness holds only if the file had it. */
    constructor Load(stored: seq<User>)
      ensures users == stored && persisted == stored && messages == []
      ensures Valid() <==> UniqueUsernames(stored)
    {
      users, persisted, messages := stored, stored, [];
    }

    /** `POST /register` with clock reading `now`. */
    method Register(username: string, now: nat) returns (r: Result<User>)
      modifies this`users, this`persisted
      ensures username == [] ==> r == Err(UsernameRequired)
      ensures username != [] && HasUsername(old(users), username) ==> r == Err(UsernameExists)
      ensures r.Err? ==> users == old(users) && persisted == old(persisted)
      ensures username != [] && !HasUsername(old(users), username) ==>
                r == Ok(User(username, Decimal(now))) &&
                users == old(users) + [r.value] && persisted == users
      ensures old(Valid()) ==> Valid()
    {
      if username == [] {
        return Err(UsernameRequired);
      }
      if Find(users, username).Some? {
        return Err(UsernameExists);
      }
      var newUser := User(username, Decimal(now));
      if UniqueUsernames(users) {
        AppendKeepsUnique(users, newUser);
      }
      users := users + [newUser];
      persisted := users;
      r := Ok(newUser);
    }

    /** `POST /login`: the first user with that exact username. */
    method Login(username: string) returns (r: Result<User>)
      ensures r.Ok? <==> HasUsername(users, username)
      ensures r.Ok? ==> exists i :: FirstWithName(users, username, i) && users[i] == r.value
      ensures r.Err? ==> r.error == UserNotFound
      ensures Valid() ==> forall i :: 0 <= i < |users| && users[i].username == username ==> r == Ok(users[i])
    {
      forall i | 0 <= i < |users| && users[i].username == username && Valid()
        ensures Find(users, username) == Some(users[i])
      {
        FindUnique(users, i);
      }
      var user := Find(users, username);
      if user.None? {
        return Err(UserNotFound);
      }
      r := Ok(user.value);
    }

    /** `GET /users`: the whole list, in registration order. */
    method ListUsers() returns (r: seq<User>)
      ensures |r| == |users| && forall i :: 0 <= i < |r| ==> r[i] == users[i]
    {
      r := users;
    }

    /** The `join` event on `conn`: record the user id, join its room, and
        return the history sent back as `chat history`. */
    method Join(conn: Connection, userId: string) returns (history: seq<Message>)
      modifies conn
      ensures conn.userId == Some(userId)
      ensures conn.rooms == old(conn.rooms) + {userId}
      ensures history == History(messages, userId)
    {
      conn.userId := Some(userId);
      conn.rooms := conn.rooms + {userId};
      history := History(messages, userId);
    }

    /** The `chat message` event with clock reading `now`: stamp, log, and
        return the stamped message with the rooms it is emitted to, in
        order. */
    method Relay(msg: Message, now: nat) returns (stamped: Message, targets: seq<string>)
      modifies this`messages
      ensures stamped == msg.(timestamp := now)
      ensures messages == old(messages) + [stamped]
      ensures targets == [msg.toId, msg.fromId]
      ensures History(messages, msg.toId) == History(old(messages), msg.toId) + [stamped]
      ensures History(messages, msg.fromId) == History(old(messages), msg.fromId) + [stamped]
      ensures forall u :: !Involves(msg, u) ==> History(messages, u) == History(old(messages), u)
    {
      stamped := msg.(timestamp := now);
      HistoryAppend(messages, stamped, msg.toId);
      HistoryAppend(messages, stamped, msg.fromId);
      forall u | !Involves(msg, u)
        ensures History(messages + [stamped], u) == History(messages, u)
      {
        HistoryAppend(messages, stamped, u);
      }
      messages := messages + [stamped];
      targets := RelayTargets(stamped);
    }
  }

  /** A scenario of the user store, proved from the contracts above:
      "alice" registers, a second "alice" is refused, and an unknown "bob"
      cannot log in. */
  method RegistrationScenario(t0: nat, t1: nat)
  {
    var server := new Server();
    var alice := server.Register("alice", t0);
    assert server.users == [User("alice", Decimal(t0))];
    assert HasUsername(server.users, "alice") by {
      assert server.users[0].username == "alice";
    }
    var again := server.Register("alice", t1);
    assert again == Err(UsernameExists);
    var bob := server.Login("bob");
    assert bob == Err(UserNotFound);
  }

  /** A scenario of the relay, proved from the contracts above: a
      connection joins "u1", another joins "u2", and a message from "u1" to
      "u2" is logged once and reaches each connection exactly once. */
  method RelayScenario(now: nat)
  {
    var server := new Server();
    var x := new Connection();
    var y := new Connection();
    var hx := server.Join(x, "u1");
    var hy := server.Join(y, "u2");
    var sent, targets := server.Relay(Message("u1", "u2", "hi", 0), now);
    assert server.messages == [Message("u1", "u2", "hi", now)];
    assert x.rooms == {"u1"} && y.rooms == {"u2"};
    RelayDeliveries(x.rooms, sent);
    RelayDeliveries(y.rooms, sent);
    assert Deliveries(x.rooms, targets) == 1;
    assert Deliveries(y.rooms, targets) == 1;
  }
}
