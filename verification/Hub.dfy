/**
 The sharded fan-out hub of one pod. Rooms live in 64 shards chosen by a 32-bit FNV-1a hash; the
 ghost map `rooms` is the flat hub that the shards implement, and every method is specified on it.
 */
module Hub {
  import opened Bytes

  const NUM_SHARDS := 64
  const QUEUE_CAPACITY := 256

  datatype ServerMessage = ServerMessage(roomID: Str, userID: Str, text: Str)

  // ------------------------------------------------------------------ the hash

  type Word = w: nat | w < 0x1_0000_0000

  function XorByte(a: Byte, b: Byte): Byte {
    ((a as bv8) ^ (b as bv8)) as Byte
  }

  lemma HighAndLow(hash: Word)
    ensures hash / 256 <= 0xFF_FFFF && 0 <= hash - hash / 256 * 256 < 256
  {
  }

  /** hash ^ b: a byte reaches the low eight bits only. */
  function Xor(hash: Word, b: Byte): Word {
    HighAndLow(hash);
    WithLow(hash / 256, XorByte((hash - hash / 256 * 256) as Byte, b))
  }

  function WithLow(high: nat, low: Byte): Word
    requires high <= 0xFF_FFFF
  {
    high * 256 + low as nat
  }

  function FnvStep(hash: Word, b: Byte): Word {
    Xor(hash, b) * 16777619 % 0x1_0000_0000
  }

  /** FNV-1a, 32 bits (draft-eastlake-fnv, section 2). */
  function Fnv1a(s: Str): Word {
    if s == [] then 2166136261 else FnvStep(Fnv1a(s[..|s| - 1]), s[|s| - 1])
  }

  function ShardOf(s: Str): (i: nat)
    ensures i < NUM_SHARDS
  {
    Fnv1a(s) % NUM_SHARDS
  }

  lemma FnvExtend(s: Str, k: nat)
    requires k < |s|
    ensures Fnv1a(s[..k + 1]) == FnvStep(Fnv1a(s[..k]), s[k])
  {
    assert s[..k + 1][..k] == s[..k];
  }

  /** The published hash of the one-byte string "a", and its shard. */
  lemma FnvTestVector()
    ensures Fnv1a([0x61]) == 0xE40C_292C && ShardOf([0x61]) == 44
  {
  }

  method ShardIndex(roomID: Str) returns (i: nat)
    ensures i == ShardOf(roomID) && i < NUM_SHARDS
  {
    var hash: Word := 2166136261;
    var k := 0;
    while k < |roomID|
      invariant k <= |roomID|
      invariant hash == Fnv1a(roomID[..k])
    {
      FnvExtend(roomID, k);
      hash := Xor(hash, roomID[k]);
      hash := hash * 16777619 % 0x1_0000_0000;
      k := k + 1;
    }
    assert roomID[..k] == roomID;
    i := hash % NUM_SHARDS;
  }

  // ---------------------------------------------------------- the flat hub

  type Rooms<T(==)> = map<Str, set<T>>

  function Registered<T(==)>(rooms: Rooms<T>, roomID: Str, c: T): Rooms<T> {
    rooms[roomID := (if roomID in rooms then rooms[roomID] else {}) + {c}]
  }

  function Unregistered<T(==)>(rooms: Rooms<T>, roomID: Str, c: T): Rooms<T> {
    if roomID !in rooms then rooms
    else if rooms[roomID] - {c} == {} then rooms - {roomID}
    else rooms[roomID := rooms[roomID] - {c}]
  }

  /** The shards hold the flat hub, each room in the one shard its id hashes to. */
  ghost predicate Sharded<T>(shards: seq<Rooms<T>>, rooms: Rooms<T>) {
    && |shards| == NUM_SHARDS
    && (forall i, r :: 0 <= i < NUM_SHARDS && r in shards[i] ==> ShardOf(r) == i && r in rooms)
    && (forall r :: r in rooms ==> r in shards[ShardOf(r)] && shards[ShardOf(r)][r] == rooms[r])
  }

  /** Replacing a room's entry in its shard replaces it in the flat hub. */
  lemma ShardedPut<T>(shards: seq<Rooms<T>>, rooms: Rooms<T>, roomID: Str, clients: set<T>)
    requires Sharded(shards, rooms)
    ensures var i := ShardOf(roomID);
            Sharded(shards[i := shards[i][roomID := clients]], rooms[roomID := clients])
  {
  }

  lemma ShardedDrop<T>(shards: seq<Rooms<T>>, rooms: Rooms<T>, roomID: Str)
    requires Sharded(shards, rooms)
    ensures var i := ShardOf(roomID);
            Sharded(shards[i := shards[i] - {roomID}], rooms - {roomID})
  {
  }

  /** A limit is set and reached. */
  predicate Full(maxConns: int, connCnt: int) {
    maxConns > 0 && connCnt >= maxConns
  }

  function Offered<M>(queue: seq<M>, m: M): seq<M> {
    if |queue| < QUEUE_CAPACITY then queue + [m] else queue
  }

  // ------------------------------------------------------------ the implementation

  class Client {
    const userID: Str
    const roomID: Str
    var queue: seq<ServerMessage>
    var closed: bool

    constructor (userID: Str, roomID: Str)
      ensures this.userID == userID && this.roomID == roomID
      ensures queue == [] && !closed
    {
      this.userID, this.roomID := userID, roomID;
      queue, closed := [], false;
    }
  }

  /** A room in the hub has a client, and its clients belong to it. */
  ghost predicate Housed(rooms: Rooms<Client>) {
    forall r :: r in rooms ==> rooms[r] != {} && forall c :: c in rooms[r] ==> c.roomID == r
  }

  class ShardedHub {
    const shards: array<Rooms<Client>>
    const maxConns: int
    var connCnt: int
    var published: seq<ServerMessage>
    ghost var rooms: Rooms<Client>

    ghost predicate Valid()
      reads this, shards
    {
      Sharded(shards[..], rooms) && Housed(rooms)
    }

    constructor (maxConns: int)
      ensures Valid() && fresh(shards)
      ensures rooms == map[] && connCnt == 0 && published == [] && this.maxConns == maxConns
    {
      shards := new Rooms<Client>[NUM_SHARDS](_ => map[]);
      this.maxConns := maxConns;
      connCnt, published, rooms := 0, [], map[];
    }

    method Find(roomID: Str) returns (found: bool, clients: set<Client>)
      requires Sharded(shards[..], rooms)
      ensures found <==> roomID in rooms
      ensures clients == if found then rooms[roomID] else {}
    {
      var i := ShardIndex(roomID);
      found := roomID in shards[i];
      clients := if found then shards[i][roomID] else {};
    }

    method Put(roomID: Str, clients: set<Client>)
      requires Sharded(shards[..], rooms)
      modifies `rooms, shards
      ensures Sharded(shards[..], rooms) && rooms == old(rooms)[roomID := clients]
    {
      var i := ShardIndex(roomID);
      ShardedPut(shards[..], rooms, roomID, clients);
      shards[i] := shards[i][roomID := clients];
      assert shards[..] == old(shards[..])[i := shards[i]];
      rooms := rooms[roomID := clients];
    }

    method Drop(roomID: Str)
      requires Sharded(shards[..], rooms)
      modifies `rooms, shards
      ensures Sharded(shards[..], rooms) && rooms == old(rooms) - {roomID}
    {
      var i := ShardIndex(roomID);
      ShardedDrop(shards[..], rooms, roomID);
      shards[i] := shards[i] - {roomID};
      assert shards[..] == old(shards[..])[i := shards[i]];
      rooms := rooms - {roomID};
    }

    /** `subscribed` says that a broker subscription was taken out for the room. */
    method Register(c: Client) returns (subscribed: bool)
      requires Valid()
      modifies this, shards
      ensures Valid()
      ensures rooms == Registered(old(rooms), c.roomID, c)
      ensures subscribed <==> c.roomID !in old(rooms)
      ensures connCnt == old(connCnt) + 1 && published == old(published)
    {
      var found, clients := Find(c.roomID);
      subscribed := !found;
      Put(c.roomID, clients + {c});
      connCnt := connCnt + 1;
    }

    /** `cancelled` says that the room's subscription was given up. Closing a closed queue panics. */
    method Unregister(c: Client) returns (cancelled: bool)
      requires Valid()
      requires c.roomID in rooms ==> !c.closed
      modifies this, shards, c`closed
      ensures Valid()
      ensures rooms == Unregistered(old(rooms), c.roomID, c)
      ensures cancelled <==> c.roomID in old(rooms) && c.roomID !in rooms
      ensures c.closed <==> old(c.closed) || c.roomID in old(rooms)
      ensures connCnt == old(connCnt) - 1 && published == old(published)
    {
      var found, clients := Find(c.roomID);
      cancelled := false;
      if found {
        c.closed := true;
        cancelled := clients - {c} == {};
        if cancelled {
          Drop(c.roomID);
        } else {
          Put(c.roomID, clients - {c});
        }
      }
      connCnt := connCnt - 1;
    }

    method AtCapacity() returns (full: bool)
      ensures full <==> Full(maxConns, connCnt)
    {
      full := maxConns > 0 && connCnt >= maxConns;
    }

    /**
     The message joins every queue of the room that has space, and no other queue: only clients registered
     for the room get it, and a room that is found has some. Then it is published if asked to. Sending on a
     closed queue panics, so the room's queues must be open.
     */
    method Broadcast(msg: ServerMessage, publish: bool)
      requires Valid()
      requires msg.roomID in rooms ==> forall c :: c in rooms[msg.roomID] ==> !c.closed
      modifies `published, (if msg.roomID in rooms then rooms[msg.roomID] else {})`queue
      ensures msg.roomID in rooms ==>
                forall c :: c in rooms[msg.roomID] ==> c.queue == Offered(old(c.queue), msg)
      ensures msg.roomID in rooms ==>
                rooms[msg.roomID] != {} && forall c :: c in rooms[msg.roomID] ==> c.roomID == msg.roomID
      ensures published == if publish then old(published) + [msg] else old(published)
    {
      var found, clients := Find(msg.roomID);
      if found {
        var rest := clients;
        while rest != {}
          modifies clients`queue
          invariant rest <= clients
          invariant forall c :: c in clients ==>
                      c.queue == if c in rest then old(c.queue) else Offered(old(c.queue), msg)
          decreases |rest|
        {
          var c :| c in rest;
          if |c.queue| < QUEUE_CAPACITY {
            c.queue := c.queue + [msg];
          }
          rest := rest - {c};
        }
      }
      if publish {
        published := published + [msg];
      }
    }

    /** One turn of a forwarder: what comes from the broker is delivered, and never published again. */
    method ForwardFromBroker(msg: ServerMessage)
      requires Valid()
      requires msg.roomID in rooms ==> forall c :: c in rooms[msg.roomID] ==> !c.closed
      modifies `published, (if msg.roomID in rooms then rooms[msg.roomID] else {})`queue
      ensures msg.roomID in rooms ==>
                forall c :: c in rooms[msg.roomID] ==> c.queue == Offered(old(c.queue), msg)
      ensures msg.roomID in rooms ==>
                rooms[msg.roomID] != {} && forall c :: c in rooms[msg.roomID] ==> c.roomID == msg.roomID
      ensures published == old(published)
    {
      Broadcast(msg, false);
    }
  }

  // ---------------------------------------------------------------- about the flat hub

  /** Operations on one room leave every other room as it was, whichever shard it shares. */
  lemma OtherRoomsUntouched<T>(rooms: Rooms<T>, roomID: Str, c: T, other: Str)
    requires other != roomID
    ensures other in Registered(rooms, roomID, c) <==> other in rooms
    ensures other in Unregistered(rooms, roomID, c) <==> other in rooms
    ensures other in rooms ==> Registered(rooms, roomID, c)[other] == rooms[other]
    ensures other in rooms ==> Unregistered(rooms, roomID, c)[other] == rooms[other]
  {
  }

  /** Leaving undoes joining, for a client that was not there and a hub without empty rooms. */
  lemma UnregisterUndoesRegister<T>(rooms: Rooms<T>, roomID: Str, c: T)
    requires roomID in rooms ==> c !in rooms[roomID] && rooms[roomID] != {}
    ensures Unregistered(Registered(rooms, roomID, c), roomID, c) == rooms
  {
    if roomID in rooms {
      assert rooms[roomID] + {c} - {c} == rooms[roomID];
    } else {
      assert {} + {c} - {c} == {};
    }
  }
}
