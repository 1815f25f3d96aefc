/** The connection structure as the code updates it: scalar fields and a circular TX queue.
    Each method does to it what IpcSpec says. */
module IpcConn {
  import opened Common
  import opened IpcSpec
  import RingQueue

  /** The pump will end in whole when it has sent out and stands at c. */
  ghost predicate Pending(whole: (Conn, seq<Wire>), out: seq<Wire>, c: Conn, env: nat -> Answer, i: nat) {
    whole.0 == Pump(c, env, i).0 && whole.1 == out + Pump(c, env, i).1
  }

  lemma PumpTurn(whole: (Conn, seq<Wire>), out: seq<Wire>, c: Conn, env: nat -> Answer, i: nat)
    requires Pending(whole, out, c, env, i)
    ensures c.queue == [] ==> whole == (c, out)
    ensures c.queue != [] && Goes(c.shm, c.queue[0], env(i)) ==>
              Pending(whole, out + WireOf(c.shm, c.queue[0], env(i)), c.(queue := c.queue[1..]), env, i + 1)
    ensures c.queue != [] && !Goes(c.shm, c.queue[0], env(i)) ==>
              whole == (if env(i).send == Full then c else MarkDisconnected(c), out)
  {
    assert out + [] == out;
  }

  class Connection {
    const tx: RingQueue.Queue<Msg>
    var fd: int
    var isConnected: bool
    var state: LinkState
    var nextRetry: nat
    var retryDelay: nat
    var connectFailCount: nat
    var generation: nat
    var shm: bool

    ghost predicate Valid()
      reads this, tx, tx.slots
    {
      && tx.Valid() && tx.slots.Length == RingQueue.TX_QUEUE_SIZE
      && fd >= -1 && (isConnected <==> state == Connected)
    }

    ghost function Abs(): (c: Conn)
      requires Valid()
      reads this, tx, tx.slots
    {
      Conn(state, fd >= 0, generation, retryDelay, nextRetry, connectFailCount, shm, tx.Contents())
    }

    /** get_or_create_conn. */
    constructor Active()
      ensures Valid() && Abs() == NewConn && fresh(tx) && fresh(tx.slots)
    {
      tx := new RingQueue.Queue(RingQueue.TX_QUEUE_SIZE);
      fd, isConnected, state := -1, false, Disconnected;
      nextRetry, retryDelay, connectFailCount := 0, RETRY_INITIAL_MS, 0;
      generation, shm := 1, false;
    }

    /** create_passive_conn. */
    constructor Passive(client: nat)
      ensures Valid() && Abs() == PassiveConn && fresh(tx) && fresh(tx.slots)
    {
      tx := new RingQueue.Queue(RingQueue.TX_QUEUE_SIZE);
      fd, isConnected, state := client, true, Connected;
      nextRetry, retryDelay, connectFailCount := 0, RETRY_INITIAL_MS, 0;
      generation, shm := 1, false;
    }

    /** nos_ipc_mark_disconnected. */
    method Disconnect()
      requires Valid()
      modifies this
      ensures Valid() && Abs() == MarkDisconnected(old(Abs()))
    {
      shm := false;
      fd := -1;
      isConnected := false;
      state := Disconnected;
      generation := (generation + 1) % TWO_32;
    }

    /** nos_ipc_mark_connect_failed. */
    method ConnectFailed(end: nat)
      requires Valid()
      modifies this
      ensures Valid() && Abs() == MarkConnectFailed(old(Abs()), end)
    {
      var delay := if retryDelay != 0 then retryDelay else RETRY_INITIAL_MS;
      connectFailCount := (connectFailCount + 1) % TWO_32;
      retryDelay := if delay >= RETRY_MAX_MS / 2 then RETRY_MAX_MS else delay * 2;
      nextRetry := end + delay;
      state := Backoff;
      isConnected := false;
    }

    /** nos_ipc_try_connect_locked; sock is the socket it gets when it succeeds. */
    method Connect(t: Try, sock: nat) returns (out: seq<Wire>)
      requires Valid()
      modifies this
      ensures Valid() && (Abs(), out) == TryConnect(old(Abs()), t)
    {
      out := [];
      if state == Backoff && t.start < nextRetry { return; }
      state, isConnected := Connecting, false;
      if !t.ok {
        ConnectFailed(t.end);
        return;
      }
      fd := sock;
      isConnected := true;
      state := Connected;
      generation := (generation + 1) % TWO_32;
      retryDelay, nextRetry, connectFailCount := RETRY_INITIAL_MS, 0, 0;
      if !shm {
        shm := t.ring;
        if shm { out := [if t.offered then Setup else SetupLost]; }
      }
    }

    /** The locked part of nos_ipc_send_enqueue. */
    method Enqueue(m: Msg, t: Try, sock: nat) returns (s: Status, out: seq<Wire>)
      requires Valid()
      modifies this, tx, tx.slots
      ensures Valid() && (s, Abs(), out) == IpcSpec.Enqueue(old(Abs()), m, t)
    {
      out := [];
      s := tx.Push(m);
      if s != Ok { return; }
      if fd < 0 || state != Connected {
        out := Connect(t, sock);
      }
    }

    /** The locked part of nos_ipc_send_reply. */
    method Reply(stamp: nat, m: Msg) returns (s: Status)
      requires Valid()
      modifies tx, tx.slots
      ensures Valid() && (s, Abs()) == SendReply(old(Abs()), stamp, m)
    {
      if state != Connected || fd < 0 || generation != stamp { return Err; }
      s := tx.Push(m);
    }

    /** One turn of nos_ipc_process_tx: the front message goes by ring or socket, waits
        for room in the socket, or meets a broken link. */
    method SendFront(a: Answer) returns (out: seq<Wire>, more: bool)
      requires Valid() && Linked(Abs()) && Abs().queue != []
      modifies this, tx
      ensures Valid() && more == Goes(old(Abs()).shm, old(Abs()).queue[0], a)
      ensures more ==>
                Abs() == old(Abs()).(queue := old(Abs()).queue[1..]) && out == WireOf(shm, old(Abs()).queue[0], a)
      ensures !more ==>
                out == [] && Abs() == if a.send == Full then old(Abs()) else MarkDisconnected(old(Abs()))
    {
      var m := tx.Peek();
      if !m.ctrl && shm && m.len <= SHM_SLOT_SIZE && a.ring {
        var _ := tx.Pop();
        return [Ring(m), if a.notice then Notify else NotifyLost], true;
      }
      if a.send == Sent {
        var _ := tx.Pop();
        return [Socket(m)], true;
      }
      if a.send != Full { Disconnect(); }
      return [], false;
    }

    /** nos_ipc_process_tx: the loop ends because each turn takes one message out. */
    method Process(env: nat -> Answer) returns (out: seq<Wire>)
      requires Valid()
      modifies this, tx
      ensures Valid() && (Abs(), out) == ProcessTx(old(Abs()), env)
    {
      out := [];
      if state != Connected || fd < 0 { return; }
      ghost var whole := Pump(Abs(), env, 0);
      assert Pending(whole, out, Abs(), env, 0);
      hide Pending, Pump, WireOf, Goes, MarkDisconnected;
      var i: nat := 0;
      while true
        invariant Valid() && Linked(Abs()) && Pending(whole, out, Abs(), env, i)
        decreases |Abs().queue|
      {
        PumpTurn(whole, out, Abs(), env, i);
        var empty := tx.IsEmpty();
        if empty { return; }
        var w, more := SendFront(env(i));
        if !more { return; }
        out := out + w;
        i := i + 1;
      }
    }

    /** SHM_SETUP as ipc_handle_ctrl_msg takes it. */
    method AttachRing(opened_: bool)
      requires Valid()
      modifies this
      ensures Valid() && Abs() == Attach(old(Abs()), opened_)
    {
      if !shm { shm := opened_; }
    }
  }
}
