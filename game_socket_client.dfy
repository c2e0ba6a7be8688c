/** The browser side of the game socket (`useGameSocket`): it connects only
    when signed in, never opens a second socket while one is open or opening,
    authenticates first thing on open, retries an unclean close with
    exponential back-off up to five times, and reports a send without an open
    socket. The browser WebSocket is modelled by its ready state and the
    messages sent on it; its events (open, message, close, error) and the
    firing of timers are methods the browser calls. */
module GameSocketClient {
  import opened Wrappers

  const MaxReconnectAttempts: nat := 5
  const BaseDelayMs: nat := 1000
  const MaxDelayMs: nat := 30000
  const NormalClosure: int := 1000
  const ReconnectDelayMs: nat := 1000

  /** `ws.current`: no socket, or one in a ready state. */
  datatype SocketState = NoSocket | Connecting | Open | Closed

  datatype Outgoing = AuthMessage(token: string) | EventMessage(kind: string, data: Option<string>)

  /** A parsed server message: its type and `data.message`, when present. */
  datatype GameEvent = GameEvent(kind: string, message: Option<string>)

  function Pow2(n: nat): (p: nat)
    ensures p >= 1
  {
    if n == 0 then 1 else 2 * Pow2(n - 1)
  }

  /** `Math.min(1000 * Math.pow(2, attempts), 30000)`. */
  function Backoff(attempts: nat): (d: nat)
    ensures BaseDelayMs <= d <= MaxDelayMs
  {
    var d := BaseDelayMs * Pow2(attempts);
    if d < MaxDelayMs then d else MaxDelayMs
  }

  /** The delays double from one second and, since at most five retries are
      made, the 30-second cap is never reached. */
  lemma {:induction false} BackoffDoubles(a: nat)
    ensures a < MaxReconnectAttempts ==> Backoff(a) == BaseDelayMs * Pow2(a) < MaxDelayMs
    ensures a + 1 < MaxReconnectAttempts ==> Backoff(a + 1) == 2 * Backoff(a)
    ensures a >= MaxReconnectAttempts ==> Backoff(a) == MaxDelayMs
  {
    if a >= MaxReconnectAttempts {
      PowMonotone(MaxReconnectAttempts, a);
    } else {
      PowMonotone(a, 4);
      assert Pow2(4) == 16;
    }
  }

  lemma {:induction false} PowMonotone(a: nat, b: nat)
    requires a <= b
    ensures Pow2(a) <= Pow2(b)
    decreases b
  {
    if a < b {
      PowMonotone(a, b - 1);
    }
  }

  /** The five retry delays in order. */
  lemma BackoffSchedule()
    ensures Backoff(0) == 1000 && Backoff(1) == 2000 && Backoff(2) == 4000
    ensures Backoff(3) == 8000 && Backoff(4) == 16000
  {
  }

  class GameSocket {
    /** What `useAuth` provides; an empty token is no token. */
    const authenticated: bool
    const token: string

    var socket: SocketState
    var isConnecting: bool
    var attempts: nat
    var isConnected: bool
    var lastMessage: Option<GameEvent>
    var connectionError: Option<string>
    /** The messages sent on the current socket, in order. */
    var sent: seq<Outgoing>
    var socketsCreated: nat
    /** The retry timer `reconnectTimeoutRef` holds, with its delay. */
    var retry: Option<nat>
    /** The one-second connect timers `reconnect` has started and not yet fired. */
    var delayedConnects: nat

    ghost predicate Valid()
      reads this
    {
      && (isConnected ==> socket == Open)
      && (socket != NoSocket ==> authenticated && token != "")
      && (socket == Connecting ==> sent == [])
      && (socket == Open ==> |sent| > 0 && sent[0] == AuthMessage(token))
      && attempts <= MaxReconnectAttempts
      && (retry.Some? ==> attempts < MaxReconnectAttempts && retry.value <= MaxDelayMs)
    }

    constructor (authenticated: bool, token: string)
      ensures Valid()
      ensures this.authenticated == authenticated && this.token == token
      ensures socket == NoSocket && !isConnecting && attempts == 0 && !isConnected
      ensures lastMessage == None && connectionError == None && sent == [] && socketsCreated == 0
      ensures retry == None && delayedConnects == 0
    {
      this.authenticated := authenticated;
      this.token := token;
      socket := NoSocket;
      isConnecting := false;
      attempts := 0;
      isConnected := false;
      lastMessage := None;
      connectionError := None;
      sent := [];
      socketsCreated := 0;
      retry := None;
      delayedConnects := 0;
    }

    /** `connect`: refuses without sign-in, does nothing while a socket is
        open or opening, and otherwise starts a new socket. */
    method Connect()
      requires Valid()
      modifies this
      ensures Valid()
      ensures !authenticated || token == "" ==>
        connectionError == Some("Authentication required") && socket == old(socket) && socketsCreated == old(socketsCreated)
      ensures authenticated && token != "" && (old(socket) == Open || old(isConnecting)) ==>
        socket == old(socket) && socketsCreated == old(socketsCreated) && connectionError == old(connectionError)
      ensures authenticated && token != "" && old(socket) != Open && !old(isConnecting) ==>
        socket == Connecting && isConnecting && sent == [] && socketsCreated == old(socketsCreated) + 1
        && connectionError == old(connectionError)
      ensures !(authenticated && token != "" && old(socket) != Open && !old(isConnecting)) ==>
        sent == old(sent) && isConnecting == old(isConnecting)
      ensures attempts == old(attempts) && isConnected == old(isConnected) && lastMessage == old(lastMessage)
      ensures retry == old(retry) && delayedConnects == old(delayedConnects)
    {
      if !authenticated || token == "" {
        connectionError := Some("Authentication required");
        return;
      }
      if socket == Open || isConnecting {
        return;
      }
      isConnecting := true;
      socket := Connecting;
      sent := [];
      socketsCreated := socketsCreated + 1;
    }

    /** `onopen`: connected, error cleared, attempts reset, and the token is
        the first message on the socket. */
    method OnOpen()
      requires Valid() && socket == Connecting
      modifies this
      ensures Valid()
      ensures socket == Open && isConnected && !isConnecting && attempts == 0 && connectionError == None
      ensures sent == [AuthMessage(token)]
      ensures lastMessage == old(lastMessage) && socketsCreated == old(socketsCreated)
      ensures retry == old(retry) && delayedConnects == old(delayedConnects)
    {
      assert sent == [] && token != "";
      socket := Open;
      isConnected := true;
      connectionError := None;
      attempts := 0;
      isConnecting := false;
      if token != "" && socket == Open {
        sent := sent + [AuthMessage(token)];
      }
      assert sent == [AuthMessage(token)];
    }

    /** `onmessage` on a parsed message: it becomes `lastMessage`, and an
        "error" message's text becomes the connection error. */
    method OnMessage(m: GameEvent)
      requires Valid()
      modifies this
      ensures Valid()
      ensures lastMessage == Some(m)
      ensures connectionError == if m.kind == "error" then m.message else old(connectionError)
      ensures socket == old(socket) && isConnecting == old(isConnecting) && attempts == old(attempts)
      ensures isConnected == old(isConnected) && sent == old(sent) && socketsCreated == old(socketsCreated)
      ensures retry == old(retry) && delayedConnects == old(delayedConnects)
    {
      lastMessage := Some(m);
      if m.kind == "error" {
        connectionError := m.message;
      }
    }

    /** The `onclose` handler, for whichever socket the event comes from. */
    method HandleClose(code: int)
      requires Valid()
      modifies this
      ensures Valid()
      ensures !isConnected && !isConnecting
      ensures code != NormalClosure && old(attempts) < MaxReconnectAttempts ==>
        retry == Some(Backoff(old(attempts))) && connectionError == old(connectionError)
      ensures !(code != NormalClosure && old(attempts) < MaxReconnectAttempts) ==> retry == old(retry)
      ensures old(attempts) >= MaxReconnectAttempts ==> connectionError == Some("Max reconnection attempts reached")
      ensures old(attempts) < MaxReconnectAttempts ==> connectionError == old(connectionError)
      ensures socket == old(socket) && attempts == old(attempts) && sent == old(sent) && lastMessage == old(lastMessage)
      ensures socketsCreated == old(socketsCreated) && delayedConnects == old(delayedConnects)
    {
      isConnected := false;
      isConnecting := false;
      if code != NormalClosure && attempts < MaxReconnectAttempts {
        retry := Some(Backoff(attempts));
      } else if attempts >= MaxReconnectAttempts {
        connectionError := Some("Max reconnection attempts reached");
      }
    }

    /** The close event of the current socket. */
    method OnClose(code: int)
      requires Valid() && (socket == Connecting || socket == Open)
      modifies this
      ensures Valid()
      ensures socket == Closed && !isConnected && !isConnecting
      ensures code != NormalClosure && old(attempts) < MaxReconnectAttempts ==>
        retry == Some(Backoff(old(attempts))) && connectionError == old(connectionError)
      ensures code == NormalClosure ==> retry == old(retry)
      ensures old(attempts) >= MaxReconnectAttempts ==>
        retry == old(retry) && connectionError == Some("Max reconnection attempts reached")
      ensures old(attempts) < MaxReconnectAttempts ==> connectionError == old(connectionError)
      ensures attempts == old(attempts) && sent == old(sent) && lastMessage == old(lastMessage)
      ensures socketsCreated == old(socketsCreated) && delayedConnects == old(delayedConnects)
    {
      HandleClose(code);
      socket := Closed;
    }

    /** `onerror`. */
    method OnError()
      requires Valid()
      modifies this
      ensures Valid()
      ensures connectionError == Some("Connection error") && !isConnected && !isConnecting
      ensures socket == old(socket) && attempts == old(attempts) && sent == old(sent) && lastMessage == old(lastMessage)
      ensures socketsCreated == old(socketsCreated) && retry == old(retry) && delayedConnects == old(delayedConnects)
    {
      connectionError := Some("Connection error");
      isConnected := false;
      isConnecting := false;
    }

    /** The retry timer fires: one more attempt is counted, then `connect`. */
    method FireRetry()
      requires Valid() && retry.Some?
      modifies this
      ensures Valid()
      ensures retry == None && attempts == old(attempts) + 1 <= MaxReconnectAttempts
      ensures delayedConnects == old(delayedConnects)
      ensures !authenticated || token == "" ==>
        connectionError == Some("Authentication required") && socket == old(socket) && socketsCreated == old(socketsCreated)
      ensures authenticated && token != "" ==> connectionError == old(connectionError)
      ensures authenticated && token != "" && old(socket) != Open && !old(isConnecting) ==>
        socket == Connecting && isConnecting && sent == [] && socketsCreated == old(socketsCreated) + 1
      ensures old(socket) == Open || old(isConnecting) ==> socket == old(socket) && socketsCreated == old(socketsCreated)
      ensures !(authenticated && token != "" && old(socket) != Open && !old(isConnecting)) ==>
        sent == old(sent) && isConnecting == old(isConnecting)
      ensures isConnected == old(isConnected) && lastMessage == old(lastMessage)
    {
      retry := None;
      attempts := attempts + 1;
      Connect();
    }

    /** `disconnect`: cancels the retry timer, closes the socket with code
        1000 and forgets it. Its close event arrives later, through
        `HandleClose`. */
    method Disconnect()
      requires Valid()
      modifies this
      ensures Valid()
      ensures retry == None && socket == NoSocket && !isConnected
      ensures isConnecting == old(isConnecting) && attempts == old(attempts) && connectionError == old(connectionError)
      ensures lastMessage == old(lastMessage) && socketsCreated == old(socketsCreated) && delayedConnects == old(delayedConnects)
    {
      retry := None;
      socket := NoSocket;
      isConnected := false;
    }

    /** `reconnect`: disconnects, forgets past attempts and the error, and
        connects again after one second. */
    method Reconnect()
      requires Valid()
      modifies this
      ensures Valid()
      ensures retry == None && socket == NoSocket && !isConnected && attempts == 0 && connectionError == None
      ensures delayedConnects == old(delayedConnects) + 1
      ensures isConnecting == old(isConnecting) && lastMessage == old(lastMessage) && socketsCreated == old(socketsCreated)
    {
      Disconnect();
      attempts := 0;
      connectionError := None;
      delayedConnects := delayedConnects + 1;
    }

    /** One of `reconnect`'s one-second timers fires. */
    method FireDelayedConnect()
      requires Valid() && delayedConnects > 0
      modifies this
      ensures Valid()
      ensures delayedConnects == old(delayedConnects) - 1 && attempts == old(attempts) && retry == old(retry)
      ensures !authenticated || token == "" ==>
        connectionError == Some("Authentication required") && socket == old(socket) && socketsCreated == old(socketsCreated)
      ensures authenticated && token != "" ==> connectionError == old(connectionError)
      ensures authenticated && token != "" && old(socket) != Open && !old(isConnecting) ==>
        socket == Connecting && isConnecting && sent == [] && socketsCreated == old(socketsCreated) + 1
      ensures old(socket) == Open || old(isConnecting) ==> socket == old(socket) && socketsCreated == old(socketsCreated)
      ensures !(authenticated && token != "" && old(socket) != Open && !old(isConnecting)) ==>
        sent == old(sent) && isConnecting == old(isConnecting)
      ensures isConnected == old(isConnected) && lastMessage == old(lastMessage)
    {
      delayedConnects := delayedConnects - 1;
      Connect();
    }

    /** `sendEvent`: sent only on an open socket, otherwise "Not connected". */
    method SendEvent(kind: string, data: Option<string>)
      requires Valid()
      modifies this
      ensures Valid()
      ensures old(socket) == Open ==> sent == old(sent) + [EventMessage(kind, data)] && connectionError == old(connectionError)
      ensures old(socket) != Open ==> sent == old(sent) && connectionError == Some("Not connected")
      ensures socket == old(socket) && isConnecting == old(isConnecting) && attempts == old(attempts)
      ensures isConnected == old(isConnected) && lastMessage == old(lastMessage) && socketsCreated == old(socketsCreated)
      ensures retry == old(retry) && delayedConnects == old(delayedConnects)
    {
      if socket == Open {
        sent := sent + [EventMessage(kind, data)];
      } else {
        connectionError := Some("Not connected");
      }
    }
  }

  /** From a fresh hook whose sockets all close uncleanly: the first socket
      and its five retries are created, and the sixth close schedules
      nothing more and reports the limit. */
  method RetriesRunOut(token: string) returns (s: GameSocket)
    requires token != ""
    ensures s.Valid() && s.retry == None && s.attempts == MaxReconnectAttempts
    ensures s.connectionError == Some("Max reconnection attempts reached")
    ensures s.socketsCreated == MaxReconnectAttempts + 1
  {
    s := new GameSocket(true, token);
    s.Connect();
    var i := 0;
    while i < MaxReconnectAttempts
      invariant 0 <= i <= MaxReconnectAttempts
      invariant s.Valid() && s.authenticated && s.token == token
      invariant s.socket == Connecting && s.isConnecting && s.attempts == i && s.retry == None
      invariant s.socketsCreated == i + 1
      modifies s
    {
      s.OnClose(1006);
      s.FireRetry();
      i := i + 1;
    }
    s.OnClose(1006);
  }
}
