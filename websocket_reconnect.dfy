/** Development-mode content socket: its URL, the handlers of its events, and
    the bounded reconnection counter with a single retry timer. Reloading the
    page and fetching a URL are returned as actions. */
module WebSocketReconnect {
  import opened Values
  import opened Numerals

  const MAX_RECONNECT_ATTEMPTS: nat := 5
  /** From this many attempts on, the retry timer reloads instead of fetching. */
  const RELOAD_THRESHOLD: nat := 3

  /** What a handler asks the page to do. */
  datatype Action = NoAction | Reload | Fetch(url: string)

  /** `"/api/_content/cache?_=" + Date.now()`: the fixed path and query
      name, then the time in decimal, which can be read back. */
  function CacheProbeUrl(now: nat): (u: string)
    ensures StartsWith(u, "/api/_content/cache?_=")
    ensures FromDigits(u[|"/api/_content/cache?_="|..], 10) == now
  {
    DigitsRoundTrip(now, 10);
    "/api/_content/cache?_=" + ToStringBase(now, 10)
  }

  /** `${protocol}//${hostname}:4000`, the scheme `wss:` exactly for pages
      served over `https:`. */
  function SocketUrl(pageProtocol: string, hostname: string): (u: string)
    ensures pageProtocol == "https:" ==> StartsWith(u, "wss://")
    ensures pageProtocol != "https:" ==> StartsWith(u, "ws://")
    ensures |u| >= |hostname| + 5 && u[|u| - 5..] == ":4000"
    ensures u[|u| - 5 - |hostname|..|u| - 5] == hostname
  {
    (if pageProtocol == "https:" then "wss:" else "ws:") + "//" + hostname + ":4000"
  }

  /** The socket URL is secure exactly for `https:` pages, and tells
      hostnames apart. */
  lemma SocketUrlInjective(p1: string, h1: string, p2: string, h2: string)
    ensures StartsWith(SocketUrl(p1, h1), "wss:") <==> p1 == "https:"
    ensures SocketUrl(p1, h1) == SocketUrl(p2, h2) ==>
              h1 == h2 && (p1 == "https:" <==> p2 == "https:")
  {
    var u1, u2 := SocketUrl(p1, h1), SocketUrl(p2, h2);
    assert u1[2] == (if p1 == "https:" then 's' else ':');
    assert u2[2] == (if p2 == "https:" then 's' else ':');
    if u1 == u2 {
      var n := if p1 == "https:" then 6 else 5;
      assert h1 + ":4000" == u1[n..];
      assert h2 + ":4000" == u2[n..];
      assert h1 == (h1 + ":4000")[..|h1|];
      assert h2 == (h2 + ":4000")[..|h2|];
    }
  }

  /** Reading a property of a parsed value: it throws, is `undefined`, or
      gives a value. */
  datatype Property = Thrown | Undefined | Defined(value: Json)

  /** `data.type` in JavaScript: reading a property of `null` throws; a
      boolean, number, string or array has no own `type` (their prototypes
      have none either), so it is `undefined`; an object gives its field, or
      `undefined` when it has none. */
  function TypeField(data: Json): Property
  {
    match data
    case Null => Thrown
    case Bool(_) => Undefined
    case Number(_) => Undefined
    case Str(_) => Undefined
    case Arr(_) => Undefined
    case Obj(fields) => if "type" in fields then Defined(fields["type"]) else Undefined
  }

  /** `onmessage`: parse the data (`None` when `JSON.parse` throws), read
      `.type` and compare it with `"content:update"` by `===`; anything that
      throws is caught and ignored. */
  function OnMessage(message: Option<Json>): (reload: bool)
    ensures message.None? ==> !reload
    ensures message.Some? && !message.value.Obj? ==> !reload
    ensures reload <==> message.Some? && message.value.Obj?
                        && "type" in message.value.fields
                        && message.value.fields["type"] == Str("content:update")
  {
    match message
    case None => false
    case Some(data) =>
      match TypeField(data)
      case Thrown => false
      case Undefined => false
      case Defined(t) => t == Str("content:update")
  }

  /** Only the `type` field matters: other fields, and a `type` of another
      kind or text, do not. */
  lemma UpdateMessageReloads(fields: map<string, Json>, t: Json)
    ensures OnMessage(Some(Obj(fields["type" := Str("content:update")])))
    ensures t != Str("content:update") ==> !OnMessage(Some(Obj(fields["type" := t])))
    ensures !OnMessage(Some(Obj(fields - {"type"})))
  {
  }

  /** The closure state `reconnectAttempts`, `isConnected` and
      `reconnectTimer`, with the browser's view of which timers are still
      pending. The source never clears `reconnectTimer` after its timer fires,
      so the id it holds may be of a timer that is no longer pending. */
  class Reconnector {
    var reconnectAttempts: nat
    var isConnected: bool
    var reconnectTimer: Option<nat>
    var pendingTimers: set<nat>
    var nextTimerId: nat

    /** At most five attempts, and no pending timer but the one held. */
    ghost predicate Valid()
      reads this
    {
      && reconnectAttempts <= MAX_RECONNECT_ATTEMPTS
      && pendingTimers <= HeldTimer()
      && (reconnectTimer.Some? ==> reconnectTimer.value < nextTimerId)
    }

    ghost function HeldTimer(): set<nat>
      reads this
    {
      if reconnectTimer.Some? then {reconnectTimer.value} else {}
    }

    constructor ()
      ensures Valid()
      ensures reconnectAttempts == 0 && !isConnected
      ensures reconnectTimer == None && pendingTimers == {}
    {
      reconnectAttempts := 0;
      isConnected := false;
      reconnectTimer := None;
      pendingTimers := {};
      nextTimerId := 1;
    }

    /** `handleWebSocketReconnect`: clear the held timer; at the limit reload
        the page; otherwise count one more attempt and set a new timer. */
    method Reconnect() returns (reload: bool)
      requires Valid()
      modifies this`reconnectAttempts, this`reconnectTimer, this`pendingTimers, this`nextTimerId
      ensures Valid()
      ensures reload <==> old(reconnectAttempts) >= MAX_RECONNECT_ATTEMPTS
      ensures reload ==> reconnectAttempts == old(reconnectAttempts)
                         && pendingTimers == {} && reconnectTimer == old(reconnectTimer)
      ensures !reload ==> reconnectAttempts == old(reconnectAttempts) + 1
                          && reconnectTimer == Some(old(nextTimerId))
                          && pendingTimers == {old(nextTimerId)}
    {
      if reconnectTimer.Some? {
        pendingTimers := pendingTimers - {reconnectTimer.value};
      }
      if reconnectAttempts >= MAX_RECONNECT_ATTEMPTS {
        return true;
      }
      reconnectAttempts := reconnectAttempts + 1;
      reconnectTimer := Some(nextTimerId);
      pendingTimers := {nextTimerId};
      nextTimerId := nextTimerId + 1;
      reload := false;
    }

    /** `onopen`: connected, and the attempts start over. */
    method OnOpen()
      requires Valid()
      modifies this`isConnected, this`reconnectAttempts
      ensures Valid()
      ensures isConnected && reconnectAttempts == 0
    {
      isConnected := true;
      reconnectAttempts := 0;
    }

    /** `onclose`: always disconnected, always a reconnect. */
    method OnClose() returns (reload: bool)
      requires Valid()
      modifies this
      ensures Valid()
      ensures !isConnected
      ensures reload <==> old(reconnectAttempts) >= MAX_RECONNECT_ATTEMPTS
      ensures !reload ==> reconnectAttempts == old(reconnectAttempts) + 1
                          && reconnectTimer == Some(old(nextTimerId))
                          && pendingTimers == {old(nextTimerId)}
      ensures reload ==> reconnectAttempts == old(reconnectAttempts) && pendingTimers == {}
    {
      isConnected := false;
      reload := Reconnect();
    }

    /** `onerror`: a reconnect only while connected; an error while
        disconnected changes nothing. */
    method OnError() returns (reload: bool)
      requires Valid()
      modifies this
      ensures Valid()
      ensures !old(isConnected) ==> !reload && unchanged(this)
      ensures old(isConnected) ==> !isConnected
                                   && (reload <==> old(reconnectAttempts) >= MAX_RECONNECT_ATTEMPTS)
      ensures old(isConnected) && !reload ==> reconnectAttempts == old(reconnectAttempts) + 1
                                              && reconnectTimer == Some(old(nextTimerId))
                                              && pendingTimers == {old(nextTimerId)}
      ensures old(isConnected) && reload ==> reconnectAttempts == old(reconnectAttempts)
                                             && pendingTimers == {}
    {
      reload := false;
      if isConnected {
        isConnected := false;
        reload := Reconnect();
      }
    }

    /** The retry timer fires (only a pending one can): reload from the third
        attempt on, otherwise probe the content endpoint, reading the counter
        as it is at firing time. */
    method OnTimer(id: nat, now: nat) returns (a: Action)
      requires Valid() && id in pendingTimers
      modifies this`pendingTimers
      ensures Valid()
      ensures pendingTimers == old(pendingTimers) - {id}
      ensures reconnectAttempts >= RELOAD_THRESHOLD ==> a == Reload
      ensures reconnectAttempts < RELOAD_THRESHOLD ==> a == Fetch(CacheProbeUrl(now))
    {
      pendingTimers := pendingTimers - {id};
      if reconnectAttempts >= RELOAD_THRESHOLD {
        a := Reload;
      } else {
        a := Fetch(CacheProbeUrl(now));
      }
    }

    /** `beforeunload`: the held timer is cleared. */
    method Unload()
      requires Valid()
      modifies this`pendingTimers
      ensures Valid()
      ensures pendingTimers == {}
    {
      if reconnectTimer.Some? {
        pendingTimers := pendingTimers - {reconnectTimer.value};
      }
    }
  }

  /** The plugin makes one socket per page load, and a browser socket fires
      `open` at most once, then possibly `error`, then at most one `close`.
      Whatever of these happen, no handler reloads and the counter stays
      below the threshold at which a retry timer would reload; retry timers
      leave the counter alone. */
  method SingleSocket(didOpen: bool, didError: bool, didClose: bool) returns (reloads: bool, attempts: nat)
    ensures !reloads
    ensures attempts == (if didOpen && didError then 1 else 0) + (if didClose then 1 else 0)
    ensures attempts < RELOAD_THRESHOLD
  {
    var r := new Reconnector();
    reloads := false;
    if didOpen {
      r.OnOpen();
    }
    if didError {
      var e := r.OnError();
      reloads := reloads || e;
    }
    if didClose {
      var c := r.OnClose();
      reloads := reloads || c;
    }
    attempts := r.reconnectAttempts;
  }

  /** A connection that opens, fails, and closes: the error and the close
      each count one attempt and replace the timer, and both retries probe
      the content endpoint. */
  method OpenErrorClose(now: nat) returns (afterError: Action, afterClose: Action, attempts: nat)
    ensures afterError == Fetch(CacheProbeUrl(now))
    ensures afterClose == Fetch(CacheProbeUrl(now))
    ensures attempts == 2
  {
    var r := new Reconnector();
    r.OnOpen();
    var e := r.OnError();
    afterError := r.OnTimer(r.reconnectTimer.value, now);
    var c := r.OnClose();
    afterClose := r.OnTimer(r.reconnectTimer.value, now);
    attempts := r.reconnectAttempts;
  }
}
