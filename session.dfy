/** The server's session bookkeeping in index.js: the three module-level
    variables `currentQR`, `isAuthenticated` and `isReady`, and how every
    adapter event, observer request and manual state poll changes them and
    what it emits. `Step` is the specification that the handler methods of
    `Server.SessionServer` are proved against. */
module Session {
  import opened JsValues

  /** The value of the three module-level variables. */
  datatype Flags = Flags(currentQR: Option<string>, isAuthenticated: bool, isReady: bool)

  /** Their values when the process starts. */
  const Initial := Flags(None, false, false)

  /** The state string that a manual poll treats as "connected". */
  const Connected := "CONNECTED"

  /** The reason broadcast when a failed logout forces the reset. */
  const ForcedLogout := "forced_logout"

  /** What the adapter's `getState()` did: resolved with a state string, or
      rejected with an error whose message is kept. */
  datatype Poll = State(value: string) | PollFailed(message: string)

  /** What the adapter's `logout()` did; when it was rejected, whether the
      awaited `destroy()` of the fallback then resolved. */
  datatype LogoutResult = LoggedOut | LogoutFailed(message: string, destroyResolved: bool)

  /** Messages the server sends to observers over the realtime channel. */
  datatype ServerEvent =
    | QrCode(url: string)
    | Ready
    | Authenticated
    | AuthFailure(message: string)
    | Loading(percent: JsValue, text: JsValue)
    | Disconnected(reason: string)
    | StatusUpdate(status: string)

  /** An observable effect of a handler: a message to every observer, a
      message to the one observer that asked, arming the 30-second
      "stuck at 100%" timer, destroying the adapter, or creating and
      initialising a new one. */
  datatype Effect =
    | Broadcast(event: ServerEvent)
    | Reply(event: ServerEvent)
    | ArmStuckTimer
    | DestroyClient
    | CreateClient

  /** Everything that runs one of the handlers. An `image` is what the QR
      encoder produced for the challenge (None when it reported an error);
      a `poll` is what `getState()` did if the handler calls it. */
  datatype Event =
    | QrReceived(qr: string, image: Option<string>)
    | ClientReady
    | ClientAuthenticated
    | ClientAuthFailure(message: string)
    | LoadingScreen(percent: JsValue, text: JsValue)
    | StuckTimerFired(poll: Poll)
    | ClientDisconnected(reason: string)
    | ObserverConnected(poll: Poll, image: Option<string>)
    | LogoutRequested(result: LogoutResult)
    | CheckStateRequested(poll: Poll)

  datatype Outcome = Outcome(next: Flags, effects: seq<Effect>)

  /** The session invariant the handlers are meant to keep: the client is
      never ready without being authenticated. */
  predicate Coherent(f: Flags)
  {
    f.isReady ==> f.isAuthenticated
  }

  /** True for the three handlers that call `getState()`. */
  predicate IsPoll(e: Event)
  {
    e.StuckTimerFired? || e.ObserverConnected? || e.CheckStateRequested?
  }

  /** Whether the `loading_screen` handler arms the stuck-at-100% timer:
      its test accepts the number 100 and the string "100". */
  predicate ArmsStuckTimer(percent: JsValue)
  {
    percent == Num(100) || percent == Str("100")
  }

  /** Applying a poll result the way the timer and the on-connect check do:
      only a "CONNECTED" state changes anything. */
  function ForceReadyIfConnected(f: Flags, p: Poll): Outcome
  {
    if p == State(Connected) then
      Outcome(f.(isReady := true, isAuthenticated := true), [Broadcast(Ready)])
    else
      Outcome(f, [])
  }

  /** JavaScript truthiness of `currentQR`: null and "" are both falsy. */
  predicate HasChallenge(f: Flags)
  {
    f.currentQR.Some? && f.currentQR.value != ""
  }

  /** The one synchronisation message a new observer gets, by priority. */
  function SyncReply(f: Flags, image: Option<string>): seq<Effect>
  {
    if f.isReady then [Reply(Ready)]
    else if f.isAuthenticated then [Reply(Authenticated)]
    else if HasChallenge(f) && image.Some? then [Reply(QrCode(image.value))]
    else []
  }

  /** One handler run: the new flags and the effects, in emission order. */
  function Step(s: Flags, e: Event): (r: Outcome)
    // the invariant survives every handler, and auth_failure only when the
    // client was not ready yet
    ensures Coherent(s) && (e.ClientAuthFailure? ==> !s.isReady) ==> Coherent(r.next)
    // a challenge is stored only by the qr handler
    ensures r.next.currentQR != s.currentQR ==> e.QrReceived? || r.next == Initial || e.ClientReady?
  {
    match e
    case QrReceived(qr, image) =>
      Outcome(Flags(Some(qr), false, false),
              if image.Some? then [Broadcast(QrCode(image.value))] else [])
    case ClientReady =>
      Outcome(Flags(None, true, true), [Broadcast(Ready)])
    case ClientAuthenticated =>
      Outcome(s.(isAuthenticated := true), [Broadcast(Authenticated)])
    case ClientAuthFailure(message) =>
      Outcome(s.(isAuthenticated := false), [Broadcast(AuthFailure(message))])
    case LoadingScreen(percent, text) =>
      Outcome(s, [Broadcast(Loading(percent, text))]
                 + (if ArmsStuckTimer(percent) then [ArmStuckTimer] else []))
    case StuckTimerFired(poll) =>
      if s.isReady then Outcome(s, []) else ForceReadyIfConnected(s, poll)
    case ClientDisconnected(reason) =>
      // `destroy()` is not awaited here, so the new adapter is created
      // whatever becomes of it
      Outcome(Initial, [Broadcast(Disconnected(reason)), DestroyClient, CreateClient])
    case ObserverConnected(poll, image) =>
      var polled := if s.isAuthenticated && !s.isReady then ForceReadyIfConnected(s, poll)
                    else Outcome(s, []);
      Outcome(polled.next, polled.effects + SyncReply(polled.next, image))
    case LogoutRequested(result) =>
      if result.LoggedOut? then Outcome(s, [])
      else
        // here `destroy()` is awaited: when it rejects, the handler stops
        // before creating the new adapter
        Outcome(Initial, [Broadcast(Disconnected(ForcedLogout)), DestroyClient]
                         + (if result.destroyResolved then [CreateClient] else []))
    case CheckStateRequested(poll) =>
      match poll
      case State(value) =>
        if value == Connected then
          Outcome(s.(isReady := true, isAuthenticated := true), [Broadcast(Ready)])
        else
          Outcome(s, [Reply(StatusUpdate("Client state: " + value))])
      case PollFailed(message) =>
        Outcome(s, [Reply(StatusUpdate("State check failed: " + message))])
  }

  /** The messages in `effects` that go to the requesting observer only. */
  function Replies(effects: seq<Effect>): (r: seq<ServerEvent>)
    ensures |r| <= |effects|
  {
    if effects == [] then []
    else (if effects[0].Reply? then [effects[0].event] else []) + Replies(effects[1..])
  }

  lemma {:induction false} RepliesConcat(a: seq<Effect>, b: seq<Effect>)
    ensures Replies(a + b) == Replies(a) + Replies(b)
  {
    if a == [] {
      assert a + b == b;
    } else {
      var head := if a[0].Reply? then [a[0].event] else [];
      assert (a + b)[0] == a[0] && (a + b)[1..] == a[1..] + b;
      RepliesConcat(a[1..], b);
      calc {
        Replies(a + b);
        head + Replies(a[1..] + b);
        head + (Replies(a[1..]) + Replies(b));
        (head + Replies(a[1..])) + Replies(b);
      }
    }
  }

  /** `auth_failure` is the one handler that can break the invariant: it
      clears `isAuthenticated` and leaves `isReady` alone. */
  lemma AuthFailureBreaksCoherence(s: Flags, message: string)
    requires s.isReady && s.isAuthenticated
    ensures Step(s, ClientAuthFailure(message)).next == s.(isAuthenticated := false)
    ensures Coherent(s) && !Coherent(Step(s, ClientAuthFailure(message)).next)
  {
  }

  /** The qr handler stores the new challenge and clears both flags whatever
      the state was, and broadcasts the image only when encoding succeeded. */
  lemma QrStartsNewChallenge(s: Flags, qr: string, image: Option<string>)
    ensures Step(s, QrReceived(qr, image)).next == Flags(Some(qr), false, false)
    ensures Step(s, QrReceived(qr, image)).effects != [] <==> image.Some?
  {
  }

  /** The ready handler drops the challenge, sets both flags, and is
      idempotent. */
  lemma ReadyIsIdempotent(s: Flags)
    ensures Step(s, ClientReady).next == Flags(None, true, true)
    ensures Step(Step(s, ClientReady).next, ClientReady) == Step(s, ClientReady)
  {
  }

  /** The disconnected handler and the failed-logout fallback reset the flags
      the same way, to the start-up values, and both tell the observers
      before they destroy the adapter. The disconnected handler always
      creates a new adapter; the fallback does so only when its awaited
      `destroy()` resolved. */
  lemma ResetPathsAgree(s: Flags, t: Flags, reason: string, message: string, destroyResolved: bool)
    ensures Step(s, ClientDisconnected(reason)).next == Initial
    ensures Step(t, LogoutRequested(LogoutFailed(message, destroyResolved))).next == Initial
    ensures Step(s, ClientDisconnected(reason)).effects[0] == Broadcast(Disconnected(reason))
    ensures Step(t, LogoutRequested(LogoutFailed(message, destroyResolved))).effects[0]
         == Broadcast(Disconnected(ForcedLogout))
    ensures Step(s, ClientDisconnected(reason)).effects[1..] == [DestroyClient, CreateClient]
    ensures Step(t, LogoutRequested(LogoutFailed(message, destroyResolved))).effects[1..]
         == if destroyResolved then [DestroyClient, CreateClient] else [DestroyClient]
    // a logout the adapter accepted changes nothing until `disconnected` fires
    ensures Step(t, LogoutRequested(LoggedOut)) == Outcome(t, [])
  {
  }

  /** The three manual polls change the flags only when the polled state is
      "CONNECTED", and then only by setting both flags; a failed poll changes
      nothing; and repeating a poll is idempotent. */
  lemma PollsForceReadyOnlyWhenConnected(s: Flags, e: Event)
    requires IsPoll(e)
    ensures var r := Step(s, e).next;
            r != s ==> e.poll == State(Connected)
                       && r == s.(isReady := true, isAuthenticated := true)
    ensures e.poll.PollFailed? ==> Step(s, e).next == s
    ensures e.poll == State(Connected) && Coherent(s) && (e.ObserverConnected? ==> s.isAuthenticated)
            ==> Step(s, e).next.isReady && Step(s, e).next.isAuthenticated
    ensures Step(Step(s, e).next, e).next == Step(s, e).next
  {
  }

  /** A new observer gets at most one synchronisation message, chosen by
      priority from the flags after the on-connect poll: ready, else
      authenticated, else the stored challenge's image, else nothing. */
  lemma {:induction false} ConnectSyncByPriority(s: Flags, poll: Poll, image: Option<string>)
    ensures var r := Step(s, ObserverConnected(poll, image));
            var replies := Replies(r.effects);
            && |replies| <= 1
            && (r.next.isReady <==> replies == [Ready])
            && (!r.next.isReady && r.next.isAuthenticated <==> replies == [Authenticated])
            && ((!r.next.isReady && !r.next.isAuthenticated && HasChallenge(r.next) && image.Some?)
                <==> (image.Some? && replies == [QrCode(image.value)]))
            && (replies == [] <==> !r.next.isAuthenticated && !r.next.isReady
                                   && !(HasChallenge(r.next) && image.Some?))
    // an observer that connects while the client is ready is told so at once
    ensures s.isReady ==> Step(s, ObserverConnected(poll, image)) == Outcome(s, [Reply(Ready)])
  {
    var polled := if s.isAuthenticated && !s.isReady then ForceReadyIfConnected(s, poll)
                  else Outcome(s, []);
    var sync := SyncReply(polled.next, image);
    assert Step(s, ObserverConnected(poll, image)) == Outcome(polled.next, polled.effects + sync);
    RepliesConcat(polled.effects, sync);
    assert Replies(polled.effects) == [] by {
      if polled.effects != [] {
        assert polled.effects == [Broadcast(Ready)];
        assert Replies(polled.effects) == [] + Replies([]);
      }
    }
    assert Replies(sync) == if sync == [] then [] else [sync[0].event] by {
      if sync != [] {
        assert Replies(sync) == [sync[0].event] + Replies(sync[1..]);
      }
    }
  }

  /** The only broadcast of a new connection is that of an on-connect poll
      that forced the ready state; the new observer then hears `ready` twice,
      once from the broadcast and once from its own reply. */
  lemma ConnectBroadcastsOnlyForcedReady(s: Flags, poll: Poll, image: Option<string>)
    ensures var r := Step(s, ObserverConnected(poll, image));
            var forced := s.isAuthenticated && !s.isReady && poll == State(Connected);
            && (forced ==> r.effects == [Broadcast(Ready), Reply(Ready)])
            && (!forced ==> forall f :: f in r.effects ==> f.Reply?)
  {
    var forced := s.isAuthenticated && !s.isReady && poll == State(Connected);
    if !forced {
      var r := Step(s, ObserverConnected(poll, image));
      assert r.effects == [] + SyncReply(s, image);
    }
  }

  /** The loading_screen handler never changes the flags; it relays the
      progress and arms the manual-check timer exactly when the percentage is
      100, as a number or as a string. */
  lemma LoadingOnlyArmsTimer(s: Flags, percent: JsValue, text: JsValue)
    ensures Step(s, LoadingScreen(percent, text)).next == s
    ensures ArmStuckTimer in Step(s, LoadingScreen(percent, text)).effects <==> ArmsStuckTimer(percent)
  {
  }
}
