/** The handlers of index.js as they run: the module-level variables are the
    fields of one `SessionServer` object and every handler assigns them in
    place. Each handler returns the effects it produces, in order, and is
    proved to do exactly what `Session.Step` says. */
module Server {
  import opened JsValues
  import opened Session

  class SessionServer {
    var currentQR: Option<string>
    var isAuthenticated: bool
    var isReady: bool

    /** The three fields as one value. */
    function Snapshot(): Flags
      reads this
    {
      Flags(currentQR, isAuthenticated, isReady)
    }

    /** The process starts with no challenge and neither flag set. */
    constructor ()
      ensures Snapshot() == Initial
    {
      currentQR := None;
      isAuthenticated := false;
      isReady := false;
    }

    /** `client.on('qr', …)`. */
    method OnQr(qr: string, image: Option<string>) returns (effects: seq<Effect>)
      modifies this
      ensures Outcome(Snapshot(), effects) == Step(old(Snapshot()), QrReceived(qr, image))
    {
      currentQR := Some(qr);
      isAuthenticated := false;
      isReady := false;
      effects := [];
      if image.Some? {
        effects := [Broadcast(QrCode(image.value))];
      }
    }

    /** `client.on('ready', …)`. */
    method OnReady() returns (effects: seq<Effect>)
      modifies this
      ensures Outcome(Snapshot(), effects) == Step(old(Snapshot()), ClientReady)
    {
      currentQR := None;
      isAuthenticated := true;
      isReady := true;
      effects := [Broadcast(Ready)];
    }

    /** `client.on('authenticated', …)`. */
    method OnAuthenticated() returns (effects: seq<Effect>)
      modifies this
      ensures Outcome(Snapshot(), effects) == Step(old(Snapshot()), ClientAuthenticated)
    {
      isAuthenticated := true;
      effects := [Broadcast(Authenticated)];
    }

    /** `client.on('auth_failure', …)`: note that `isReady` is left alone. */
    method OnAuthFailure(message: string) returns (effects: seq<Effect>)
      modifies this
      ensures Outcome(Snapshot(), effects) == Step(old(Snapshot()), ClientAuthFailure(message))
    {
      isAuthenticated := false;
      effects := [Broadcast(AuthFailure(message))];
    }

    /** `client.on('loading_screen', …)`: relays the progress, and arms the
        30-second timer when the percentage is 100. */
    method OnLoadingScreen(percent: JsValue, text: JsValue) returns (effects: seq<Effect>)
      modifies this
      ensures Outcome(Snapshot(), effects) == Step(old(Snapshot()), LoadingScreen(percent, text))
    {
      effects := [Broadcast(Loading(percent, text))];
      if percent == Num(100) || percent == Str("100") {
        effects := effects + [ArmStuckTimer];
      }
    }

    /** The body of that timer: a manual poll when the client is still not
        ready. */
    method OnStuckTimer(poll: Poll) returns (effects: seq<Effect>)
      modifies this
      ensures Outcome(Snapshot(), effects) == Step(old(Snapshot()), StuckTimerFired(poll))
    {
      effects := [];
      if !isReady {
        if poll == State(Connected) {
          isReady := true;
          isAuthenticated := true;
          effects := [Broadcast(Ready)];
        }
      }
    }

    /** `client.on('disconnected', …)`: reset, tell the observers, then
        destroy the adapter and create a new one. */
    method OnDisconnected(reason: string) returns (effects: seq<Effect>)
      modifies this
      ensures Outcome(Snapshot(), effects) == Step(old(Snapshot()), ClientDisconnected(reason))
    {
      isAuthenticated := false;
      isReady := false;
      currentQR := None;
      effects := [Broadcast(Disconnected(reason)), DestroyClient, CreateClient];
    }

    /** `io.on('connection', …)`: re-poll when authenticated but not ready,
        then send the new observer one synchronisation message. */
    method OnConnection(poll: Poll, image: Option<string>) returns (effects: seq<Effect>)
      modifies this
      ensures Outcome(Snapshot(), effects) == Step(old(Snapshot()), ObserverConnected(poll, image))
    {
      effects := [];
      if isAuthenticated && !isReady {
        if poll == State(Connected) {
          isReady := true;
          isAuthenticated := true;
          effects := [Broadcast(Ready)];
        }
      }
      if isReady {
        effects := effects + [Reply(Ready)];
      } else if isAuthenticated {
        effects := effects + [Reply(Authenticated)];
      } else if currentQR.Some? && currentQR.value != "" {
        if image.Some? {
          effects := effects + [Reply(QrCode(image.value))];
        }
      }
    }

    /** `socket.on('logout', …)`: a refused logout forces the reset itself,
        and creates the new adapter only once the old one is destroyed. */
    method OnLogout(result: LogoutResult) returns (effects: seq<Effect>)
      modifies this
      ensures Outcome(Snapshot(), effects) == Step(old(Snapshot()), LogoutRequested(result))
    {
      effects := [];
      if result.LogoutFailed? {
        isAuthenticated := false;
        isReady := false;
        currentQR := None;
        effects := [Broadcast(Disconnected(ForcedLogout)), DestroyClient];
        if result.destroyResolved {
          effects := effects + [CreateClient];
        }
      }
    }

    /** `socket.on('check_state', …)`: the observer's manual poll, which
        always answers. */
    method OnCheckState(poll: Poll) returns (effects: seq<Effect>)
      modifies this
      ensures Outcome(Snapshot(), effects) == Step(old(Snapshot()), CheckStateRequested(poll))
    {
      match poll
      case State(value) =>
        if value == Connected {
          isReady := true;
          isAuthenticated := true;
          effects := [Broadcast(Ready)];
        } else {
          effects := [Reply(StatusUpdate("Client state: " + value))];
        }
      case PollFailed(message) =>
        effects := [Reply(StatusUpdate("State check failed: " + message))];
    }
  }
}
